/**
 * The store of the legacy chatbot editor, the one the page mounts. Unlike
 * the flow store it keeps the selected node as a copy taken when the node
 * is selected, so later updates of that node do not reach the selection.
 */
module ChatbotFlowProvider {
  import opened Base
  import opened FlowTypes
  import opened ChatbotTypes
  import FlowProvider

  /** `node.id === id ? { ...node, data } : node` */
  function ReplaceData(node: ChatbotNode, id: string, data: ChatbotNodeData): ChatbotNode
  {
    if node.id == id then node.(data := data) else node
  }

  /** `nodes.map(node => ReplaceData(node, id, data))` */
  function ReplacedNodes(nodes: seq<ChatbotNode>, id: string, data: ChatbotNodeData): seq<ChatbotNode>
  {
    seq(|nodes|, k requires 0 <= k < |nodes| => ReplaceData(nodes[k], id, data))
  }

  /** `nodes.filter(node => node.id !== id)` */
  function RemoveNode(nodes: seq<ChatbotNode>, id: string): seq<ChatbotNode>
  {
    Filter(nodes, (n: ChatbotNode) => n.id != id)
  }

  /** `nodes.find(n => n.id === id)` */
  function FindNode(nodes: seq<ChatbotNode>, id: string): Option<ChatbotNode>
  {
    if nodes == [] then None
    else if nodes[0].id == id then Some(nodes[0])
    else FindNode(nodes[1..], id)
  }

  /**
   * `updateNode` puts the given data in place of the old data of every node
   * with the id, whatever kind either is; ids, kinds, positions, order and all
   * other nodes are unchanged.
   */
  lemma ReplacedNodesFacts(nodes: seq<ChatbotNode>, id: string, data: ChatbotNodeData)
    ensures |ReplacedNodes(nodes, id, data)| == |nodes|
    ensures forall k :: 0 <= k < |nodes| ==>
      var r := ReplacedNodes(nodes, id, data)[k];
      r.id == nodes[k].id && r.nodeType == nodes[k].nodeType && r.position == nodes[k].position &&
      r.data == (if nodes[k].id == id then data else nodes[k].data)
  {
  }

  /** Deleting keeps, in order, exactly the nodes with another id. */
  lemma RemoveNodeFacts(nodes: seq<ChatbotNode>, id: string)
    ensures forall k :: 0 <= k < |RemoveNode(nodes, id)| ==> RemoveNode(nodes, id)[k].id != id
    ensures forall k :: 0 <= k < |nodes| && nodes[k].id != id ==> nodes[k] in RemoveNode(nodes, id)
    ensures IsSubsequence(RemoveNode(nodes, id), nodes)
    ensures forall x :: multiset(RemoveNode(nodes, id))[x] == if x.id == id then 0 else multiset(nodes)[x]
  {
    forall x: ChatbotNode ensures multiset(RemoveNode(nodes, id))[x] == if x.id == id then 0 else multiset(nodes)[x] {
      FilterCount(nodes, (n: ChatbotNode) => n.id != id, x);
    }
  }

  /** `find` gives the first node with the id, or nothing when there is none. */
  lemma {:induction false} FindNodeFacts(nodes: seq<ChatbotNode>, id: string)
    ensures FindNode(nodes, id).None? <==> forall k :: 0 <= k < |nodes| ==> nodes[k].id != id
    ensures FindNode(nodes, id).Some? ==>
      exists k :: 0 <= k < |nodes| && nodes[k] == FindNode(nodes, id).value && nodes[k].id == id &&
        forall j :: 0 <= j < k ==> nodes[j].id != id
  {
    if nodes != [] {
      FindNodeFacts(nodes[1..], id);
      if nodes[0].id != id {
        if FindNode(nodes, id).Some? {
          var k :| 0 <= k < |nodes| - 1 && nodes[1..][k] == FindNode(nodes, id).value && nodes[1..][k].id == id &&
            forall j :: 0 <= j < k ==> nodes[1..][j].id != id;
          assert nodes[k + 1] == nodes[1..][k];
        } else {
          forall k | 0 <= k < |nodes| ensures nodes[k].id != id {
            if k > 0 {
              assert nodes[k] == nodes[1..][k - 1];
            }
          }
        }
      }
    }
  }

  /**
   * The snapshot goes stale: once the selected node's data is replaced by
   * different data, the current node with that id no longer equals the selection.
   */
  lemma {:induction false} SnapshotGoesStale(nodes: seq<ChatbotNode>, id: string, data: ChatbotNodeData)
    requires FindNode(nodes, id).Some? && FindNode(nodes, id).value.data != data
    ensures FindNode(ReplacedNodes(nodes, id, data), id).Some?
    ensures FindNode(ReplacedNodes(nodes, id, data), id).value == FindNode(nodes, id).value.(data := data)
    ensures FindNode(ReplacedNodes(nodes, id, data), id) != FindNode(nodes, id)
  {
    assert ReplacedNodes(nodes, id, data)[1..] == ReplacedNodes(nodes[1..], id, data);
    if nodes[0].id != id {
      SnapshotGoesStale(nodes[1..], id, data);
    }
  }

  /** The legacy store: nodes, edges and a snapshot of the selected node. */
  class ChatbotStore {
    var nodes: seq<ChatbotNode>
    var edges: seq<FlowEdge>
    var selectedNode: Option<ChatbotNode>

    constructor()
      ensures nodes == [] && edges == [] && selectedNode == None
    {
      nodes := [];
      edges := [];
      selectedNode := None;
    }

    /** `addNode`: the node goes at the end; nothing else changes. */
    method AddNode(node: ChatbotNode)
      modifies this
      ensures nodes == old(nodes) + [node]
      ensures edges == old(edges) && selectedNode == old(selectedNode)
    {
      nodes := nodes + [node];
    }

    /** `updateNode`: replaces the data of the nodes with the id; the snapshot is left as it was. */
    method UpdateNode(id: string, data: ChatbotNodeData)
      modifies this
      ensures nodes == ReplacedNodes(old(nodes), id, data)
      ensures edges == old(edges) && selectedNode == old(selectedNode)
    {
      nodes := ReplacedNodes(nodes, id, data);
    }

    /** `deleteNode`: removes the node and its edges; clears the snapshot only when it has that id. */
    method DeleteNode(id: string)
      modifies this
      ensures nodes == RemoveNode(old(nodes), id)
      ensures edges == FlowProvider.WithoutIncident(old(edges), id)
      ensures selectedNode == if old(selectedNode).Some? && old(selectedNode).value.id == id then None else old(selectedNode)
    {
      nodes := RemoveNode(nodes, id);
      edges := FlowProvider.WithoutIncident(edges, id);
      if selectedNode.Some? && selectedNode.value.id == id {
        selectedNode := None;
      }
    }

    /** `selectNode`: an absent or empty id clears the selection; otherwise it copies the first matching node. */
    method SelectNode(id: Option<string>)
      modifies this
      ensures selectedNode == if id.None? || id.value == "" then None else FindNode(nodes, id.value)
      ensures nodes == old(nodes) && edges == old(edges)
    {
      if id.None? || id.value == "" {
        selectedNode := None;
        return;
      }
      selectedNode := FindNode(nodes, id.value);
    }

    /** `deselectNode`: clears the selection and nothing else. */
    method DeselectNode()
      modifies this
      ensures selectedNode == None
      ensures nodes == old(nodes) && edges == old(edges)
    {
      selectedNode := None;
    }
  }
}
