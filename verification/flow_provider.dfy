/**
 * The graph store of the flow editor: the node and edge lists, the id of
 * the selected node, and the operations that replace them. The selected
 * node itself is derived from the id and the current nodes on every read.
 */
module FlowProvider {
  import opened Base
  import opened FlowTypes

  /** A `Partial<FlowNodeData>`: each present field replaces the node's own. */
  datatype NodeDataPatch = NodeDataPatch(
    displayId: Option<string>,
    description: Option<string>,
    prompt: Option<string>,
    isStart: Option<bool>)

  /** `{ ...data, ...patch }` */
  function MergeData(data: NodeData, patch: NodeDataPatch): (r: NodeData)
    ensures r.displayId == if patch.displayId.Some? then patch.displayId.value else data.displayId
    ensures r.description == if patch.description.Some? then patch.description.value else data.description
    ensures r.prompt == if patch.prompt.Some? then patch.prompt.value else data.prompt
    ensures r.isStart == if patch.isStart.Some? then patch.isStart.value else data.isStart
  {
    NodeData(
      if patch.displayId.Some? then patch.displayId.value else data.displayId,
      if patch.description.Some? then patch.description.value else data.description,
      if patch.prompt.Some? then patch.prompt.value else data.prompt,
      if patch.isStart.Some? then patch.isStart.value else data.isStart)
  }

  /** `node.id === id ? { ...node, data: { ...node.data, ...patch } } : node` */
  function PatchNode(node: FlowNode, id: string, patch: NodeDataPatch): FlowNode
  {
    if node.id == id then node.(data := MergeData(node.data, patch)) else node
  }

  /** `nodes.map(node => PatchNode(node, id, patch))` */
  function PatchedNodes(nodes: seq<FlowNode>, id: string, patch: NodeDataPatch): seq<FlowNode>
  {
    seq(|nodes|, k requires 0 <= k < |nodes| => PatchNode(nodes[k], id, patch))
  }

  /** `nodes.filter(node => node.id !== id)` */
  function WithoutNode(nodes: seq<FlowNode>, id: string): seq<FlowNode>
  {
    Filter(nodes, (n: FlowNode) => n.id != id)
  }

  /** `edges.filter(edge => edge.source !== id && edge.target !== id)` */
  function WithoutIncident(edges: seq<FlowEdge>, id: string): seq<FlowEdge>
  {
    Filter(edges, (e: FlowEdge) => !Touches(e, id))
  }

  /** The number of edges with `id` as an endpoint. */
  function IncidentCount(edges: seq<FlowEdge>, id: string): nat
  {
    if edges == [] then 0 else (if Touches(edges[0], id) then 1 else 0) + IncidentCount(edges[1..], id)
  }

  /** `nodes.map(node => ({ ...node, data: { ...node.data, isStart: node.id === id } }))` */
  function MarkStart(nodes: seq<FlowNode>, id: string): seq<FlowNode>
  {
    seq(|nodes|, k requires 0 <= k < |nodes| => nodes[k].(data := nodes[k].data.(isStart := nodes[k].id == id)))
  }

  /** `nodes.find(n => n.id === id) ?? null` */
  function FindNode(nodes: seq<FlowNode>, id: string): Option<FlowNode>
  {
    if nodes == [] then None
    else if nodes[0].id == id then Some(nodes[0])
    else FindNode(nodes[1..], id)
  }

  /** The derived `selectedNode`: an empty or absent id selects nothing. */
  function SelectedIn(nodes: seq<FlowNode>, selectedNodeId: Option<string>): Option<FlowNode>
  {
    if selectedNodeId.None? || selectedNodeId.value == "" then None else FindNode(nodes, selectedNodeId.value)
  }

  /** The internal ids are pairwise distinct. */
  predicate UniqueIds(nodes: seq<FlowNode>)
  {
    forall a, b :: 0 <= a < b < |nodes| ==> nodes[a].id != nodes[b].id
  }

  // ---------------------------------------------------------------------
  // Properties of the replacements

  /**
   * A partial update keeps the order, count, ids, types and positions; nodes
   * with the id get the merged data, every other node is unchanged.
   */
  lemma PatchedNodesFacts(nodes: seq<FlowNode>, id: string, patch: NodeDataPatch)
    ensures |PatchedNodes(nodes, id, patch)| == |nodes|
    ensures forall k :: 0 <= k < |nodes| ==>
      var r := PatchedNodes(nodes, id, patch)[k];
      r.id == nodes[k].id && r.nodeType == nodes[k].nodeType && r.position == nodes[k].position &&
      r.data == (if nodes[k].id == id then MergeData(nodes[k].data, patch) else nodes[k].data)
    ensures forall k :: 0 <= k < |nodes| && nodes[k].id != id ==> PatchedNodes(nodes, id, patch)[k] == nodes[k]
  {
  }

  /** An empty patch changes nothing. */
  lemma EmptyPatch(nodes: seq<FlowNode>, id: string)
    ensures PatchedNodes(nodes, id, NodeDataPatch(None, None, None, None)) == nodes
  {
    var r := PatchedNodes(nodes, id, NodeDataPatch(None, None, None, None));
    forall k | 0 <= k < |nodes| ensures r[k] == nodes[k] {
      assert r[k].data == nodes[k].data;
    }
  }

  /** Deleting a node keeps every node with another id as many times as it occurred, and none with the id. */
  lemma WithoutNodeCount(nodes: seq<FlowNode>, id: string)
    ensures forall x :: multiset(WithoutNode(nodes, id))[x] == if x.id == id then 0 else multiset(nodes)[x]
  {
    forall x: FlowNode ensures multiset(WithoutNode(nodes, id))[x] == if x.id == id then 0 else multiset(nodes)[x] {
      FilterCount(nodes, (n: FlowNode) => n.id != id, x);
    }
  }

  /**
   * Deleting a node removes every node with that id and keeps the others in
   * order; the remaining ids are those of the graph minus `id`.
   */
  lemma {:induction false} WithoutNodeFacts(nodes: seq<FlowNode>, id: string)
    ensures forall k :: 0 <= k < |WithoutNode(nodes, id)| ==> WithoutNode(nodes, id)[k].id != id
    ensures IsSubsequence(WithoutNode(nodes, id), nodes)
    ensures NodeIds(WithoutNode(nodes, id)) == NodeIds(nodes) - {id}
  {
    var r := WithoutNode(nodes, id);
    forall x | x in NodeIds(nodes) - {id} ensures x in NodeIds(r) {
      var k :| 0 <= k < |nodes| && nodes[k].id == x;
      var j :| 0 <= j < |r| && r[j] == nodes[k];
    }
    forall x | x in NodeIds(r) ensures x in NodeIds(nodes) - {id} {
      var j :| 0 <= j < |r| && r[j].id == x;
      var k :| 0 <= k < |nodes| && nodes[k] == r[j];
    }
  }

  /**
   * Deleting a node removes exactly the edges incident to it: the others keep
   * their order and the count drops by the number of incident edges.
   */
  lemma {:induction false} WithoutIncidentFacts(edges: seq<FlowEdge>, id: string)
    ensures forall k :: 0 <= k < |WithoutIncident(edges, id)| ==> !Touches(WithoutIncident(edges, id)[k], id)
    ensures forall k :: 0 <= k < |edges| && !Touches(edges[k], id) ==> edges[k] in WithoutIncident(edges, id)
    ensures IsSubsequence(WithoutIncident(edges, id), edges)
    ensures |WithoutIncident(edges, id)| == |edges| - IncidentCount(edges, id)
  {
    if edges != [] {
      WithoutIncidentFacts(edges[1..], id);
    }
  }

  /** After a delete no edge dangles, provided none did before. */
  lemma DeleteKeepsEdgesClosed(nodes: seq<FlowNode>, edges: seq<FlowEdge>, id: string)
    requires EdgesClosed(nodes, edges)
    ensures EdgesClosed(WithoutNode(nodes, id), WithoutIncident(edges, id))
  {
    var rest := WithoutIncident(edges, id);
    WithoutNodeFacts(nodes, id);
    forall k | 0 <= k < |rest|
      ensures rest[k].source in NodeIds(WithoutNode(nodes, id)) && rest[k].target in NodeIds(WithoutNode(nodes, id))
    {
      var j :| 0 <= j < |edges| && edges[j] == rest[k];
    }
  }

  /** After `setStartNode(id)` a node is start exactly when its id is `id`; nothing else changes. */
  lemma MarkStartFacts(nodes: seq<FlowNode>, id: string)
    ensures |MarkStart(nodes, id)| == |nodes|
    ensures forall k :: 0 <= k < |nodes| ==>
      var r := MarkStart(nodes, id)[k];
      r.data.isStart == (nodes[k].id == id) &&
      r == nodes[k].(data := nodes[k].data.(isStart := r.data.isStart))
  {
  }

  /** With distinct ids, marking a node that exists leaves exactly one start node. */
  lemma MarkStartSingle(nodes: seq<FlowNode>, id: string, k: nat)
    requires UniqueIds(nodes) && k < |nodes| && nodes[k].id == id
    ensures MarkStart(nodes, id)[k].data.isStart
    ensures forall j :: 0 <= j < |nodes| && j != k ==> !MarkStart(nodes, id)[j].data.isStart
  {
  }

  /** Marking an id no node has leaves no start node at all. */
  lemma MarkStartUnknown(nodes: seq<FlowNode>, id: string)
    requires id !in NodeIds(nodes)
    ensures forall j :: 0 <= j < |nodes| ==> !MarkStart(nodes, id)[j].data.isStart
  {
    forall j | 0 <= j < |nodes| ensures nodes[j].id != id {
      assert nodes[j].id in NodeIds(nodes);
    }
  }

  /** `find` returns the first node with the id, or nothing when no node has it. */
  lemma {:induction false} FindNodeFacts(nodes: seq<FlowNode>, id: string)
    ensures FindNode(nodes, id).None? <==> id !in NodeIds(nodes)
    ensures FindNode(nodes, id).Some? ==>
      exists k :: 0 <= k < |nodes| && nodes[k] == FindNode(nodes, id).value && nodes[k].id == id &&
        forall j :: 0 <= j < k ==> nodes[j].id != id
  {
    if nodes != [] {
      FindNodeFacts(nodes[1..], id);
      assert NodeIds(nodes) == {nodes[0].id} + NodeIds(nodes[1..]) by {
        forall x | x in NodeIds(nodes) ensures x in {nodes[0].id} + NodeIds(nodes[1..]) {
          var k :| 0 <= k < |nodes| && nodes[k].id == x;
          if k > 0 {
            assert nodes[1..][k - 1].id == x;
          }
        }
        forall x | x in NodeIds(nodes[1..]) ensures x in NodeIds(nodes) {
          var k :| 0 <= k < |nodes| - 1 && nodes[1..][k].id == x;
          assert nodes[k + 1].id == x;
        }
      }
      if nodes[0].id != id && FindNode(nodes, id).Some? {
        var k :| 0 <= k < |nodes| - 1 && nodes[1..][k] == FindNode(nodes, id).value && nodes[1..][k].id == id &&
          forall j :: 0 <= j < k ==> nodes[1..][j].id != id;
        assert nodes[k + 1] == nodes[1..][k];
      }
    }
  }

  /**
   * The derived selection follows updates: after a partial update of the
   * selected node it is the updated node.
   */
  lemma {:induction false} FindAfterPatch(nodes: seq<FlowNode>, id: string, patch: NodeDataPatch)
    ensures FindNode(PatchedNodes(nodes, id, patch), id) ==
      if FindNode(nodes, id).Some? then Some(PatchNode(FindNode(nodes, id).value, id, patch)) else None
  {
    if nodes != [] {
      assert PatchedNodes(nodes, id, patch)[1..] == PatchedNodes(nodes[1..], id, patch);
      FindAfterPatch(nodes[1..], id, patch);
    }
  }

  /** The store: nodes, edges and the selected id. */
  class FlowStore {
    var nodes: seq<FlowNode>
    var edges: seq<FlowEdge>
    var selectedNodeId: Option<string>

    constructor()
      ensures nodes == [] && edges == [] && selectedNodeId == None
    {
      nodes := [];
      edges := [];
      selectedNodeId := None;
    }

    /** `selectedNode`, recomputed from the current id and nodes. */
    function SelectedNode(): Option<FlowNode>
      reads this
    {
      SelectedIn(nodes, selectedNodeId)
    }

    /** `addNode`: the node goes at the end; nothing else changes. */
    method AddNode(node: FlowNode)
      modifies this
      ensures nodes == old(nodes) + [node]
      ensures edges == old(edges) && selectedNodeId == old(selectedNodeId)
      ensures old(EdgesClosed(nodes, edges)) ==> EdgesClosed(nodes, edges)
    {
      nodes := nodes + [node];
      assert NodeIds(old(nodes)) <= NodeIds(nodes) by {
        forall x | x in NodeIds(old(nodes)) ensures x in NodeIds(nodes) {
          var k :| 0 <= k < |old(nodes)| && old(nodes)[k].id == x;
          assert nodes[k].id == x;
        }
      }
    }

    /** `updateNodeData`: merges the patch into the data of the nodes with the id. */
    method UpdateNodeData(id: string, patch: NodeDataPatch)
      modifies this
      ensures nodes == PatchedNodes(old(nodes), id, patch)
      ensures edges == old(edges) && selectedNodeId == old(selectedNodeId)
      ensures NodeIds(nodes) == NodeIds(old(nodes))
    {
      nodes := PatchedNodes(nodes, id, patch);
      assert forall k :: 0 <= k < |nodes| ==> nodes[k].id == old(nodes)[k].id;
      assert NodeIds(nodes) == NodeIds(old(nodes)) by {
        forall x | x in NodeIds(old(nodes)) ensures x in NodeIds(nodes) {
          var k :| 0 <= k < |old(nodes)| && old(nodes)[k].id == x;
          assert nodes[k].id == x;
        }
      }
    }

    /**
     * `deleteNode`: removes the node and its edges, and clears the
     * selection when the deleted id was selected.
     */
    method DeleteNode(id: string)
      modifies this
      ensures nodes == WithoutNode(old(nodes), id)
      ensures edges == WithoutIncident(old(edges), id)
      ensures selectedNodeId == if old(selectedNodeId) == Some(id) then None else old(selectedNodeId)
      ensures old(EdgesClosed(nodes, edges)) ==> EdgesClosed(nodes, edges)
    {
      if EdgesClosed(nodes, edges) {
        DeleteKeepsEdgesClosed(nodes, edges, id);
      }
      nodes := WithoutNode(nodes, id);
      edges := WithoutIncident(edges, id);
      if selectedNodeId == Some(id) {
        selectedNodeId := None;
      }
    }

    /** `selectNode`: only the selected id changes. */
    method SelectNode(id: Option<string>)
      modifies this
      ensures selectedNodeId == id
      ensures nodes == old(nodes) && edges == old(edges)
    {
      selectedNodeId := id;
    }

    /** `setStartNode`: the node with the id becomes start and every other node stops being start. */
    method SetStartNode(id: string)
      modifies this
      ensures nodes == MarkStart(old(nodes), id)
      ensures edges == old(edges) && selectedNodeId == old(selectedNodeId)
      ensures NodeIds(nodes) == NodeIds(old(nodes))
    {
      nodes := MarkStart(nodes, id);
      assert NodeIds(nodes) == NodeIds(old(nodes)) by {
        forall x | x in NodeIds(old(nodes)) ensures x in NodeIds(nodes) {
          var k :| 0 <= k < |old(nodes)| && old(nodes)[k].id == x;
          assert nodes[k].id == x;
        }
      }
    }
  }
}
