/**
 * Connection helpers of the legacy chatbot editor. The edges are the same
 * canvas edges as in the flow editor, so the outgoing-edge test is
 * `FlowHelpers.HasSourceConnection`; the node helper is repeated here for
 * chatbot nodes.
 */
module ChatbotFlowHelpers {
  import opened Base
  import opened FlowTypes
  import opened ChatbotTypes
  import FlowHelpers

  /** `getNodesWithEmptyTargetHandles` over chatbot nodes. */
  function NodesWithEmptyTargetHandles(nodes: seq<ChatbotNode>, edges: seq<FlowEdge>): seq<ChatbotNode>
  {
    Filter(nodes, (n: ChatbotNode) => n.id !in FlowHelpers.TargetIds(edges))
  }

  /** `hasSourceConnection` of the legacy helpers, which is the same test on the same edges. */
  function HasSourceConnection(nodeId: string, edges: seq<FlowEdge>): (r: bool)
    ensures r <==> exists k :: 0 <= k < |edges| && edges[k].source == nodeId
  {
    FlowHelpers.HasSourceConnectionMeaning(nodeId, edges);
    FlowHelpers.HasSourceConnection(nodeId, edges)
  }

  /** The nodes no edge enters, in their original order. */
  lemma EmptyTargetHandlesFacts(nodes: seq<ChatbotNode>, edges: seq<FlowEdge>)
    ensures var r := NodesWithEmptyTargetHandles(nodes, edges);
      && IsSubsequence(r, nodes)
      && (forall k :: 0 <= k < |r| ==> forall j :: 0 <= j < |edges| ==> edges[j].target != r[k].id)
      && (forall k :: 0 <= k < |nodes| && (forall j :: 0 <= j < |edges| ==> edges[j].target != nodes[k].id) ==> nodes[k] in r)
      && (forall x :: multiset(r)[x] == if x.id in FlowHelpers.TargetIds(edges) then 0 else multiset(nodes)[x])
  {
    var r := NodesWithEmptyTargetHandles(nodes, edges);
    forall k, j | 0 <= k < |r| && 0 <= j < |edges| ensures edges[j].target != r[k].id {
      assert edges[j].target in FlowHelpers.TargetIds(edges);
    }
    forall x: ChatbotNode ensures multiset(r)[x] == if x.id in FlowHelpers.TargetIds(edges) then 0 else multiset(nodes)[x] {
      FilterCount(nodes, (n: ChatbotNode) => n.id !in FlowHelpers.TargetIds(edges), x);
    }
  }

  /** With no edges, every node is returned. */
  lemma NoEdgesAllEmpty(nodes: seq<ChatbotNode>)
    ensures NodesWithEmptyTargetHandles(nodes, []) == nodes
  {
    assert FlowHelpers.TargetIds([]) == {};
    FilterKeepsAll(nodes, (n: ChatbotNode) => n.id !in FlowHelpers.TargetIds([]));
  }
}
