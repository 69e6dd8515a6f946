/**
 * Connection helpers of the flow editor: the nodes no edge enters, and
 * whether a node already has an outgoing edge.
 */
module FlowHelpers {
  import opened Base
  import opened FlowTypes

  /** `new Set(edges.map(edge => edge.target))` */
  function TargetIds(edges: seq<FlowEdge>): set<string>
  {
    set k | 0 <= k < |edges| :: edges[k].target
  }

  /** `getNodesWithEmptyTargetHandles`: the nodes whose id is no edge's target, in order. */
  function NodesWithEmptyTargetHandles(nodes: seq<FlowNode>, edges: seq<FlowEdge>): seq<FlowNode>
  {
    Filter(nodes, (n: FlowNode) => n.id !in TargetIds(edges))
  }

  /** `hasSourceConnection`: `edges.some(edge => edge.source === nodeId)` */
  function HasSourceConnection(nodeId: string, edges: seq<FlowEdge>): bool
  {
    if edges == [] then false else edges[0].source == nodeId || HasSourceConnection(nodeId, edges[1..])
  }

  /**
   * The result holds exactly the input nodes that no edge enters, keeping
   * their order.
   */
  lemma EmptyTargetHandlesFacts(nodes: seq<FlowNode>, edges: seq<FlowEdge>)
    ensures var r := NodesWithEmptyTargetHandles(nodes, edges);
      && IsSubsequence(r, nodes)
      && (forall k :: 0 <= k < |r| ==> forall j :: 0 <= j < |edges| ==> edges[j].target != r[k].id)
      && (forall k :: 0 <= k < |nodes| && (forall j :: 0 <= j < |edges| ==> edges[j].target != nodes[k].id) ==> nodes[k] in r)
      && (forall x :: multiset(r)[x] == if x.id in TargetIds(edges) then 0 else multiset(nodes)[x])
  {
    var r := NodesWithEmptyTargetHandles(nodes, edges);
    forall k, j | 0 <= k < |r| && 0 <= j < |edges| ensures edges[j].target != r[k].id {
      assert edges[j].target in TargetIds(edges);
    }
    forall x: FlowNode ensures multiset(r)[x] == if x.id in TargetIds(edges) then 0 else multiset(nodes)[x] {
      FilterCount(nodes, (n: FlowNode) => n.id !in TargetIds(edges), x);
    }
  }

  /** With no edges, every node has an empty target handle. */
  lemma NoEdgesAllEmpty(nodes: seq<FlowNode>)
    ensures NodesWithEmptyTargetHandles(nodes, []) == nodes
  {
    assert TargetIds([]) == {};
    FilterKeepsAll(nodes, (n: FlowNode) => n.id !in TargetIds([]));
  }

  /** A node has a source connection exactly when some edge leaves it. */
  lemma {:induction false} HasSourceConnectionMeaning(nodeId: string, edges: seq<FlowEdge>)
    ensures HasSourceConnection(nodeId, edges) <==> exists k :: 0 <= k < |edges| && edges[k].source == nodeId
  {
    if edges != [] {
      HasSourceConnectionMeaning(nodeId, edges[1..]);
      if HasSourceConnection(nodeId, edges[1..]) {
        var k :| 0 <= k < |edges| - 1 && edges[1..][k].source == nodeId;
        assert edges[k + 1].source == nodeId;
      }
      if exists k :: 0 <= k < |edges| && edges[k].source == nodeId {
        var k :| 0 <= k < |edges| && edges[k].source == nodeId;
        if k > 0 {
          assert edges[1..][k - 1].source == nodeId;
        }
      }
    }
  }
}
