/**
 * Edge creation for the flow canvas, and the check that keeps a second
 * unlabelled connection between the same two nodes from being drawn.
 */
module CreateFlowEdge {
  import opened Base
  import opened FlowTypes

  /**
   * `createFlowEdge`: the handles the canvas reports are kept, the edge is
   * conditional and starts with an empty condition and no parameters. The
   * id is supplied by the caller in place of `crypto.randomUUID()`.
   */
  function CreateFlowEdge(id: string, sourceId: string, targetId: string,
                          sourceHandle: Option<string>, targetHandle: Option<string>): (r: FlowEdge)
    ensures r.id == id && r.source == sourceId && r.target == targetId
    ensures r.sourceHandle == sourceHandle && r.targetHandle == targetHandle
    ensures r.edgeType == Some(FLOW_EDGE_TYPE) && r.data == Some(EdgeData("", None)) && r.edgeLabel.None?
  {
    FlowEdge(id, sourceId, targetId, sourceHandle, targetHandle, Some(FLOW_EDGE_TYPE), None, Some(EdgeData("", None)))
  }

  /** `!e.data?.condition`: no data, or an empty condition (whitespace counts as a condition here). */
  predicate LacksCondition(e: FlowEdge)
  {
    e.data.None? || e.data.value.condition == ""
  }

  /** `edges.some(e => e.source === sourceId && e.target === targetId && !e.data?.condition)` */
  function IsDuplicateEdge(edges: seq<FlowEdge>, sourceId: string, targetId: string): bool
  {
    if edges == [] then false
    else
      (edges[0].source == sourceId && edges[0].target == targetId && LacksCondition(edges[0]))
      || IsDuplicateEdge(edges[1..], sourceId, targetId)
  }

  /**
   * A connection is a duplicate exactly when some edge joins the same two
   * nodes in the same direction and has no condition; an edge between
   * them that carries a condition does not count.
   */
  lemma {:induction false} IsDuplicateEdgeMeaning(edges: seq<FlowEdge>, sourceId: string, targetId: string)
    ensures IsDuplicateEdge(edges, sourceId, targetId) <==>
      exists k :: 0 <= k < |edges| && edges[k].source == sourceId && edges[k].target == targetId && LacksCondition(edges[k])
  {
    if edges != [] {
      IsDuplicateEdgeMeaning(edges[1..], sourceId, targetId);
      if IsDuplicateEdge(edges[1..], sourceId, targetId) {
        var k :| 0 <= k < |edges| - 1 && edges[1..][k].source == sourceId && edges[1..][k].target == targetId && LacksCondition(edges[1..][k]);
        assert edges[k + 1] == edges[1..][k];
      }
      if exists k :: 0 <= k < |edges| && edges[k].source == sourceId && edges[k].target == targetId && LacksCondition(edges[k]) {
        var k :| 0 <= k < |edges| && edges[k].source == sourceId && edges[k].target == targetId && LacksCondition(edges[k]);
        if k > 0 {
          assert edges[1..][k - 1] == edges[k];
        }
      }
    }
  }

  /** Nothing is a duplicate of an edge list that is empty. */
  lemma NoDuplicateInEmpty(sourceId: string, targetId: string)
    ensures !IsDuplicateEdge([], sourceId, targetId)
  {
  }

  /** Once a fresh edge between two nodes is added, drawing the same connection again is a duplicate. */
  lemma CreatedEdgeIsDuplicate(edges: seq<FlowEdge>, id: string, sourceId: string, targetId: string,
                               sourceHandle: Option<string>, targetHandle: Option<string>)
    ensures IsDuplicateEdge(edges + [CreateFlowEdge(id, sourceId, targetId, sourceHandle, targetHandle)], sourceId, targetId)
  {
    var all := edges + [CreateFlowEdge(id, sourceId, targetId, sourceHandle, targetHandle)];
    IsDuplicateEdgeMeaning(all, sourceId, targetId);
    assert all[|edges|].source == sourceId && all[|edges|].target == targetId && LacksCondition(all[|edges|]);
  }

  /** An edge carrying a condition never makes a connection a duplicate: appending it changes no answer. */
  lemma {:induction false} ConditionedEdgeNotDuplicate(edges: seq<FlowEdge>, e: FlowEdge, sourceId: string, targetId: string)
    requires e.data.Some? && e.data.value.condition != ""
    ensures IsDuplicateEdge(edges + [e], sourceId, targetId) <==> IsDuplicateEdge(edges, sourceId, targetId)
  {
    if edges == [] {
      assert IsDuplicateEdge([e][1..], sourceId, targetId) == false;
    } else {
      assert (edges + [e])[1..] == edges[1..] + [e];
      ConditionedEdgeNotDuplicate(edges[1..], e, sourceId, targetId);
    }
  }
}
