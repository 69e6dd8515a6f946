/**
 * The edge panel of a selected node: which edges it lists, how it names
 * their targets, and how it edits an edge's ordered parameter list. Each
 * editor returns the list it hands to the store's edge update.
 */
module EdgeListSection {
  import opened Base
  import opened FlowTypes
  import FlowProvider

  /** The pair appended by `handleParamAdd`: empty key and value, no id. */
  const BLANK_PARAM: Param := Param(None, "", "")

  /** `params.push({ key: '', value: '' })` on a copy of the edge's list. */
  function ParamAdd(e: FlowEdge): (r: seq<Param>)
    ensures |r| == |ParamsOf(e)| + 1
    ensures r[..|ParamsOf(e)|] == ParamsOf(e) && r[|ParamsOf(e)|] == BLANK_PARAM
  {
    ParamsOf(e) + [BLANK_PARAM]
  }

  /**
   * `params.splice(idx, 1)` on a copy; an empty result becomes `undefined`.
   * An index past the end removes nothing.
   */
  function ParamRemove(e: FlowEdge, idx: nat): (r: Option<seq<Param>>)
    ensures var ps := ParamsOf(e);
      var kept := if idx < |ps| then ps[..idx] + ps[idx + 1..] else ps;
      (r.None? <==> kept == []) && (r.Some? ==> r.value == kept)
  {
    var ps := ParamsOf(e);
    var rest := if idx < |ps| then ps[..idx] + ps[idx + 1..] else ps;
    if |rest| > 0 then Some(rest) else None
  }

  /** `params[idx] = { ...params[idx], key: newKey }` on a copy. */
  function ParamKeyChange(e: FlowEdge, idx: nat, newKey: string): (r: seq<Param>)
    requires idx < |ParamsOf(e)|
    ensures |r| == |ParamsOf(e)|
    ensures r[idx].key == newKey && r[idx].value == ParamsOf(e)[idx].value && r[idx].id == ParamsOf(e)[idx].id
    ensures forall k :: 0 <= k < |r| && k != idx ==> r[k] == ParamsOf(e)[k]
  {
    var ps := ParamsOf(e);
    ps[idx := ps[idx].(key := newKey)]
  }

  /** `params[idx] = { ...params[idx], value: newValue }` on a copy. */
  function ParamValueChange(e: FlowEdge, idx: nat, newValue: string): (r: seq<Param>)
    requires idx < |ParamsOf(e)|
    ensures |r| == |ParamsOf(e)|
    ensures r[idx].value == newValue && r[idx].key == ParamsOf(e)[idx].key && r[idx].id == ParamsOf(e)[idx].id
    ensures forall k :: 0 <= k < |r| && k != idx ==> r[k] == ParamsOf(e)[k]
  {
    var ps := ParamsOf(e);
    ps[idx := ps[idx].(value := newValue)]
  }

  /** `getTargetDisplayId`: the panel's own node is `(self)`; a missing node or empty display id is `Unknown`. */
  function TargetDisplayId(nodes: seq<FlowNode>, nodeId: string, targetId: string): (r: string)
    ensures targetId == nodeId ==> r == "(self)"
  {
    if targetId == nodeId then "(self)"
    else
      var found := FlowProvider.FindNode(nodes, targetId);
      if found.Some? then OrElse(found.value.data.displayId, "Unknown") else "Unknown"
  }

  /** Removing the pair that was just added restores the list as it was, or `undefined` if it was empty. */
  lemma AddThenRemove(e: FlowEdge)
    ensures var added := e.(data := Some(EdgeData(ConditionOf(e), Some(ParamAdd(e)))));
      ParamRemove(added, |ParamsOf(e)|) == if ParamsOf(e) == [] then None else Some(ParamsOf(e))
  {
    var added := e.(data := Some(EdgeData(ConditionOf(e), Some(ParamAdd(e)))));
    assert ParamsOf(added) == ParamsOf(e) + [BLANK_PARAM];
    var n := |ParamsOf(e)|;
    assert ParamsOf(added)[..n] + ParamsOf(added)[n + 1..] == ParamsOf(e);
    if ParamsOf(e) != [] {
      assert ParamRemove(added, n) == Some(ParamsOf(e));
    }
  }

  /**
   * Removing a pair shortens the list by one and keeps every other pair in
   * order; `undefined` comes back only when the removed pair was the last one left.
   */
  lemma ParamRemoveFacts(e: FlowEdge, idx: nat)
    requires idx < |ParamsOf(e)|
    ensures ParamRemove(e, idx).None? <==> |ParamsOf(e)| == 1
    ensures ParamRemove(e, idx).Some? ==>
      var r := ParamRemove(e, idx).value;
      |r| == |ParamsOf(e)| - 1 &&
      (forall k :: 0 <= k < idx ==> r[k] == ParamsOf(e)[k]) &&
      (forall k :: idx <= k < |r| ==> r[k] == ParamsOf(e)[k + 1])
  {
  }

  /**
   * A target other than the panel's node shows the display id of the first
   * node with that id, unless there is none or it is empty.
   */
  lemma TargetDisplayIdFacts(nodes: seq<FlowNode>, nodeId: string, targetId: string)
    requires targetId != nodeId
    ensures targetId !in NodeIds(nodes) ==> TargetDisplayId(nodes, nodeId, targetId) == "Unknown"
    ensures targetId in NodeIds(nodes) ==>
      exists k :: 0 <= k < |nodes| && nodes[k].id == targetId && (forall j :: 0 <= j < k ==> nodes[j].id != targetId) &&
        TargetDisplayId(nodes, nodeId, targetId) == OrElse(nodes[k].data.displayId, "Unknown")
  {
    FlowProvider.FindNodeFacts(nodes, targetId);
  }
}
