/**
 * The save rule of the legacy chatbot editor: a flow of several nodes may
 * have at most one node that no edge enters.
 */
module FlowValidationRules {
  import opened Base
  import opened FlowTypes
  import opened ChatbotTypes
  import ChatbotFlowHelpers
  import FlowHelpers

  const CANNOT_SAVE: string := "Cannot save Flow"

  /** `{ isValid, errorMessage? }` */
  datatype RuleResult = RuleResult(isValid: bool, errorMessage: Option<string>)

  /** `validateChatbotFlow` */
  function ValidateChatbotFlow(nodes: seq<ChatbotNode>, edges: seq<FlowEdge>): (r: RuleResult)
    ensures r.isValid <==> r.errorMessage.None?
    ensures !r.isValid ==> r.errorMessage == Some(CANNOT_SAVE)
    ensures |nodes| <= 1 ==> r.isValid
  {
    if |nodes| <= 1 then RuleResult(true, None)
    else
      var unreached := ChatbotFlowHelpers.NodesWithEmptyTargetHandles(nodes, edges);
      if |unreached| > 1 then RuleResult(false, Some(CANNOT_SAVE)) else RuleResult(true, None)
  }

  /** Node `k` is not the target of any edge. */
  ghost predicate Unreached(nodes: seq<ChatbotNode>, edges: seq<FlowEdge>, k: nat)
    requires k < |nodes|
  {
    forall j :: 0 <= j < |edges| ==> edges[j].target != nodes[k].id
  }

  /**
   * With more than one node the flow is refused exactly when two different
   * positions of the node list hold nodes that no edge enters.
   */
  lemma ValidateChatbotFlowMeaning(nodes: seq<ChatbotNode>, edges: seq<FlowEdge>)
    requires |nodes| > 1
    ensures !ValidateChatbotFlow(nodes, edges).isValid <==> TwoUnreached(nodes, edges)
  {
    UnreachedCount(nodes, edges);
  }

  /** Node `k` of the tail is node `k + 1` of the whole list. */
  lemma ShiftUnreached(nodes: seq<ChatbotNode>, edges: seq<FlowEdge>)
    requires nodes != []
    ensures forall k :: 0 <= k < |nodes| - 1 ==> (Unreached(nodes[1..], edges, k) <==> Unreached(nodes, edges, k + 1))
  {
    forall k | 0 <= k < |nodes| - 1 ensures Unreached(nodes[1..], edges, k) <==> Unreached(nodes, edges, k + 1) {
      assert nodes[1..][k] == nodes[k + 1];
    }
  }

  /** The helper keeps the head exactly when no edge enters it. */
  lemma HeadStep(nodes: seq<ChatbotNode>, edges: seq<FlowEdge>)
    requires nodes != []
    ensures |ChatbotFlowHelpers.NodesWithEmptyTargetHandles(nodes, edges)| ==
      (if Unreached(nodes, edges, 0) then 1 else 0) + |ChatbotFlowHelpers.NodesWithEmptyTargetHandles(nodes[1..], edges)|
  {
    if nodes[0].id in FlowHelpers.TargetIds(edges) {
      var j :| 0 <= j < |edges| && edges[j].target == nodes[0].id;
    }
  }

  /** Some node is returned exactly when some position holds a node no edge enters. */
  lemma {:induction false} UnreachedSome(nodes: seq<ChatbotNode>, edges: seq<FlowEdge>)
    ensures |ChatbotFlowHelpers.NodesWithEmptyTargetHandles(nodes, edges)| > 0 <==>
      exists a :: 0 <= a < |nodes| && Unreached(nodes, edges, a)
  {
    if nodes != [] {
      UnreachedSome(nodes[1..], edges);
      HeadStep(nodes, edges);
      ShiftUnreached(nodes, edges);
      if exists a :: 0 <= a < |nodes| && Unreached(nodes, edges, a) {
        var a :| 0 <= a < |nodes| && Unreached(nodes, edges, a);
        if a > 0 {
          assert Unreached(nodes[1..], edges, a - 1);
        }
      }
      if exists a :: 0 <= a < |nodes| - 1 && Unreached(nodes[1..], edges, a) {
        var a :| 0 <= a < |nodes| - 1 && Unreached(nodes[1..], edges, a);
        assert Unreached(nodes, edges, a + 1);
      }
    }
  }

  /** Two positions holding nodes no edge enters. */
  ghost predicate TwoUnreached(nodes: seq<ChatbotNode>, edges: seq<FlowEdge>)
  {
    exists a, b :: 0 <= a < b < |nodes| && Unreached(nodes, edges, a) && Unreached(nodes, edges, b)
  }

  /** Two unreached positions of the whole list come from the tail, or from the head and the tail. */
  lemma TwoUnreachedStep(nodes: seq<ChatbotNode>, edges: seq<FlowEdge>)
    requires nodes != []
    ensures TwoUnreached(nodes, edges) <==>
      TwoUnreached(nodes[1..], edges) ||
      (Unreached(nodes, edges, 0) && exists a :: 0 <= a < |nodes| - 1 && Unreached(nodes[1..], edges, a))
  {
    var tail := nodes[1..];
    ShiftUnreached(nodes, edges);
    if TwoUnreached(nodes, edges) {
      var a, b :| 0 <= a < b < |nodes| && Unreached(nodes, edges, a) && Unreached(nodes, edges, b);
      assert Unreached(tail, edges, b - 1);
      if a > 0 {
        assert Unreached(tail, edges, a - 1);
      }
    }
    if Unreached(nodes, edges, 0) && exists a :: 0 <= a < |tail| && Unreached(tail, edges, a) {
      var a :| 0 <= a < |tail| && Unreached(tail, edges, a);
      assert Unreached(nodes, edges, a + 1);
    }
    if TwoUnreached(tail, edges) {
      var a, b :| 0 <= a < b < |tail| && Unreached(tail, edges, a) && Unreached(tail, edges, b);
      assert Unreached(nodes, edges, a + 1) && Unreached(nodes, edges, b + 1);
    }
  }

  /** More than one node is returned exactly when two positions hold nodes no edge enters. */
  lemma {:induction false} UnreachedCount(nodes: seq<ChatbotNode>, edges: seq<FlowEdge>)
    ensures |ChatbotFlowHelpers.NodesWithEmptyTargetHandles(nodes, edges)| > 1 <==> TwoUnreached(nodes, edges)
  {
    if nodes != [] {
      UnreachedCount(nodes[1..], edges);
      UnreachedSome(nodes[1..], edges);
      HeadStep(nodes, edges);
      TwoUnreachedStep(nodes, edges);
    }
  }
}
