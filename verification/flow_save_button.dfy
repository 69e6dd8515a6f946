/**
 * The export button of the flow editor: a save attempt either exports the
 * schema of the graph or, when validation blocks export, shows the first
 * three distinct error messages.
 */
module FlowSaveButton {
  import opened Base
  import opened FlowTypes
  import opened FlowToSchema
  import opened FlowValidation

  /** No message appears twice. */
  predicate Distinct(s: seq<string>)
  {
    forall a, b :: 0 <= a < b < |s| ==> s[a] != s[b]
  }

  /** `if (!errors.includes(msg)) errors.push(msg)` */
  function AddNew(errors: seq<string>, msg: string): seq<string>
  {
    if msg in errors then errors else errors + [msg]
  }

  /** The first `j` messages of `msgs` offered to `AddNew` in turn. */
  function AddNewAll(errors: seq<string>, msgs: seq<string>, j: nat): seq<string>
    requires j <= |msgs|
  {
    if j == 0 then errors else AddNew(AddNewAll(errors, msgs, j - 1), msgs[j - 1])
  }

  /** The error list after the first `i` entries of the warning map, in insertion order. */
  function Aggregate(flowErrors: seq<string>, w: Warnings, i: nat): seq<string>
    requires i <= |w.keys|
  {
    if i == 0 then flowErrors
    else
      var msgs := ListOf(w, w.keys[i - 1]);
      AddNewAll(Aggregate(flowErrors, w, i - 1), msgs, |msgs|)
  }

  /** The complete error list of a blocked save. */
  function SaveErrors(nodes: seq<FlowNode>, edges: seq<FlowEdge>): seq<string>
  {
    var w := NodeWarnings(nodes, edges);
    Aggregate(FlowErrors(nodes), w, |w.keys|)
  }

  /** `ss.join(sep)` */
  function Join(ss: seq<string>, sep: string): string
  {
    if ss == [] then ""
    else if |ss| == 1 then ss[0]
    else Join(ss[..|ss| - 1], sep) + sep + ss[|ss| - 1]
  }

  /** `errors.slice(0, 3).join(', ')` */
  function ErrorMessage(errors: seq<string>): string
  {
    Join(errors[..if |errors| < 3 then |errors| else 3], ", ")
  }

  /** The value of `hasBlockingErrors` for the graph. */
  predicate Blocked(nodes: seq<FlowNode>, edges: seq<FlowEdge>)
  {
    |FlowErrors(nodes)| > 0 || AnyBlocking(NodeWarnings(nodes, edges))
  }

  /**
   * Offering messages keeps what was there in front, adds each new message
   * once, and adds nothing else.
   */
  lemma {:induction false} AddNewAllFacts(errors: seq<string>, msgs: seq<string>, j: nat)
    requires j <= |msgs|
    ensures errors <= AddNewAll(errors, msgs, j)
    ensures Distinct(errors) ==> Distinct(AddNewAll(errors, msgs, j))
    ensures forall x :: x in AddNewAll(errors, msgs, j) <==> x in errors || x in msgs[..j]
  {
    if j > 0 {
      AddNewAllFacts(errors, msgs, j - 1);
      assert msgs[..j] == msgs[..j - 1] + [msgs[j - 1]];
    }
  }

  /**
   * The aggregated list starts with the flow errors, repeats no message
   * when they repeat none, and holds exactly the flow errors and the
   * messages of the first `i` map entries, blocking or not.
   */
  lemma {:induction false} AggregateFacts(flowErrors: seq<string>, w: Warnings, i: nat)
    requires i <= |w.keys|
    ensures flowErrors <= Aggregate(flowErrors, w, i)
    ensures Distinct(flowErrors) ==> Distinct(Aggregate(flowErrors, w, i))
    ensures forall x :: x in Aggregate(flowErrors, w, i) <==>
      x in flowErrors || exists a :: 0 <= a < i && x in ListOf(w, w.keys[a])
  {
    if i > 0 {
      AggregateFacts(flowErrors, w, i - 1);
      var msgs := ListOf(w, w.keys[i - 1]);
      AddNewAllFacts(Aggregate(flowErrors, w, i - 1), msgs, |msgs|);
      assert msgs[..|msgs|] == msgs;
    }
  }

  /**
   * A blocked save collects the flow errors first, then every distinct
   * message of every node entry, each once.
   */
  lemma SaveErrorsFacts(nodes: seq<FlowNode>, edges: seq<FlowEdge>)
    ensures FlowErrors(nodes) <= SaveErrors(nodes, edges)
    ensures Distinct(SaveErrors(nodes, edges))
    ensures var w := NodeWarnings(nodes, edges);
      forall x :: x in SaveErrors(nodes, edges) <==>
        x in FlowErrors(nodes) || exists a :: 0 <= a < |w.keys| && x in ListOf(w, w.keys[a])
  {
    var w := NodeWarnings(nodes, edges);
    AggregateFacts(FlowErrors(nodes), w, |w.keys|);
  }

  /** The joined text begins with the first piece. */
  lemma {:induction false} JoinStarts(ss: seq<string>, sep: string)
    requires |ss| > 0
    ensures ss[0] <= Join(ss, sep)
  {
    if |ss| > 1 {
      JoinStarts(ss[..|ss| - 1], sep);
    }
  }

  /** A blocked save always produces a non-empty message, so the error box is shown. */
  lemma BlockedMessageShown(nodes: seq<FlowNode>, edges: seq<FlowEdge>)
    requires Blocked(nodes, edges)
    ensures ErrorMessage(SaveErrors(nodes, edges)) != ""
  {
    var w := NodeWarnings(nodes, edges);
    var errors := SaveErrors(nodes, edges);
    SaveErrorsFacts(nodes, edges);
    if |FlowErrors(nodes)| == 0 {
      var i :| 0 <= i < |w.keys| && HasBlockingMessage(ListOf(w, w.keys[i]));
      var j :| 0 <= j < |ListOf(w, w.keys[i])| && IsBlocking(ListOf(w, w.keys[i])[j]);
      assert ListOf(w, w.keys[i])[j] in errors;
    }
    assert errors[0] in errors;
    if errors[0] !in FlowErrors(nodes) {
      var a :| 0 <= a < |w.keys| && errors[0] in ListOf(w, w.keys[a]);
      WarningMessagesKnown(nodes, edges, w.keys[a], errors[0]);
    }
    assert errors[0] != "";
    var shown := errors[..if |errors| < 3 then |errors| else 3];
    JoinStarts(shown, ", ");
    assert shown[0] == errors[0];
  }

  /** The aggregation loops of `handleSave`. */
  method AggregateErrors(flowErrors: seq<string>, w: Warnings) returns (errors: seq<string>)
    ensures errors == Aggregate(flowErrors, w, |w.keys|)
  {
    errors := flowErrors;
    for i := 0 to |w.keys|
      invariant errors == Aggregate(flowErrors, w, i)
    {
      var msgs := ListOf(w, w.keys[i]);
      ghost var before := errors;
      for j := 0 to |msgs|
        invariant errors == AddNewAll(before, msgs, j)
      {
        var msg := msgs[j];
        if msg !in errors {
          errors := errors + [msg];
        }
      }
    }
  }

  /** The button's state: the error text on display and the success flag. */
  class SaveButton {
    var errorMessage: Option<string>
    var showSuccess: bool

    constructor()
      ensures errorMessage == None && !showSuccess
    {
      errorMessage := None;
      showSuccess := false;
    }

    /**
     * `handleSave`: a blocked graph exports nothing and shows the
     * aggregated message; otherwise the schema of the graph is exported and
     * success is shown. Both state fields are reset first.
     */
    method HandleSave(nodes: seq<FlowNode>, edges: seq<FlowEdge>) returns (exported: Option<FlowSchema>)
      modifies this
      ensures Blocked(nodes, edges) ==>
        exported == None && errorMessage == Some(ErrorMessage(SaveErrors(nodes, edges))) && !showSuccess
      ensures !Blocked(nodes, edges) ==>
        exported == Some(FlowToSchema.FlowToSchema(nodes, edges)) && errorMessage == None && showSuccess
    {
      var r := ValidateFlow(nodes, edges);
      errorMessage := None;
      showSuccess := false;

      if r.hasBlockingErrors {
        var errors := AggregateErrors(r.flowErrors, r.nodeWarnings);
        errorMessage := Some(ErrorMessage(errors));
        exported := None;
        return;
      }

      var schema := ExportFlow(nodes, edges);
      exported := Some(schema);
      showSuccess := true;
    }
  }
}
