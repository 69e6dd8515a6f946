/**
 * Structural validation of an imported flow, run on the parsed JSON before
 * any conversion. Every problem found is reported; a bad node or edge adds
 * its messages and checking goes on with the next one.
 *
 * The validator records each problem as an `ImportError` value and the list
 * it returns is the rendering of those values with `Message`, in order.
 */
module ImportValidation {
  import opened Base
  import opened Json

  /** One reported problem; `i` indexes the nodes and `j` the edges of node `i`. */
  datatype ImportError =
    | NotAnObject
    | BadStartNodeId
    | BadNodes
    | NoNodes
    | NodeNotObject(i: nat)
    | MissingId(i: nat)
    | DuplicateId(i: nat, id: string)
    | MissingDescription(i: nat)
    | MissingPrompt(i: nat)
    | BadEdges(i: nat)
    | EdgeNotObject(i: nat, j: nat)
    | MissingTarget(i: nat, j: nat)
    | MissingCondition(i: nat, j: nat)
    | BadParameters(i: nat, j: nat)
    | UnknownStart(start: string)
    | UnknownTarget(target: string)

  function NodePrefix(i: nat): string
  {
    "nodes[" + Decimal(i) + "]"
  }

  function EdgePrefix(i: nat, j: nat): string
  {
    NodePrefix(i) + ".edges[" + Decimal(j) + "]"
  }

  /** The human-readable text the validator pushes for each problem. */
  function Message(e: ImportError): string
  {
    match e
    case NotAnObject => "Input must be a JSON object"
    case BadStartNodeId => "Missing or invalid \"start_node_id\" (must be a string)"
    case BadNodes => "Missing or invalid \"nodes\" (must be an array)"
    case NoNodes => "Flow must contain at least one node"
    case NodeNotObject(i) => NodePrefix(i) + ": must be an object"
    case MissingId(i) => NodePrefix(i) + ": missing or empty \"id\""
    case DuplicateId(i, id) => NodePrefix(i) + ": duplicate node id \"" + id + "\""
    case MissingDescription(i) => NodePrefix(i) + ": missing \"description\""
    case MissingPrompt(i) => NodePrefix(i) + ": missing \"prompt\""
    case BadEdges(i) => NodePrefix(i) + ": missing or invalid \"edges\" (must be an array)"
    case EdgeNotObject(i, j) => EdgePrefix(i, j) + ": must be an object"
    case MissingTarget(i, j) => EdgePrefix(i, j) + ": missing or empty \"to_node_id\""
    case MissingCondition(i, j) => EdgePrefix(i, j) + ": missing \"condition\""
    case BadParameters(i, j) => EdgePrefix(i, j) + ": \"parameters\" must be a plain object"
    case UnknownStart(start) => "\"start_node_id\" (\"" + start + "\") does not match any node id"
    case UnknownTarget(target) => "Edge to_node_id \"" + target + "\" does not match any node id"
  }

  /** The messages of a list of problems, in order. */
  function Messages(es: seq<ImportError>): (r: seq<string>)
    ensures |r| == |es|
    ensures forall k :: 0 <= k < |es| ==> r[k] == Message(es[k])
  {
    if es == [] then [] else Messages(es[..|es| - 1]) + [Message(es[|es| - 1])]
  }

  /**
   * `typeof v.name === 'string' && v.name.trim()`: the property when it is a
   * string that trims to something non-empty (`Trim(s) == []` exactly when
   * `IsBlank(s)`).
   */
  function NonBlankString(v: Json, name: string): Option<string>
  {
    match GetString(v, name)
    case Some(s) => if !IsBlank(s) then Some(s) else None
    case None => None
  }

  /** A node's id as the validator records it in `nodeIds`; only an object has one. */
  function ValidId(node: Json): Option<string>
  {
    NonBlankString(node, "id")
  }

  /** `parameters` is absent, or a value that is an object and neither an array nor null. */
  predicate ParamsOk(edge: Json)
  {
    Get(edge, "parameters").None? || Get(edge, "parameters").value.JObject?
  }

  // ---------------------------------------------------------------------
  // The problems found, as a function of the input

  /** The problems of edge `j` of node `i`. */
  function EdgeIssues(edge: Json, i: nat, j: nat): seq<ImportError>
  {
    if !IsObjectLike(edge) then [EdgeNotObject(i, j)]
    else
      (if NonBlankString(edge, "to_node_id").None? then [MissingTarget(i, j)] else [])
      + (if GetString(edge, "condition").None? then [MissingCondition(i, j)] else [])
      + (if !ParamsOk(edge) then [BadParameters(i, j)] else [])
  }

  /** The problems of the first `n` edges of node `i`, edge by edge. */
  function EdgeListIssues(edges: seq<Json>, i: nat, n: nat): seq<ImportError>
    requires n <= |edges|
  {
    if n == 0 then [] else EdgeListIssues(edges, i, n - 1) + EdgeIssues(edges[n - 1], i, n - 1)
  }

  /** The id check of node `i` against the ids of the nodes before it. */
  function IdIssues(node: Json, i: nat, seen: set<string>): seq<ImportError>
  {
    match ValidId(node)
    case None => [MissingId(i)]
    case Some(id) => if id in seen then [DuplicateId(i, id)] else []
  }

  /** The `edges` array of a node, or nothing when it has none. */
  function EdgesOf(node: Json): seq<Json>
  {
    match GetArray(node, "edges")
    case Some(es) => es
    case None => []
  }

  /** The problems of node `i`, given the ids of the nodes before it. */
  function NodeIssues(node: Json, i: nat, seen: set<string>): seq<ImportError>
  {
    if !IsObjectLike(node) then [NodeNotObject(i)]
    else
      IdIssues(node, i, seen)
      + (if GetString(node, "description").None? then [MissingDescription(i)] else [])
      + (if GetString(node, "prompt").None? then [MissingPrompt(i)] else [])
      + (if GetArray(node, "edges").None? then [BadEdges(i)] else EdgeListIssues(EdgesOf(node), i, |EdgesOf(node)|))
  }

  /** What a node adds to `nodeIds`. */
  function IdOf(node: Json): set<string>
  {
    if ValidId(node).Some? then {ValidId(node).value} else {}
  }

  /** The content of `nodeIds` once the first `n` nodes have been checked. */
  function IdsUpTo(nodes: seq<Json>, n: nat): set<string>
    requires n <= |nodes|
  {
    if n == 0 then {} else IdsUpTo(nodes, n - 1) + IdOf(nodes[n - 1])
  }

  /** The problems of node `i` of `nodes`, checked against the ids of the nodes before it. */
  function NodeIssuesAt(nodes: seq<Json>, i: nat): seq<ImportError>
    requires i < |nodes|
  {
    NodeIssues(nodes[i], i, IdsUpTo(nodes, i))
  }

  /** The problems of the first `n` nodes. */
  function NodeListIssues(nodes: seq<Json>, n: nat): seq<ImportError>
    requires n <= |nodes|
  {
    if n == 0 then [] else NodeListIssues(nodes, n - 1) + NodeIssuesAt(nodes, n - 1)
  }

  function StartIssues(start: Option<string>, ids: set<string>): seq<ImportError>
  {
    if start.Some? && !IsBlank(start.value) && ids != {} && start.value !in ids
    then [UnknownStart(start.value)]
    else []
  }

  /** An object edge whose non-blank target names no recorded id. */
  predicate Dangling(edge: Json, ids: set<string>)
  {
    IsObjectLike(edge) && NonBlankString(edge, "to_node_id").Some? && NonBlankString(edge, "to_node_id").value !in ids
  }

  /** The cross-reference problem of one edge. */
  function TargetIssue(edge: Json, ids: set<string>): seq<ImportError>
  {
    if Dangling(edge, ids) then [UnknownTarget(NonBlankString(edge, "to_node_id").value)] else []
  }

  function TargetIssues(edges: seq<Json>, ids: set<string>, n: nat): seq<ImportError>
    requires n <= |edges|
  {
    if n == 0 then [] else TargetIssues(edges, ids, n - 1) + TargetIssue(edges[n - 1], ids)
  }

  function NodeRefIssues(node: Json, ids: set<string>): seq<ImportError>
  {
    if IsObjectLike(node) then TargetIssues(EdgesOf(node), ids, |EdgesOf(node)|) else []
  }

  function NodeRefIssuesAt(nodes: seq<Json>, ids: set<string>, i: nat): seq<ImportError>
    requires i < |nodes|
  {
    NodeRefIssues(nodes[i], ids)
  }

  function RefIssues(nodes: seq<Json>, ids: set<string>, n: nat): seq<ImportError>
    requires n <= |nodes|
  {
    if n == 0 then [] else RefIssues(nodes, ids, n - 1) + NodeRefIssuesAt(nodes, ids, n - 1)
  }

  /** Everything the validator reports about `data`, in the order it reports it. */
  function Issues(data: Json): (r: seq<ImportError>)
    ensures !IsObjectLike(data) ==> r == [NotAnObject]
    ensures IsObjectLike(data) && (GetArray(data, "nodes").None? || GetArray(data, "nodes").value == []) ==>
      1 <= |r| <= 2 && (r[|r| - 1] == BadNodes || r[|r| - 1] == NoNodes)
  {
    if !IsObjectLike(data) then [NotAnObject]
    else
      var startIssues := if GetString(data, "start_node_id").None? then [BadStartNodeId] else [];
      match GetArray(data, "nodes")
      case None => startIssues + [BadNodes]
      case Some(nodes) =>
        if |nodes| == 0 then startIssues + [NoNodes]
        else
          var ids := IdsUpTo(nodes, |nodes|);
          startIssues + NodeListIssues(nodes, |nodes|) + StartIssues(GetString(data, "start_node_id"), ids)
          + RefIssues(nodes, ids, |nodes|)
  }

  // ---------------------------------------------------------------------
  // The validator as the source runs it

  /** The field checks of edge `j` of node `i`, an object. */
  method CheckEdgeFields(edge: Json, i: nat, j: nat) returns (mine: seq<ImportError>)
    requires IsObjectLike(edge)
    ensures mine == EdgeIssues(edge, i, j)
  {
    var target: seq<ImportError> := [];
    if NonBlankString(edge, "to_node_id").None? {
      target := [MissingTarget(i, j)];
    }
    var condition: seq<ImportError> := [];
    if GetString(edge, "condition").None? {
      condition := [MissingCondition(i, j)];
    }
    var parameters: seq<ImportError> := [];
    if Get(edge, "parameters").Some? {
      if !Get(edge, "parameters").value.JObject? {
        parameters := [BadParameters(i, j)];
      }
    }
    mine := target + condition + parameters;
  }

  /** The inner loop over the edges of node `i`. */
  method CheckEdges(edges: seq<Json>, i: nat) returns (errors: seq<ImportError>)
    ensures errors == EdgeListIssues(edges, i, |edges|)
  {
    errors := [];
    for j := 0 to |edges|
      invariant errors == EdgeListIssues(edges, i, j)
    {
      var mine := CheckEdge(edges[j], i, j);
      EdgeListStep(edges, i, j);
      errors := errors + mine;
    }
  }

  /** One more edge: its problems are appended. */
  lemma EdgeListStep(edges: seq<Json>, i: nat, j: nat)
    requires j < |edges|
    ensures EdgeListIssues(edges, i, j + 1) == EdgeListIssues(edges, i, j) + EdgeIssues(edges[j], i, j)
  {
  }

  /** One pass of the inner loop: a non-object edge is reported once; an object gets its field checks. */
  method CheckEdge(edge: Json, i: nat, j: nat) returns (mine: seq<ImportError>)
    ensures mine == EdgeIssues(edge, i, j)
  {
    if !IsObjectLike(edge) {
      mine := [EdgeNotObject(i, j)];
      return;
    }
    mine := CheckEdgeFields(edge, i, j);
  }

  /** The field checks of node `i`, an object, given the ids recorded so far. */
  method CheckNodeFields(node: Json, i: nat, nodeIds: set<string>) returns (mine: seq<ImportError>, ids: set<string>)
    requires IsObjectLike(node)
    ensures mine == NodeIssues(node, i, nodeIds)
    ensures ids == nodeIds + IdOf(node)
  {
    ids := nodeIds;
    var idPart: seq<ImportError> := [];
    var id := GetString(node, "id");
    if id.None? || IsBlank(id.value) {
      idPart := [MissingId(i)];
    } else {
      if id.value in ids {
        idPart := [DuplicateId(i, id.value)];
      }
      ids := ids + {id.value};
    }
    var description: seq<ImportError> := [];
    if GetString(node, "description").None? {
      description := [MissingDescription(i)];
    }
    var prompt: seq<ImportError> := [];
    if GetString(node, "prompt").None? {
      prompt := [MissingPrompt(i)];
    }
    var edgePart: seq<ImportError>;
    var edges := GetArray(node, "edges");
    if edges.None? {
      edgePart := [BadEdges(i)];
    } else {
      edgePart := CheckEdges(edges.value, i);
    }
    mine := idPart + description + prompt + edgePart;
  }

  /** The first pass: every node's own checks, recording the valid ids on the way. */
  method CheckNodes(nodes: seq<Json>) returns (errors: seq<ImportError>, nodeIds: set<string>)
    ensures errors == NodeListIssues(nodes, |nodes|)
    ensures nodeIds == IdsUpTo(nodes, |nodes|)
  {
    errors := [];
    nodeIds := {};
    var i := 0;
    while i < |nodes|
      invariant 0 <= i <= |nodes|
      invariant nodeIds == IdsUpTo(nodes, i)
      invariant errors == NodeListIssues(nodes, i)
    {
      NodeListStep(nodes, i);
      var mine;
      mine, nodeIds := CheckNode(nodes[i], i, nodeIds);
      errors := errors + mine;
      i := i + 1;
    }
  }

  /** One pass of the node loop: a non-object is reported, an object gets its field checks. */
  method CheckNode(node: Json, i: nat, nodeIds: set<string>) returns (mine: seq<ImportError>, ids: set<string>)
    ensures mine == NodeIssues(node, i, nodeIds)
    ensures ids == nodeIds + IdOf(node)
  {
    if !IsObjectLike(node) {
      mine := [NodeNotObject(i)];
      ids := nodeIds;
      return;
    }
    mine, ids := CheckNodeFields(node, i, nodeIds);
  }

  /** One more node: its problems are appended, its id is recorded; a non-object has one problem and no id. */
  lemma NodeListStep(nodes: seq<Json>, i: nat)
    requires i < |nodes|
    ensures NodeListIssues(nodes, i + 1) == NodeListIssues(nodes, i) + NodeIssues(nodes[i], i, IdsUpTo(nodes, i))
    ensures IdsUpTo(nodes, i + 1) == IdsUpTo(nodes, i) + IdOf(nodes[i])
  {
  }

  /** The cross-reference pass over one node's edges. */
  method CheckTargets(edges: seq<Json>, nodeIds: set<string>) returns (errors: seq<ImportError>)
    ensures errors == TargetIssues(edges, nodeIds, |edges|)
  {
    errors := [];
    for j := 0 to |edges|
      invariant errors == TargetIssues(edges, nodeIds, j)
    {
      var edge := edges[j];
      if !IsObjectLike(edge) {
        continue;
      }
      var target := NonBlankString(edge, "to_node_id");
      if target.Some? {
        if target.value !in nodeIds {
          errors := errors + [UnknownTarget(target.value)];
        }
      }
    }
  }

  /** The second pass: every edge target must name a recorded id. */
  method CheckReferences(nodes: seq<Json>, nodeIds: set<string>) returns (errors: seq<ImportError>)
    ensures errors == RefIssues(nodes, nodeIds, |nodes|)
  {
    errors := [];
    for k := 0 to |nodes|
      invariant errors == RefIssues(nodes, nodeIds, k)
    {
      var node := nodes[k];
      if !IsObjectLike(node) || GetArray(node, "edges").None? {
        continue;
      }
      var refErrors := CheckTargets(GetArray(node, "edges").value, nodeIds);
      errors := errors + refErrors;
    }
  }

  /** The problems `validateImportSchema(data)` pushes, in order. */
  method CollectIssues(data: Json) returns (errors: seq<ImportError>)
    ensures errors == Issues(data)
  {
    if !IsObjectLike(data) {
      return [NotAnObject];
    }
    var startErrors: seq<ImportError> := [];
    if GetString(data, "start_node_id").None? {
      startErrors := [BadStartNodeId];
    }
    var nodesField := GetArray(data, "nodes");
    if nodesField.None? {
      return startErrors + [BadNodes];
    }
    var nodes := nodesField.value;
    if |nodes| == 0 {
      return startErrors + [NoNodes];
    }
    var nodeErrors, nodeIds := CheckNodes(nodes);
    var startRef: seq<ImportError> := [];
    var start := GetString(data, "start_node_id");
    if start.Some? && !IsBlank(start.value) && nodeIds != {} {
      if start.value !in nodeIds {
        startRef := [UnknownStart(start.value)];
      }
    }
    var refErrors := CheckReferences(nodes, nodeIds);
    errors := startErrors + nodeErrors + startRef + refErrors;
  }

  /** `validateImportSchema(data)`: the messages of every problem found, in order. */
  method ValidateImportSchema(data: Json) returns (errors: seq<string>)
    ensures |errors| == |Issues(data)|
    ensures forall k :: 0 <= k < |errors| ==> errors[k] == Message(Issues(data)[k])
  {
    var issues := CollectIssues(data);
    errors := Messages(issues);
  }

  // ---------------------------------------------------------------------
  // What the problem list means

  /** An edge that draws none of the per-edge problems. */
  predicate EdgeWellFormed(edge: Json)
  {
    IsObjectLike(edge) && NonBlankString(edge, "to_node_id").Some? && GetString(edge, "condition").Some? && ParamsOk(edge)
  }

  /** A node that draws none of the per-node problems apart from the duplicate check. */
  predicate NodeWellFormed(node: Json)
  {
    && IsObjectLike(node)
    && ValidId(node).Some?
    && GetString(node, "description").Some?
    && GetString(node, "prompt").Some?
    && GetArray(node, "edges").Some?
    && forall j :: 0 <= j < |EdgesOf(node)| ==> EdgeWellFormed(EdgesOf(node)[j])
  }

  /** One of the first `n` nodes carries the non-blank id `id`. */
  predicate Declares(nodes: seq<Json>, n: nat, id: string)
    requires n <= |nodes|
  {
    exists k :: 0 <= k < n && ValidId(nodes[k]) == Some(id)
  }

  /** The edge has a non-blank target naming one of the nodes. */
  predicate TargetDeclared(nodes: seq<Json>, edge: Json)
  {
    NonBlankString(edge, "to_node_id").Some? && Declares(nodes, |nodes|, NonBlankString(edge, "to_node_id").value)
  }

  /** The shape the importer accepts, stated without the validator's loops. */
  predicate WellFormedImport(data: Json)
  {
    && IsObjectLike(data)
    && GetString(data, "start_node_id").Some?
    && GetArray(data, "nodes").Some?
    && var nodes := GetArray(data, "nodes").value;
    && |nodes| > 0
    && (forall i :: 0 <= i < |nodes| ==> NodeWellFormed(nodes[i]))
    && (forall k, i :: 0 <= k < i < |nodes| ==> ValidId(nodes[k]) != ValidId(nodes[i]))
    && (var start := GetString(data, "start_node_id").value; IsBlank(start) || Declares(nodes, |nodes|, start))
    && (forall i, j :: 0 <= i < |nodes| && 0 <= j < |EdgesOf(nodes[i])| ==> TargetDeclared(nodes, EdgesOf(nodes[i])[j]))
  }

  /** `nodeIds` holds exactly the non-blank ids of the nodes checked so far. */
  lemma {:induction false} IdsMeaning(nodes: seq<Json>, n: nat, id: string)
    requires n <= |nodes|
    ensures id in IdsUpTo(nodes, n) <==> Declares(nodes, n, id)
  {
    if n > 0 {
      IdsMeaning(nodes, n - 1, id);
    }
  }

  // The per-element lists above, seen as joins of parts

  function EdgeParts(edges: seq<Json>, i: nat): (r: seq<seq<ImportError>>)
    ensures |r| == |edges| && forall j :: 0 <= j < |edges| ==> r[j] == EdgeIssues(edges[j], i, j)
  {
    seq(|edges|, j requires 0 <= j < |edges| => EdgeIssues(edges[j], i, j))
  }

  lemma {:induction false} EdgeListParts(edges: seq<Json>, i: nat, n: nat)
    requires n <= |edges|
    ensures EdgeListIssues(edges, i, n) == Concat(EdgeParts(edges, i), n)
  {
    if n > 0 {
      EdgeListParts(edges, i, n - 1);
    }
  }

  function NodeParts(nodes: seq<Json>): (r: seq<seq<ImportError>>)
    ensures |r| == |nodes| && forall i :: 0 <= i < |nodes| ==> r[i] == NodeIssuesAt(nodes, i)
  {
    seq(|nodes|, i requires 0 <= i < |nodes| => NodeIssuesAt(nodes, i))
  }

  lemma {:induction false} NodeListParts(nodes: seq<Json>, n: nat)
    requires n <= |nodes|
    ensures NodeListIssues(nodes, n) == Concat(NodeParts(nodes), n)
  {
    if n > 0 {
      NodeListParts(nodes, n - 1);
      ConcatExtend(NodeParts(nodes), n, NodeListIssues(nodes, n - 1), NodeIssuesAt(nodes, n - 1));
    }
  }

  function TargetParts(edges: seq<Json>, ids: set<string>): (r: seq<seq<ImportError>>)
    ensures |r| == |edges| && forall j :: 0 <= j < |edges| ==> r[j] == TargetIssue(edges[j], ids)
  {
    seq(|edges|, j requires 0 <= j < |edges| => TargetIssue(edges[j], ids))
  }

  lemma {:induction false} TargetListParts(edges: seq<Json>, ids: set<string>, n: nat)
    requires n <= |edges|
    ensures TargetIssues(edges, ids, n) == Concat(TargetParts(edges, ids), n)
  {
    if n > 0 {
      TargetListParts(edges, ids, n - 1);
      ConcatExtend(TargetParts(edges, ids), n, TargetIssues(edges, ids, n - 1), TargetIssue(edges[n - 1], ids));
    }
  }

  function RefParts(nodes: seq<Json>, ids: set<string>): (r: seq<seq<ImportError>>)
    ensures |r| == |nodes| && forall i :: 0 <= i < |nodes| ==> r[i] == NodeRefIssuesAt(nodes, ids, i)
  {
    seq(|nodes|, i requires 0 <= i < |nodes| => NodeRefIssuesAt(nodes, ids, i))
  }

  lemma {:induction false} RefListParts(nodes: seq<Json>, ids: set<string>, n: nat)
    requires n <= |nodes|
    ensures RefIssues(nodes, ids, n) == Concat(RefParts(nodes, ids), n)
  {
    if n > 0 {
      RefListParts(nodes, ids, n - 1);
      ConcatExtend(RefParts(nodes, ids), n, RefIssues(nodes, ids, n - 1), NodeRefIssuesAt(nodes, ids, n - 1));
    }
  }

  // Clean runs

  /** An edge draws no problem exactly when it is well formed. */
  lemma EdgeClean(edge: Json, i: nat, j: nat)
    ensures |EdgeIssues(edge, i, j)| == 0 <==> EdgeWellFormed(edge)
  {
  }

  /** A node draws no problem exactly when it is well formed and its id is new. */
  lemma NodeClean(node: Json, i: nat, seen: set<string>)
    ensures |NodeIssues(node, i, seen)| == 0 <==> NodeWellFormed(node) && ValidId(node).value !in seen
  {
    if IsObjectLike(node) && GetArray(node, "edges").Some? {
      var es := EdgesOf(node);
      var parts := EdgeParts(es, i);
      forall j | 0 <= j < |es|
        ensures |parts[j]| == 0 <==> EdgeWellFormed(es[j])
      {
        EdgeClean(es[j], i, j);
      }
      EdgeListParts(es, i, |es|);
      if |EdgeListIssues(es, i, |es|)| == 0 {
        ConcatEmptyOnlyIf(parts, |es|);
      }
      if forall j :: 0 <= j < |es| ==> EdgeWellFormed(es[j]) {
        ConcatEmptyIf(parts, |es|);
      }
    }
  }

  /** A clean node pass means well-formed nodes with pairwise different ids. */
  lemma NodesCleanOnlyIf(nodes: seq<Json>)
    requires |NodeListIssues(nodes, |nodes|)| == 0
    ensures forall i :: 0 <= i < |nodes| ==> NodeWellFormed(nodes[i])
    ensures forall k, i :: 0 <= k < i < |nodes| ==> ValidId(nodes[k]) != ValidId(nodes[i])
  {
    var parts := NodeParts(nodes);
    NodeListParts(nodes, |nodes|);
    ConcatEmptyOnlyIf(parts, |nodes|);
    forall i | 0 <= i < |nodes|
      ensures NodeWellFormed(nodes[i]) && ValidId(nodes[i]).value !in IdsUpTo(nodes, i)
    {
      assert |parts[i]| == 0;
      NodeClean(nodes[i], i, IdsUpTo(nodes, i));
    }
    forall k, i | 0 <= k < i < |nodes|
      ensures ValidId(nodes[k]) != ValidId(nodes[i])
    {
      IdsMeaning(nodes, i, ValidId(nodes[k]).value);
    }
  }

  /** Well-formed nodes with pairwise different ids make a clean node pass. */
  lemma NodesCleanIf(nodes: seq<Json>)
    requires forall i :: 0 <= i < |nodes| ==> NodeWellFormed(nodes[i])
    requires forall k, i :: 0 <= k < i < |nodes| ==> ValidId(nodes[k]) != ValidId(nodes[i])
    ensures |NodeListIssues(nodes, |nodes|)| == 0
  {
    var parts := NodeParts(nodes);
    forall i | 0 <= i < |nodes|
      ensures |parts[i]| == 0
    {
      IdsMeaning(nodes, i, ValidId(nodes[i]).value);
      NodeClean(nodes[i], i, IdsUpTo(nodes, i));
    }
    ConcatEmptyIf(parts, |nodes|);
    NodeListParts(nodes, |nodes|);
  }

  /** One node's edges raise no reference problem exactly when all their targets are declared. */
  lemma NodeRefsClean(nodes: seq<Json>, i: nat)
    requires i < |nodes| && NodeWellFormed(nodes[i])
    ensures |NodeRefIssues(nodes[i], IdsUpTo(nodes, |nodes|))| == 0 <==>
      forall j :: 0 <= j < |EdgesOf(nodes[i])| ==> TargetDeclared(nodes, EdgesOf(nodes[i])[j])
  {
    var ids := IdsUpTo(nodes, |nodes|);
    var es := EdgesOf(nodes[i]);
    var parts := TargetParts(es, ids);
    forall j | 0 <= j < |es|
      ensures |parts[j]| == 0 <==> TargetDeclared(nodes, es[j])
    {
      assert EdgeWellFormed(es[j]);
      IdsMeaning(nodes, |nodes|, NonBlankString(es[j], "to_node_id").value);
    }
    TargetListParts(es, ids, |es|);
    if |TargetIssues(es, ids, |es|)| == 0 {
      ConcatEmptyOnlyIf(parts, |es|);
    }
    if forall j :: 0 <= j < |es| ==> TargetDeclared(nodes, es[j]) {
      ConcatEmptyIf(parts, |es|);
    }
  }

  /** With well-formed nodes, the reference pass is clean exactly when every edge target is declared. */
  lemma RefsClean(nodes: seq<Json>)
    requires forall i :: 0 <= i < |nodes| ==> NodeWellFormed(nodes[i])
    ensures |RefIssues(nodes, IdsUpTo(nodes, |nodes|), |nodes|)| == 0 <==>
      forall i, j :: 0 <= i < |nodes| && 0 <= j < |EdgesOf(nodes[i])| ==> TargetDeclared(nodes, EdgesOf(nodes[i])[j])
  {
    var ids := IdsUpTo(nodes, |nodes|);
    var parts := RefParts(nodes, ids);
    forall i | 0 <= i < |nodes|
      ensures |parts[i]| == 0 <==>
        forall j :: 0 <= j < |EdgesOf(nodes[i])| ==> TargetDeclared(nodes, EdgesOf(nodes[i])[j])
    {
      NodeRefsClean(nodes, i);
    }
    RefListParts(nodes, ids, |nodes|);
    if |RefIssues(nodes, ids, |nodes|)| == 0 {
      ConcatEmptyOnlyIf(parts, |nodes|);
    }
    if forall i :: 0 <= i < |nodes| ==> |parts[i]| == 0 {
      ConcatEmptyIf(parts, |nodes|);
    }
  }

  /** The validator reports nothing exactly for the inputs the importer accepts. */
  lemma ValidateImportClean(data: Json)
    ensures |Issues(data)| == 0 <==> WellFormedImport(data)
  {
    if IsObjectLike(data) && GetString(data, "start_node_id").Some? && GetArray(data, "nodes").Some?
      && |GetArray(data, "nodes").value| > 0
    {
      var nodes := GetArray(data, "nodes").value;
      var start := GetString(data, "start_node_id").value;
      IdsMeaning(nodes, |nodes|, start);
      if |NodeListIssues(nodes, |nodes|)| == 0 {
        NodesCleanOnlyIf(nodes);
      }
      if WellFormedImport(data) {
        NodesCleanIf(nodes);
      }
      if forall i :: 0 <= i < |nodes| ==> NodeWellFormed(nodes[i]) {
        RefsClean(nodes);
        IdsMeaning(nodes, |nodes|, ValidId(nodes[0]).value);
      }
    }
  }

  // Where each reported problem comes from

  /** The problems that concern one node or one of its edges; they carry the node's index `i`. */
  predicate NodeLevel(x: ImportError)
  {
    || x.NodeNotObject? || x.MissingId? || x.DuplicateId? || x.MissingDescription? || x.MissingPrompt? || x.BadEdges?
    || x.EdgeNotObject? || x.MissingTarget? || x.MissingCondition? || x.BadParameters?
  }

  lemma EdgeIssueShape(edge: Json, i: nat, j: nat, x: ImportError)
    requires x in EdgeIssues(edge, i, j)
    ensures NodeLevel(x) && x.i == i && !x.MissingId? && !x.DuplicateId?
  {
  }

  lemma EdgeListShape(edges: seq<Json>, i: nat, x: ImportError)
    requires x in EdgeListIssues(edges, i, |edges|)
    ensures NodeLevel(x) && x.i == i && !x.MissingId? && !x.DuplicateId?
  {
    EdgeListParts(edges, i, |edges|);
    ConcatFrom(EdgeParts(edges, i), |edges|, x);
    var j :| 0 <= j < |edges| && x in EdgeParts(edges, i)[j];
    EdgeIssueShape(edges[j], i, j, x);
  }

  /** What node `k` reports is about node `k`, and its id problems come from the id check. */
  lemma NodeShape(nodes: seq<Json>, k: nat, x: ImportError)
    requires k < |nodes| && x in NodeIssuesAt(nodes, k)
    ensures NodeLevel(x) && x.i == k
    ensures x.MissingId? || x.DuplicateId? ==> x in IdIssues(nodes[k], k, IdsUpTo(nodes, k))
  {
    var node := nodes[k];
    if IsObjectLike(node) && GetArray(node, "edges").Some? && x in EdgeListIssues(EdgesOf(node), k, |EdgesOf(node)|) {
      EdgeListShape(EdgesOf(node), k, x);
    }
  }

  /** Everything the node pass reports is about one of the nodes and found by its own checks. */
  lemma NodeListShape(nodes: seq<Json>, x: ImportError)
    requires x in NodeListIssues(nodes, |nodes|)
    ensures NodeLevel(x) && x.i < |nodes| && x in NodeIssuesAt(nodes, x.i)
  {
    NodeListParts(nodes, |nodes|);
    ConcatFrom(NodeParts(nodes), |nodes|, x);
    var k :| 0 <= k < |nodes| && x in NodeParts(nodes)[k];
    NodeShape(nodes, k, x);
  }

  /** Edge `j` of node `i` is an object whose non-blank target is not among `ids`. */
  predicate DanglingAt(nodes: seq<Json>, ids: set<string>, i: nat, j: nat, target: string)
  {
    && i < |nodes| && IsObjectLike(nodes[i]) && j < |EdgesOf(nodes[i])|
    && Dangling(EdgesOf(nodes[i])[j], ids) && NonBlankString(EdgesOf(nodes[i])[j], "to_node_id") == Some(target)
  }

  lemma TargetShape(edges: seq<Json>, ids: set<string>, x: ImportError)
    requires x in TargetIssues(edges, ids, |edges|)
    ensures x.UnknownTarget?
    ensures exists j :: 0 <= j < |edges| && Dangling(edges[j], ids) && NonBlankString(edges[j], "to_node_id") == Some(x.target)
  {
    TargetListParts(edges, ids, |edges|);
    ConcatFrom(TargetParts(edges, ids), |edges|, x);
    var j :| 0 <= j < |edges| && x in TargetParts(edges, ids)[j];
    assert x in TargetIssue(edges[j], ids);
  }

  /** The reference pass reports only unknown targets, each for a dangling edge. */
  lemma RefShape(nodes: seq<Json>, ids: set<string>, x: ImportError)
    requires x in RefIssues(nodes, ids, |nodes|)
    ensures x.UnknownTarget? && exists i, j :: DanglingAt(nodes, ids, i, j, x.target)
  {
    RefListParts(nodes, ids, |nodes|);
    ConcatFrom(RefParts(nodes, ids), |nodes|, x);
    var i :| 0 <= i < |nodes| && x in RefParts(nodes, ids)[i];
    var es := EdgesOf(nodes[i]);
    assert IsObjectLike(nodes[i]) && x in TargetIssues(es, ids, |es|);
    TargetShape(es, ids, x);
    var j :| 0 <= j < |es| && Dangling(es[j], ids) && NonBlankString(es[j], "to_node_id") == Some(x.target);
    assert DanglingAt(nodes, ids, i, j, x.target);
  }

  /** A dangling edge is reported by the reference pass. */
  lemma RefReported(nodes: seq<Json>, ids: set<string>, i: nat, j: nat, target: string)
    requires DanglingAt(nodes, ids, i, j, target)
    ensures UnknownTarget(target) in RefIssues(nodes, ids, |nodes|)
  {
    var es := EdgesOf(nodes[i]);
    TargetListParts(es, ids, |es|);
    assert UnknownTarget(target) in TargetParts(es, ids)[j];
    ConcatHas(TargetParts(es, ids), |es|, j, UnknownTarget(target));
    RefListParts(nodes, ids, |nodes|);
    assert UnknownTarget(target) in RefParts(nodes, ids)[i];
    ConcatHas(RefParts(nodes, ids), |nodes|, i, UnknownTarget(target));
  }

  /** An input that gets past the top-level checks: an object with a non-empty `nodes` array. */
  predicate HasNodes(data: Json)
  {
    IsObjectLike(data) && GetArray(data, "nodes").Some? && |GetArray(data, "nodes").value| > 0
  }

  /** Past the top-level checks, the report is the node pass, the start check and the reference pass. */
  lemma IssuesSplit(data: Json)
    requires HasNodes(data)
    ensures var nodes := GetArray(data, "nodes").value;
      var ids := IdsUpTo(nodes, |nodes|);
      Issues(data) ==
        (if GetString(data, "start_node_id").None? then [BadStartNodeId] else [])
        + NodeListIssues(nodes, |nodes|) + StartIssues(GetString(data, "start_node_id"), ids) + RefIssues(nodes, ids, |nodes|)
  {
  }

  /** The checks are not fail-fast: every problem of every node is reported. */
  lemma NodeProblemsReported(data: Json, i: nat, x: ImportError)
    requires HasNodes(data) && i < |GetArray(data, "nodes").value|
    requires x in NodeIssuesAt(GetArray(data, "nodes").value, i)
    ensures x in Issues(data)
  {
    var nodes := GetArray(data, "nodes").value;
    NodeListParts(nodes, |nodes|);
    assert x in NodeParts(nodes)[i];
    ConcatHas(NodeParts(nodes), |nodes|, i, x);
    IssuesSplit(data);
  }

  /** ... and every problem of every edge of an object node. */
  lemma EdgeProblemsReported(data: Json, i: nat, j: nat, x: ImportError)
    requires HasNodes(data) && i < |GetArray(data, "nodes").value|
    requires IsObjectLike(GetArray(data, "nodes").value[i]) && j < |EdgesOf(GetArray(data, "nodes").value[i])|
    requires x in EdgeIssues(EdgesOf(GetArray(data, "nodes").value[i])[j], i, j)
    ensures x in Issues(data)
  {
    var nodes := GetArray(data, "nodes").value;
    var edges := EdgesOf(nodes[i]);
    EdgeListParts(edges, i, |edges|);
    assert x in EdgeParts(edges, i)[j];
    ConcatHas(EdgeParts(edges, i), |edges|, j, x);
    assert x in NodeIssuesAt(nodes, i);
    NodeProblemsReported(data, i, x);
  }

  /** A non-object node or edge costs one message and checking goes on. */
  lemma NonObjectsReported(data: Json, i: nat)
    requires HasNodes(data) && i < |GetArray(data, "nodes").value|
    ensures var node := GetArray(data, "nodes").value[i];
      !IsObjectLike(node) ==> NodeIssuesAt(GetArray(data, "nodes").value, i) == [NodeNotObject(i)] && NodeNotObject(i) in Issues(data)
    ensures var node := GetArray(data, "nodes").value[i];
      forall j :: IsObjectLike(node) && 0 <= j < |EdgesOf(node)| && !IsObjectLike(EdgesOf(node)[j]) ==>
        EdgeNotObject(i, j) in Issues(data)
  {
    var nodes := GetArray(data, "nodes").value;
    if !IsObjectLike(nodes[i]) {
      NodeProblemsReported(data, i, NodeNotObject(i));
    }
    forall j | IsObjectLike(nodes[i]) && 0 <= j < |EdgesOf(nodes[i])| && !IsObjectLike(EdgesOf(nodes[i])[j])
      ensures EdgeNotObject(i, j) in Issues(data)
    {
      EdgeProblemsReported(data, i, j, EdgeNotObject(i, j));
    }
  }

  /** A problem about node `i` is found by that node's own checks. */
  lemma NodeProblemSource(data: Json, x: ImportError)
    requires HasNodes(data) && x in Issues(data) && NodeLevel(x)
    ensures x.i < |GetArray(data, "nodes").value| && x in NodeIssuesAt(GetArray(data, "nodes").value, x.i)
  {
    var nodes := GetArray(data, "nodes").value;
    var ids := IdsUpTo(nodes, |nodes|);
    IssuesSplit(data);
    if x in RefIssues(nodes, ids, |nodes|) {
      RefShape(nodes, ids, x);
    }
    NodeListShape(nodes, x);
  }

  /**
   * A non-blank id is reported as a duplicate exactly at the nodes whose id
   * an earlier node already carries, so once for each occurrence after the
   * first.
   */
  lemma DuplicateReported(data: Json, i: nat, id: string)
    requires HasNodes(data) && i < |GetArray(data, "nodes").value|
    ensures var nodes := GetArray(data, "nodes").value;
      DuplicateId(i, id) in Issues(data) <==> IsObjectLike(nodes[i]) && ValidId(nodes[i]) == Some(id) && Declares(nodes, i, id)
  {
    var nodes := GetArray(data, "nodes").value;
    IdsMeaning(nodes, i, id);
    if DuplicateId(i, id) in Issues(data) {
      NodeProblemSource(data, DuplicateId(i, id));
      NodeShape(nodes, i, DuplicateId(i, id));
    } else if IsObjectLike(nodes[i]) && ValidId(nodes[i]) == Some(id) && Declares(nodes, i, id) {
      NodeProblemsReported(data, i, DuplicateId(i, id));
    }
  }

  /** A blank or non-string id is reported as missing, and such a node is never a duplicate. */
  lemma MissingIdReported(data: Json, i: nat)
    requires HasNodes(data) && i < |GetArray(data, "nodes").value|
    ensures var nodes := GetArray(data, "nodes").value;
      MissingId(i) in Issues(data) <==> IsObjectLike(nodes[i]) && ValidId(nodes[i]).None?
    ensures var nodes := GetArray(data, "nodes").value;
      ValidId(nodes[i]).None? ==> forall id :: DuplicateId(i, id) !in Issues(data)
  {
    var nodes := GetArray(data, "nodes").value;
    if MissingId(i) in Issues(data) {
      NodeProblemSource(data, MissingId(i));
      NodeShape(nodes, i, MissingId(i));
    } else if IsObjectLike(nodes[i]) && ValidId(nodes[i]).None? {
      NodeProblemsReported(data, i, MissingId(i));
    }
    forall id | ValidId(nodes[i]).None?
      ensures DuplicateId(i, id) !in Issues(data)
    {
      DuplicateReported(data, i, id);
    }
  }

  /** Some node carries a non-blank id, so the set of recorded ids is not empty. */
  predicate SomeIdDeclared(nodes: seq<Json>)
  {
    exists k :: 0 <= k < |nodes| && ValidId(nodes[k]).Some?
  }

  lemma IdsNonEmpty(nodes: seq<Json>)
    ensures IdsUpTo(nodes, |nodes|) != {} <==> SomeIdDeclared(nodes)
  {
    if SomeIdDeclared(nodes) {
      var k :| 0 <= k < |nodes| && ValidId(nodes[k]).Some?;
      IdsMeaning(nodes, |nodes|, ValidId(nodes[k]).value);
    }
    if IdsUpTo(nodes, |nodes|) != {} {
      var id :| id in IdsUpTo(nodes, |nodes|);
      IdsMeaning(nodes, |nodes|, id);
    }
  }

  /** The start problem appears only through the start check. */
  lemma StartSource(data: Json, start: string)
    requires HasNodes(data)
    ensures var nodes := GetArray(data, "nodes").value;
      UnknownStart(start) in Issues(data) <==> UnknownStart(start) in StartIssues(GetString(data, "start_node_id"), IdsUpTo(nodes, |nodes|))
  {
    var nodes := GetArray(data, "nodes").value;
    var ids := IdsUpTo(nodes, |nodes|);
    IssuesSplit(data);
    if UnknownStart(start) in NodeListIssues(nodes, |nodes|) {
      NodeListShape(nodes, UnknownStart(start));
    }
    if UnknownStart(start) in RefIssues(nodes, ids, |nodes|) {
      RefShape(nodes, ids, UnknownStart(start));
    }
  }

  /**
   * `start_node_id` draws a reference problem exactly when it is a non-blank
   * string naming no node while some node has an id; a blank one passes.
   */
  lemma StartReported(data: Json, start: string)
    requires HasNodes(data)
    ensures var nodes := GetArray(data, "nodes").value;
      UnknownStart(start) in Issues(data) <==>
        GetString(data, "start_node_id") == Some(start) && !IsBlank(start)
        && SomeIdDeclared(nodes) && !Declares(nodes, |nodes|, start)
  {
    var nodes := GetArray(data, "nodes").value;
    IdsMeaning(nodes, |nodes|, start);
    IdsNonEmpty(nodes);
    StartSource(data, start);
  }

  /** Edge `j` of node `i` is an object whose non-blank `to_node_id` names no node. */
  predicate UnresolvedEdge(nodes: seq<Json>, i: nat, j: nat, target: string)
  {
    && i < |nodes| && IsObjectLike(nodes[i]) && j < |EdgesOf(nodes[i])|
    && IsObjectLike(EdgesOf(nodes[i])[j]) && NonBlankString(EdgesOf(nodes[i])[j], "to_node_id") == Some(target)
    && !Declares(nodes, |nodes|, target)
  }

  /** Every unresolved edge target is reported with its text, and nothing else is reported as one. */
  lemma TargetReported(data: Json, target: string)
    requires HasNodes(data)
    ensures var nodes := GetArray(data, "nodes").value;
      UnknownTarget(target) in Issues(data) <==> exists i, j :: UnresolvedEdge(nodes, i, j, target)
  {
    var nodes := GetArray(data, "nodes").value;
    var ids := IdsUpTo(nodes, |nodes|);
    var x := UnknownTarget(target);
    IdsMeaning(nodes, |nodes|, target);
    IssuesSplit(data);
    if x in Issues(data) {
      if x in NodeListIssues(nodes, |nodes|) {
        NodeListShape(nodes, x);
      }
      RefShape(nodes, ids, x);
      var i, j :| DanglingAt(nodes, ids, i, j, target);
      assert UnresolvedEdge(nodes, i, j, target);
    }
    if exists i, j :: UnresolvedEdge(nodes, i, j, target) {
      var i, j :| UnresolvedEdge(nodes, i, j, target);
      assert DanglingAt(nodes, ids, i, j, target);
      RefReported(nodes, ids, i, j, target);
    }
  }

  // A worked example: a one-node flow whose only edge points at a node that does not exist

  function ExampleEdge(): Json
  {
    JObject([("to_node_id", JString("missing")), ("condition", JString(""))])
  }

  function ExampleNode(): Json
  {
    JObject([("id", JString("a")), ("description", JString("")), ("prompt", JString("")), ("edges", JArray([ExampleEdge()]))])
  }

  function ExampleData(): Json
  {
    JObject([("start_node_id", JString("a")), ("nodes", JArray([ExampleNode()]))])
  }

  lemma ExampleEdgeFields()
    ensures NonBlankString(ExampleEdge(), "to_node_id") == Some("missing")
    ensures EdgeIssues(ExampleEdge(), 0, 0) == []
  {
    var edge := ExampleEdge();
    assert !IsBlank("missing") by { assert !IsWhitespace("missing"[0]); }
    LookupUnique(edge.members, 0);
    LookupUnique(edge.members, 1);
    LookupMeaning(edge.members, "parameters");
  }

  lemma ExampleNodeFields()
    ensures ValidId(ExampleNode()) == Some("a")
    ensures EdgesOf(ExampleNode()) == [ExampleEdge()]
    ensures NodeIssues(ExampleNode(), 0, {}) == []
  {
    var node := ExampleNode();
    assert !IsBlank("a") by { assert !IsWhitespace("a"[0]); }
    LookupUnique(node.members, 0);
    LookupUnique(node.members, 1);
    LookupUnique(node.members, 2);
    LookupUnique(node.members, 3);
    ExampleEdgeFields();
    assert EdgeListIssues([ExampleEdge()], 0, 1) == [];
  }

  /** The example's only problem is the unknown edge target; its start id resolves. */
  lemma DanglingEdgeExample()
    ensures Issues(ExampleData()) == [UnknownTarget("missing")]
  {
    var data := ExampleData();
    var nodes := [ExampleNode()];
    LookupUnique(data.members, 0);
    LookupUnique(data.members, 1);
    assert GetString(data, "start_node_id") == Some("a");
    assert GetArray(data, "nodes") == Some(nodes);
    ExampleNodeList();
    ExampleRefs();
    assert StartIssues(Some("a"), {"a"}) == [];
    assert Issues(data) == [] + NodeListIssues(nodes, 1) + [] + RefIssues(nodes, {"a"}, 1);
  }

  lemma ExampleNodeList()
    ensures IdsUpTo([ExampleNode()], 1) == {"a"}
    ensures NodeListIssues([ExampleNode()], 1) == []
  {
    ExampleNodeFields();
    assert IdsUpTo([ExampleNode()], 1) == {"a"};
  }

  lemma ExampleRefs()
    ensures RefIssues([ExampleNode()], {"a"}, 1) == [UnknownTarget("missing")]
  {
    ExampleNodeFields();
    ExampleEdgeFields();
    assert TargetIssues([ExampleEdge()], {"a"}, 1) == [UnknownTarget("missing")];
  }
}
