/**
 * The validation engine of the flow editor: per-node warnings, flow-level
 * errors and the flag that blocks export, computed from nodes and edges.
 */
module FlowValidation {
  import opened Base
  import opened FlowTypes

  const NO_START: string := "No start node set"
  const EMPTY_ID: string := "Node ID is empty"
  const DUPLICATE_ID: string := "Duplicate node ID"
  const EMPTY_DESCRIPTION: string := "Description is empty"
  const ORPHANED: string := "Orphaned: no connections"
  const DISCONNECTED: string := "Disconnected: no incoming edges"
  const MISSING_CONDITION: string := "Edge missing condition text"

  /**
   * A `Map<string, string[]>` from internal node id to its messages;
   * `keys` are the map's keys in insertion order, the order `values()` follows.
   */
  datatype Warnings = Warnings(keys: seq<string>, lists: map<string, seq<string>>)

  /** Keys are listed once each, exactly the map's keys, and no list is empty. */
  predicate WellKeyed(w: Warnings)
  {
    && (forall a, b :: 0 <= a < b < |w.keys| ==> w.keys[a] != w.keys[b])
    && (forall id :: id in w.lists ==> id in w.keys)
    && (forall i :: 0 <= i < |w.keys| ==> w.keys[i] in w.lists)
    && (forall id :: id in w.lists ==> |w.lists[id]| > 0)
  }

  /** `nodeWarnings.get(id) || []` */
  function ListOf(w: Warnings, id: string): seq<string>
  {
    if id in w.lists then w.lists[id] else []
  }

  const NoWarnings: Warnings := Warnings([], map[])

  /** `addWarning(id, msg)`: the message goes at the end of the id's list; a new id becomes the last key. */
  function AddWarning(w: Warnings, id: string, msg: string): Warnings
  {
    Warnings(if id in w.lists then w.keys else w.keys + [id], w.lists[id := ListOf(w, id) + [msg]])
  }

  /** The messages `msgs` added one after the other to the list of `id`. */
  function AddAll(w: Warnings, id: string, msgs: seq<string>): Warnings
  {
    if msgs == [] then w else AddWarning(AddAll(w, id, msgs[..|msgs| - 1]), id, msgs[|msgs| - 1])
  }

  /** `addWarning` extends exactly one list. */
  lemma AddWarningFacts(w: Warnings, id: string, msg: string)
    ensures ListOf(AddWarning(w, id, msg), id) == ListOf(w, id) + [msg]
    ensures forall other :: other != id ==> ListOf(AddWarning(w, id, msg), other) == ListOf(w, other)
  {
  }

  /** The list of `id` after `addWarning(src, msg)`: one more message exactly when `src` is `id`. */
  lemma AddWarningAt(w: Warnings, src: string, msg: string, id: string)
    ensures ListOf(AddWarning(w, src, msg), id) == ListOf(w, id) + When(src == id, msg)
  {
  }

  /** `addWarning` keeps every key listed once, in step with the map. */
  lemma AddWarningKeyed(w: Warnings, id: string, msg: string)
    requires WellKeyed(w)
    ensures WellKeyed(AddWarning(w, id, msg))
  {
    var r := AddWarning(w, id, msg);
    if id !in w.lists {
      forall a, b | 0 <= a < b < |r.keys| ensures r.keys[a] != r.keys[b] {
        if b == |w.keys| {
          assert r.keys[a] == w.keys[a];
        }
      }
    }
  }

  /** Adding several messages for one id extends that id's list by them and leaves the others alone. */
  lemma {:induction false} AddAllFacts(w: Warnings, id: string, msgs: seq<string>)
    ensures WellKeyed(w) ==> WellKeyed(AddAll(w, id, msgs))
    ensures ListOf(AddAll(w, id, msgs), id) == ListOf(w, id) + msgs
    ensures forall other :: other != id ==> ListOf(AddAll(w, id, msgs), other) == ListOf(w, other)
  {
    if msgs != [] {
      var init := msgs[..|msgs| - 1];
      AddAllFacts(w, id, init);
      AddWarningFacts(AddAll(w, id, init), id, msgs[|msgs| - 1]);
      if WellKeyed(w) {
        AddWarningKeyed(AddAll(w, id, init), id, msgs[|msgs| - 1]);
      }
      assert init + [msgs[|msgs| - 1]] == msgs;
    }
  }

  /** `m.get(k) || 0` on a counting map. */
  function CountOf(m: map<string, nat>, k: string): nat
  {
    if k in m then m[k] else 0
  }

  // ---------------------------------------------------------------------
  // Counts

  /** The trimmed display ids, node by node. */
  function TrimmedIds(nodes: seq<FlowNode>): (r: seq<string>)
    ensures |r| == |nodes|
  {
    seq(|nodes|, j requires 0 <= j < |nodes| => Trim(nodes[j].data.displayId))
  }

  /** How many of the first `n` nodes have trimmed display id `did`. */
  function DisplayIdCount(nodes: seq<FlowNode>, n: nat, did: string): nat
    requires n <= |nodes|
  {
    Count(TrimmedIds(nodes), n, did)
  }

  /** How many of the first `m` edges enter node `id`. */
  function InDegree(edges: seq<FlowEdge>, m: nat, id: string): nat
    requires m <= |edges|
  {
    if m == 0 then 0 else InDegree(edges, m - 1, id) + if edges[m - 1].target == id then 1 else 0
  }

  /** How many of the first `m` edges leave node `id`. */
  function OutDegree(edges: seq<FlowEdge>, m: nat, id: string): nat
    requires m <= |edges|
  {
    if m == 0 then 0 else OutDegree(edges, m - 1, id) + if edges[m - 1].source == id then 1 else 0
  }

  lemma {:induction false} InDegreeZero(edges: seq<FlowEdge>, m: nat, id: string)
    requires m <= |edges|
    ensures InDegree(edges, m, id) == 0 <==> forall j :: 0 <= j < m ==> edges[j].target != id
  {
    if m > 0 {
      InDegreeZero(edges, m - 1, id);
    }
  }

  lemma {:induction false} OutDegreeZero(edges: seq<FlowEdge>, m: nat, id: string)
    requires m <= |edges|
    ensures OutDegree(edges, m, id) == 0 <==> forall j :: 0 <= j < m ==> edges[j].source != id
  {
    if m > 0 {
      OutDegreeZero(edges, m - 1, id);
    }
  }

  // ---------------------------------------------------------------------
  // The messages

  /** `[msg]` when `c` holds, else nothing. */
  function When(c: bool, msg: string): seq<string>
  {
    if c then [msg] else []
  }

  /** The display id checks: empty, or shared with another node. */
  function IdMessages(did: string, displayIdCount: nat): seq<string>
  {
    When(did == [], EMPTY_ID) + When(did != [] && displayIdCount > 1, DUPLICATE_ID)
  }

  /** The connectivity check: orphaned, else disconnected, else nothing. */
  function ConnectivityMessages(isStart: bool, incoming: nat, outgoing: nat, nodeCount: nat): seq<string>
  {
    if incoming == 0 && outgoing == 0 && nodeCount > 1 then [ORPHANED]
    else When(!isStart && incoming == 0 && nodeCount > 1, DISCONNECTED)
  }

  /**
   * The messages the node loop adds for `node`, in the order it adds them,
   * given the node's entries of the three counting maps and the node count.
   */
  function NodeMessages(node: FlowNode, displayIdCount: nat, incoming: nat, outgoing: nat, nodeCount: nat): seq<string>
  {
    IdMessages(Trim(node.data.displayId), displayIdCount)
    + When(Trim(node.data.description) == [], EMPTY_DESCRIPTION)
    + ConnectivityMessages(node.data.isStart, incoming, outgoing, nodeCount)
  }

  /** The messages of node `k` of the graph. */
  function MessagesOfNode(nodes: seq<FlowNode>, edges: seq<FlowEdge>, k: nat): seq<string>
    requires k < |nodes|
  {
    NodeMessages(nodes[k], DisplayIdCount(nodes, |nodes|, Trim(nodes[k].data.displayId)),
                 InDegree(edges, |edges|, nodes[k].id), OutDegree(edges, |edges|, nodes[k].id), |nodes|)
  }

  /** The message lists of all nodes, node by node. */
  function NodeMessageLists(nodes: seq<FlowNode>, edges: seq<FlowEdge>): (r: seq<seq<string>>)
    ensures |r| == |nodes|
  {
    seq(|nodes|, k requires 0 <= k < |nodes| => MessagesOfNode(nodes, edges, k))
  }

  /** The map after the node loop has added `lists[i]` for each of the first `k` nodes. */
  function AfterNodes(nodes: seq<FlowNode>, lists: seq<seq<string>>, k: nat): Warnings
    requires k <= |nodes| == |lists|
  {
    if k == 0 then NoWarnings
    else AddAll(AfterNodes(nodes, lists, k - 1), nodes[k - 1].id, lists[k - 1])
  }

  /** The map after the edge loop, started from `w`, has handled the first `m` edges. */
  function AfterEdges(w: Warnings, edges: seq<FlowEdge>, m: nat): Warnings
    requires m <= |edges|
  {
    if m == 0 then w
    else
      var w' := AfterEdges(w, edges, m - 1);
      if HasBlankCondition(edges[m - 1]) then AddWarning(w', edges[m - 1].source, MISSING_CONDITION) else w'
  }

  /** `nodeWarnings` as returned. */
  function NodeWarnings(nodes: seq<FlowNode>, edges: seq<FlowEdge>): Warnings
  {
    AfterEdges(AfterNodes(nodes, NodeMessageLists(nodes, edges), |nodes|), edges, |edges|)
  }

  /** No node is marked as start. */
  predicate NoStart(nodes: seq<FlowNode>)
  {
    forall k :: 0 <= k < |nodes| ==> !nodes[k].data.isStart
  }

  /** The flow-level errors: only the missing start node, and only for a non-empty graph. */
  function FlowErrors(nodes: seq<FlowNode>): seq<string>
  {
    if |nodes| > 0 && NoStart(nodes) then [NO_START] else []
  }

  /** One of the seven messages the engine produces. */
  predicate KnownMessage(msg: string)
  {
    || msg == NO_START || msg == EMPTY_ID || msg == DUPLICATE_ID || msg == EMPTY_DESCRIPTION
    || msg == ORPHANED || msg == DISCONNECTED || msg == MISSING_CONDITION
  }

  /** One of the three messages that block export. */
  predicate IsBlocking(msg: string)
  {
    msg == EMPTY_ID || msg == DUPLICATE_ID || msg == EMPTY_DESCRIPTION
  }

  /** `msgs.some(m => m === … )` over the three blocking messages. */
  predicate HasBlockingMessage(msgs: seq<string>)
  {
    exists j :: 0 <= j < |msgs| && IsBlocking(msgs[j])
  }

  /** `[...nodeWarnings.values()].some(msgs => …)` */
  predicate AnyBlocking(w: Warnings)
  {
    exists i :: 0 <= i < |w.keys| && HasBlockingMessage(ListOf(w, w.keys[i]))
  }

  datatype ValidationResult = ValidationResult(nodeWarnings: Warnings, flowErrors: seq<string>, hasBlockingErrors: bool)

  /** The `displayIdCounts` loop. */
  method CountDisplayIds(nodes: seq<FlowNode>) returns (counts: map<string, nat>)
    ensures forall did :: CountOf(counts, did) == DisplayIdCount(nodes, |nodes|, did)
  {
    ghost var ids := TrimmedIds(nodes);
    counts := map[];
    for k := 0 to |nodes|
      invariant forall did :: CountOf(counts, did) == Count(ids, k, did)
    {
      var did := Trim(nodes[k].data.displayId);
      assert did == ids[k];
      counts := counts[did := CountOf(counts, did) + 1];
    }
  }

  /** The `incomingCount` loop. */
  method CountIncoming(edges: seq<FlowEdge>) returns (counts: map<string, nat>)
    ensures forall id :: CountOf(counts, id) == InDegree(edges, |edges|, id)
  {
    counts := map[];
    for m := 0 to |edges|
      invariant forall id :: CountOf(counts, id) == InDegree(edges, m, id)
    {
      counts := counts[edges[m].target := CountOf(counts, edges[m].target) + 1];
    }
  }

  /** The `outgoingCount` loop. */
  method CountOutgoing(edges: seq<FlowEdge>) returns (counts: map<string, nat>)
    ensures forall id :: CountOf(counts, id) == OutDegree(edges, |edges|, id)
  {
    counts := map[];
    for m := 0 to |edges|
      invariant forall id :: CountOf(counts, id) == OutDegree(edges, m, id)
    {
      counts := counts[edges[m].source := CountOf(counts, edges[m].source) + 1];
    }
  }

  /**
   * One pass of the node loop: the checks on `node`, each adding its
   * message when it fires. `displayIdCount`, `incoming` and `outgoing` are
   * the node's entries of the three counting maps.
   */
  method CheckNode(w: Warnings, node: FlowNode, displayIdCount: nat, incoming: nat, outgoing: nat, nodeCount: nat)
    returns (w': Warnings)
    ensures w' == AddAll(w, node.id, NodeMessages(node, displayIdCount, incoming, outgoing, nodeCount))
  {
    var did := Trim(node.data.displayId);
    w' := w;
    if did == [] {
      w' := AddWarning(w', node.id, EMPTY_ID);
    }
    ghost var w1 := w';
    AddWhen(w, node.id, did == [], EMPTY_ID);
    if did != [] && displayIdCount > 1 {
      w' := AddWarning(w', node.id, DUPLICATE_ID);
    }
    ghost var w2 := w';
    AddWhen(w1, node.id, did != [] && displayIdCount > 1, DUPLICATE_ID);
    if Trim(node.data.description) == [] {
      w' := AddWarning(w', node.id, EMPTY_DESCRIPTION);
    }
    ghost var w3 := w';
    AddWhen(w2, node.id, Trim(node.data.description) == [], EMPTY_DESCRIPTION);
    if incoming == 0 && outgoing == 0 && nodeCount > 1 {
      w' := AddWarning(w', node.id, ORPHANED);
    } else if !node.data.isStart && incoming == 0 && nodeCount > 1 {
      w' := AddWarning(w', node.id, DISCONNECTED);
    }
    AddConnectivity(w3, node.id, node.data.isStart, incoming, outgoing, nodeCount);
    AddAllAppend(w, node.id, When(did == [], EMPTY_ID), When(did != [] && displayIdCount > 1, DUPLICATE_ID));
    AddAllAppend(w, node.id, IdMessages(did, displayIdCount), When(Trim(node.data.description) == [], EMPTY_DESCRIPTION));
    AddAllAppend(w, node.id, IdMessages(did, displayIdCount) + When(Trim(node.data.description) == [], EMPTY_DESCRIPTION),
                 ConnectivityMessages(node.data.isStart, incoming, outgoing, nodeCount));
  }

  /** A conditional `addWarning` adds the conditional message. */
  lemma AddWhen(w: Warnings, id: string, c: bool, msg: string)
    ensures AddAll(w, id, When(c, msg)) == if c then AddWarning(w, id, msg) else w
  {
    if c {
      assert When(c, msg)[..0] == [];
    }
  }

  /** The orphaned/disconnected `if`–`else if` adds the connectivity messages. */
  lemma AddConnectivity(w: Warnings, id: string, isStart: bool, incoming: nat, outgoing: nat, nodeCount: nat)
    ensures AddAll(w, id, ConnectivityMessages(isStart, incoming, outgoing, nodeCount)) ==
      if incoming == 0 && outgoing == 0 && nodeCount > 1 then AddWarning(w, id, ORPHANED)
      else if !isStart && incoming == 0 && nodeCount > 1 then AddWarning(w, id, DISCONNECTED)
      else w
  {
    if incoming == 0 && outgoing == 0 && nodeCount > 1 {
      AddWhen(w, id, true, ORPHANED);
    } else {
      AddWhen(w, id, !isStart && incoming == 0 && nodeCount > 1, DISCONNECTED);
    }
  }

  /** Adding `a` and then `b` is adding `a + b`. */
  lemma {:induction false} AddAllAppend(w: Warnings, id: string, a: seq<string>, b: seq<string>)
    ensures AddAll(AddAll(w, id, a), id, b) == AddAll(w, id, a + b)
  {
    if b == [] {
      assert a + b == a;
    } else {
      AddAllAppend(w, id, a, b[..|b| - 1]);
      assert (a + b)[..|a + b| - 1] == a + b[..|b| - 1];
    }
  }

  /** `[...nodeWarnings.values()].some((msgs) => msgs.some(…))` */
  method FindBlocking(w: Warnings) returns (blocking: bool)
    ensures blocking <==> AnyBlocking(w)
  {
    blocking := false;
    for i := 0 to |w.keys|
      invariant blocking <==> exists a :: 0 <= a < i && HasBlockingMessage(ListOf(w, w.keys[a]))
    {
      var msgs := ListOf(w, w.keys[i]);
      var found := false;
      for j := 0 to |msgs|
        invariant found <==> exists b :: 0 <= b < j && IsBlocking(msgs[b])
      {
        var msg := msgs[j];
        if msg == EMPTY_ID || msg == DUPLICATE_ID || msg == EMPTY_DESCRIPTION {
          found := true;
        }
      }
      blocking := blocking || found;
    }
  }

  /** The node loop, starting from the empty map. */
  method CheckNodes(nodes: seq<FlowNode>, edges: seq<FlowEdge>,
                    displayIdCounts: map<string, nat>, incomingCount: map<string, nat>, outgoingCount: map<string, nat>)
    returns (w: Warnings)
    requires forall did :: CountOf(displayIdCounts, did) == DisplayIdCount(nodes, |nodes|, did)
    requires forall id :: CountOf(incomingCount, id) == InDegree(edges, |edges|, id)
    requires forall id :: CountOf(outgoingCount, id) == OutDegree(edges, |edges|, id)
    ensures w == AfterNodes(nodes, NodeMessageLists(nodes, edges), |nodes|)
  {
    ghost var lists := NodeMessageLists(nodes, edges);
    w := NoWarnings;
    for k := 0 to |nodes|
      invariant w == AfterNodes(nodes, lists, k)
    {
      var node := nodes[k];
      w := CheckNode(w, node, CountOf(displayIdCounts, Trim(node.data.displayId)),
                     CountOf(incomingCount, node.id), CountOf(outgoingCount, node.id), |nodes|);
    }
  }

  /** The edge loop: a warning on the source id of every edge whose condition is missing or blank. */
  method CheckEdges(w0: Warnings, edges: seq<FlowEdge>) returns (w: Warnings)
    ensures w == AfterEdges(w0, edges, |edges|)
  {
    w := w0;
    for m := 0 to |edges|
      invariant w == AfterEdges(w0, edges, m)
    {
      var edge := edges[m];
      if edge.data.None? || Trim(edge.data.value.condition) == [] {
        w := AddWarning(w, edge.source, MISSING_CONDITION);
      }
    }
  }

  /** The validation computation: the start check, the counting loops, the node loop, the edge loop and the blocking test. */
  method ValidateFlow(nodes: seq<FlowNode>, edges: seq<FlowEdge>) returns (r: ValidationResult)
    ensures r.flowErrors == FlowErrors(nodes)
    ensures r.nodeWarnings == NodeWarnings(nodes, edges)
    ensures r.hasBlockingErrors <==> |r.flowErrors| > 0 || AnyBlocking(r.nodeWarnings)
    ensures r.hasBlockingErrors <==>
      (|nodes| > 0 && NoStart(nodes)) || exists k :: 0 <= k < |nodes| && NodeBlocks(nodes, k)
  {
    var w;
    var flowErrors: seq<string> := [];

    var startNodes := Filter(nodes, (n: FlowNode) => n.data.isStart);
    if |nodes| > 0 && |startNodes| == 0 {
      flowErrors := flowErrors + [NO_START];
    }

    var displayIdCounts := CountDisplayIds(nodes);
    var incomingCount := CountIncoming(edges);
    var outgoingCount := CountOutgoing(edges);

    w := CheckNodes(nodes, edges, displayIdCounts, incomingCount, outgoingCount);
    w := CheckEdges(w, edges);

    var blocking := FindBlocking(w);
    r := ValidationResult(w, flowErrors, |flowErrors| > 0 || blocking);
    BlockingMeaning(nodes, edges);
  }

  // ---------------------------------------------------------------------
  // What the map holds

  /** The lists of the first `k` nodes whose internal id is `id`, joined in node order. */
  function Gathered(nodes: seq<FlowNode>, lists: seq<seq<string>>, k: nat, id: string): seq<string>
    requires k <= |nodes| == |lists|
  {
    if k == 0 then [] else Gathered(nodes, lists, k - 1, id) + if nodes[k - 1].id == id then lists[k - 1] else []
  }

  /** One `'Edge missing condition text'` per edge among the first `m` that leaves `id` with a blank condition. */
  function EdgeMessagesFor(edges: seq<FlowEdge>, m: nat, id: string): seq<string>
    requires m <= |edges|
  {
    if m == 0 then []
    else EdgeMessagesFor(edges, m - 1, id) + When(edges[m - 1].source == id && HasBlankCondition(edges[m - 1]), MISSING_CONDITION)
  }

  lemma {:induction false} AfterNodesMeaning(nodes: seq<FlowNode>, lists: seq<seq<string>>, k: nat, id: string)
    requires k <= |nodes| == |lists|
    ensures WellKeyed(AfterNodes(nodes, lists, k))
    ensures ListOf(AfterNodes(nodes, lists, k), id) == Gathered(nodes, lists, k, id)
  {
    if k > 0 {
      var before := AfterNodes(nodes, lists, k - 1);
      AfterNodesMeaning(nodes, lists, k - 1, id);
      AddAllFacts(before, nodes[k - 1].id, lists[k - 1]);
      if nodes[k - 1].id == id {
        assert Gathered(nodes, lists, k, id) == Gathered(nodes, lists, k - 1, id) + lists[k - 1];
      } else {
        assert Gathered(nodes, lists, k, id) == Gathered(nodes, lists, k - 1, id) + [];
      }
    }
  }

  lemma {:induction false} AfterEdgesKeyed(w: Warnings, edges: seq<FlowEdge>, m: nat)
    requires m <= |edges| && WellKeyed(w)
    ensures WellKeyed(AfterEdges(w, edges, m))
  {
    if m > 0 {
      AfterEdgesKeyed(w, edges, m - 1);
      if HasBlankCondition(edges[m - 1]) {
        AddWarningKeyed(AfterEdges(w, edges, m - 1), edges[m - 1].source, MISSING_CONDITION);
      }
    }
  }

  lemma {:induction false} AfterEdgesMeaning(w: Warnings, edges: seq<FlowEdge>, m: nat, id: string)
    requires m <= |edges|
    ensures ListOf(AfterEdges(w, edges, m), id) == ListOf(w, id) + EdgeMessagesFor(edges, m, id)
  {
    if m > 0 {
      AfterEdgesMeaning(w, edges, m - 1, id);
      var w' := AfterEdges(w, edges, m - 1);
      var e := edges[m - 1];
      var earlier := EdgeMessagesFor(edges, m - 1, id);
      var added := When(e.source == id && HasBlankCondition(e), MISSING_CONDITION);
      assert EdgeMessagesFor(edges, m, id) == earlier + added;
      if HasBlankCondition(e) {
        assert AfterEdges(w, edges, m) == AddWarning(w', e.source, MISSING_CONDITION);
        AddWarningAt(w', e.source, MISSING_CONDITION, id);
        assert When(e.source == id, MISSING_CONDITION) == added;
      } else {
        assert AfterEdges(w, edges, m) == w';
        assert added == [];
      }
      assert ListOf(w, id) + earlier + added == ListOf(w, id) + (earlier + added);
    }
  }

  /**
   * The warnings of internal id `id` are the messages of every node with
   * that id, in node order, followed by one missing-condition message per
   * edge leaving `id` with a blank condition, whether or not `id` is a node.
   */
  lemma WarningsMeaning(nodes: seq<FlowNode>, edges: seq<FlowEdge>, id: string)
    ensures WellKeyed(NodeWarnings(nodes, edges))
    ensures ListOf(NodeWarnings(nodes, edges), id) ==
      Gathered(nodes, NodeMessageLists(nodes, edges), |nodes|, id) + EdgeMessagesFor(edges, |edges|, id)
  {
    var lists := NodeMessageLists(nodes, edges);
    AfterNodesMeaning(nodes, lists, |nodes|, id);
    AfterEdgesKeyed(AfterNodes(nodes, lists, |nodes|), edges, |edges|);
    AfterEdgesMeaning(AfterNodes(nodes, lists, |nodes|), edges, |edges|, id);
  }

  /** Only nodes with internal id `id` contribute to its gathered list. */
  lemma {:induction false} GatheredHas(nodes: seq<FlowNode>, lists: seq<seq<string>>, k: nat, id: string, msg: string)
    requires k <= |nodes| == |lists|
    ensures msg in Gathered(nodes, lists, k, id) <==> exists j :: 0 <= j < k && nodes[j].id == id && msg in lists[j]
  {
    if k > 0 {
      GatheredHas(nodes, lists, k - 1, id, msg);
    }
  }

  /** The edge messages are missing-condition messages, present exactly when a blank edge leaves `id`. */
  lemma {:induction false} EdgeMessagesHas(edges: seq<FlowEdge>, m: nat, id: string, msg: string)
    requires m <= |edges|
    ensures msg in EdgeMessagesFor(edges, m, id) ==> msg == MISSING_CONDITION
    ensures MISSING_CONDITION in EdgeMessagesFor(edges, m, id) <==>
      exists j :: 0 <= j < m && edges[j].source == id && HasBlankCondition(edges[j])
  {
    if m > 0 {
      EdgeMessagesHas(edges, m - 1, id, msg);
    }
  }

  /** An id that no node carries gets only the missing-condition messages of its edges. */
  lemma EdgeOnlyWarnings(nodes: seq<FlowNode>, edges: seq<FlowEdge>, id: string)
    requires forall k :: 0 <= k < |nodes| ==> nodes[k].id != id
    ensures ListOf(NodeWarnings(nodes, edges), id) == EdgeMessagesFor(edges, |edges|, id)
    ensures MISSING_CONDITION in ListOf(NodeWarnings(nodes, edges), id) <==>
      exists j :: 0 <= j < |edges| && edges[j].source == id && HasBlankCondition(edges[j])
  {
    var lists := NodeMessageLists(nodes, edges);
    var afterNodes := AfterNodes(nodes, lists, |nodes|);
    AfterNodesMeaning(nodes, lists, |nodes|, id);
    GatheredNone(nodes, lists, |nodes|, id);
    AfterEdgesMeaning(afterNodes, edges, |edges|, id);
    EdgeMessagesHas(edges, |edges|, id, MISSING_CONDITION);
  }

  lemma {:induction false} GatheredNone(nodes: seq<FlowNode>, lists: seq<seq<string>>, k: nat, id: string)
    requires k <= |nodes| == |lists| && forall j :: 0 <= j < k ==> nodes[j].id != id
    ensures Gathered(nodes, lists, k, id) == []
  {
    if k > 0 {
      GatheredNone(nodes, lists, k - 1, id);
    }
  }

  // ---------------------------------------------------------------------
  // What each node message means

  /** Another node has the same trimmed display id as node `k`. */
  ghost predicate SharesDisplayId(nodes: seq<FlowNode>, k: nat)
    requires k < |nodes|
  {
    exists j :: 0 <= j < |nodes| && j != k && Trim(nodes[j].data.displayId) == Trim(nodes[k].data.displayId)
  }

  /** Some edge enters node `id`. */
  ghost predicate Targeted(edges: seq<FlowEdge>, id: string)
  {
    exists j :: 0 <= j < |edges| && edges[j].target == id
  }

  /** Some edge leaves node `id`. */
  ghost predicate Sourced(edges: seq<FlowEdge>, id: string)
  {
    exists j :: 0 <= j < |edges| && edges[j].source == id
  }

  /** `'Node ID is empty'` fires exactly when the display id is blank. */
  lemma EmptyIdRule(nodes: seq<FlowNode>, edges: seq<FlowEdge>, k: nat)
    requires k < |nodes|
    ensures EMPTY_ID in MessagesOfNode(nodes, edges, k) <==> IsBlank(nodes[k].data.displayId)
  {
    TrimFacts(nodes[k].data.displayId);
  }

  /** The display id counts of the graph are counts over its trimmed display ids. */
  lemma DisplayIdCountShared(nodes: seq<FlowNode>, k: nat)
    requires k < |nodes|
    ensures DisplayIdCount(nodes, |nodes|, Trim(nodes[k].data.displayId)) > 1 <==> SharesDisplayId(nodes, k)
  {
    var ids := TrimmedIds(nodes);
    CountShared(ids, |nodes|, k);
    assert ids[k] == Trim(nodes[k].data.displayId);
    if SharesDisplayId(nodes, k) {
      var j :| 0 <= j < |nodes| && j != k && Trim(nodes[j].data.displayId) == Trim(nodes[k].data.displayId);
      assert ids[j] == ids[k];
    }
  }

  /**
   * `'Duplicate node ID'` fires exactly when the display id is not blank and
   * another node has the same trimmed display id; it never comes with `'Node ID is empty'`.
   */
  lemma DuplicateIdRule(nodes: seq<FlowNode>, edges: seq<FlowEdge>, k: nat)
    requires k < |nodes|
    ensures DUPLICATE_ID in MessagesOfNode(nodes, edges, k) <==>
      !IsBlank(nodes[k].data.displayId) && SharesDisplayId(nodes, k)
    ensures !(EMPTY_ID in MessagesOfNode(nodes, edges, k) && DUPLICATE_ID in MessagesOfNode(nodes, edges, k))
  {
    TrimFacts(nodes[k].data.displayId);
    DisplayIdCountShared(nodes, k);
  }

  /** `'Description is empty'` fires exactly when the description is blank. */
  lemma EmptyDescriptionRule(nodes: seq<FlowNode>, edges: seq<FlowEdge>, k: nat)
    requires k < |nodes|
    ensures EMPTY_DESCRIPTION in MessagesOfNode(nodes, edges, k) <==> IsBlank(nodes[k].data.description)
  {
    TrimFacts(nodes[k].data.description);
  }

  /**
   * With more than one node, a node no edge touches is orphaned; otherwise a
   * non-start node that no edge enters is disconnected. The two never come
   * together, and neither fires for a single node. A self-loop both enters and leaves its node.
   */
  lemma ConnectivityRule(nodes: seq<FlowNode>, edges: seq<FlowEdge>, k: nat)
    requires k < |nodes|
    ensures var id := nodes[k].id;
      ORPHANED in MessagesOfNode(nodes, edges, k) <==> |nodes| > 1 && !Targeted(edges, id) && !Sourced(edges, id)
    ensures var id := nodes[k].id;
      DISCONNECTED in MessagesOfNode(nodes, edges, k) <==>
        |nodes| > 1 && !nodes[k].data.isStart && !Targeted(edges, id) && Sourced(edges, id)
    ensures !(ORPHANED in MessagesOfNode(nodes, edges, k) && DISCONNECTED in MessagesOfNode(nodes, edges, k))
  {
    InDegreeZero(edges, |edges|, nodes[k].id);
    OutDegreeZero(edges, |edges|, nodes[k].id);
  }

  // ---------------------------------------------------------------------
  // Blocking

  /** Node `k` has a blank display id, a shared display id or a blank description. */
  ghost predicate NodeBlocks(nodes: seq<FlowNode>, k: nat)
    requires k < |nodes|
  {
    IsBlank(nodes[k].data.displayId) || SharesDisplayId(nodes, k) || IsBlank(nodes[k].data.description)
  }

  /** A node's messages include a blocking one exactly when the node blocks. */
  lemma NodeBlockingRule(nodes: seq<FlowNode>, edges: seq<FlowEdge>, k: nat)
    requires k < |nodes|
    ensures HasBlockingMessage(MessagesOfNode(nodes, edges, k)) <==> NodeBlocks(nodes, k)
  {
    var msgs := MessagesOfNode(nodes, edges, k);
    EmptyIdRule(nodes, edges, k);
    DuplicateIdRule(nodes, edges, k);
    EmptyDescriptionRule(nodes, edges, k);
    if HasBlockingMessage(msgs) {
      var j :| 0 <= j < |msgs| && IsBlocking(msgs[j]);
      assert msgs[j] in msgs;
    }
    if NodeBlocks(nodes, k) {
      if IsBlank(nodes[k].data.displayId) {
        var j :| 0 <= j < |msgs| && msgs[j] == EMPTY_ID;
      } else if SharesDisplayId(nodes, k) {
        var j :| 0 <= j < |msgs| && msgs[j] == DUPLICATE_ID;
      } else {
        var j :| 0 <= j < |msgs| && msgs[j] == EMPTY_DESCRIPTION;
      }
    }
  }

  /** The missing-condition message never blocks. */
  lemma EdgeMessagesDoNotBlock(edges: seq<FlowEdge>, id: string)
    ensures !HasBlockingMessage(EdgeMessagesFor(edges, |edges|, id))
  {
    var msgs := EdgeMessagesFor(edges, |edges|, id);
    forall j | 0 <= j < |msgs| ensures !IsBlocking(msgs[j]) {
      EdgeMessagesHas(edges, |edges|, id, msgs[j]);
    }
  }

  /** A blocking message in a join comes from one of its halves. */
  lemma BlockingAppend(a: seq<string>, b: seq<string>)
    ensures HasBlockingMessage(a + b) <==> HasBlockingMessage(a) || HasBlockingMessage(b)
  {
    if HasBlockingMessage(a + b) {
      var j :| 0 <= j < |a + b| && IsBlocking((a + b)[j]);
      if j >= |a| {
        assert b[j - |a|] == (a + b)[j];
      }
    }
    if HasBlockingMessage(a) {
      var j :| 0 <= j < |a| && IsBlocking(a[j]);
      assert IsBlocking((a + b)[j]);
    }
    if HasBlockingMessage(b) {
      var j :| 0 <= j < |b| && IsBlocking(b[j]);
      assert IsBlocking((a + b)[|a| + j]);
    }
  }

  /** The gathered list of `id` blocks exactly when a node with that id has a blocking message. */
  lemma {:induction false} GatheredBlocking(nodes: seq<FlowNode>, lists: seq<seq<string>>, k: nat, id: string)
    requires k <= |nodes| == |lists|
    ensures HasBlockingMessage(Gathered(nodes, lists, k, id)) <==>
      exists j :: 0 <= j < k && nodes[j].id == id && HasBlockingMessage(lists[j])
  {
    if k > 0 {
      GatheredBlocking(nodes, lists, k - 1, id);
      BlockingAppend(Gathered(nodes, lists, k - 1, id), if nodes[k - 1].id == id then lists[k - 1] else []);
    }
  }

  /** The warnings of `id` block exactly when a node with that id blocks. */
  lemma IdBlocking(nodes: seq<FlowNode>, edges: seq<FlowEdge>, id: string)
    ensures HasBlockingMessage(ListOf(NodeWarnings(nodes, edges), id)) <==>
      exists k :: 0 <= k < |nodes| && nodes[k].id == id && NodeBlocks(nodes, k)
  {
    var lists := NodeMessageLists(nodes, edges);
    WarningsMeaning(nodes, edges, id);
    BlockingAppend(Gathered(nodes, lists, |nodes|, id), EdgeMessagesFor(edges, |edges|, id));
    EdgeMessagesDoNotBlock(edges, id);
    GatheredBlocking(nodes, lists, |nodes|, id);
    if exists k :: 0 <= k < |nodes| && nodes[k].id == id && HasBlockingMessage(lists[k]) {
      var k :| 0 <= k < |nodes| && nodes[k].id == id && HasBlockingMessage(lists[k]);
      NodeBlockingRule(nodes, edges, k);
    }
    if exists k :: 0 <= k < |nodes| && nodes[k].id == id && NodeBlocks(nodes, k) {
      var k :| 0 <= k < |nodes| && nodes[k].id == id && NodeBlocks(nodes, k);
      NodeBlockingRule(nodes, edges, k);
      assert lists[k] == MessagesOfNode(nodes, edges, k);
    }
  }

  /**
   * The value scan finds a blocking message exactly when some node has a
   * blank display id, a shared display id or a blank description; edge and
   * connectivity warnings alone never block.
   */
  lemma BlockingMeaning(nodes: seq<FlowNode>, edges: seq<FlowEdge>)
    ensures AnyBlocking(NodeWarnings(nodes, edges)) <==> exists k :: 0 <= k < |nodes| && NodeBlocks(nodes, k)
  {
    var w := NodeWarnings(nodes, edges);
    if AnyBlocking(w) {
      var i :| 0 <= i < |w.keys| && HasBlockingMessage(ListOf(w, w.keys[i]));
      IdBlocking(nodes, edges, w.keys[i]);
    }
    if exists k :: 0 <= k < |nodes| && NodeBlocks(nodes, k) {
      var k :| 0 <= k < |nodes| && NodeBlocks(nodes, k);
      var id := nodes[k].id;
      IdBlocking(nodes, edges, id);
      WarningsMeaning(nodes, edges, id);
      assert ListOf(w, id) != [];
      assert id in w.keys;
      var i :| 0 <= i < |w.keys| && w.keys[i] == id;
    }
  }

  /** The node loop adds only known messages. */
  lemma NodeMessagesKnown(node: FlowNode, displayIdCount: nat, incoming: nat, outgoing: nat, nodeCount: nat, msg: string)
    requires msg in NodeMessages(node, displayIdCount, incoming, outgoing, nodeCount)
    ensures KnownMessage(msg)
  {
  }

  /** Every message stored in the map is one of the engine's seven messages. */
  lemma WarningMessagesKnown(nodes: seq<FlowNode>, edges: seq<FlowEdge>, id: string, msg: string)
    requires msg in ListOf(NodeWarnings(nodes, edges), id)
    ensures KnownMessage(msg)
  {
    var lists := NodeMessageLists(nodes, edges);
    AfterNodesMeaning(nodes, lists, |nodes|, id);
    AfterEdgesMeaning(AfterNodes(nodes, lists, |nodes|), edges, |edges|, id);
    if msg in Gathered(nodes, lists, |nodes|, id) {
      GatheredHas(nodes, lists, |nodes|, id, msg);
      var j :| 0 <= j < |nodes| && nodes[j].id == id && msg in lists[j];
      assert lists[j] == MessagesOfNode(nodes, edges, j);
      NodeMessagesKnown(nodes[j], DisplayIdCount(nodes, |nodes|, Trim(nodes[j].data.displayId)),
                        InDegree(edges, |edges|, nodes[j].id), OutDegree(edges, |edges|, nodes[j].id), |nodes|, msg);
    } else {
      EdgeMessagesHas(edges, |edges|, id, msg);
    }
  }
}
