/**
 * Local persistence of the flow editor: the versioned envelope that is
 * saved, and the load path that migrates older envelopes (version 1, the
 * chatbot format without a version; version 2, edges without condition
 * data) to version 3 before handing the graph to the store.
 */
module PersistFlow {
  import opened Base
  import opened FlowTypes

  /**
   * The fields of a stored node's `data` that any schema version reads.
   * A field missing from the stored JSON is the empty string (or `false`),
   * which every reader treats the same way as absence.
   */
  datatype StoredData = StoredData(
    displayId: string, description: string, prompt: string, isStart: bool,
    text: string, buttonText: string, buttonValue: string)

  datatype StoredNode = StoredNode(id: string, nodeType: string, position: Position, data: StoredData)

  /** The stored JSON object; a `schemaVersion` of 0 stands for an absent or falsy version. */
  datatype Envelope = Envelope(schemaVersion: int, nodes: seq<StoredNode>, edges: seq<FlowEdge>)

  /** What the storage slot holds: nothing, text that is not a flow, or an envelope with two arrays. */
  datatype Storage = Absent | Malformed | Holding(envelope: Envelope)

  /** The in-memory graph. */
  datatype FlowState = FlowState(nodes: seq<FlowNode>, edges: seq<FlowEdge>)

  /** A graph node read back from its stored form. */
  function AsFlowNode(s: StoredNode): FlowNode
  {
    FlowNode(s.id, s.nodeType, s.position, NodeData(s.data.displayId, s.data.description, s.data.prompt, s.data.isStart))
  }

  /** A graph node in the stored form, with no legacy fields. */
  function AsStoredNode(n: FlowNode): StoredNode
  {
    StoredNode(n.id, n.nodeType, n.position, StoredData(n.data.displayId, n.data.description, n.data.prompt, n.data.isStart, "", "", ""))
  }

  // ---------------------------------------------------------------------
  // Version 1 to version 2

  /** Some edge has `id` as its target (`incomingTargets.has(id)`). */
  predicate IsTargeted(edges: seq<FlowEdge>, id: string)
  {
    exists k :: 0 <= k < |edges| && edges[k].target == id
  }

  /** `oldNodes.find((n) => n.data?.isStart)?.id` */
  function FirstMarked(nodes: seq<StoredNode>): Option<string>
  {
    if nodes == [] then None
    else if nodes[0].data.isStart then Some(nodes[0].id)
    else FirstMarked(nodes[1..])
  }

  /** `oldNodes.find((n) => !incomingTargets.has(n.id))?.id` */
  function FirstUntargeted(nodes: seq<StoredNode>, edges: seq<FlowEdge>): Option<string>
  {
    if nodes == [] then None
    else if !IsTargeted(edges, nodes[0].id) then Some(nodes[0].id)
    else FirstUntargeted(nodes[1..], edges)
  }

  /** The start node chosen by the migration: marked, else untargeted, else first. */
  function LegacyStart(nodes: seq<StoredNode>, edges: seq<FlowEdge>): Option<string>
  {
    var marked := FirstMarked(nodes);
    if marked.Some? then marked
    else
      var untargeted := FirstUntargeted(nodes, edges);
      if untargeted.Some? then untargeted
      else if nodes == [] then None
      else Some(nodes[0].id)
  }

  /** The display id given to the node at `index`. */
  function MigratedDisplayId(index: nat): string
  {
    "node_" + Decimal(index + 1)
  }

  /** One legacy node in the unified shape. */
  function MigrateNode(node: StoredNode, index: nat, start: Option<string>): StoredNode
  {
    var description := OrElse(node.data.text, OrElse(node.data.buttonText, ""));
    StoredNode(node.id, FLOW_NODE_TYPE, node.position,
      StoredData(MigratedDisplayId(index), description, OrElse(node.data.buttonValue, ""),
                 start == Some(node.id), "", "", ""))
  }

  /** `migrateV1toV2` */
  function MigrateV1toV2(raw: Envelope): Envelope
  {
    var start := LegacyStart(raw.nodes, raw.edges);
    Envelope(2,
      seq(|raw.nodes|, i requires 0 <= i < |raw.nodes| => MigrateNode(raw.nodes[i], i, start)),
      raw.edges)
  }

  // ---------------------------------------------------------------------
  // Version 2 to version 3

  /** `{ ...edge, type: 'conditionalEdge', data: { condition: edge.label || '' } }` */
  function MigrateEdge(e: FlowEdge): FlowEdge
  {
    e.(edgeType := Some(FLOW_EDGE_TYPE),
       data := Some(EdgeData(if e.edgeLabel.Some? then OrElse(e.edgeLabel.value, "") else "", None)))
  }

  /** `migrateV2toV3` */
  function MigrateV2toV3(parsed: Envelope): Envelope
  {
    Envelope(3, parsed.nodes, seq(|parsed.edges|, k requires 0 <= k < |parsed.edges| => MigrateEdge(parsed.edges[k])))
  }

  // ---------------------------------------------------------------------
  // Save and load

  /** The envelope `saveFlowToStorage` writes. */
  function SaveEnvelope(state: FlowState): Envelope
  {
    Envelope(CURRENT_SCHEMA_VERSION, seq(|state.nodes|, i requires 0 <= i < |state.nodes| => AsStoredNode(state.nodes[i])), state.edges)
  }

  /** The envelope after the migration chain of the load path. */
  function Migrated(env: Envelope): Envelope
  {
    var afterV1 := if env.schemaVersion == 0 then MigrateV1toV2(env) else env;
    if afterV1.schemaVersion == 2 then MigrateV2toV3(afterV1) else afterV1
  }

  /** The graph an envelope holds. */
  function StateOf(env: Envelope): FlowState
  {
    FlowState(seq(|env.nodes|, i requires 0 <= i < |env.nodes| => AsFlowNode(env.nodes[i])), env.edges)
  }

  /** The result and write-back of a load, as a function of the stored value. */
  function LoadResult(storage: Storage): (Option<FlowState>, Option<Envelope>)
  {
    if !storage.Holding? then (None, None)
    else
      var env := Migrated(storage.envelope);
      if env.schemaVersion > CURRENT_SCHEMA_VERSION then (None, None) else (Some(StateOf(env)), Some(env))
  }

  /**
   * `loadFlowFromStorage`: `parsed` passes through the migrations its
   * version calls for; a future version is refused; otherwise the migrated
   * envelope is written back and its graph returned.
   */
  method LoadFlow(storage: Storage) returns (result: Option<FlowState>, writeBack: Option<Envelope>)
    ensures (result, writeBack) == LoadResult(storage)
  {
    if !storage.Holding? {
      return None, None;
    }
    var parsed := storage.envelope;
    if parsed.schemaVersion == 0 {
      parsed := MigrateV1toV2(parsed);
    }
    if parsed.schemaVersion == 2 {
      parsed := MigrateV2toV3(parsed);
    }
    if parsed.schemaVersion > CURRENT_SCHEMA_VERSION {
      return None, None;
    }
    writeBack := Some(parsed);
    result := Some(StateOf(parsed));
  }

  // ---------------------------------------------------------------------
  // Properties

  /** Nothing stored, or nothing readable, loads as nothing and writes nothing. */
  lemma LoadNothing(storage: Storage)
    requires !storage.Holding?
    ensures LoadResult(storage) == (None, None)
  {
  }

  /**
   * The version dispatch: no version runs both migrations, version 2 runs
   * the second, version 3 none; each of these ends at version 3 and loads.
   * A version above 3 is refused; any other version (1 among them) is
   * returned and written back unmigrated.
   */
  lemma VersionDispatch(env: Envelope)
    ensures env.schemaVersion == 0 ==> Migrated(env) == MigrateV2toV3(MigrateV1toV2(env))
    ensures env.schemaVersion == 2 ==> Migrated(env) == MigrateV2toV3(env)
    ensures env.schemaVersion != 0 && env.schemaVersion != 2 ==> Migrated(env) == env
    ensures env.schemaVersion in {0, 2, 3} ==>
      Migrated(env).schemaVersion == 3 && LoadResult(Holding(env)) == (Some(StateOf(Migrated(env))), Some(Migrated(env)))
    ensures env.schemaVersion > 3 ==> LoadResult(Holding(env)) == (None, None)
    ensures env.schemaVersion != 0 && env.schemaVersion != 2 && env.schemaVersion <= 3 ==> LoadResult(Holding(env)) == (Some(StateOf(env)), Some(env))
  {
  }

  /** The stored form of a graph node reads back as the same node. */
  lemma StoredNodeRoundTrip(n: FlowNode)
    ensures AsFlowNode(AsStoredNode(n)) == n
  {
  }

  /** Saving and then loading gives back the same graph, with no migration applied. */
  lemma SaveThenLoad(state: FlowState)
    ensures Migrated(SaveEnvelope(state)) == SaveEnvelope(state)
    ensures LoadResult(Holding(SaveEnvelope(state))) == (Some(state), Some(SaveEnvelope(state)))
  {
    var env := SaveEnvelope(state);
    assert StateOf(env).nodes == state.nodes;
  }

  /**
   * The chosen start node: the first marked node, else the first node no
   * edge targets, else the first node; no start only for an empty list.
   */
  lemma {:induction false} FirstMarkedFacts(nodes: seq<StoredNode>)
    ensures FirstMarked(nodes).None? <==> forall k :: 0 <= k < |nodes| ==> !nodes[k].data.isStart
    ensures FirstMarked(nodes).Some? ==>
      exists k :: 0 <= k < |nodes| && nodes[k].data.isStart && nodes[k].id == FirstMarked(nodes).value &&
        forall j :: 0 <= j < k ==> !nodes[j].data.isStart
  {
    if nodes != [] {
      FirstMarkedFacts(nodes[1..]);
      if !nodes[0].data.isStart {
        if FirstMarked(nodes).Some? {
          var k :| 0 <= k < |nodes| - 1 && nodes[1..][k].data.isStart && nodes[1..][k].id == FirstMarked(nodes).value &&
            forall j :: 0 <= j < k ==> !nodes[1..][j].data.isStart;
          assert nodes[k + 1] == nodes[1..][k];
        } else {
          forall k | 0 <= k < |nodes| ensures !nodes[k].data.isStart {
            if k > 0 {
              assert nodes[k] == nodes[1..][k - 1];
            }
          }
        }
      }
    }
  }

  lemma {:induction false} FirstUntargetedFacts(nodes: seq<StoredNode>, edges: seq<FlowEdge>)
    ensures FirstUntargeted(nodes, edges).None? <==> forall k :: 0 <= k < |nodes| ==> IsTargeted(edges, nodes[k].id)
    ensures FirstUntargeted(nodes, edges).Some? ==>
      exists k :: 0 <= k < |nodes| && !IsTargeted(edges, nodes[k].id) && nodes[k].id == FirstUntargeted(nodes, edges).value &&
        forall j :: 0 <= j < k ==> IsTargeted(edges, nodes[j].id)
  {
    if nodes != [] {
      FirstUntargetedFacts(nodes[1..], edges);
      if IsTargeted(edges, nodes[0].id) {
        if FirstUntargeted(nodes, edges).Some? {
          var k :| 0 <= k < |nodes| - 1 && !IsTargeted(edges, nodes[1..][k].id) &&
            nodes[1..][k].id == FirstUntargeted(nodes, edges).value &&
            forall j :: 0 <= j < k ==> IsTargeted(edges, nodes[1..][j].id);
          assert nodes[k + 1] == nodes[1..][k];
        } else {
          forall k | 0 <= k < |nodes| ensures IsTargeted(edges, nodes[k].id) {
            if k > 0 {
              assert nodes[k] == nodes[1..][k - 1];
            }
          }
        }
      }
    }
  }

  /** The chosen start is the id of one of the nodes, and exists for every non-empty list. */
  lemma LegacyStartIsNode(nodes: seq<StoredNode>, edges: seq<FlowEdge>)
    ensures LegacyStart(nodes, edges).None? <==> nodes == []
    ensures LegacyStart(nodes, edges).Some? ==> exists k :: 0 <= k < |nodes| && nodes[k].id == LegacyStart(nodes, edges).value
  {
    FirstMarkedFacts(nodes);
    FirstUntargetedFacts(nodes, edges);
  }

  /**
   * The v1 to v2 field mapping: ids and positions are kept, the display id
   * is `node_<i+1>`, the description is the text, else the button text, the
   * prompt is the button value, and the edges are unchanged.
   */
  lemma MigrateV1toV2Facts(raw: Envelope, i: nat)
    requires i < |raw.nodes|
    ensures var r := MigrateV1toV2(raw);
      && r.schemaVersion == 2 && r.edges == raw.edges && |r.nodes| == |raw.nodes|
      && r.nodes[i].id == raw.nodes[i].id && r.nodes[i].position == raw.nodes[i].position
      && r.nodes[i].nodeType == FLOW_NODE_TYPE
      && r.nodes[i].data.displayId == "node_" + Decimal(i + 1)
      && r.nodes[i].data.description == (if raw.nodes[i].data.text != "" then raw.nodes[i].data.text else raw.nodes[i].data.buttonText)
      && r.nodes[i].data.prompt == raw.nodes[i].data.buttonValue
      && (r.nodes[i].data.isStart <==> LegacyStart(raw.nodes, raw.edges) == Some(raw.nodes[i].id))
  {
  }

  /** Migrated display ids are never blank and never repeat. */
  lemma MigratedDisplayIdsDistinct(raw: Envelope, i: nat, j: nat)
    requires i < j < |raw.nodes|
    ensures !IsBlank(MigrateV1toV2(raw).nodes[i].data.displayId)
    ensures MigrateV1toV2(raw).nodes[i].data.displayId != MigrateV1toV2(raw).nodes[j].data.displayId
  {
    var a, b := MigratedDisplayId(i), MigratedDisplayId(j);
    assert a[0] == 'n';
    if a == b {
      assert a[5..] == Decimal(i + 1) && b[5..] == Decimal(j + 1);
      RadixInjective(i + 1, j + 1, 10);
    }
  }

  /** With distinct ids, a non-empty legacy graph migrates to exactly one start node. */
  lemma MigratedSingleStart(raw: Envelope)
    requires |raw.nodes| > 0
    requires forall a, b :: 0 <= a < b < |raw.nodes| ==> raw.nodes[a].id != raw.nodes[b].id
    ensures var r := MigrateV1toV2(raw).nodes;
      exists k :: 0 <= k < |r| && r[k].data.isStart && forall j :: 0 <= j < |r| && j != k ==> !r[j].data.isStart
  {
    LegacyStartIsNode(raw.nodes, raw.edges);
    var k :| 0 <= k < |raw.nodes| && raw.nodes[k].id == LegacyStart(raw.nodes, raw.edges).value;
    assert MigrateV1toV2(raw).nodes[k].data.isStart;
  }

  /**
   * The v2 to v3 reshape: every edge gets the conditional type and a
   * condition taken from its label, replacing any data it had; nodes stay.
   */
  lemma MigrateV2toV3Facts(parsed: Envelope, k: nat)
    requires k < |parsed.edges|
    ensures var r := MigrateV2toV3(parsed);
      && r.schemaVersion == 3 && r.nodes == parsed.nodes && |r.edges| == |parsed.edges|
      && r.edges[k].edgeType == Some(FLOW_EDGE_TYPE)
      && r.edges[k].data == Some(EdgeData(if parsed.edges[k].edgeLabel.Some? then parsed.edges[k].edgeLabel.value else "", None))
      && r.edges[k].id == parsed.edges[k].id && r.edges[k].source == parsed.edges[k].source
      && r.edges[k].target == parsed.edges[k].target
  {
  }
}
