/**
 * The export codec: turns the editor's graph into the external JSON schema,
 * translating internal node ids into display ids and collapsing each edge's
 * ordered parameter list into a record with distinct keys.
 */
module FlowToSchema {
  import opened Base
  import opened FlowTypes

  /** A JavaScript record of strings: its entries in insertion order. */
  type Record = seq<(string, string)>

  datatype SchemaEdge = SchemaEdge(toNodeId: string, condition: string, parameters: Option<Record>)

  datatype SchemaNode = SchemaNode(id: string, description: string, prompt: string, edges: seq<SchemaEdge>)

  datatype FlowSchema = FlowSchema(startNodeId: string, nodes: seq<SchemaNode>)

  // ---------------------------------------------------------------------
  // Records

  function Keys(rec: Record): set<string>
  {
    set i | 0 <= i < |rec| :: rec[i].0
  }

  predicate KeysDistinct(rec: Record)
  {
    forall i, j :: 0 <= i < j < |rec| ==> rec[i].0 != rec[j].0
  }

  lemma KeysCons(e: (string, string), rec: Record)
    ensures Keys([e] + rec) == {e.0} + Keys(rec)
  {
    var r := [e] + rec;
    assert r[0].0 == e.0;
    forall x | x in Keys(r) ensures x in {e.0} + Keys(rec) {
      var i :| 0 <= i < |r| && r[i].0 == x;
      if i > 0 { assert rec[i - 1].0 == x; }
    }
    forall x | x in Keys(rec) ensures x in Keys(r) {
      var i :| 0 <= i < |rec| && rec[i].0 == x;
      assert r[i + 1].0 == x;
    }
  }

  /** A record with one more entry in front has distinct keys when the rest has and the new key is fresh. */
  lemma DistinctCons(e: (string, string), rec: Record)
    ensures KeysDistinct([e] + rec) <==> e.0 !in Keys(rec) && KeysDistinct(rec)
  {
    var r := [e] + rec;
    if KeysDistinct(r) {
      forall i, j | 0 <= i < j < |rec| ensures rec[i].0 != rec[j].0 {
        assert r[i + 1] == rec[i] && r[j + 1] == rec[j];
      }
      forall i | 0 <= i < |rec|
        ensures rec[i].0 != e.0
      {
        assert r[0] == e && r[i + 1] == rec[i];
        assert r[0].0 != r[i + 1].0;
      }
    }
    if e.0 !in Keys(rec) && KeysDistinct(rec) {
      forall i, j | 0 <= i < j < |r| ensures r[i].0 != r[j].0 {
        if i == 0 {
          assert rec[j - 1].0 in Keys(rec);
        } else {
          assert r[i] == rec[i - 1] && r[j] == rec[j - 1];
        }
      }
    }
  }

  /** `record[k] = v`: an existing key keeps its place and takes the new value; a new key is appended. */
  function Put(rec: Record, k: string, v: string): (r: Record)
    ensures Keys(r) == Keys(rec) + {k}
    ensures KeysDistinct(rec) ==> KeysDistinct(r)
    ensures |r| == if k in Keys(rec) then |rec| else |rec| + 1
  {
    if rec == [] then
      KeysCons((k, v), []);
      assert [(k, v)] + [] == [(k, v)];
      [(k, v)]
    else if rec[0].0 == k then
      KeysCons(rec[0], rec[1..]);
      KeysCons((k, v), rec[1..]);
      assert rec == [rec[0]] + rec[1..];
      DistinctCons(rec[0], rec[1..]);
      DistinctCons((k, v), rec[1..]);
      [(k, v)] + rec[1..]
    else
      var rest := Put(rec[1..], k, v);
      KeysCons(rec[0], rec[1..]);
      KeysCons(rec[0], rest);
      assert rec == [rec[0]] + rec[1..];
      DistinctCons(rec[0], rec[1..]);
      DistinctCons(rec[0], rest);
      [rec[0]] + rest
  }

  /** The key/value map a record denotes; a later entry for a key wins, as in JSON.parse. */
  function RecordToMap(rec: Record): (m: map<string, string>)
    ensures m.Keys == Keys(rec)
  {
    if rec == [] then map[]
    else
      KeysCons(rec[0], rec[1..]);
      assert rec == [rec[0]] + rec[1..];
      map[rec[0].0 := rec[0].1] + RecordToMap(rec[1..])
  }

  lemma MapOverwrite(k: string, a: string, v: string, tail: map<string, string>)
    requires k !in tail
    ensures map[k := v] + tail == (map[k := a] + tail)[k := v]
  {
  }

  lemma MapCommute(k0: string, a: string, k: string, v: string, tail: map<string, string>)
    requires k0 != k
    ensures map[k0 := a] + tail[k := v] == (map[k0 := a] + tail)[k := v]
  {
  }

  lemma {:induction false} PutMeaning(rec: Record, k: string, v: string)
    requires KeysDistinct(rec)
    ensures RecordToMap(Put(rec, k, v)) == RecordToMap(rec)[k := v]
  {
    if rec == [] {
    } else if rec[0].0 == k {
      var tail := rec[1..];
      assert k !in Keys(tail);
      var r := [(k, v)] + tail;
      assert Put(rec, k, v) == r;
      assert r[1..] == tail;
      MapOverwrite(k, rec[0].1, v, RecordToMap(tail));
    } else {
      var tail := rec[1..];
      var rest := Put(tail, k, v);
      assert KeysDistinct(tail);
      PutMeaning(tail, k, v);
      var r := [rec[0]] + rest;
      assert Put(rec, k, v) == r;
      assert r[1..] == rest;
      MapCommute(rec[0].0, rec[0].1, k, v, RecordToMap(tail));
    }
  }

  // ---------------------------------------------------------------------
  // Parameter collapse

  /**
   * The reference meaning of a parameter list: pairs with an empty key are
   * ignored and a later pair overwrites an earlier pair with the same key.
   */
  function ParamMap(ps: seq<Param>): map<string, string>
  {
    if ps == [] then map[]
    else
      var m := ParamMap(ps[..|ps| - 1]);
      var p := ps[|ps| - 1];
      if p.key != "" then m[p.key := p.value] else m
  }

  /** The record that the export loop builds from a parameter list. */
  function Collapse(ps: seq<Param>): (r: Record)
    ensures KeysDistinct(r)
    ensures "" !in Keys(r)
  {
    if ps == [] then []
    else
      var r := Collapse(ps[..|ps| - 1]);
      var p := ps[|ps| - 1];
      if p.key != "" then Put(r, p.key, p.value) else r
  }

  /** `for (const p of params) { if (p.key) record[p.key] = p.value; }` */
  method CollapseParams(params: seq<Param>) returns (record: Record)
    ensures record == Collapse(params)
  {
    record := [];
    for i := 0 to |params|
      invariant record == Collapse(params[..i])
    {
      assert params[..i + 1][..i] == params[..i];
      if params[i].key != "" {
        record := Put(record, params[i].key, params[i].value);
      }
    }
    assert params[..|params|] == params;
  }

  /** The collapsed record denotes exactly the reference map of the list. */
  lemma {:induction false} CollapseMeaning(ps: seq<Param>)
    ensures RecordToMap(Collapse(ps)) == ParamMap(ps)
  {
    if ps != [] {
      var init := ps[..|ps| - 1];
      CollapseMeaning(init);
      if ps[|ps| - 1].key != "" {
        PutMeaning(Collapse(init), ps[|ps| - 1].key, ps[|ps| - 1].value);
      }
    }
  }

  /**
   * A key is in the collapsed map exactly when it is non-empty and some pair
   * carries it; its value is that of the last pair carrying it.
   */
  lemma {:induction false} ParamMapLastWins(ps: seq<Param>, k: string)
    ensures k in ParamMap(ps) <==> k != "" && exists i :: 0 <= i < |ps| && ps[i].key == k
    ensures forall i :: (0 <= i < |ps| && ps[i].key == k && k != "" &&
                         (forall j :: i < j < |ps| ==> ps[j].key != k)) ==> ParamMap(ps)[k] == ps[i].value
  {
    if ps != [] {
      var init := ps[..|ps| - 1];
      ParamMapLastWins(init, k);
      forall i | 0 <= i < |init| && init[i].key == k
        ensures ps[i].key == k
      {
      }
      if k != "" && (exists i :: 0 <= i < |ps| && ps[i].key == k) && ps[|ps| - 1].key != k {
        var i :| 0 <= i < |ps| && ps[i].key == k;
        assert init[i].key == k;
      }
    }
  }

  /** The pairs `[("k",""), ("","v2"), ("k2","v3")]` export as `{"k": "", "k2": "v3"}`. */
  lemma CollapseExample()
    ensures Collapse([Param(None, "k", ""), Param(None, "", "v2"), Param(None, "k2", "v3")])
            == [("k", ""), ("k2", "v3")]
  {
    var ps := [Param(None, "k", ""), Param(None, "", "v2"), Param(None, "k2", "v3")];
    assert ps[..1][..0] == [];
    assert Collapse(ps[..1]) == Put([], "k", "") == [("k", "")];
    assert ps[..2][..1] == ps[..1];
    assert Collapse(ps[..2]) == [("k", "")];
    assert ps[..3][..2] == ps[..2] && ps[..3] == ps;
    assert Put([("k", "")], "k2", "v3") == [("k", "")] + Put([], "k2", "v3");
  }

  // ---------------------------------------------------------------------
  // Export

  /** The internal-id to display-id lookup; for a repeated internal id the last node wins. */
  function IdToDisplayId(nodes: seq<FlowNode>): (m: map<string, string>)
    ensures m.Keys == NodeIds(nodes)
  {
    if nodes == [] then map[]
    else
      var init := nodes[..|nodes| - 1];
      var n := nodes[|nodes| - 1];
      assert NodeIds(nodes) == NodeIds(init) + {n.id} by {
        forall id | id in NodeIds(nodes) ensures id in NodeIds(init) + {n.id} {
          var i :| 0 <= i < |nodes| && nodes[i].id == id;
          if i < |init| { assert init[i].id == id; }
        }
        forall id | id in NodeIds(init) ensures id in NodeIds(nodes) {
          var i :| 0 <= i < |init| && init[i].id == id;
          assert nodes[i].id == id;
        }
      }
      IdToDisplayId(init)[n.id := n.data.displayId]
  }

  /** `for (const node of nodes) idToDisplayId.set(node.id, node.data.displayId)` */
  method BuildIdToDisplayId(nodes: seq<FlowNode>) returns (m: map<string, string>)
    ensures m == IdToDisplayId(nodes)
  {
    m := map[];
    for i := 0 to |nodes|
      invariant m == IdToDisplayId(nodes[..i])
    {
      assert nodes[..i + 1][..i] == nodes[..i];
      m := m[nodes[i].id := nodes[i].data.displayId];
    }
    assert nodes[..|nodes|] == nodes;
  }

  /** With distinct internal ids, each node's id maps to its own display id. */
  lemma {:induction false} IdToDisplayIdOfNode(nodes: seq<FlowNode>, i: nat)
    requires i < |nodes|
    requires forall a, b :: 0 <= a < b < |nodes| ==> nodes[a].id != nodes[b].id
    ensures IdToDisplayId(nodes)[nodes[i].id] == nodes[i].data.displayId
  {
    var init := nodes[..|nodes| - 1];
    if i < |nodes| - 1 {
      IdToDisplayIdOfNode(init, i);
      assert init[i] == nodes[i];
    }
  }

  /** `nodes.find((n) => n.data.isStart)` */
  function FindStart(nodes: seq<FlowNode>): (r: Option<FlowNode>)
    ensures r.None? <==> forall i :: 0 <= i < |nodes| ==> !nodes[i].data.isStart
    ensures r.Some? ==> exists i :: 0 <= i < |nodes| && nodes[i] == r.value && r.value.data.isStart &&
                                    forall j :: 0 <= j < i ==> !nodes[j].data.isStart
  {
    if nodes == [] then None
    else if nodes[0].data.isStart then Some(nodes[0])
    else
      var r := FindStart(nodes[1..]);
      if r.Some? then
        var i :| 0 <= i < |nodes[1..]| && nodes[1..][i] == r.value && r.value.data.isStart &&
                 forall j :: 0 <= j < i ==> !nodes[1..][j].data.isStart;
        assert nodes[i + 1] == r.value;
        r
      else
        r
  }

  /** `idToDisplayId.get(edge.target) || edge.target` */
  function TargetDisplayId(idMap: map<string, string>, target: string): string
  {
    if target in idMap && idMap[target] != "" then idMap[target] else target
  }

  /** The `parameters` field of an exported edge: present only for a non-empty record. */
  function ExportParams(ps: seq<Param>): (r: Option<Record>)
    ensures r.Some? ==> |r.value| > 0 && KeysDistinct(r.value) && "" !in Keys(r.value)
  {
    if |ps| > 0 then
      var record := Collapse(ps);
      if |record| > 0 then Some(record) else None
    else None
  }

  function ExportEdge(idMap: map<string, string>, e: FlowEdge): SchemaEdge
  {
    SchemaEdge(TargetDisplayId(idMap, e.target), ConditionOf(e), ExportParams(ParamsOf(e)))
  }

  function ExportEdges(idMap: map<string, string>, es: seq<FlowEdge>): (r: seq<SchemaEdge>)
    ensures |r| == |es|
    ensures forall k :: 0 <= k < |es| ==> r[k] == ExportEdge(idMap, es[k])
  {
    if es == [] then [] else [ExportEdge(idMap, es[0])] + ExportEdges(idMap, es[1..])
  }

  function ExportNode(idMap: map<string, string>, edges: seq<FlowEdge>, n: FlowNode): SchemaNode
  {
    SchemaNode(n.data.displayId, n.data.description, n.data.prompt, ExportEdges(idMap, Outgoing(edges, n.id)))
  }

  /** `flowToSchema(nodes, edges)` */
  function FlowToSchema(nodes: seq<FlowNode>, edges: seq<FlowEdge>): FlowSchema
  {
    var idMap := IdToDisplayId(nodes);
    var start := FindStart(nodes);
    FlowSchema(
      if start.Some? then start.value.data.displayId else "",
      seq(|nodes|, i requires 0 <= i < |nodes| => ExportNode(idMap, edges, nodes[i])))
  }

  /** One exported edge, with the parameter record built by the loop. */
  method ExportEdgeWithLoop(idMap: map<string, string>, e: FlowEdge) returns (se: SchemaEdge)
    ensures se == ExportEdge(idMap, e)
  {
    var params := ParamsOf(e);
    var parameters: Option<Record> := None;
    if |params| > 0 {
      var record := CollapseParams(params);
      if |record| > 0 {
        parameters := Some(record);
      }
    }
    se := SchemaEdge(TargetDisplayId(idMap, e.target), ConditionOf(e), parameters);
  }

  /** The `edges.map` of one node: each outgoing edge translated in turn. */
  method ExportEdgeListWithLoop(idMap: map<string, string>, outgoing: seq<FlowEdge>) returns (schemaEdges: seq<SchemaEdge>)
    ensures |schemaEdges| == |outgoing|
    ensures forall a :: 0 <= a < |outgoing| ==> schemaEdges[a] == ExportEdge(idMap, outgoing[a])
  {
    schemaEdges := [];
    for k := 0 to |outgoing|
      invariant |schemaEdges| == k
      invariant forall a :: 0 <= a < k ==> schemaEdges[a] == ExportEdge(idMap, outgoing[a])
    {
      var se := ExportEdgeWithLoop(idMap, outgoing[k]);
      schemaEdges := schemaEdges + [se];
    }
  }

  /** One exported node: its outgoing edges, each translated in turn. */
  method ExportNodeWithLoop(idMap: map<string, string>, edges: seq<FlowEdge>, n: FlowNode) returns (sn: SchemaNode)
    ensures sn == ExportNode(idMap, edges, n)
  {
    var outgoing := Outgoing(edges, n.id);
    var schemaEdges := ExportEdgeListWithLoop(idMap, outgoing);
    assert schemaEdges == ExportEdges(idMap, outgoing);
    sn := SchemaNode(n.data.displayId, n.data.description, n.data.prompt, schemaEdges);
  }

  /** The `nodes.map` of the export, each node translated by the loop above. */
  method ExportNodeListWithLoop(idMap: map<string, string>, edges: seq<FlowEdge>, nodes: seq<FlowNode>)
    returns (schemaNodes: seq<SchemaNode>)
    ensures |schemaNodes| == |nodes|
    ensures forall a :: 0 <= a < |nodes| ==> schemaNodes[a] == ExportNode(idMap, edges, nodes[a])
  {
    schemaNodes := [];
    for i := 0 to |nodes|
      invariant |schemaNodes| == i
      invariant forall a :: 0 <= a < i ==> schemaNodes[a] == ExportNode(idMap, edges, nodes[a])
    {
      var sn := ExportNodeWithLoop(idMap, edges, nodes[i]);
      schemaNodes := schemaNodes + [sn];
    }
  }

  /** The export as the source runs it: lookup table by a loop, then each node and each outgoing edge. */
  method ExportFlow(nodes: seq<FlowNode>, edges: seq<FlowEdge>) returns (schema: FlowSchema)
    ensures schema == FlowToSchema(nodes, edges)
  {
    var idMap := BuildIdToDisplayId(nodes);
    var schemaNodes := ExportNodeListWithLoop(idMap, edges, nodes);
    var start := FindStart(nodes);
    schema := FlowSchema(if start.Some? then start.value.data.displayId else "", schemaNodes);
  }

  // ---------------------------------------------------------------------
  // Properties of the export

  /** Nodes correspond one-to-one and in order, carrying display id, description and prompt. */
  lemma ExportNodes(nodes: seq<FlowNode>, edges: seq<FlowEdge>)
    ensures var s := FlowToSchema(nodes, edges);
      && |s.nodes| == |nodes|
      && forall i :: 0 <= i < |nodes| ==>
           && s.nodes[i].id == nodes[i].data.displayId
           && s.nodes[i].description == nodes[i].data.description
           && s.nodes[i].prompt == nodes[i].data.prompt
           && |s.nodes[i].edges| == |Outgoing(edges, nodes[i].id)|
  {
  }

  /**
   * `to_node_id` is the target's display id when a node with that internal id
   * exists and its display id is non-empty; otherwise the raw target id.
   */
  lemma ExportTarget(nodes: seq<FlowNode>, e: FlowEdge)
    requires forall a, b :: 0 <= a < b < |nodes| ==> nodes[a].id != nodes[b].id
    ensures forall i :: 0 <= i < |nodes| && nodes[i].id == e.target && nodes[i].data.displayId != "" ==>
              ExportEdge(IdToDisplayId(nodes), e).toNodeId == nodes[i].data.displayId
    ensures (e.target !in NodeIds(nodes) ||
             exists i :: 0 <= i < |nodes| && nodes[i].id == e.target && nodes[i].data.displayId == "") ==>
              ExportEdge(IdToDisplayId(nodes), e).toNodeId == e.target
  {
    forall i | 0 <= i < |nodes| && nodes[i].id == e.target {
      IdToDisplayIdOfNode(nodes, i);
    }
  }

  /** A missing or empty condition exports as `""`; parameters appear only for a non-empty record. */
  lemma ExportConditionAndParams(idMap: map<string, string>, e: FlowEdge)
    ensures ExportEdge(idMap, e).condition == ConditionOf(e)
    ensures (e.data.None? || e.data.value.condition == "") ==> ExportEdge(idMap, e).condition == ""
    ensures ExportEdge(idMap, e).parameters.None? <==> ParamMap(ParamsOf(e)) == map[]
    ensures ExportEdge(idMap, e).parameters.Some? ==>
              RecordToMap(ExportEdge(idMap, e).parameters.value) == ParamMap(ParamsOf(e))
  {
    var ps := ParamsOf(e);
    CollapseMeaning(ps);
    if |ps| == 0 {
      assert ParamMap(ps) == map[];
    }
    if |Collapse(ps)| == 0 {
      assert RecordToMap(Collapse(ps)) == map[];
    } else {
      assert Collapse(ps)[0].0 in RecordToMap(Collapse(ps));
    }
  }

  /** `start_node_id` is the display id of the first start node, or `""` when there is none. */
  lemma ExportStart(nodes: seq<FlowNode>, edges: seq<FlowEdge>)
    ensures (forall i :: 0 <= i < |nodes| ==> !nodes[i].data.isStart) ==> FlowToSchema(nodes, edges).startNodeId == ""
    ensures forall i :: 0 <= i < |nodes| && nodes[i].data.isStart && (forall j :: 0 <= j < i ==> !nodes[j].data.isStart) ==>
              FlowToSchema(nodes, edges).startNodeId == nodes[i].data.displayId
  {
    var r := FindStart(nodes);
    if r.Some? {
      var i :| 0 <= i < |nodes| && nodes[i] == r.value && r.value.data.isStart &&
               forall j :: 0 <= j < i ==> !nodes[j].data.isStart;
      forall i' | 0 <= i' < |nodes| && nodes[i'].data.isStart && (forall j :: 0 <= j < i' ==> !nodes[j].data.isStart)
        ensures nodes[i'] == r.value
      {
        FirstStartUnique(nodes, i, i');
      }
    }
  }

  /** Two first start nodes are the same node. */
  lemma FirstStartUnique(nodes: seq<FlowNode>, i: nat, i': nat)
    requires i < |nodes| && nodes[i].data.isStart && forall j :: 0 <= j < i ==> !nodes[j].data.isStart
    requires i' < |nodes| && nodes[i'].data.isStart && forall j :: 0 <= j < i' ==> !nodes[j].data.isStart
    ensures i == i'
  {
  }
}
