/**
 * The import conversion: a schema becomes editor nodes and edges. Display
 * ids are mapped to fresh internal ids, edges whose target does not resolve
 * are dropped, parameter records become parameter lists, and nodes are
 * placed by the breadth-first layout.
 *
 * `crypto.randomUUID()` is replaced by a supply `uuid` of fresh ids, one per call
 * site and index (`FreshKey`); where distinct ids matter, the lemmas assume
 * the supply is injective and never yields the empty string.
 */
module SchemaToFlow {
  import opened Base
  import opened FlowTypes
  import opened FlowToSchema
  import opened AutoLayout

  /** Which `crypto.randomUUID()` call an id serves: node `i`, edge `j` of node `i`, or its parameter `p`. */
  datatype FreshKey = NodeKey(i: nat) | EdgeKey(i: nat, j: nat) | ParamKey(i: nat, j: nat, p: nat)

  /** A supply of UUIDs: never the empty string, and different for different calls. */
  ghost predicate FreshIds(uuid: FreshKey -> string)
  {
    (forall k :: uuid(k) != "") && forall a, b :: a != b ==> uuid(a) != uuid(b)
  }

  // ---------------------------------------------------------------------
  // The lookup tables

  /** `idMap` after the first `n` nodes: display id to fresh id, the last node with a display id winning. */
  function IdMap(nodes: seq<SchemaNode>, uuid: FreshKey -> string, n: nat): map<string, string>
    requires n <= |nodes|
  {
    if n == 0 then map[] else IdMap(nodes, uuid, n - 1)[nodes[n - 1].id := uuid(NodeKey(n - 1))]
  }

  /** `indexMap` after the first `n` nodes: display id to the index of the last node carrying it. */
  function IndexMap(nodes: seq<SchemaNode>, n: nat): map<string, nat>
    requires n <= |nodes|
  {
    if n == 0 then map[] else IndexMap(nodes, n - 1)[nodes[n - 1].id := n - 1]
  }

  /** Node `k` is the last of the first `n` nodes with its display id. */
  predicate LastWith(nodes: seq<SchemaNode>, n: nat, k: nat)
    requires k < n <= |nodes|
  {
    forall k' :: k < k' < n ==> nodes[k'].id != nodes[k].id
  }

  /** Both tables have a key exactly for the display ids of the nodes. */
  lemma {:induction false} TableKeys(nodes: seq<SchemaNode>, uuid: FreshKey -> string, n: nat, id: string)
    requires n <= |nodes|
    ensures id in IdMap(nodes, uuid, n) <==> exists k :: 0 <= k < n && nodes[k].id == id
    ensures id in IndexMap(nodes, n) <==> id in IdMap(nodes, uuid, n)
  {
    if n > 0 {
      TableKeys(nodes, uuid, n - 1, id);
    }
  }

  /** The last node with a display id supplies its entries in both tables. */
  lemma {:induction false} TablesAtLast(nodes: seq<SchemaNode>, uuid: FreshKey -> string, n: nat, k: nat)
    requires k < n <= |nodes| && LastWith(nodes, n, k)
    ensures nodes[k].id in IdMap(nodes, uuid, n) && IdMap(nodes, uuid, n)[nodes[k].id] == uuid(NodeKey(k))
    ensures nodes[k].id in IndexMap(nodes, n) && IndexMap(nodes, n)[nodes[k].id] == k
  {
    if k < n - 1 {
      TablesAtLast(nodes, uuid, n - 1, k);
    }
  }

  /** Every entry of the tables is the fresh id, and the index, of one and the same node carrying that display id. */
  lemma {:induction false} TablesAgree(nodes: seq<SchemaNode>, uuid: FreshKey -> string, n: nat, id: string)
    requires n <= |nodes| && id in IndexMap(nodes, n)
    ensures id in IdMap(nodes, uuid, n)
    ensures IndexMap(nodes, n)[id] < n && nodes[IndexMap(nodes, n)[id]].id == id
    ensures IdMap(nodes, uuid, n)[id] == uuid(NodeKey(IndexMap(nodes, n)[id]))
  {
    if nodes[n - 1].id != id {
      TablesAgree(nodes, uuid, n - 1, id);
    }
  }

  /** `for (const node of schema.nodes) idMap.set(node.id, crypto.randomUUID())` */
  method BuildIdMap(nodes: seq<SchemaNode>, uuid: FreshKey -> string) returns (idMap: map<string, string>)
    ensures idMap == IdMap(nodes, uuid, |nodes|)
  {
    idMap := map[];
    for i := 0 to |nodes|
      invariant idMap == IdMap(nodes, uuid, i)
    {
      idMap := idMap[nodes[i].id := uuid(NodeKey(i))];
    }
  }

  /** `schema.nodes.forEach((n, i) => indexMap.set(n.id, i))` */
  method BuildIndexMap(nodes: seq<SchemaNode>) returns (indexMap: map<string, nat>)
    ensures indexMap == IndexMap(nodes, |nodes|)
  {
    indexMap := map[];
    for i := 0 to |nodes|
      invariant indexMap == IndexMap(nodes, i)
    {
      indexMap := indexMap[nodes[i].id := i];
    }
  }

  // ---------------------------------------------------------------------
  // The layout input

  /** The indices of the first `m` targets that `indexMap` knows, in edge order. */
  function Neighbors(edges: seq<SchemaEdge>, indexMap: map<string, nat>, m: nat): (r: seq<nat>)
    requires m <= |edges|
    ensures forall t :: 0 <= t < |r| ==> r[t] in indexMap.Values
  {
    if m == 0 then []
    else
      var r := Neighbors(edges, indexMap, m - 1);
      var to := edges[m - 1].toNodeId;
      if to in indexMap then r + [indexMap[to]] else r
  }

  function NeighborsAt(nodes: seq<SchemaNode>, indexMap: map<string, nat>, i: nat): seq<nat>
    requires i < |nodes|
  {
    Neighbors(nodes[i].edges, indexMap, |nodes[i].edges|)
  }

  /** `adjacency`: for each node, the indices of its resolvable targets. */
  function Adjacency(nodes: seq<SchemaNode>, indexMap: map<string, nat>): (adj: seq<seq<nat>>)
    ensures |adj| == |nodes|
  {
    seq(|nodes|, i requires 0 <= i < |nodes| => NeighborsAt(nodes, indexMap, i))
  }

  /** Every resolved target is a node index, so the adjacency is a valid layout input. */
  lemma AdjacencyOk(nodes: seq<SchemaNode>)
    ensures AdjOk(|nodes|, Adjacency(nodes, IndexMap(nodes, |nodes|)))
  {
    var indexMap := IndexMap(nodes, |nodes|);
    var adj := Adjacency(nodes, indexMap);
    forall u, k | 0 <= u < |nodes| && 0 <= k < |adj[u]|
      ensures adj[u][k] < |nodes|
    {
      assert adj[u][k] in indexMap.Values;
      var id :| id in indexMap && indexMap[id] == adj[u][k];
      TablesAgree(nodes, u => "", |nodes|, id);
    }
  }

  /** The adjacency loop, one node at a time, one edge at a time. */
  method BuildAdjacency(nodes: seq<SchemaNode>, indexMap: map<string, nat>) returns (adjacency: seq<seq<nat>>)
    ensures adjacency == Adjacency(nodes, indexMap)
  {
    adjacency := [];
    for i := 0 to |nodes|
      invariant |adjacency| == i
      invariant forall u :: 0 <= u < i ==> adjacency[u] == NeighborsAt(nodes, indexMap, u)
    {
      var neighbors: seq<nat> := [];
      var edges := nodes[i].edges;
      for j := 0 to |edges|
        invariant neighbors == Neighbors(edges, indexMap, j)
      {
        var to := edges[j].toNodeId;
        if to in indexMap {
          neighbors := neighbors + [indexMap[to]];
        }
      }
      adjacency := adjacency + [neighbors];
    }
  }

  /** `indexMap.get(schema.start_node_id) ?? -1` */
  function StartIndex(schema: FlowSchema): int
  {
    var indexMap := IndexMap(schema.nodes, |schema.nodes|);
    if schema.startNodeId in indexMap then indexMap[schema.startNodeId] else -1
  }

  // ---------------------------------------------------------------------
  // The converted nodes and edges

  /** Every display id has an entry: `idMap.get(sn.id)!` never fails. */
  predicate Covers(idMap: map<string, string>, nodes: seq<SchemaNode>)
  {
    forall i :: 0 <= i < |nodes| ==> nodes[i].id in idMap
  }

  lemma IdMapCovers(nodes: seq<SchemaNode>, uuid: FreshKey -> string)
    ensures Covers(IdMap(nodes, uuid, |nodes|), nodes)
  {
    forall i | 0 <= i < |nodes|
      ensures nodes[i].id in IdMap(nodes, uuid, |nodes|)
    {
      TableKeys(nodes, uuid, |nodes|, nodes[i].id);
    }
  }

  /** `positions[i] || { x: i * 340, y: 0 }` */
  function PositionOr(p: Option<Position>, i: nat): Position
  {
    if p.Some? then p.value else Position(i * 340, 0)
  }

  /** Node `i` of the result. */
  function ImportNode(schema: FlowSchema, idMap: map<string, string>, i: nat, position: Position): FlowNode
    requires i < |schema.nodes| && schema.nodes[i].id in idMap
  {
    var sn := schema.nodes[i];
    FlowNode(idMap[sn.id], FLOW_NODE_TYPE, position,
             NodeData(sn.id, sn.description, sn.prompt, sn.id == schema.startNodeId))
  }

  /** `!targetId` is false: the target display id is known and its id is not the empty string. */
  predicate Resolves(idMap: map<string, string>, se: SchemaEdge)
  {
    se.toNodeId in idMap && idMap[se.toNodeId] != ""
  }

  /** The parameter list of edge `j` of node `i`: present only for a non-empty record, one fresh id per entry. */
  function ImportParams(parameters: Option<Record>, uuid: FreshKey -> string, i: nat, j: nat): (r: Option<seq<Param>>)
    ensures r.Some? <==> parameters.Some? && |parameters.value| > 0
    ensures r.Some? ==> |r.value| == |parameters.value|
    ensures r.Some? ==> forall p :: 0 <= p < |r.value| ==>
      r.value[p] == Param(Some(uuid(ParamKey(i, j, p))), parameters.value[p].0, parameters.value[p].1)
  {
    if parameters.Some? && |parameters.value| > 0 then
      var rec := parameters.value;
      Some(seq(|rec|, p requires 0 <= p < |rec| => Param(Some(uuid(ParamKey(i, j, p))), rec[p].0, rec[p].1)))
    else None
  }

  /** The edge built for schema edge `j` of node `i`, leaving the node with id `sourceId`. */
  function ImportEdge(idMap: map<string, string>, uuid: FreshKey -> string, sourceId: string, se: SchemaEdge, i: nat, j: nat): FlowEdge
    requires Resolves(idMap, se)
  {
    FlowEdge(uuid(EdgeKey(i, j)), sourceId, idMap[se.toNodeId], None, None, Some(FLOW_EDGE_TYPE), None,
             Some(EdgeData(se.condition, ImportParams(se.parameters, uuid, i, j))))
  }

  /** The edges built for the first `m` schema edges of node `i`: one per resolving edge, in order. */
  function NodeEdges(idMap: map<string, string>, uuid: FreshKey -> string, sourceId: string, edges: seq<SchemaEdge>, i: nat, m: nat): seq<FlowEdge>
    requires m <= |edges|
  {
    if m == 0 then []
    else
      NodeEdges(idMap, uuid, sourceId, edges, i, m - 1)
      + if Resolves(idMap, edges[m - 1]) then [ImportEdge(idMap, uuid, sourceId, edges[m - 1], i, m - 1)] else []
  }

  function NodeEdgesAt(nodes: seq<SchemaNode>, idMap: map<string, string>, uuid: FreshKey -> string, i: nat): seq<FlowEdge>
    requires i < |nodes| && Covers(idMap, nodes)
  {
    NodeEdges(idMap, uuid, idMap[nodes[i].id], nodes[i].edges, i, |nodes[i].edges|)
  }

  /** The edges built for the first `n` nodes, node by node. */
  function ImportEdges(nodes: seq<SchemaNode>, idMap: map<string, string>, uuid: FreshKey -> string, n: nat): seq<FlowEdge>
    requires n <= |nodes| && Covers(idMap, nodes)
  {
    if n == 0 then [] else ImportEdges(nodes, idMap, uuid, n - 1) + NodeEdgesAt(nodes, idMap, uuid, n - 1)
  }

  /** The edge loop of `schemaToFlow`. */
  method BuildEdges(nodes: seq<SchemaNode>, idMap: map<string, string>, uuid: FreshKey -> string) returns (edges: seq<FlowEdge>)
    requires Covers(idMap, nodes)
    ensures edges == ImportEdges(nodes, idMap, uuid, |nodes|)
  {
    edges := [];
    for i := 0 to |nodes|
      invariant edges == ImportEdges(nodes, idMap, uuid, i)
    {
      var sn := nodes[i];
      var sourceId := idMap[sn.id];
      ghost var before := edges;
      for j := 0 to |sn.edges|
        invariant edges == before + NodeEdges(idMap, uuid, sourceId, sn.edges, i, j)
      {
        var se := sn.edges[j];
        if se.toNodeId in idMap && idMap[se.toNodeId] != "" {
          var targetId := idMap[se.toNodeId];
          var parameters: Option<seq<Param>> := None;
          if se.parameters.Some? && |se.parameters.value| > 0 {
            var rec := se.parameters.value;
            var list: seq<Param> := [];
            for p := 0 to |rec|
              invariant |list| == p
              invariant forall q :: 0 <= q < p ==> list[q] == Param(Some(uuid(ParamKey(i, j, q))), rec[q].0, rec[q].1)
            {
              list := list + [Param(Some(uuid(ParamKey(i, j, p))), rec[p].0, rec[p].1)];
            }
            ghost var r := ImportParams(se.parameters, uuid, i, j);
            assert list == r.value;
            parameters := Some(list);
          }
          assert parameters == ImportParams(se.parameters, uuid, i, j);
          edges := edges + [FlowEdge(uuid(EdgeKey(i, j)), sourceId, targetId, None, None, Some(FLOW_EDGE_TYPE), None,
                                     Some(EdgeData(se.condition, parameters)))];
        }
      }
    }
  }

  /** The layout rows of an imported schema, each in the order it is placed. */
  ghost function ImportRows(schema: FlowSchema): seq<seq<nat>>
  {
    AdjacencyOk(schema.nodes);
    LayoutLevels(|schema.nodes|, Adjacency(schema.nodes, IndexMap(schema.nodes, |schema.nodes|)), StartIndex(schema))
  }

  /**
   * `schemaToFlow(schema)`. The ghost `levels` are the layout rows, fixed by
   * the schema: node `levels[k][i]` sits at place `i` of row `k`.
   */
  method SchemaToFlow(schema: FlowSchema, uuid: FreshKey -> string)
    returns (nodes: seq<FlowNode>, edges: seq<FlowEdge>, ghost levels: seq<seq<nat>>)
    ensures Covers(IdMap(schema.nodes, uuid, |schema.nodes|), schema.nodes)
    ensures |nodes| == |schema.nodes|
    ensures forall i :: 0 <= i < |nodes| ==>
      nodes[i] == ImportNode(schema, IdMap(schema.nodes, uuid, |schema.nodes|), i, nodes[i].position)
    ensures edges == ImportEdges(schema.nodes, IdMap(schema.nodes, uuid, |schema.nodes|), uuid, |schema.nodes|)
    ensures levels == ImportRows(schema)
    ensures Partition(|schema.nodes|, levels)
    ensures exists reached ::
      LayoutRows(|schema.nodes|, Adjacency(schema.nodes, IndexMap(schema.nodes, |schema.nodes|)), StartIndex(schema), levels, reached)
    ensures forall k, i :: 0 <= k < |levels| && 0 <= i < |levels[k]| ==>
      levels[k][i] < |nodes| && nodes[levels[k][i]].position == Slot(|levels[k]|, k, i)
  {
    var idMap := BuildIdMap(schema.nodes, uuid);
    var indexMap := BuildIndexMap(schema.nodes);
    var adjacency := BuildAdjacency(schema.nodes, indexMap);
    var startIdx := if schema.startNodeId in indexMap then indexMap[schema.startNodeId] else -1;
    assert startIdx == StartIndex(schema);
    AdjacencyOk(schema.nodes);
    var positions;
    positions, levels := Layout(|schema.nodes|, startIdx, adjacency);
    var placed := positions[..];
    IdMapCovers(schema.nodes, uuid);
    nodes := seq(|schema.nodes|, i requires 0 <= i < |schema.nodes| => ImportNode(schema, idMap, i, PositionOr(placed[i], i)));
    edges := BuildEdges(schema.nodes, idMap, uuid);
  }

  // ---------------------------------------------------------------------
  // Properties of the conversion

  /** Nodes: one per schema node, in order, copying the display id, description and prompt; start exactly when the id is `start_node_id`. */
  lemma ImportNodeFields(schema: FlowSchema, idMap: map<string, string>, i: nat, position: Position)
    requires i < |schema.nodes| && schema.nodes[i].id in idMap
    ensures var n := ImportNode(schema, idMap, i, position);
      && n.nodeType == FLOW_NODE_TYPE && n.position == position
      && n.data.displayId == schema.nodes[i].id
      && n.data.description == schema.nodes[i].description
      && n.data.prompt == schema.nodes[i].prompt
      && (n.data.isStart <==> schema.nodes[i].id == schema.startNodeId)
  {
  }

  /** Every imported node's id is an entry of `idMap`, and every entry is some imported node's id. */
  lemma IdMapValues(nodes: seq<SchemaNode>, uuid: FreshKey -> string, id: string)
    requires id in IdMap(nodes, uuid, |nodes|)
    ensures exists k :: 0 <= k < |nodes| && nodes[k].id == id && IdMap(nodes, uuid, |nodes|)[id] == IdMap(nodes, uuid, |nodes|)[nodes[k].id]
  {
    TableKeys(nodes, uuid, |nodes|, id);
  }

  /** The edges of one node all leave `sourceId` and end at an `idMap` entry. */
  lemma {:induction false} NodeEdgesEnds(idMap: map<string, string>, uuid: FreshKey -> string, sourceId: string,
                                         edges: seq<SchemaEdge>, i: nat, m: nat, e: FlowEdge)
    requires m <= |edges| && e in NodeEdges(idMap, uuid, sourceId, edges, i, m)
    ensures e.source == sourceId && e.target in idMap.Values && e.target != ""
    ensures exists j :: 0 <= j < m && Resolves(idMap, edges[j]) && e == ImportEdge(idMap, uuid, sourceId, edges[j], i, j)
  {
    if e !in NodeEdges(idMap, uuid, sourceId, edges, i, m - 1) {
    } else {
      NodeEdgesEnds(idMap, uuid, sourceId, edges, i, m - 1, e);
    }
  }

  /** Every imported edge comes from a resolving schema edge `j` of some node `i`. */
  lemma {:induction false} ImportEdgeSource(nodes: seq<SchemaNode>, idMap: map<string, string>, uuid: FreshKey -> string, n: nat, e: FlowEdge)
    requires n <= |nodes| && Covers(idMap, nodes) && e in ImportEdges(nodes, idMap, uuid, n)
    ensures exists i, j ::
      0 <= i < n && 0 <= j < |nodes[i].edges| && Resolves(idMap, nodes[i].edges[j]) &&
      e == ImportEdge(idMap, uuid, idMap[nodes[i].id], nodes[i].edges[j], i, j)
  {
    if e in NodeEdgesAt(nodes, idMap, uuid, n - 1) {
      NodeEdgesEnds(idMap, uuid, idMap[nodes[n - 1].id], nodes[n - 1].edges, n - 1, |nodes[n - 1].edges|, e);
    } else {
      ImportEdgeSource(nodes, idMap, uuid, n - 1, e);
    }
  }

  /** Every resolving schema edge `j` of node `i` is imported. */
  lemma {:induction false} NodeEdgesHas(idMap: map<string, string>, uuid: FreshKey -> string, sourceId: string,
                                        edges: seq<SchemaEdge>, i: nat, m: nat, j: nat)
    requires j < m <= |edges| && Resolves(idMap, edges[j])
    ensures ImportEdge(idMap, uuid, sourceId, edges[j], i, j) in NodeEdges(idMap, uuid, sourceId, edges, i, m)
  {
    if j < m - 1 {
      NodeEdgesHas(idMap, uuid, sourceId, edges, i, m - 1, j);
    }
  }

  lemma {:induction false} ImportEdgesHas(nodes: seq<SchemaNode>, idMap: map<string, string>, uuid: FreshKey -> string, n: nat, i: nat, j: nat)
    requires i < n <= |nodes| && Covers(idMap, nodes) && j < |nodes[i].edges| && Resolves(idMap, nodes[i].edges[j])
    ensures ImportEdge(idMap, uuid, idMap[nodes[i].id], nodes[i].edges[j], i, j) in ImportEdges(nodes, idMap, uuid, n)
  {
    if i < n - 1 {
      ImportEdgesHas(nodes, idMap, uuid, n - 1, i, j);
    } else {
      NodeEdgesHas(idMap, uuid, idMap[nodes[i].id], nodes[i].edges, i, |nodes[i].edges|, j);
    }
  }

  /**
   * Edges: exactly one per schema edge whose `to_node_id` resolves, leaving
   * the fresh id of its node and entering the fresh id of its target.
   */
  lemma ImportedEdges(schema: FlowSchema, uuid: FreshKey -> string, e: FlowEdge)
    requires Covers(IdMap(schema.nodes, uuid, |schema.nodes|), schema.nodes)
    ensures var idMap := IdMap(schema.nodes, uuid, |schema.nodes|);
      e in ImportEdges(schema.nodes, idMap, uuid, |schema.nodes|) <==>
      exists i, j :: 0 <= i < |schema.nodes| && 0 <= j < |schema.nodes[i].edges| && Resolves(idMap, schema.nodes[i].edges[j])
        && e == ImportEdge(idMap, uuid, idMap[schema.nodes[i].id], schema.nodes[i].edges[j], i, j)
  {
    var nodes := schema.nodes;
    var idMap := IdMap(nodes, uuid, |nodes|);
    if e in ImportEdges(nodes, idMap, uuid, |nodes|) {
      ImportEdgeSource(nodes, idMap, uuid, |nodes|, e);
    }
    if exists i, j :: 0 <= i < |nodes| && 0 <= j < |nodes[i].edges| && Resolves(idMap, nodes[i].edges[j])
        && e == ImportEdge(idMap, uuid, idMap[nodes[i].id], nodes[i].edges[j], i, j) {
      var i, j :| 0 <= i < |nodes| && 0 <= j < |nodes[i].edges| && Resolves(idMap, nodes[i].edges[j])
        && e == ImportEdge(idMap, uuid, idMap[nodes[i].id], nodes[i].edges[j], i, j);
      ImportEdgesHas(nodes, idMap, uuid, |nodes|, i, j);
    }
  }

  /** No imported edge dangles: both of its ends are ids of imported nodes. */
  lemma ImportClosed(schema: FlowSchema, uuid: FreshKey -> string, nodes: seq<FlowNode>, edges: seq<FlowEdge>)
    requires Covers(IdMap(schema.nodes, uuid, |schema.nodes|), schema.nodes)
    requires |nodes| == |schema.nodes|
    requires forall i :: 0 <= i < |nodes| ==> nodes[i] == ImportNode(schema, IdMap(schema.nodes, uuid, |schema.nodes|), i, nodes[i].position)
    requires edges == ImportEdges(schema.nodes, IdMap(schema.nodes, uuid, |schema.nodes|), uuid, |schema.nodes|)
    ensures EdgesClosed(nodes, edges)
  {
    var idMap := IdMap(schema.nodes, uuid, |schema.nodes|);
    forall k | 0 <= k < |edges|
      ensures edges[k].source in NodeIds(nodes) && edges[k].target in NodeIds(nodes)
    {
      ImportEdgeSource(schema.nodes, idMap, uuid, |schema.nodes|, edges[k]);
      var i, j :| 0 <= i < |schema.nodes| && 0 <= j < |schema.nodes[i].edges| && Resolves(idMap, schema.nodes[i].edges[j])
        && edges[k] == ImportEdge(idMap, uuid, idMap[schema.nodes[i].id], schema.nodes[i].edges[j], i, j);
      assert nodes[i].id == edges[k].source;
      var to := schema.nodes[i].edges[j].toNodeId;
      TableKeys(schema.nodes, uuid, |schema.nodes|, to);
      var t :| 0 <= t < |schema.nodes| && schema.nodes[t].id == to;
      assert nodes[t].id == edges[k].target;
    }
  }

  /** With distinct display ids, node `i` gets fresh id `i`, and an edge to display id `nodes[t].id` enters it. */
  lemma UniqueIdsResolve(nodes: seq<SchemaNode>, uuid: FreshKey -> string, i: nat)
    requires i < |nodes| && forall a, b :: 0 <= a < b < |nodes| ==> nodes[a].id != nodes[b].id
    ensures nodes[i].id in IdMap(nodes, uuid, |nodes|) && IdMap(nodes, uuid, |nodes|)[nodes[i].id] == uuid(NodeKey(i))
    ensures nodes[i].id in IndexMap(nodes, |nodes|) && IndexMap(nodes, |nodes|)[nodes[i].id] == i
  {
    TablesAtLast(nodes, uuid, |nodes|, i);
  }

  /** The imported parameter list denotes the record it came from. */
  lemma {:induction false} ImportParamsMeaning(rec: Record, uuid: FreshKey -> string, i: nat, j: nat)
    requires "" !in Keys(rec) && |rec| > 0
    ensures ParamMap(ImportParams(Some(rec), uuid, i, j).value) == RecordToMap(rec)
  {
    var ps := ImportParams(Some(rec), uuid, i, j).value;
    ParamRecordMap(ps, rec);
  }

  /** A parameter list carrying a record's entries, in order, denotes that record. */
  lemma {:induction false} ParamRecordMap(ps: seq<Param>, rec: Record)
    requires |ps| == |rec| && "" !in Keys(rec)
    requires forall p :: 0 <= p < |ps| ==> ps[p].key == rec[p].0 && ps[p].value == rec[p].1
    ensures ParamMap(ps) == RecordToMap(rec)
  {
    if ps != [] {
      var n := |ps|;
      var init := rec[..n - 1];
      assert "" !in Keys(init) by {
        forall t | 0 <= t < |init| ensures init[t].0 != "" {
          assert init[t] == rec[t];
        }
      }
      ParamRecordMap(ps[..n - 1], init);
      RecordSnoc(init, rec[n - 1]);
      assert init + [rec[n - 1]] == rec;
      assert rec[n - 1].0 in Keys(rec);
    }
  }

  /** Appending an entry sets its key in the map: later entries win. */
  lemma {:induction false} RecordSnoc(rec: Record, e: (string, string))
    ensures RecordToMap(rec + [e]) == RecordToMap(rec)[e.0 := e.1]
  {
    if rec == [] {
      assert [] + [e] == [e];
    } else {
      var r := rec + [e];
      assert r[0] == rec[0] && r[1..] == rec[1..] + [e];
      RecordSnoc(rec[1..], e);
      UnionUpdate(map[rec[0].0 := rec[0].1], RecordToMap(rec[1..]), e.0, e.1);
    }
  }

  lemma UnionUpdate(a: map<string, string>, b: map<string, string>, k: string, v: string)
    ensures a + b[k := v] == (a + b)[k := v]
  {
  }
}
