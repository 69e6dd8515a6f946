/**
 * Export followed by import: the JSON file the export button downloads,
 * what the import validator says about it, and what the importer builds
 * from it. For a graph with one start node, no dangling edge and display
 * ids that are non-blank and distinct after trimming, the validator
 * reports nothing and the importer gives back the same nodes and edges,
 * up to internal ids and positions.
 */
module RoundTrip {
  import opened Base
  import opened Json
  import opened FlowTypes
  import opened FlowToSchema
  import opened ImportValidation
  import opened SchemaToFlow
  import FlowProvider

  // ---------------------------------------------------------------------
  // The file: `JSON.stringify(schema)` as a JSON value

  /** A parameter record as a JSON object, entries in insertion order. */
  function RecordJson(rec: Record): seq<(string, Json)>
  {
    seq(|rec|, k requires 0 <= k < |rec| => (rec[k].0, JString(rec[k].1)))
  }

  /** A schema edge; an absent `parameters` field is omitted, as `JSON.stringify` omits `undefined`. */
  function EdgeJson(se: SchemaEdge): Json
  {
    JObject([("to_node_id", JString(se.toNodeId)), ("condition", JString(se.condition))]
             + if se.parameters.Some? then [("parameters", JObject(RecordJson(se.parameters.value)))] else [])
  }

  function EdgesJson(es: seq<SchemaEdge>): seq<Json>
  {
    seq(|es|, j requires 0 <= j < |es| => EdgeJson(es[j]))
  }

  function NodeJson(sn: SchemaNode): Json
  {
    JObject([("id", JString(sn.id)), ("description", JString(sn.description)), ("prompt", JString(sn.prompt)),
             ("edges", JArray(EdgesJson(sn.edges)))])
  }

  function NodesJson(ns: seq<SchemaNode>): seq<Json>
  {
    seq(|ns|, i requires 0 <= i < |ns| => NodeJson(ns[i]))
  }

  function SchemaJson(s: FlowSchema): Json
  {
    JObject([("start_node_id", JString(s.startNodeId)), ("nodes", JArray(NodesJson(s.nodes)))])
  }

  // ---------------------------------------------------------------------
  // Reading the file back: `parsed as FlowSchema`

  /** A string field, or `""` when it is missing or not a string. */
  function StringField(v: Json, name: string): string
  {
    match GetString(v, name)
    case Some(s) => s
    case None => ""
  }

  /** `Object.entries` of a parameter object; a value that is not a string reads as `""`. */
  function RecordOf(members: seq<(string, Json)>): Record
  {
    seq(|members|, k requires 0 <= k < |members| => (members[k].0, if members[k].1.JString? then members[k].1.s else ""))
  }

  function EdgeOf(v: Json): SchemaEdge
  {
    SchemaEdge(StringField(v, "to_node_id"), StringField(v, "condition"),
               match Get(v, "parameters") case Some(JObject(ms)) => Some(RecordOf(ms)) case _ => None)
  }

  function NodeOf(v: Json): SchemaNode
  {
    var es := EdgesOf(v);
    SchemaNode(StringField(v, "id"), StringField(v, "description"), StringField(v, "prompt"),
               seq(|es|, j requires 0 <= j < |es| => EdgeOf(es[j])))
  }

  function SchemaOf(data: Json): FlowSchema
  {
    var ns := match GetArray(data, "nodes") case Some(ns) => ns case None => [];
    FlowSchema(StringField(data, "start_node_id"), seq(|ns|, i requires 0 <= i < |ns| => NodeOf(ns[i])))
  }

  // ---------------------------------------------------------------------
  // Field access on the file

  lemma EdgeJsonFields(se: SchemaEdge)
    ensures GetString(EdgeJson(se), "to_node_id") == Some(se.toNodeId)
    ensures GetString(EdgeJson(se), "condition") == Some(se.condition)
    ensures Get(EdgeJson(se), "parameters") ==
      if se.parameters.Some? then Some(JObject(RecordJson(se.parameters.value))) else None
  {
    var ms := EdgeJson(se).members;
    LookupUnique(ms, 0);
    LookupUnique(ms, 1);
    if se.parameters.Some? {
      LookupUnique(ms, 2);
    } else {
      LookupMeaning(ms, "parameters");
    }
  }

  lemma NodeJsonFields(sn: SchemaNode)
    ensures GetString(NodeJson(sn), "id") == Some(sn.id)
    ensures GetString(NodeJson(sn), "description") == Some(sn.description)
    ensures GetString(NodeJson(sn), "prompt") == Some(sn.prompt)
    ensures GetArray(NodeJson(sn), "edges") == Some(EdgesJson(sn.edges))
  {
    var ms := NodeJson(sn).members;
    LookupUnique(ms, 0);
    LookupUnique(ms, 1);
    LookupUnique(ms, 2);
    LookupUnique(ms, 3);
  }

  lemma SchemaJsonFields(s: FlowSchema)
    ensures GetString(SchemaJson(s), "start_node_id") == Some(s.startNodeId)
    ensures GetArray(SchemaJson(s), "nodes") == Some(NodesJson(s.nodes))
  {
    var ms := SchemaJson(s).members;
    LookupUnique(ms, 0);
    LookupUnique(ms, 1);
  }

  lemma RecordOfJson(rec: Record)
    ensures RecordOf(RecordJson(rec)) == rec
  {
  }

  /** Reading the file back gives the schema that was written. */
  lemma SchemaOfJson(s: FlowSchema)
    ensures SchemaOf(SchemaJson(s)) == s
  {
    SchemaJsonFields(s);
    forall i | 0 <= i < |s.nodes|
      ensures NodeOf(NodeJson(s.nodes[i])) == s.nodes[i]
    {
      var sn := s.nodes[i];
      NodeJsonFields(sn);
      forall j | 0 <= j < |sn.edges|
        ensures EdgeOf(EdgeJson(sn.edges[j])) == sn.edges[j]
      {
        EdgeJsonFields(sn.edges[j]);
        if sn.edges[j].parameters.Some? {
          RecordOfJson(sn.edges[j].parameters.value);
        }
      }
    }
  }

  // ---------------------------------------------------------------------
  // What the validator says about the file

  /** The schema-level conditions under which its file draws no message. */
  predicate Importable(s: FlowSchema)
  {
    && |s.nodes| > 0
    && (forall i :: 0 <= i < |s.nodes| ==> !IsBlank(s.nodes[i].id))
    && (forall a, b :: 0 <= a < b < |s.nodes| ==> s.nodes[a].id != s.nodes[b].id)
    && (IsBlank(s.startNodeId) || exists k :: 0 <= k < |s.nodes| && s.nodes[k].id == s.startNodeId)
    && (forall i, j :: 0 <= i < |s.nodes| && 0 <= j < |s.nodes[i].edges| ==>
          var to := s.nodes[i].edges[j].toNodeId;
          !IsBlank(to) && exists k :: 0 <= k < |s.nodes| && s.nodes[k].id == to)
  }

  lemma NodeJsonValidId(sn: SchemaNode)
    ensures ValidId(NodeJson(sn)) == if IsBlank(sn.id) then None else Some(sn.id)
    ensures EdgesOf(NodeJson(sn)) == EdgesJson(sn.edges)
  {
    NodeJsonFields(sn);
  }

  /** What the validator reads from the file of `s`, node by node and edge by edge. */
  lemma FileFacts(s: FlowSchema)
    ensures var nodes := NodesJson(s.nodes);
      && (forall i :: 0 <= i < |s.nodes| ==>
            ValidId(nodes[i]) == (if IsBlank(s.nodes[i].id) then None else Some(s.nodes[i].id)))
      && (forall i :: 0 <= i < |s.nodes| ==> EdgesOf(nodes[i]) == EdgesJson(s.nodes[i].edges))
      && (forall i, j :: 0 <= i < |s.nodes| && 0 <= j < |s.nodes[i].edges| ==>
            NonBlankString(EdgesOf(nodes[i])[j], "to_node_id") ==
              (if IsBlank(s.nodes[i].edges[j].toNodeId) then None else Some(s.nodes[i].edges[j].toNodeId)))
      && (forall i :: 0 <= i < |s.nodes| ==> (NodeWellFormed(nodes[i]) <==>
            !IsBlank(s.nodes[i].id) && forall j :: 0 <= j < |s.nodes[i].edges| ==> !IsBlank(s.nodes[i].edges[j].toNodeId)))
  {
    var nodes := NodesJson(s.nodes);
    forall i | 0 <= i < |s.nodes|
      ensures ValidId(nodes[i]) == (if IsBlank(s.nodes[i].id) then None else Some(s.nodes[i].id))
      ensures EdgesOf(nodes[i]) == EdgesJson(s.nodes[i].edges)
      ensures NodeWellFormed(nodes[i]) <==>
        !IsBlank(s.nodes[i].id) && forall j :: 0 <= j < |s.nodes[i].edges| ==> !IsBlank(s.nodes[i].edges[j].toNodeId)
      ensures forall j :: 0 <= j < |s.nodes[i].edges| ==>
        NonBlankString(EdgesOf(nodes[i])[j], "to_node_id") ==
          (if IsBlank(s.nodes[i].edges[j].toNodeId) then None else Some(s.nodes[i].edges[j].toNodeId))
    {
      NodeJsonValidId(s.nodes[i]);
      NodeJsonFields(s.nodes[i]);
      forall j | 0 <= j < |s.nodes[i].edges|
        ensures EdgeWellFormed(EdgesOf(nodes[i])[j]) <==> !IsBlank(s.nodes[i].edges[j].toNodeId)
        ensures NonBlankString(EdgesOf(nodes[i])[j], "to_node_id") ==
          (if IsBlank(s.nodes[i].edges[j].toNodeId) then None else Some(s.nodes[i].edges[j].toNodeId))
      {
        EdgeJsonFields(s.nodes[i].edges[j]);
      }
    }
  }

  /** The file of a schema draws no message from the validator exactly when the schema is importable. */
  lemma SchemaJsonClean(s: FlowSchema)
    ensures |Issues(SchemaJson(s))| == 0 <==> Importable(s)
  {
    ValidateImportClean(SchemaJson(s));
    if Importable(s) {
      WellFormedIf(s);
    }
    if WellFormedImport(SchemaJson(s)) {
      WellFormedOnlyIf(s);
    }
  }

  lemma WellFormedIf(s: FlowSchema)
    requires Importable(s)
    ensures WellFormedImport(SchemaJson(s))
  {
    SchemaJsonFields(s);
    FileFacts(s);
    DeclaresAll(s, NodesJson(s.nodes));
  }

  lemma WellFormedOnlyIf(s: FlowSchema)
    requires WellFormedImport(SchemaJson(s))
    ensures Importable(s)
  {
    SchemaJsonFields(s);
    FileFacts(s);
    ImportableIf(s, NodesJson(s.nodes));
  }

  lemma DeclaresAll(s: FlowSchema, nodes: seq<Json>)
    requires Importable(s) && nodes == NodesJson(s.nodes)
    requires forall i :: 0 <= i < |s.nodes| ==>
      ValidId(nodes[i]) == (if IsBlank(s.nodes[i].id) then None else Some(s.nodes[i].id))
    requires forall i, j :: 0 <= i < |s.nodes| && 0 <= j < |s.nodes[i].edges| ==>
      NonBlankString(EdgesOf(nodes[i])[j], "to_node_id") == Some(s.nodes[i].edges[j].toNodeId)
    requires forall i :: 0 <= i < |s.nodes| ==> EdgesOf(nodes[i]) == EdgesJson(s.nodes[i].edges)
    ensures IsBlank(s.startNodeId) || Declares(nodes, |nodes|, s.startNodeId)
    ensures forall i, j :: 0 <= i < |nodes| && 0 <= j < |EdgesOf(nodes[i])| ==> TargetDeclared(nodes, EdgesOf(nodes[i])[j])
  {
    if !IsBlank(s.startNodeId) {
      var k :| 0 <= k < |s.nodes| && s.nodes[k].id == s.startNodeId;
      assert ValidId(nodes[k]) == Some(s.startNodeId);
    }
    forall i, j | 0 <= i < |nodes| && 0 <= j < |EdgesOf(nodes[i])|
      ensures TargetDeclared(nodes, EdgesOf(nodes[i])[j])
    {
      var to := s.nodes[i].edges[j].toNodeId;
      var k :| 0 <= k < |s.nodes| && s.nodes[k].id == to;
      assert ValidId(nodes[k]) == Some(to);
    }
  }

  lemma ImportableIf(s: FlowSchema, nodes: seq<Json>)
    requires nodes == NodesJson(s.nodes) && |nodes| > 0
    requires forall i :: 0 <= i < |s.nodes| ==>
      ValidId(nodes[i]) == (if IsBlank(s.nodes[i].id) then None else Some(s.nodes[i].id))
    requires forall i, j :: 0 <= i < |s.nodes| && 0 <= j < |s.nodes[i].edges| ==>
      NonBlankString(EdgesOf(nodes[i])[j], "to_node_id") ==
        (if IsBlank(s.nodes[i].edges[j].toNodeId) then None else Some(s.nodes[i].edges[j].toNodeId))
    requires forall i :: 0 <= i < |s.nodes| ==> EdgesOf(nodes[i]) == EdgesJson(s.nodes[i].edges)
    requires forall i :: 0 <= i < |nodes| ==> ValidId(nodes[i]).Some?
    requires forall k, i :: 0 <= k < i < |nodes| ==> ValidId(nodes[k]) != ValidId(nodes[i])
    requires IsBlank(s.startNodeId) || Declares(nodes, |nodes|, s.startNodeId)
    requires forall i, j :: 0 <= i < |nodes| && 0 <= j < |EdgesOf(nodes[i])| ==> TargetDeclared(nodes, EdgesOf(nodes[i])[j])
    ensures Importable(s)
  {
    forall a, b | 0 <= a < b < |s.nodes|
      ensures s.nodes[a].id != s.nodes[b].id
    {
      assert ValidId(nodes[a]) != ValidId(nodes[b]);
    }
    if !IsBlank(s.startNodeId) {
      var k :| 0 <= k < |nodes| && ValidId(nodes[k]) == Some(s.startNodeId);
    }
    forall i, j | 0 <= i < |s.nodes| && 0 <= j < |s.nodes[i].edges|
      ensures var to := s.nodes[i].edges[j].toNodeId;
        !IsBlank(to) && exists k :: 0 <= k < |s.nodes| && s.nodes[k].id == to
    {
      var edge := EdgesOf(nodes[i])[j];
      assert TargetDeclared(nodes, edge);
      TargetResolves(s, nodes, edge, s.nodes[i].edges[j].toNodeId);
    }
  }

  /** An edge whose target is declared names a node of the schema by a non-blank id. */
  lemma TargetResolves(s: FlowSchema, nodes: seq<Json>, edge: Json, to: string)
    requires |nodes| == |s.nodes|
    requires forall i :: 0 <= i < |s.nodes| ==>
      ValidId(nodes[i]) == (if IsBlank(s.nodes[i].id) then None else Some(s.nodes[i].id))
    requires NonBlankString(edge, "to_node_id") == (if IsBlank(to) then None else Some(to))
    requires TargetDeclared(nodes, edge)
    ensures !IsBlank(to) && exists k :: 0 <= k < |s.nodes| && s.nodes[k].id == to
  {
    var k :| 0 <= k < |nodes| && ValidId(nodes[k]) == Some(to);
    assert s.nodes[k].id == to;
  }

  // ---------------------------------------------------------------------
  // Graphs whose export imports cleanly

  /** Distinct internal ids, no dangling edge, and no blank display id. */
  predicate Linked(nodes: seq<FlowNode>, edges: seq<FlowEdge>)
  {
    && FlowProvider.UniqueIds(nodes)
    && EdgesClosed(nodes, edges)
    && (forall k :: 0 <= k < |nodes| ==> !IsBlank(nodes[k].data.displayId))
  }

  /** Node `st` is the one start node. */
  predicate OnlyStart(nodes: seq<FlowNode>, st: nat)
    requires st < |nodes|
  {
    nodes[st].data.isStart && forall k :: 0 <= k < |nodes| && k != st ==> !nodes[k].data.isStart
  }

  /** A linked graph with exactly one start node whose display ids are distinct after trimming. */
  predicate Exportable(nodes: seq<FlowNode>, edges: seq<FlowEdge>)
  {
    && Linked(nodes, edges)
    && (forall a, b :: 0 <= a < b < |nodes| ==> Trim(nodes[a].data.displayId) != Trim(nodes[b].data.displayId))
    && exists st :: 0 <= st < |nodes| && OnlyStart(nodes, st)
  }

  /** `s` holds the export of each node of the graph, in order. */
  ghost predicate ExportOf(nodes: seq<FlowNode>, edges: seq<FlowEdge>, s: FlowSchema)
  {
    && |s.nodes| == |nodes|
    && forall i :: 0 <= i < |nodes| ==> s.nodes[i] == ExportNode(IdToDisplayId(nodes), edges, nodes[i])
  }

  /** No two schema nodes share an id. */
  predicate DistinctIds(s: FlowSchema)
  {
    forall a, b :: 0 <= a < b < |s.nodes| ==> s.nodes[a].id != s.nodes[b].id
  }

  lemma ExportedNodes(nodes: seq<FlowNode>, edges: seq<FlowEdge>)
    ensures ExportOf(nodes, edges, FlowToSchema.FlowToSchema(nodes, edges))
  {
  }

  /** The exported schema names the start node by its display id. */
  lemma ExportedStart(nodes: seq<FlowNode>, edges: seq<FlowEdge>, st: nat)
    requires st < |nodes| && OnlyStart(nodes, st)
    ensures FlowToSchema.FlowToSchema(nodes, edges).startNodeId == nodes[st].data.displayId
  {
    ExportStart(nodes, edges);
    assert forall j :: 0 <= j < st ==> !nodes[j].data.isStart;
  }

  /** Schema node `i` carries the display id, description and prompt of node `i`. */
  lemma ExportedFields(nodes: seq<FlowNode>, edges: seq<FlowEdge>, s: FlowSchema)
    requires ExportOf(nodes, edges, s)
    ensures forall i :: 0 <= i < |nodes| ==>
      s.nodes[i].id == nodes[i].data.displayId && s.nodes[i].description == nodes[i].data.description &&
      s.nodes[i].prompt == nodes[i].data.prompt
  {
  }

  /** Display ids that differ after trimming differ, so the schema node ids are distinct. */
  lemma ExportedIdsDistinct(nodes: seq<FlowNode>, edges: seq<FlowEdge>, s: FlowSchema)
    requires Exportable(nodes, edges) && ExportOf(nodes, edges, s)
    ensures DistinctIds(s)
  {
    ExportedFields(nodes, edges, s);
    forall a, b | 0 <= a < b < |s.nodes|
      ensures s.nodes[a].id != s.nodes[b].id
    {
      assert Trim(nodes[a].data.displayId) != Trim(nodes[b].data.displayId);
    }
  }

  /** Schema edge `j` of node `a` is the export of outgoing edge `j` of node `a`. */
  lemma ExportedEdges(nodes: seq<FlowNode>, edges: seq<FlowEdge>, s: FlowSchema, a: nat)
    requires ExportOf(nodes, edges, s) && a < |nodes|
    ensures |s.nodes[a].edges| == |Outgoing(edges, nodes[a].id)|
    ensures forall j :: 0 <= j < |s.nodes[a].edges| ==>
      s.nodes[a].edges[j] == ExportEdge(IdToDisplayId(nodes), Outgoing(edges, nodes[a].id)[j])
  {
  }

  /** An exported edge of a linked graph names its target by the target's display id. */
  lemma ExportedTarget(nodes: seq<FlowNode>, edges: seq<FlowEdge>, e: FlowEdge)
    requires Linked(nodes, edges) && e in edges
    ensures exists b :: (0 <= b < |nodes| && nodes[b].id == e.target &&
      ExportEdge(IdToDisplayId(nodes), e).toNodeId == nodes[b].data.displayId)
  {
    var k :| 0 <= k < |edges| && edges[k] == e;
    var b :| 0 <= b < |nodes| && nodes[b].id == e.target;
    ExportTarget(nodes, e);
    assert nodes[b].data.displayId != "";
  }

  /** Every exported edge names, by a non-blank display id, a node of the export. */
  lemma ExportedTargetsDeclared(nodes: seq<FlowNode>, edges: seq<FlowEdge>, s: FlowSchema)
    requires Linked(nodes, edges) && ExportOf(nodes, edges, s)
    ensures forall i, j :: 0 <= i < |s.nodes| && 0 <= j < |s.nodes[i].edges| ==>
      var to := s.nodes[i].edges[j].toNodeId;
      !IsBlank(to) && exists k :: 0 <= k < |s.nodes| && s.nodes[k].id == to
  {
    ExportedFields(nodes, edges, s);
    forall i, j | 0 <= i < |s.nodes| && 0 <= j < |s.nodes[i].edges|
      ensures var to := s.nodes[i].edges[j].toNodeId;
        !IsBlank(to) && exists k :: 0 <= k < |s.nodes| && s.nodes[k].id == to
    {
      var out := Outgoing(edges, nodes[i].id);
      ExportedEdges(nodes, edges, s, i);
      ExportedTarget(nodes, edges, out[j]);
      var b :| 0 <= b < |nodes| && nodes[b].id == out[j].target &&
        ExportEdge(IdToDisplayId(nodes), out[j]).toNodeId == nodes[b].data.displayId;
      assert s.nodes[b].id == nodes[b].data.displayId;
    }
  }

  /** A schema holding the export of each node, with the start named by display id, is importable. */
  lemma ExportOfImportable(nodes: seq<FlowNode>, edges: seq<FlowEdge>, s: FlowSchema, st: nat)
    requires Exportable(nodes, edges) && ExportOf(nodes, edges, s)
    requires st < |nodes| && s.startNodeId == nodes[st].data.displayId
    ensures Importable(s)
  {
    ExportedFields(nodes, edges, s);
    ExportedIdsDistinct(nodes, edges, s);
    ExportedTargetsDeclared(nodes, edges, s);
    assert s.nodes[st].id == s.startNodeId;
  }

  /** The export of such a graph meets every schema-level condition of the validator. */
  lemma ExportIsImportable(nodes: seq<FlowNode>, edges: seq<FlowEdge>)
    requires Exportable(nodes, edges)
    ensures Importable(FlowToSchema.FlowToSchema(nodes, edges))
  {
    var st :| 0 <= st < |nodes| && OnlyStart(nodes, st);
    ExportedStart(nodes, edges, st);
    ExportedNodes(nodes, edges);
    ExportOfImportable(nodes, edges, FlowToSchema.FlowToSchema(nodes, edges), st);
  }

  /** The validator reports nothing on the exported file of such a graph. */
  lemma ExportValidates(nodes: seq<FlowNode>, edges: seq<FlowEdge>)
    requires Exportable(nodes, edges)
    ensures Issues(SchemaJson(FlowToSchema.FlowToSchema(nodes, edges))) == []
  {
    ExportIsImportable(nodes, edges);
    SchemaJsonClean(FlowToSchema.FlowToSchema(nodes, edges));
  }

  // ---------------------------------------------------------------------
  // What the importer builds from the file

  /** `nodes` and `edges` are what `SchemaToFlow` returns for `s`, whatever the positions. */
  ghost predicate ImportedFrom(s: FlowSchema, uuid: FreshKey -> string, nodes: seq<FlowNode>, edges: seq<FlowEdge>)
  {
    var idMap := IdMap(s.nodes, uuid, |s.nodes|);
    && Covers(idMap, s.nodes)
    && |nodes| == |s.nodes|
    && (forall i :: 0 <= i < |nodes| ==> nodes[i] == ImportNode(s, idMap, i, nodes[i].position))
    && edges == ImportEdges(s.nodes, idMap, uuid, |s.nodes|)
  }

  /** Node `i` of `imported` carries the data of node `i` of `nodes` under the fresh id `uuid(NodeKey(i))`. */
  ghost predicate NodesKept(nodes: seq<FlowNode>, imported: seq<FlowNode>, uuid: FreshKey -> string)
  {
    && |imported| == |nodes|
    && forall i :: 0 <= i < |nodes| ==> imported[i].data == nodes[i].data && imported[i].id == uuid(NodeKey(i))
  }

  /** The display id of the node with internal id `id`, or `""` when there is none. */
  function DisplayOf(nodes: seq<FlowNode>, id: string): string
  {
    match FlowProvider.FindNode(nodes, id)
    case Some(n) => n.data.displayId
    case None => ""
  }

  /** What an edge says to the user: its ends by display id, its condition and its parameter map. */
  datatype EdgeMeaning = EdgeMeaning(from: string, to: string, condition: string, parameters: map<string, string>)

  function MeaningOf(nodes: seq<FlowNode>, e: FlowEdge): EdgeMeaning
  {
    EdgeMeaning(DisplayOf(nodes, e.source), DisplayOf(nodes, e.target), ConditionOf(e), ParamMap(ParamsOf(e)))
  }

  function MeaningFn(nodes: seq<FlowNode>): FlowEdge -> EdgeMeaning
  {
    e => MeaningOf(nodes, e)
  }

  /** The meanings of a list of edges, in order. */
  function MeaningList(nodes: seq<FlowNode>, es: seq<FlowEdge>): (r: seq<EdgeMeaning>)
    ensures |r| == |es|
  {
    MapSeq(MeaningFn(nodes), es)
  }

  /** `s.map(f)` */
  function MapSeq<T, U>(f: T -> U, s: seq<T>): (r: seq<U>)
    ensures |r| == |s|
  {
    seq(|s|, k requires 0 <= k < |s| => f(s[k]))
  }

  /** With distinct internal ids, the id of node `k` shows `k`'s display id. */
  lemma DisplayOfNode(nodes: seq<FlowNode>, k: nat)
    requires FlowProvider.UniqueIds(nodes) && k < |nodes|
    ensures DisplayOf(nodes, nodes[k].id) == nodes[k].data.displayId
  {
    FlowProvider.FindNodeFacts(nodes, nodes[k].id);
    var k' :| 0 <= k' < |nodes| && nodes[k'] == FlowProvider.FindNode(nodes, nodes[k].id).value && nodes[k'].id == nodes[k].id &&
      forall j :: 0 <= j < k' ==> nodes[j].id != nodes[k].id;
    assert k' == k;
  }

  /** Node `i` comes back with its data under the fresh id of node `i`. */
  lemma ImportedNode(nodes: seq<FlowNode>, edges: seq<FlowEdge>, s: FlowSchema, st: nat, uuid: FreshKey -> string,
                     imported: seq<FlowNode>, importedEdges: seq<FlowEdge>, i: nat)
    requires ExportOf(nodes, edges, s) && DistinctIds(s)
    requires st < |nodes| && OnlyStart(nodes, st) && s.startNodeId == nodes[st].data.displayId
    requires ImportedFrom(s, uuid, imported, importedEdges) && i < |nodes|
    ensures imported[i].data == nodes[i].data && imported[i].id == uuid(NodeKey(i))
  {
    var idMap := IdMap(s.nodes, uuid, |s.nodes|);
    ExportedFields(nodes, edges, s);
    UniqueIdsResolve(s.nodes, uuid, i);
    ImportNodeFields(s, idMap, i, imported[i].position);
    assert s.nodes[i].id == s.startNodeId <==> i == st by {
      assert s.nodes[st].id == s.startNodeId;
    }
  }

  /**
   * The importer keeps every node in place with its display id,
   * description, prompt and start flag; the fresh ids are distinct.
   */
  lemma ImportedNodesKept(nodes: seq<FlowNode>, edges: seq<FlowEdge>, s: FlowSchema, st: nat, uuid: FreshKey -> string,
                          imported: seq<FlowNode>, importedEdges: seq<FlowEdge>)
    requires ExportOf(nodes, edges, s) && DistinctIds(s) && FreshIds(uuid)
    requires st < |nodes| && OnlyStart(nodes, st) && s.startNodeId == nodes[st].data.displayId
    requires ImportedFrom(s, uuid, imported, importedEdges)
    ensures NodesKept(nodes, imported, uuid)
    ensures FlowProvider.UniqueIds(imported)
  {
    forall i | 0 <= i < |nodes|
      ensures imported[i].data == nodes[i].data && imported[i].id == uuid(NodeKey(i))
    {
      ImportedNode(nodes, edges, s, st, uuid, imported, importedEdges, i);
    }
    forall a, b | 0 <= a < b < |imported|
      ensures imported[a].id != imported[b].id
    {
      assert NodeKey(a) != NodeKey(b);
    }
  }

  /** The parameter map survives: the record the export wrote denotes the list the import rebuilds. */
  lemma ImportedParamMap(idMap0: map<string, string>, e: FlowEdge, uuid: FreshKey -> string, i: nat, j: nat)
    ensures var parameters := ImportParams(ExportEdge(idMap0, e).parameters, uuid, i, j);
      ParamMap(if parameters.Some? then parameters.value else []) == ParamMap(ParamsOf(e))
  {
    var se := ExportEdge(idMap0, e);
    ExportConditionAndParams(idMap0, e);
    if se.parameters.Some? {
      ImportParamsMeaning(se.parameters.value, uuid, i, j);
    }
  }

  /** Two edges whose ends carry the same data, with the same condition and parameters, mean the same. */
  lemma SameMeaning(nodes: seq<FlowNode>, imported: seq<FlowNode>, e: FlowEdge, e': FlowEdge, a: nat, b: nat)
    requires FlowProvider.UniqueIds(nodes) && FlowProvider.UniqueIds(imported)
    requires a < |nodes| && b < |nodes| && |imported| == |nodes|
    requires nodes[a].id == e.source && nodes[b].id == e.target
    requires imported[a].id == e'.source && imported[b].id == e'.target
    requires imported[a].data == nodes[a].data && imported[b].data == nodes[b].data
    requires ConditionOf(e') == ConditionOf(e) && ParamMap(ParamsOf(e')) == ParamMap(ParamsOf(e))
    ensures MeaningOf(imported, e') == MeaningOf(nodes, e)
  {
    DisplayOfNode(imported, a);
    DisplayOfNode(imported, b);
    DisplayOfNode(nodes, a);
    DisplayOfNode(nodes, b);
  }

  /**
   * Outgoing edge `j` of node `a` is exported as a schema edge that
   * resolves on import, and the edge it becomes there means the same.
   */
  lemma EdgeImport(nodes: seq<FlowNode>, edges: seq<FlowEdge>, s: FlowSchema, uuid: FreshKey -> string,
                   imported: seq<FlowNode>, a: nat, j: nat)
    requires Linked(nodes, edges) && ExportOf(nodes, edges, s) && DistinctIds(s) && FreshIds(uuid)
    requires NodesKept(nodes, imported, uuid) && FlowProvider.UniqueIds(imported)
    requires a < |nodes| && j < |Outgoing(edges, nodes[a].id)|
    ensures var idMap := IdMap(s.nodes, uuid, |s.nodes|);
      var e := Outgoing(edges, nodes[a].id)[j];
      var se := ExportEdge(IdToDisplayId(nodes), e);
      && Resolves(idMap, se)
      && MeaningOf(imported, ImportEdge(idMap, uuid, uuid(NodeKey(a)), se, a, j)) == MeaningOf(nodes, e)
  {
    var idMap := IdMap(s.nodes, uuid, |s.nodes|);
    var idMap0 := IdToDisplayId(nodes);
    var e := Outgoing(edges, nodes[a].id)[j];
    var se := ExportEdge(idMap0, e);
    ExportedFields(nodes, edges, s);
    ExportedTarget(nodes, edges, e);
    var b :| 0 <= b < |nodes| && nodes[b].id == e.target && se.toNodeId == nodes[b].data.displayId;
    UniqueIdsResolve(s.nodes, uuid, b);
    assert Resolves(idMap, se);
    var e' := ImportEdge(idMap, uuid, uuid(NodeKey(a)), se, a, j);
    ExportConditionAndParams(idMap0, e);
    ImportedParamMap(idMap0, e, uuid, a, j);
    SameMeaning(nodes, imported, e, e', a, b);
  }

  /** The edges leaving each node in turn: the order in which the export lists them. */
  function Grouped(nodes: seq<FlowNode>, edges: seq<FlowEdge>, n: nat): seq<FlowEdge>
    requires n <= |nodes|
  {
    if n == 0 then [] else Grouped(nodes, edges, n - 1) + Outgoing(edges, nodes[n - 1].id)
  }

  /**
   * A node's edge loop: when every schema edge of the node resolves and
   * becomes an edge whose image under `f` is that of the `j`-th edge of
   * `out` under `g`, the first `m` imported edges have the images of the
   * first `m` edges of `out`.
   */
  lemma {:induction false} NodeEdgesMeaning(idMap: map<string, string>, uuid: FreshKey -> string, sourceId: string,
                                            ses: seq<SchemaEdge>, i: nat, m: nat,
                                            f: FlowEdge -> EdgeMeaning, g: FlowEdge -> EdgeMeaning, out: seq<FlowEdge>)
    requires |ses| == |out| && m <= |ses|
    requires forall j :: 0 <= j < |ses| ==> (Resolves(idMap, ses[j]) &&
      f(ImportEdge(idMap, uuid, sourceId, ses[j], i, j)) == g(out[j]))
    ensures MapSeq(f, NodeEdges(idMap, uuid, sourceId, ses, i, m)) == MapSeq(g, out[..m])
  {
    if m > 0 {
      NodeEdgesMeaning(idMap, uuid, sourceId, ses, i, m - 1, f, g, out);
      var before := NodeEdges(idMap, uuid, sourceId, ses, i, m - 1);
      var e' := ImportEdge(idMap, uuid, sourceId, ses[m - 1], i, m - 1);
      assert NodeEdges(idMap, uuid, sourceId, ses, i, m) == before + [e'];
      assert out[..m] == out[..m - 1] + [out[m - 1]];
      assert MapSeq(f, before + [e']) == MapSeq(f, before) + [f(e')];
      assert MapSeq(g, out[..m - 1] + [out[m - 1]]) == MapSeq(g, out[..m - 1]) + [g(out[m - 1])];
    }
  }

  /** The edges imported for node `i` mean, in order, what the edges leaving node `i` meant. */
  lemma NodeMeanings(nodes: seq<FlowNode>, edges: seq<FlowEdge>, s: FlowSchema, uuid: FreshKey -> string,
                     imported: seq<FlowNode>, i: nat)
    requires Linked(nodes, edges) && ExportOf(nodes, edges, s) && DistinctIds(s) && FreshIds(uuid)
    requires Covers(IdMap(s.nodes, uuid, |s.nodes|), s.nodes)
    requires NodesKept(nodes, imported, uuid) && FlowProvider.UniqueIds(imported)
    requires i < |nodes|
    ensures MeaningList(imported, NodeEdgesAt(s.nodes, IdMap(s.nodes, uuid, |s.nodes|), uuid, i))
            == MeaningList(nodes, Outgoing(edges, nodes[i].id))
  {
    var idMap := IdMap(s.nodes, uuid, |s.nodes|);
    var out := Outgoing(edges, nodes[i].id);
    ExportedEdges(nodes, edges, s, i);
    UniqueIdsResolve(s.nodes, uuid, i);
    forall j | 0 <= j < |out|
      ensures Resolves(idMap, s.nodes[i].edges[j]) &&
        MeaningFn(imported)(ImportEdge(idMap, uuid, uuid(NodeKey(i)), s.nodes[i].edges[j], i, j)) == MeaningFn(nodes)(out[j])
    {
      EdgeImport(nodes, edges, s, uuid, imported, i, j);
    }
    NodeEdgesMeaning(idMap, uuid, uuid(NodeKey(i)), s.nodes[i].edges, i, |out|, MeaningFn(imported), MeaningFn(nodes), out);
    assert out[..|out|] == out;
  }

  /** The edge loop over nodes: node by node, the import means what the grouped edges meant. */
  lemma {:induction false} ImportEdgesMeaning(snodes: seq<SchemaNode>, idMap: map<string, string>, uuid: FreshKey -> string,
                                              imported: seq<FlowNode>, nodes: seq<FlowNode>, edges: seq<FlowEdge>, n: nat)
    requires Covers(idMap, snodes) && |snodes| == |nodes| && n <= |nodes|
    requires forall i :: 0 <= i < |nodes| ==>
      MeaningList(imported, NodeEdgesAt(snodes, idMap, uuid, i)) == MeaningList(nodes, Outgoing(edges, nodes[i].id))
    ensures MeaningList(imported, ImportEdges(snodes, idMap, uuid, n)) == MeaningList(nodes, Grouped(nodes, edges, n))
  {
    if n > 0 {
      ImportEdgesMeaning(snodes, idMap, uuid, imported, nodes, edges, n - 1);
      var before := ImportEdges(snodes, idMap, uuid, n - 1);
      var last := NodeEdgesAt(snodes, idMap, uuid, n - 1);
      var grouped := Grouped(nodes, edges, n - 1);
      var out := Outgoing(edges, nodes[n - 1].id);
      assert MeaningList(imported, last) == MeaningList(nodes, out);
      MeaningListAppend(imported, before, last);
      MeaningListAppend(nodes, grouped, out);
    }
  }

  lemma MeaningListAppend(nodes: seq<FlowNode>, a: seq<FlowEdge>, b: seq<FlowEdge>)
    ensures MeaningList(nodes, a + b) == MeaningList(nodes, a) + MeaningList(nodes, b)
  {
    assert MapSeq(MeaningFn(nodes), a + b) == MapSeq(MeaningFn(nodes), a) + MapSeq(MeaningFn(nodes), b);
  }

  /** An edge occurs among those leaving `id` as often as in the whole list if it leaves `id`, and otherwise not at all. */
  lemma {:induction false} OutgoingCount(edges: seq<FlowEdge>, id: string, x: FlowEdge)
    ensures multiset(Outgoing(edges, id))[x] == if x.source == id then multiset(edges)[x] else 0
  {
    if edges != [] {
      OutgoingCount(edges[1..], id, x);
      assert edges == [edges[0]] + edges[1..];
    }
  }

  /** Some node among the first `n` has internal id `id`. */
  predicate Among(nodes: seq<FlowNode>, n: nat, id: string)
    requires n <= |nodes|
  {
    n > 0 && (nodes[n - 1].id == id || Among(nodes, n - 1, id))
  }

  /** A node among the first `m` puts its id among them. */
  lemma {:induction false} AmongAt(nodes: seq<FlowNode>, m: nat, i: nat)
    requires i < m <= |nodes|
    ensures Among(nodes, m, nodes[i].id)
  {
    if i < m - 1 {
      AmongAt(nodes, m - 1, i);
    }
  }

  /** With unique ids, no node before node `m` has its id. */
  lemma {:induction false} NotAmongEarlier(nodes: seq<FlowNode>, m: nat, k: nat)
    requires m <= k < |nodes| && FlowProvider.UniqueIds(nodes)
    ensures !Among(nodes, m, nodes[k].id)
  {
    if m > 0 {
      assert nodes[m - 1].id != nodes[k].id;
      NotAmongEarlier(nodes, m - 1, k);
    }
  }

  /** Grouping the first `n` nodes' edges counts an edge once per occurrence if its source is among them. */
  lemma {:induction false} GroupedCount(nodes: seq<FlowNode>, edges: seq<FlowEdge>, n: nat, x: FlowEdge)
    requires n <= |nodes| && FlowProvider.UniqueIds(nodes)
    ensures multiset(Grouped(nodes, edges, n))[x] == if Among(nodes, n, x.source) then multiset(edges)[x] else 0
  {
    if n > 0 {
      var out := Outgoing(edges, nodes[n - 1].id);
      GroupedCount(nodes, edges, n - 1, x);
      OutgoingCount(edges, nodes[n - 1].id, x);
      assert Grouped(nodes, edges, n) == Grouped(nodes, edges, n - 1) + out;
      if nodes[n - 1].id == x.source {
        NotAmongEarlier(nodes, n - 1, n - 1);
      }
    }
  }

  /** Grouping by source node only reorders the edges of a linked graph. */
  lemma GroupedPermutation(nodes: seq<FlowNode>, edges: seq<FlowEdge>)
    requires Linked(nodes, edges)
    ensures multiset(Grouped(nodes, edges, |nodes|)) == multiset(edges)
  {
    forall x
      ensures multiset(Grouped(nodes, edges, |nodes|))[x] == multiset(edges)[x]
    {
      GroupedCount(nodes, edges, |nodes|, x);
      if x in edges {
        var k :| 0 <= k < |edges| && edges[k] == x;
        var i :| 0 <= i < |nodes| && nodes[i].id == x.source;
        AmongAt(nodes, |nodes|, i);
      }
    }
  }

  /** Taking out the element at `k` takes one occurrence of it out of the multiset. */
  lemma RemoveAt<T>(b: seq<T>, k: nat)
    requires k < |b|
    ensures multiset(b) == multiset(b[..k] + b[k + 1..]) + multiset{b[k]}
  {
    assert b == b[..k] + [b[k]] + b[k + 1..];
  }

  lemma Cancel<T>(a: multiset<T>, b: multiset<T>, x: T)
    requires a + multiset{x} == b + multiset{x}
    ensures a == b
  {
    forall y
      ensures a[y] == b[y]
    {
      assert (a + multiset{x})[y] == (b + multiset{x})[y];
    }
  }

  /** Reordering a list reorders its image. */
  lemma {:induction false} MapPermutation<T, U>(f: T -> U, a: seq<T>, b: seq<T>)
    requires multiset(a) == multiset(b)
    ensures multiset(MapSeq(f, a)) == multiset(MapSeq(f, b))
  {
    if a == [] {
      assert |multiset(b)| == 0;
    } else {
      var n := |a|;
      var x := a[n - 1];
      assert x in multiset(b);
      var k :| 0 <= k < |b| && b[k] == x;
      var rest := b[..k] + b[k + 1..];
      RemoveAt(b, k);
      assert a == a[..n - 1] + [x];
      Cancel(multiset(a[..n - 1]), multiset(rest), x);
      MapPermutation(f, a[..n - 1], rest);
      assert MapSeq(f, a) == MapSeq(f, a[..n - 1]) + [f(x)];
      var mb := MapSeq(f, b);
      RemoveAt(mb, k);
      assert mb[..k] + mb[k + 1..] == MapSeq(f, rest);
    }
  }

  /** The imported edges carry, with multiplicity, exactly the meanings of the original edges. */
  lemma EdgeMeaningsKept(nodes: seq<FlowNode>, edges: seq<FlowEdge>, s: FlowSchema, uuid: FreshKey -> string,
                         imported: seq<FlowNode>, importedEdges: seq<FlowEdge>)
    requires Linked(nodes, edges) && ExportOf(nodes, edges, s) && DistinctIds(s) && FreshIds(uuid)
    requires Covers(IdMap(s.nodes, uuid, |s.nodes|), s.nodes)
    requires importedEdges == ImportEdges(s.nodes, IdMap(s.nodes, uuid, |s.nodes|), uuid, |s.nodes|)
    requires NodesKept(nodes, imported, uuid) && FlowProvider.UniqueIds(imported)
    ensures multiset(MeaningList(imported, importedEdges)) == multiset(MeaningList(nodes, edges))
  {
    var idMap := IdMap(s.nodes, uuid, |s.nodes|);
    forall i | 0 <= i < |nodes|
      ensures MeaningList(imported, NodeEdgesAt(s.nodes, idMap, uuid, i)) == MeaningList(nodes, Outgoing(edges, nodes[i].id))
    {
      NodeMeanings(nodes, edges, s, uuid, imported, i);
    }
    ImportEdgesMeaning(s.nodes, idMap, uuid, imported, nodes, edges, |nodes|);
    GroupedPermutation(nodes, edges);
    MapPermutation(MeaningFn(nodes), Grouped(nodes, edges, |nodes|), edges);
  }

  // ---------------------------------------------------------------------
  // The round trip

  /**
   * Export the graph, write the file, validate it and import it. For a
   * graph with one start node, no dangling edge, distinct internal ids and
   * display ids that are non-blank and distinct after trimming, the
   * validator reports nothing, every node comes back in place with its
   * display id, description, prompt and start flag, and the imported edges
   * say exactly what the original edges said.
   */
  method ExportThenImport(nodes: seq<FlowNode>, edges: seq<FlowEdge>, uuid: FreshKey -> string)
    returns (errors: seq<string>, imported: seq<FlowNode>, importedEdges: seq<FlowEdge>)
    requires Exportable(nodes, edges) && FreshIds(uuid)
    ensures errors == []
    ensures |imported| == |nodes|
    ensures forall i :: 0 <= i < |nodes| ==> imported[i].data == nodes[i].data
    ensures FlowProvider.UniqueIds(imported) && EdgesClosed(imported, importedEdges)
    ensures |importedEdges| == |edges|
    ensures multiset(MeaningList(imported, importedEdges)) == multiset(MeaningList(nodes, edges))
  {
    var schema := ExportFlow(nodes, edges);
    var file := SchemaJson(schema);
    errors := ValidateImportSchema(file);
    ExportValidates(nodes, edges);
    var parsed := SchemaOf(file);
    SchemaOfJson(schema);
    ghost var levels;
    imported, importedEdges, levels := SchemaToFlow.SchemaToFlow(parsed, uuid);
    ImportClosed(parsed, uuid, imported, importedEdges);

    ghost var st :| 0 <= st < |nodes| && OnlyStart(nodes, st);
    ExportedStart(nodes, edges, st);
    ExportedNodes(nodes, edges);
    ExportedIdsDistinct(nodes, edges, schema);
    ImportedNodesKept(nodes, edges, schema, st, uuid, imported, importedEdges);
    EdgeMeaningsKept(nodes, edges, schema, uuid, imported, importedEdges);
    assert |multiset(MeaningList(imported, importedEdges))| == |importedEdges|;
    assert |multiset(MeaningList(nodes, edges))| == |edges|;
  }
}
