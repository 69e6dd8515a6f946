/**
 * The graph data model of the flow editor: nodes carrying a user-facing
 * display id, edges carrying a condition and an ordered parameter list.
 */
module FlowTypes {
  import opened Base

  /** The single node type of the unified model. */
  const FLOW_NODE_TYPE: string := "flowNode"
  /** The edge type of edges that carry a condition label. */
  const FLOW_EDGE_TYPE: string := "conditionalEdge"
  /** The schema version written by the current persistence code. */
  const CURRENT_SCHEMA_VERSION: int := 3

  datatype Position = Position(x: int, y: int)

  /** `displayId` is the id shown to users and exported; `FlowNode.id` is internal. */
  datatype NodeData = NodeData(displayId: string, description: string, prompt: string, isStart: bool)

  datatype FlowNode = FlowNode(id: string, nodeType: string, position: Position, data: NodeData)

  /** One key/value pair of an edge's parameter list; imported pairs also carry an id. */
  datatype Param = Param(id: Option<string>, key: string, value: string)

  datatype EdgeData = EdgeData(condition: string, parameters: Option<seq<Param>>)

  /**
   * An edge between two nodes, by internal id. The handles, type and label
   * are the optional fields of the canvas library's edge that the code reads
   * or writes; `edgeLabel` (the `label` field) is only present on edges saved before schema version 3.
   */
  datatype FlowEdge = FlowEdge(
    id: string,
    source: string,
    target: string,
    sourceHandle: Option<string>,
    targetHandle: Option<string>,
    edgeType: Option<string>,
    edgeLabel: Option<string>,
    data: Option<EdgeData>)

  /** `edge.data?.condition || ''` */
  function ConditionOf(e: FlowEdge): (r: string)
    ensures e.data.None? ==> r == ""
    ensures e.data.Some? ==> r == e.data.value.condition
  {
    match e.data
    case None => ""
    case Some(d) => OrElse(d.condition, "")
  }

  /** `edge.data?.parameters || []` */
  function ParamsOf(e: FlowEdge): seq<Param>
  {
    if e.data.Some? && e.data.value.parameters.Some? then e.data.value.parameters.value else []
  }

  /** `!edge.data?.condition?.trim()`: no data, or a condition that trims to nothing. */
  predicate HasBlankCondition(e: FlowEdge)
  {
    e.data.None? || Trim(e.data.value.condition) == []
  }

  /** The internal ids of a node list. */
  function NodeIds(nodes: seq<FlowNode>): set<string>
  {
    set i | 0 <= i < |nodes| :: nodes[i].id
  }

  /** Every edge starts and ends at a node of the graph. */
  predicate EdgesClosed(nodes: seq<FlowNode>, edges: seq<FlowEdge>)
  {
    forall k :: 0 <= k < |edges| ==> edges[k].source in NodeIds(nodes) && edges[k].target in NodeIds(nodes)
  }

  /** The node with internal id `id` is an endpoint of edge `e`. */
  predicate Touches(e: FlowEdge, id: string)
  {
    e.source == id || e.target == id
  }

  /** `edges.filter((e) => e.source === id)`: the edges leaving node `id`, in order. */
  function Outgoing(edges: seq<FlowEdge>, id: string): (r: seq<FlowEdge>)
    ensures forall k :: 0 <= k < |r| ==> r[k] in edges && r[k].source == id
    ensures forall k :: 0 <= k < |edges| && edges[k].source == id ==> edges[k] in r
    ensures IsSubsequence(r, edges)
  {
    Filter(edges, (e: FlowEdge) => e.source == id)
  }
}
