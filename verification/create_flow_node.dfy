/**
 * Node creation for the flow canvas. The internal id and the clock are
 * supplied by the caller in place of `crypto.randomUUID()` and `Date.now()`.
 */
module CreateFlowNode {
  import opened Base
  import opened FlowTypes
  import FlowToSchema

  /** `generateDefaultDisplayId`: `node_` and the timestamp in base 36. */
  function DefaultDisplayId(now: nat): (r: string)
    ensures |r| > 5 && r[..5] == "node_"
  {
    "node_" + ToRadix(now, 36)
  }

  /** `createFlowNode`: a non-start node with empty texts at the given position. */
  function CreateFlowNode(id: string, position: Position, now: nat): (r: FlowNode)
    ensures r.id == id && r.nodeType == FLOW_NODE_TYPE && r.position == position
    ensures r.data == NodeData(DefaultDisplayId(now), "", "", false)
  {
    FlowNode(id, FLOW_NODE_TYPE, position, NodeData(DefaultDisplayId(now), "", "", false))
  }

  /** Nodes created at different times get different default display ids. */
  lemma DefaultDisplayIdInjective(t1: nat, t2: nat)
    requires t1 != t2
    ensures DefaultDisplayId(t1) != DefaultDisplayId(t2)
  {
    if DefaultDisplayId(t1) == DefaultDisplayId(t2) {
      assert DefaultDisplayId(t1)[5..] == ToRadix(t1, 36);
      assert DefaultDisplayId(t2)[5..] == ToRadix(t2, 36);
      RadixInjective(t1, t2, 36);
    }
  }

  /** A default display id is never blank, so it never draws the empty-id warning. */
  lemma DefaultDisplayIdNotBlank(now: nat)
    ensures !IsBlank(DefaultDisplayId(now))
  {
    assert DefaultDisplayId(now)[0] == 'n';
  }

  /** Adding a created node leaves the start node of the graph as it was. */
  lemma {:induction false} CreatedNodeKeepsStart(nodes: seq<FlowNode>, id: string, position: Position, now: nat)
    ensures FlowToSchema.FindStart(nodes + [CreateFlowNode(id, position, now)]) == FlowToSchema.FindStart(nodes)
  {
    var n := CreateFlowNode(id, position, now);
    if nodes == [] {
      assert [n][1..] == [];
    } else {
      assert (nodes + [n])[1..] == nodes[1..] + [n];
      CreatedNodeKeepsStart(nodes[1..], id, position, now);
    }
  }
}
