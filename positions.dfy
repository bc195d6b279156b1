/** Node positions in the editor: the `x` and `y` properties, clamped to [0, 1] when they are
    set and read as 0 when the node or the property is missing; and the conversions JUCE's
    `var` applies when a property is read as a number. */
module Positions {
  import opened ProcessorGraph

  /** Truncation toward zero, as a decimal text is read back by `getIntValue`. */
  function Truncate(r: real): (i: int)
    ensures r >= 0.0 ==> i >= 0 && i as real <= r < (i + 1) as real
    ensures r < 0.0 ==> i <= 0 && (i - 1) as real < r <= i as real
  {
    if r >= 0.0 then r.Floor else -((-r).Floor)
  }

  /** A property read as a double: numbers convert, anything else reads as 0 (the text of a
      string property is not parsed in this model). */
  function AsReal(v: Var): real {
    match v
    case VReal(r) => r
    case VInt(i) => i as real
    case _ => 0.0
  }

  /** A property read as an integer. */
  function AsInt(v: Var): int {
    match v
    case VInt(i) => i
    case VReal(r) => Truncate(r)
    case _ => 0
  }

  /** `(double) n->properties [key]`: a missing property is void and reads as 0. */
  function PropReal(n: Node, key: string): real {
    if key in n.properties then AsReal(n.properties[key]) else 0.0
  }

  function PropInt(n: Node, key: string): int {
    if key in n.properties then AsInt(n.properties[key]) else 0
  }

  /** `jlimit (0.0, 1.0, x)`. */
  function Limit01(x: real): (r: real)
    ensures 0.0 <= r <= 1.0
    ensures 0.0 <= x <= 1.0 ==> r == x
    ensures x < 0.0 ==> r == 0.0
    ensures x > 1.0 ==> r == 1.0
  {
    if x < 0.0 then 0.0 else if 1.0 < x then 1.0 else x
  }

  /** The graph with the node's `x` and `y` properties set, one after the other. */
  function Placed(g: Graph, id: NodeId, x: real, y: real): (r: Graph)
    ensures id !in g.nodes ==> r == g
    ensures r.nodes.Keys == g.nodes.Keys && r.order == g.order && r.connections == g.connections
    ensures WellFormed(g) ==> WellFormed(r)
  {
    SetProperty(SetProperty(g, id, "x", VReal(x)), id, "y", VReal(y))
  }

  /** The graph after `setNodePosition (id, x, y)`. */
  function WithPosition(g: Graph, id: NodeId, x: real, y: real): (r: Graph)
    ensures r.nodes.Keys == g.nodes.Keys && r.order == g.order && r.connections == g.connections
    ensures forall other :: other in g.nodes && other != id ==> r.nodes[other] == g.nodes[other]
    ensures WellFormed(g) ==> WellFormed(r)
  {
    Placed(g, id, Limit01(x), Limit01(y))
  }

  /** What `getNodePosition (id)` reports. */
  function NodePosition(g: Graph, id: NodeId): (p: (real, real))
    ensures id !in g.nodes ==> p == (0.0, 0.0)
    ensures id in g.nodes && "x" !in g.nodes[id].properties ==> p.0 == 0.0
    ensures id in g.nodes && "y" !in g.nodes[id].properties ==> p.1 == 0.0
  {
    if id in g.nodes then (PropReal(g.nodes[id], "x"), PropReal(g.nodes[id], "y")) else (0.0, 0.0)
  }

  /** Reading back a position just placed gives the values placed on a known node; every
      other node's position, and any position on an unknown id, is as before. */
  lemma PlacedPosition(g: Graph, id: NodeId, other: NodeId, x: real, y: real)
    ensures NodePosition(Placed(g, id, x, y), other)
         == if other == id && id in g.nodes then (x, y) else NodePosition(g, other)
  {
    if id in g.nodes {
      var g1 := SetProperty(g, id, "x", VReal(x));
      assert g1.nodes[id].properties["x"] == VReal(x);
      if other == id {
        assert Placed(g, id, x, y).nodes[id].properties["x"] == VReal(x);
      }
    }
  }

  /** Reading back a position just set gives the clamped values on a known node; every
      other node's position, and any position on an unknown id, is as before. */
  lemma PositionAfterSet(g: Graph, id: NodeId, other: NodeId, x: real, y: real)
    ensures NodePosition(WithPosition(g, id, x, y), other)
         == if other == id && id in g.nodes then (Limit01(x), Limit01(y)) else NodePosition(g, other)
  {
    PlacedPosition(g, id, other, Limit01(x), Limit01(y));
  }

  /** A position that has been set always lies in the unit square. */
  lemma PositionInUnitSquare(g: Graph, id: NodeId, x: real, y: real)
    requires id in g.nodes
    ensures var p := NodePosition(WithPosition(g, id, x, y), id);
      0.0 <= p.0 <= 1.0 && 0.0 <= p.1 <= 1.0
  {
    PositionAfterSet(g, id, id, x, y);
  }
}
