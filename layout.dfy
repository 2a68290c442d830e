/** Entities of the placement engine: points, gates, wires, and the gate table.
    The board's gate dictionary is a sequence in insertion order whose names are
    unique; a gate's position lives in the gate itself, as in the source. */
module Layout {

  /** A grid point; also the offset of a pin from its gate's lower-left corner. */
  datatype Point = Point(x: int, y: int)

  /** A rectangular gate with its lower-left corner at (x, y). `connections` holds one
      entry per wire endpoint touching the gate: the name of the gate at the other end. */
  datatype Gate = Gate(name: string, width: int, height: int, x: int, y: int,
                       pins: map<string, Point>, connections: seq<string>)

  /** A wire between pin `startPin` of gate `startGate` and pin `endPin` of gate `endGate`. */
  datatype Wire = Wire(startGate: string, startPin: string, endGate: string, endPin: string)

  predicate HasGate(gates: seq<Gate>, name: string)
  {
    exists k :: 0 <= k < |gates| && gates[k].name == name
  }

  /** The keys of the gate dictionary are unique. */
  predicate UniqueNames(gates: seq<Gate>)
  {
    forall a, b :: 0 <= a < |gates| && 0 <= b < |gates| && a != b ==> gates[a].name != gates[b].name
  }

  /** Dictionary lookup by name: the first (with unique names, the only) gate so named. */
  function IndexOf(gates: seq<Gate>, name: string): (k: nat)
    requires HasGate(gates, name)
    ensures k < |gates| && gates[k].name == name
    ensures forall j :: 0 <= j < k ==> gates[j].name != name
  {
    if gates[0].name == name then 0
    else
      assert HasGate(gates[1..], name) by {
        var k :| 0 <= k < |gates| && gates[k].name == name;
        assert gates[1..][k - 1].name == name;
      }
      IndexOf(gates[1..], name) + 1
  }

  /** Gate i moved to (x, y); nothing else changes. */
  function MoveTo(gates: seq<Gate>, i: nat, x: int, y: int): seq<Gate>
    requires i < |gates|
  {
    gates[i := gates[i].(x := x, y := y)]
  }

  /** `to` appended to the connection list of gate `from`. */
  function Link(gates: seq<Gate>, from: string, to: string): (r: seq<Gate>)
    requires HasGate(gates, from)
    ensures |r| == |gates| && forall k :: 0 <= k < |gates| ==> r[k].name == gates[k].name
  {
    var k := IndexOf(gates, from);
    gates[k := gates[k].(connections := gates[k].connections + [to])]
  }

  /** Every gate translated by (dx, dy). */
  function Shift(gates: seq<Gate>, dx: int, dy: int): (r: seq<Gate>)
    ensures |r| == |gates|
    ensures forall k :: 0 <= k < |gates| ==> r[k] == gates[k].(x := gates[k].x + dx, y := gates[k].y + dy)
  {
    seq(|gates|, k requires 0 <= k < |gates| => gates[k].(x := gates[k].x + dx, y := gates[k].y + dy))
  }

  /** The positions of all gates, in table order (the annealer's `current_solution`). */
  function Positions(gates: seq<Gate>): (ps: seq<Point>)
    ensures |ps| == |gates|
    ensures forall k :: 0 <= k < |gates| ==> ps[k] == Point(gates[k].x, gates[k].y)
  {
    seq(|gates|, k requires 0 <= k < |gates| => Point(gates[k].x, gates[k].y))
  }

  /** The gates of `gates`, each put at the matching entry of `ps`. */
  function WithPositions(gates: seq<Gate>, ps: seq<Point>): (r: seq<Gate>)
    requires |ps| == |gates|
    ensures |r| == |gates|
    ensures forall k :: 0 <= k < |gates| ==> r[k] == gates[k].(x := ps[k].x, y := ps[k].y)
  {
    seq(|gates|, k requires 0 <= k < |gates| => gates[k].(x := ps[k].x, y := ps[k].y))
  }

  /** Two gates that differ at most in their position. */
  predicate SameShape(g: Gate, h: Gate)
  {
    g.name == h.name && g.width == h.width && g.height == h.height &&
    g.pins == h.pins && g.connections == h.connections
  }

  /** Two tables holding the same gates in the same order, possibly at other positions. */
  predicate Static(a: seq<Gate>, b: seq<Gate>)
  {
    |a| == |b| && forall k :: 0 <= k < |a| ==> SameShape(a[k], b[k])
  }

  /** With unique names, looking a gate up by its own name finds that gate. */
  lemma IndexOfOwnName(gates: seq<Gate>, i: nat)
    requires UniqueNames(gates) && i < |gates|
    ensures HasGate(gates, gates[i].name) && IndexOf(gates, gates[i].name) == i
  {
  }

  /** Moving gates around never changes which gate a name looks up. */
  lemma StaticLookup(a: seq<Gate>, b: seq<Gate>, name: string)
    requires Static(a, b) && HasGate(a, name)
    ensures HasGate(b, name) && IndexOf(b, name) == IndexOf(a, name)
  {
    var k := IndexOf(a, name);
    assert b[k].name == name;
    var m := IndexOf(b, name);
    assert a[m].name == name;
  }

  /** Re-applying a table's own positions gives back the table. */
  lemma PositionsRoundTrip(gates: seq<Gate>)
    ensures WithPositions(gates, Positions(gates)) == gates
  {
  }

  /** Moving one gate of a repositioned table is repositioning with one entry replaced. */
  lemma MoveWithPositions(gates: seq<Gate>, ps: seq<Point>, i: nat, x: int, y: int)
    requires |ps| == |gates| && i < |gates|
    ensures MoveTo(WithPositions(gates, ps), i, x, y) == WithPositions(gates, ps[i := Point(x, y)])
  {
  }

  /** Recording a wire between two existing gates appends one entry per endpoint to the
      connection list of the gate at that endpoint (two for a wire from a gate to itself),
      and changes nothing else. */
  lemma LinkBothEnds(gates: seq<Gate>, s: string, e: string, k: nat)
    requires UniqueNames(gates) && HasGate(gates, s) && HasGate(gates, e) && k < |gates|
    ensures HasGate(Link(gates, s, e), e)
    ensures var r := Link(Link(gates, s, e), e, s);
      |r| == |gates| &&
      r[k] == gates[k].(connections := gates[k].connections +
                          (if gates[k].name == s then [e] else []) +
                          (if gates[k].name == e then [s] else []))
  {
    var r1 := Link(gates, s, e);
    var ks := IndexOf(gates, s);
    assert r1[IndexOf(gates, e)].name == e;
    var ke := IndexOf(r1, e);
    assert ke == IndexOf(gates, e);
  }
}
