/** The cost model: Manhattan wire length over the whole board, and the cost of one
    gate's incident wires as if that gate stood at a hypothetical position. */
module Cost {
  import opened Layout

  function Abs(v: int): nat
  {
    if v < 0 then -v else v
  }

  /** Both endpoints of `w` name an existing gate and one of that gate's pins. */
  predicate WireOk(gates: seq<Gate>, w: Wire)
  {
    HasGate(gates, w.startGate) && HasGate(gates, w.endGate) &&
    w.startPin in gates[IndexOf(gates, w.startGate)].pins &&
    w.endPin in gates[IndexOf(gates, w.endGate)].pins
  }

  predicate WiresOk(gates: seq<Gate>, wires: seq<Wire>)
  {
    forall w :: w in wires ==> WireOk(gates, w)
  }

  /** Absolute position of pin `pin` of gate `name`: gate position plus pin offset. */
  function PinAt(gates: seq<Gate>, name: string, pin: string): Point
    requires HasGate(gates, name) && pin in gates[IndexOf(gates, name)].pins
  {
    var g := gates[IndexOf(gates, name)];
    Point(g.x + g.pins[pin].x, g.y + g.pins[pin].y)
  }

  /** |dx| + |dy| between the two pins of one wire. */
  function WireLength(gates: seq<Gate>, w: Wire): nat
    requires WireOk(gates, w)
  {
    var s := PinAt(gates, w.startGate, w.startPin);
    var e := PinAt(gates, w.endGate, w.endPin);
    Abs(s.x - e.x) + Abs(s.y - e.y)
  }

  /** Total wire length, summed over the wires in list order. */
  function TotalLength(gates: seq<Gate>, wires: seq<Wire>): nat
    requires WiresOk(gates, wires)
  {
    if wires == [] then 0
    else TotalLength(gates, wires[..|wires| - 1]) + WireLength(gates, wires[|wires| - 1])
  }

  predicate Incident(w: Wire, name: string)
  {
    w.startGate == name || w.endGate == name
  }

  /** The contribution of one wire to the local cost of gate i standing at (x, y): zero
      unless the wire touches gate i; otherwise the distance from gate i's pin, taken at
      (x, y), to the other end's pin at that gate's current position. For a wire from
      gate i to itself the other end is gate i at its current position. */
  function LocalTerm(gates: seq<Gate>, i: nat, x: int, y: int, w: Wire): nat
    requires i < |gates| && UniqueNames(gates) && WireOk(gates, w)
  {
    var g := gates[i];
    IndexOfOwnName(gates, i);
    if w.startGate == g.name then
      var p := g.pins[w.startPin];
      var o := PinAt(gates, w.endGate, w.endPin);
      Abs(x + p.x - o.x) + Abs(y + p.y - o.y)
    else if w.endGate == g.name then
      var p := g.pins[w.endPin];
      var o := PinAt(gates, w.startGate, w.startPin);
      Abs(x + p.x - o.x) + Abs(y + p.y - o.y)
    else 0
  }

  /** The local cost of gate i at (x, y): the sum of LocalTerm over all wires. */
  function Distance(gates: seq<Gate>, wires: seq<Wire>, i: nat, x: int, y: int): nat
    requires i < |gates| && UniqueNames(gates) && WiresOk(gates, wires)
  {
    if wires == [] then 0
    else Distance(gates, wires[..|wires| - 1], i, x, y) + LocalTerm(gates, i, x, y, wires[|wires| - 1])
  }

  /** Every prefix of a well-formed wire list is well formed. */
  lemma PrefixWiresOk(gates: seq<Gate>, wires: seq<Wire>, k: nat)
    requires WiresOk(gates, wires) && k <= |wires|
    ensures WiresOk(gates, wires[..k])
  {
    assert forall v :: v in wires[..k] ==> v in wires;
  }

  /** Summing one more wire of the list adds its length to the total. */
  lemma LengthPrefix(gates: seq<Gate>, wires: seq<Wire>, k: nat)
    requires WiresOk(gates, wires) && k < |wires|
    ensures WiresOk(gates, wires[..k]) && WiresOk(gates, wires[..k + 1]) && WireOk(gates, wires[k])
    ensures TotalLength(gates, wires[..k + 1]) == TotalLength(gates, wires[..k]) + WireLength(gates, wires[k])
  {
    PrefixWiresOk(gates, wires, k);
    PrefixWiresOk(gates, wires, k + 1);
    assert wires[k] in wires;
    assert wires[..k + 1][..k] == wires[..k];
  }

  /** Summing one more wire of the list adds its local term to the local cost. */
  lemma DistancePrefix(gates: seq<Gate>, wires: seq<Wire>, i: nat, x: int, y: int, k: nat)
    requires i < |gates| && UniqueNames(gates) && WiresOk(gates, wires) && k < |wires|
    ensures WiresOk(gates, wires[..k]) && WiresOk(gates, wires[..k + 1]) && WireOk(gates, wires[k])
    ensures Distance(gates, wires[..k + 1], i, x, y) == Distance(gates, wires[..k], i, x, y) + LocalTerm(gates, i, x, y, wires[k])
  {
    PrefixWiresOk(gates, wires, k);
    PrefixWiresOk(gates, wires, k + 1);
    assert wires[k] in wires;
    assert wires[..k + 1][..k] == wires[..k];
  }

  /** The wires that do not touch gate `name`, in list order. */
  function Detached(wires: seq<Wire>, name: string): (r: seq<Wire>)
    ensures forall w :: w in r ==> w in wires && !Incident(w, name)
  {
    if wires == [] then []
    else
      var last := wires[|wires| - 1];
      Detached(wires[..|wires| - 1], name) + (if Incident(last, name) then [] else [last])
  }

  /** Wire lengths only depend on where the gates are, not on anything else moving. */
  lemma {:induction false} StaticWiresOk(a: seq<Gate>, b: seq<Gate>, wires: seq<Wire>)
    requires Static(a, b) && WiresOk(a, wires)
    ensures WiresOk(b, wires)
  {
    forall w | w in wires ensures WireOk(b, w) {
      assert WireOk(a, w);
      StaticLookup(a, b, w.startGate);
      StaticLookup(a, b, w.endGate);
    }
  }

  /** A wire's length is unchanged when the whole layout is translated. */
  lemma ShiftWireLength(gates: seq<Gate>, w: Wire, dx: int, dy: int)
    requires WireOk(gates, w)
    ensures WireOk(Shift(gates, dx, dy), w)
    ensures WireLength(Shift(gates, dx, dy), w) == WireLength(gates, w)
  {
    var s := Shift(gates, dx, dy);
    StaticLookup(gates, s, w.startGate);
    StaticLookup(gates, s, w.endGate);
  }

  /** Translating the whole layout leaves the total wire length unchanged. */
  lemma {:induction false} ShiftKeepsLength(gates: seq<Gate>, wires: seq<Wire>, dx: int, dy: int)
    requires WiresOk(gates, wires)
    ensures WiresOk(Shift(gates, dx, dy), wires)
    ensures TotalLength(Shift(gates, dx, dy), wires) == TotalLength(gates, wires)
  {
    StaticWiresOk(gates, Shift(gates, dx, dy), wires);
    if wires != [] {
      var init := wires[..|wires| - 1];
      assert forall w :: w in init ==> w in wires;
      ShiftKeepsLength(gates, init, dx, dy);
      ShiftWireLength(gates, wires[|wires| - 1], dx, dy);
    }
  }

  /** Moving gate i to (x, y) changes the length of a wire that does not touch it by
      nothing, and turns the length of a wire between gate i and another gate into its
      local term at (x, y). */
  lemma MovedWireLength(gates: seq<Gate>, i: nat, x: int, y: int, w: Wire)
    requires i < |gates| && UniqueNames(gates) && WireOk(gates, w)
    requires !(w.startGate == gates[i].name && w.endGate == gates[i].name)
    ensures WireOk(MoveTo(gates, i, x, y), w)
    ensures WireLength(MoveTo(gates, i, x, y), w) ==
      if Incident(w, gates[i].name) then LocalTerm(gates, i, x, y, w) else WireLength(gates, w)
  {
    var moved := MoveTo(gates, i, x, y);
    StaticLookup(gates, moved, w.startGate);
    StaticLookup(gates, moved, w.endGate);
    IndexOfOwnName(gates, i);
  }

  /** The local cost is exactly the gate's share of the total: moving gate i to (x, y)
      yields a total wire length equal to its local cost at (x, y) plus the (unchanged)
      length of the wires that do not touch it. Wires from gate i to itself are excluded,
      since the local cost measures their far end at gate i's current position. */
  lemma {:induction false} MoveCostSplit(gates: seq<Gate>, wires: seq<Wire>, i: nat, x: int, y: int)
    requires i < |gates| && UniqueNames(gates) && WiresOk(gates, wires)
    requires forall w :: w in wires ==> !(w.startGate == gates[i].name && w.endGate == gates[i].name)
    ensures WiresOk(MoveTo(gates, i, x, y), wires)
    ensures TotalLength(MoveTo(gates, i, x, y), wires) ==
      Distance(gates, wires, i, x, y) + TotalLength(gates, Detached(wires, gates[i].name))
  {
    StaticWiresOk(gates, MoveTo(gates, i, x, y), wires);
    if wires != [] {
      var init := wires[..|wires| - 1];
      assert forall w :: w in init ==> w in wires;
      var last := wires[|wires| - 1];
      var name := gates[i].name;
      var moved := MoveTo(gates, i, x, y);
      MoveCostSplit(gates, init, i, x, y);
      MovedWireLength(gates, i, x, y, last);
      var rest := Detached(init, name);
      assert TotalLength(moved, wires) == TotalLength(moved, init) + WireLength(moved, last);
      assert Distance(gates, wires, i, x, y) == Distance(gates, init, i, x, y) + LocalTerm(gates, i, x, y, last);
      if Incident(last, name) {
        assert Detached(wires, name) == rest;
      } else {
        assert Detached(wires, name) == rest + [last];
        assert (rest + [last])[..|rest|] == rest;
        assert TotalLength(gates, rest + [last]) == TotalLength(gates, rest) + WireLength(gates, last);
      }
    }
  }
}
