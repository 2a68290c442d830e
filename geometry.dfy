/** The overlap test: gates are half-open rectangles [x, x + width) x [y, y + height),
    so gates whose edges only touch do not overlap. */
module Geometry {
  import opened Layout

  /** Strict two-axis interval intersection of the rectangles of `a` and `b`. */
  predicate Overlap(a: Gate, b: Gate)
  {
    a.x < b.x + b.width && a.x + a.width > b.x &&
    a.y < b.y + b.height && a.y + a.height > b.y
  }

  /** Gate i may stand at (x, y): both coordinates are non-negative and, standing there,
      it overlaps no gate with a different name. Where gate i stands now is irrelevant. */
  predicate ValidAt(gates: seq<Gate>, i: nat, x: int, y: int)
    requires i < |gates|
  {
    x >= 0 && y >= 0 &&
    forall j :: 0 <= j < |gates| && gates[j].name != gates[i].name ==>
      !Overlap(gates[i].(x := x, y := y), gates[j])
  }

  predicate NoOverlap(gates: seq<Gate>)
  {
    forall a, b :: 0 <= a < |gates| && 0 <= b < |gates| && a != b ==> !Overlap(gates[a], gates[b])
  }

  predicate NonNegative(gates: seq<Gate>)
  {
    forall k :: 0 <= k < |gates| ==> gates[k].x >= 0 && gates[k].y >= 0
  }

  /** No gate has a negative width: what the greedy phase needs to always find room. */
  predicate WidthsNonNegative(gates: seq<Gate>)
  {
    forall k :: 0 <= k < |gates| ==> gates[k].width >= 0
  }

  /** A layout the placement pipeline promises: no overlap, first quadrant. */
  predicate Legal(gates: seq<Gate>)
  {
    NoOverlap(gates) && NonNegative(gates)
  }

  /** Touching along an edge, vertical or horizontal, is not an overlap. */
  lemma SideBySideDoNotOverlap(a: Gate, b: Gate)
    requires a.x + a.width == b.x || a.y + a.height == b.y
    ensures !Overlap(a, b) && !Overlap(b, a)
  {
  }

  /** Whether gate i may stand somewhere does not depend on where it stands now. */
  lemma ValidAtIgnoresOwnPosition(gates: seq<Gate>, i: nat, x0: int, y0: int, x: int, y: int)
    requires i < |gates|
    ensures ValidAt(MoveTo(gates, i, x0, y0), i, x, y) == ValidAt(gates, i, x, y)
  {
    var moved := MoveTo(gates, i, x0, y0);
    assert forall j :: 0 <= j < |gates| && gates[j].name != gates[i].name ==> moved[j] == gates[j];
    assert moved[i].(x := x, y := y) == gates[i].(x := x, y := y);
  }

  /** After gate i moves to a cell that passed the validity test, it overlaps no other
      gate, whichever of the two is named first. */
  lemma ValidMoveIsDisjoint(gates: seq<Gate>, i: nat, x: int, y: int, a: nat)
    requires UniqueNames(gates) && i < |gates| && a < |gates| && a != i
    requires ValidAt(gates, i, x, y)
    ensures var m := MoveTo(gates, i, x, y); !Overlap(m[i], m[a]) && !Overlap(m[a], m[i])
  {
    assert gates[a].name != gates[i].name;
  }

  /** Committing a move that passed the validity test keeps a legal layout legal. */
  lemma {:induction false} ValidMoveKeepsLegal(gates: seq<Gate>, i: nat, x: int, y: int)
    requires UniqueNames(gates) && i < |gates|
    requires Legal(gates) && ValidAt(gates, i, x, y)
    ensures Legal(MoveTo(gates, i, x, y))
  {
    var moved := MoveTo(gates, i, x, y);
    forall a, b | 0 <= a < |moved| && 0 <= b < |moved| && a != b
      ensures !Overlap(moved[a], moved[b])
    {
      if a == i {
        assert gates[b].name != gates[i].name;
        assert !Overlap(gates[i].(x := x, y := y), gates[b]);
      } else if b == i {
        assert gates[a].name != gates[i].name;
        assert !Overlap(gates[i].(x := x, y := y), gates[a]);
      } else {
        assert !Overlap(gates[a], gates[b]);
      }
    }
  }

  /** Translating the whole layout changes no overlap relation. */
  lemma ShiftKeepsOverlap(gates: seq<Gate>, dx: int, dy: int, a: nat, b: nat)
    requires a < |gates| && b < |gates|
    ensures Overlap(Shift(gates, dx, dy)[a], Shift(gates, dx, dy)[b]) == Overlap(gates[a], gates[b])
  {
  }

  lemma ShiftKeepsNoOverlap(gates: seq<Gate>, dx: int, dy: int)
    ensures NoOverlap(Shift(gates, dx, dy)) == NoOverlap(gates)
  {
    var s := Shift(gates, dx, dy);
    forall a, b | 0 <= a < |gates| && 0 <= b < |gates|
      ensures Overlap(s[a], s[b]) == Overlap(gates[a], gates[b])
    {
      ShiftKeepsOverlap(gates, dx, dy, a, b);
    }
  }
}
