/** Extents of a layout: Python's built-in max/min over the gates, as used for the
    board's bounding box, the unconnected-placement grid and the shift to the origin. */
module Bounds {
  import opened Layout

  /** The largest value of a non-empty sequence. */
  function MaxOf(vals: seq<int>): (m: int)
    requires |vals| > 0
    ensures forall k :: 0 <= k < |vals| ==> vals[k] <= m
    ensures exists k :: 0 <= k < |vals| && vals[k] == m
  {
    if |vals| == 1 then vals[0]
    else
      var rest := MaxOf(vals[1..]);
      assert forall k :: 1 <= k < |vals| ==> vals[k] == vals[1..][k - 1];
      if vals[0] >= rest then vals[0] else rest
  }

  /** The smallest value of a non-empty sequence. */
  function MinOf(vals: seq<int>): (m: int)
    requires |vals| > 0
    ensures forall k :: 0 <= k < |vals| ==> m <= vals[k]
    ensures exists k :: 0 <= k < |vals| && vals[k] == m
  {
    if |vals| == 1 then vals[0]
    else
      var rest := MinOf(vals[1..]);
      assert forall k :: 1 <= k < |vals| ==> vals[k] == vals[1..][k - 1];
      if vals[0] <= rest then vals[0] else rest
  }

  function Rights(gates: seq<Gate>): (r: seq<int>)
    ensures |r| == |gates| && forall k :: 0 <= k < |gates| ==> r[k] == gates[k].x + gates[k].width
  {
    seq(|gates|, k requires 0 <= k < |gates| => gates[k].x + gates[k].width)
  }

  function Tops(gates: seq<Gate>): (r: seq<int>)
    ensures |r| == |gates| && forall k :: 0 <= k < |gates| ==> r[k] == gates[k].y + gates[k].height
  {
    seq(|gates|, k requires 0 <= k < |gates| => gates[k].y + gates[k].height)
  }

  function Xs(gates: seq<Gate>): (r: seq<int>)
    ensures |r| == |gates| && forall k :: 0 <= k < |gates| ==> r[k] == gates[k].x
  {
    seq(|gates|, k requires 0 <= k < |gates| => gates[k].x)
  }

  function Ys(gates: seq<Gate>): (r: seq<int>)
    ensures |r| == |gates| && forall k :: 0 <= k < |gates| ==> r[k] == gates[k].y
  {
    seq(|gates|, k requires 0 <= k < |gates| => gates[k].y)
  }

  /** max(g.x + g.width): the right edge of the bounding box. */
  function MaxRight(gates: seq<Gate>): int
    requires |gates| > 0
  {
    MaxOf(Rights(gates))
  }

  /** max(g.y + g.height): the top edge of the bounding box. */
  function MaxTop(gates: seq<Gate>): int
    requires |gates| > 0
  {
    MaxOf(Tops(gates))
  }

  /** min(g.x): the left edge of the layout. */
  function MinX(gates: seq<Gate>): int
    requires |gates| > 0
  {
    MinOf(Xs(gates))
  }

  /** min(g.y): the bottom edge of the layout. */
  function MinY(gates: seq<Gate>): int
    requires |gates| > 0
  {
    MinOf(Ys(gates))
  }

  /** A bound that some element reaches is the maximum. */
  lemma MaxOfIs(vals: seq<int>, m: int)
    requires |vals| > 0
    requires forall k :: 0 <= k < |vals| ==> vals[k] <= m
    requires exists k :: 0 <= k < |vals| && vals[k] == m
    ensures MaxOf(vals) == m
  {
  }

  lemma MinOfIs(vals: seq<int>, m: int)
    requires |vals| > 0
    requires forall k :: 0 <= k < |vals| ==> m <= vals[k]
    requires exists k :: 0 <= k < |vals| && vals[k] == m
    ensures MinOf(vals) == m
  {
  }

  /** Adding a constant to every element adds it to the maximum and the minimum. */
  lemma OffsetExtremes(a: seq<int>, b: seq<int>, d: int)
    requires |a| == |b| > 0
    requires forall k :: 0 <= k < |a| ==> b[k] == a[k] + d
    ensures MaxOf(b) == MaxOf(a) + d && MinOf(b) == MinOf(a) + d
  {
    var k1 :| 0 <= k1 < |a| && a[k1] == MaxOf(a);
    assert forall k :: 0 <= k < |b| ==> b[k] <= b[k1] by {
      forall k | 0 <= k < |b| ensures b[k] <= b[k1] { assert a[k] <= MaxOf(a); }
    }
    MaxOfIs(b, b[k1]);
    var k2 :| 0 <= k2 < |a| && a[k2] == MinOf(a);
    assert forall k :: 0 <= k < |b| ==> b[k2] <= b[k] by {
      forall k | 0 <= k < |b| ensures b[k2] <= b[k] { assert MinOf(a) <= a[k]; }
    }
    MinOfIs(b, b[k2]);
  }

  lemma ShiftRights(gates: seq<Gate>, dx: int, dy: int)
    requires |gates| > 0
    ensures MaxRight(Shift(gates, dx, dy)) == MaxRight(gates) + dx
  {
    var s := Shift(gates, dx, dy);
    forall k | 0 <= k < |gates| ensures Rights(s)[k] == Rights(gates)[k] + dx {
      assert s[k] == gates[k].(x := gates[k].x + dx, y := gates[k].y + dy);
    }
    OffsetExtremes(Rights(gates), Rights(s), dx);
  }

  lemma ShiftXs(gates: seq<Gate>, dx: int, dy: int)
    requires |gates| > 0
    ensures MinX(Shift(gates, dx, dy)) == MinX(gates) + dx
  {
    var s := Shift(gates, dx, dy);
    forall k | 0 <= k < |gates| ensures Xs(s)[k] == Xs(gates)[k] + dx {
      assert s[k] == gates[k].(x := gates[k].x + dx, y := gates[k].y + dy);
    }
    OffsetExtremes(Xs(gates), Xs(s), dx);
  }

  lemma ShiftTops(gates: seq<Gate>, dx: int, dy: int)
    requires |gates| > 0
    ensures MaxTop(Shift(gates, dx, dy)) == MaxTop(gates) + dy
  {
    var s := Shift(gates, dx, dy);
    forall k | 0 <= k < |gates| ensures Tops(s)[k] == Tops(gates)[k] + dy {
      assert s[k] == gates[k].(x := gates[k].x + dx, y := gates[k].y + dy);
    }
    OffsetExtremes(Tops(gates), Tops(s), dy);
  }

  lemma ShiftYs(gates: seq<Gate>, dx: int, dy: int)
    requires |gates| > 0
    ensures MinY(Shift(gates, dx, dy)) == MinY(gates) + dy
  {
    var s := Shift(gates, dx, dy);
    forall k | 0 <= k < |gates| ensures Ys(s)[k] == Ys(gates)[k] + dy {
      assert s[k] == gates[k].(x := gates[k].x + dx, y := gates[k].y + dy);
    }
    OffsetExtremes(Ys(gates), Ys(s), dy);
  }

  /** Translating a layout translates its extents by the same amount. */
  lemma ShiftExtents(gates: seq<Gate>, dx: int, dy: int)
    requires |gates| > 0
    ensures MaxRight(Shift(gates, dx, dy)) == MaxRight(gates) + dx
    ensures MaxTop(Shift(gates, dx, dy)) == MaxTop(gates) + dy
    ensures MinX(Shift(gates, dx, dy)) == MinX(gates) + dx
    ensures MinY(Shift(gates, dx, dy)) == MinY(gates) + dy
  {
    ShiftRights(gates, dx, dy);
    ShiftXs(gates, dx, dy);
    ShiftTops(gates, dx, dy);
    ShiftYs(gates, dx, dy);
  }

  /** After translating by minus the minimum corner, the layout touches both axes and
      lies in the first quadrant. */
  lemma ShiftToOrigin(gates: seq<Gate>)
    requires |gates| > 0
    ensures var s := Shift(gates, -MinX(gates), -MinY(gates));
      MinX(s) == 0 && MinY(s) == 0 &&
      forall k :: 0 <= k < |s| ==> s[k].x >= 0 && s[k].y >= 0
  {
    var s := Shift(gates, -MinX(gates), -MinY(gates));
    ShiftXs(gates, -MinX(gates), -MinY(gates));
    ShiftYs(gates, -MinX(gates), -MinY(gates));
    forall k | 0 <= k < |s| ensures s[k].x >= 0 && s[k].y >= 0 {
      assert s[k].x == Xs(gates)[k] - MinX(gates);
      assert s[k].y == Ys(gates)[k] - MinY(gates);
    }
  }
}
