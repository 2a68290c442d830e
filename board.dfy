/** The circuit board: a gate table, a wire list and the bounding box, with the
    placement engine's operations. Positions are updated in place, one gate at a time;
    the read-only queries are loops proved against the specification functions of
    Geometry and Cost. */
module Placement {
  import opened Layout
  import opened Geometry
  import opened Bounds
  import opened Cost
  import opened Search
  import opened Ordering
  import opened Phases

  class CircuitBoard {
    var gates: seq<Gate>
    var wires: seq<Wire>
    var width: int
    var height: int

    /** The gate table is a dictionary keyed by name. */
    ghost predicate Valid()
      reads this
    {
      UniqueNames(gates)
    }

    /** Additionally every wire endpoint names an existing gate and pin. */
    ghost predicate WellFormed()
      reads this
    {
      UniqueNames(gates) && WiresOk(gates, wires)
    }

    constructor ()
      ensures Valid() && gates == [] && wires == [] && width == 0 && height == 0
    {
      gates, wires, width, height := [], [], 0, 0;
    }

    /** Stores `g` under its name: a gate with the same name is replaced in its slot,
        otherwise `g` is appended. */
    method AddGate(g: Gate)
      requires Valid()
      modifies this
      ensures Valid() && wires == old(wires) && width == old(width) && height == old(height)
      ensures HasGate(old(gates), g.name) ==> gates == old(gates)[IndexOf(old(gates), g.name) := g]
      ensures !HasGate(old(gates), g.name) ==> gates == old(gates) + [g]
      ensures HasGate(gates, g.name) && gates[IndexOf(gates, g.name)] == g
    {
      if HasGate(gates, g.name) {
        var k := IndexOf(gates, g.name);
        gates := gates[k := g];
        assert forall j :: 0 <= j < |gates| ==> gates[j].name == old(gates)[j].name;
        IndexOfOwnName(gates, k);
      } else {
        gates := gates + [g];
        IndexOfOwnName(gates, |gates| - 1);
      }
    }

    /** Appends the wire, then records it in both endpoint gates' connection lists. A
        missing endpoint gate is a lookup failure (`ok` false) that leaves the effects
        made before it: the wire is listed, and the start gate is linked if it exists. */
    method AddWire(w: Wire) returns (ok: bool)
      requires Valid()
      modifies this
      ensures Valid() && width == old(width) && height == old(height)
      ensures wires == old(wires) + [w]
      ensures |gates| == |old(gates)|
      ensures ok == (HasGate(old(gates), w.startGate) && HasGate(old(gates), w.endGate))
      ensures !HasGate(old(gates), w.startGate) ==> gates == old(gates)
      ensures HasGate(old(gates), w.startGate) && !HasGate(old(gates), w.endGate) ==>
        gates == Link(old(gates), w.startGate, w.endGate)
      ensures ok ==> forall k :: 0 <= k < |gates| ==>
        gates[k] == old(gates)[k].(connections := old(gates)[k].connections +
                                     (if old(gates)[k].name == w.startGate then [w.endGate] else []) +
                                     (if old(gates)[k].name == w.endGate then [w.startGate] else []))
    {
      wires := wires + [w];
      if !HasGate(gates, w.startGate) {
        return false;
      }
      var before := gates;
      gates := Link(gates, w.startGate, w.endGate);
      // linking renames nothing, so the end lookup fails exactly when it failed before
      if !HasGate(before, w.endGate) {
        return false;
      }
      assert gates[IndexOf(before, w.endGate)].name == w.endGate;
      gates := Link(gates, w.endGate, w.startGate);
      ok := true;
      forall k | 0 <= k < |gates|
        ensures gates[k] == before[k].(connections := before[k].connections +
                                        (if before[k].name == w.startGate then [w.endGate] else []) +
                                        (if before[k].name == w.endGate then [w.startGate] else []))
      {
        LinkBothEnds(before, w.startGate, w.endGate, k);
      }
    }

    /** Total Manhattan wire length of the board. */
    method CalculateWireLength() returns (total: int)
      requires WellFormed()
      ensures total == TotalLength(gates, wires)
    {
      total := 0;
      var k := 0;
      while k < |wires|
        invariant 0 <= k <= |wires|
        invariant WiresOk(gates, wires[..k])
        invariant total == TotalLength(gates, wires[..k])
      {
        var w := wires[k];
        assert WireOk(gates, w);
        var s := PinAt(gates, w.startGate, w.startPin);
        var e := PinAt(gates, w.endGate, w.endPin);
        total := total + Abs(s.x - e.x) + Abs(s.y - e.y);
        LengthPrefix(gates, wires, k);
        k := k + 1;
      }
      assert wires[..k] == wires;
    }

    /** Whether gate i may be placed with its corner at (x, y). */
    method IsValidPlacement(i: nat, x: int, y: int) returns (ok: bool)
      requires i < |gates|
      ensures ok == ValidAt(gates, i, x, y)
    {
      if x < 0 || y < 0 {
        return false;
      }
      var g := gates[i];
      var j := 0;
      while j < |gates|
        invariant 0 <= j <= |gates|
        invariant forall m :: 0 <= m < j && gates[m].name != g.name ==> !Overlap(g.(x := x, y := y), gates[m])
      {
        var other := gates[j];
        if other.name != g.name &&
           x < other.x + other.width && x + g.width > other.x &&
           y < other.y + other.height && y + g.height > other.y
        {
          assert Overlap(g.(x := x, y := y), gates[j]);
          return false;
        }
        j := j + 1;
      }
      return true;
    }

    /** Cost of gate i's incident wires with gate i standing at (x, y) and every other
        gate where it is. */
    method CalculateDistance(i: nat, x: int, y: int) returns (total: int)
      requires WellFormed() && i < |gates|
      ensures total == Distance(gates, wires, i, x, y)
    {
      var g := gates[i];
      IndexOfOwnName(gates, i);
      total := 0;
      var k := 0;
      while k < |wires|
        invariant 0 <= k <= |wires|
        invariant WiresOk(gates, wires[..k])
        invariant total == Distance(gates, wires[..k], i, x, y)
      {
        var w := wires[k];
        DistancePrefix(gates, wires, i, x, y, k);
        if w.startGate == g.name || w.endGate == g.name {
          var otherName := if w.startGate == g.name then w.endGate else w.startGate;
          var mine := if w.startGate == g.name then w.startPin else w.endPin;
          var theirs := if w.startGate == g.name then w.endPin else w.startPin;
          var other := gates[IndexOf(gates, otherName)];
          var gateX := x + g.pins[mine].x;
          var gateY := y + g.pins[mine].y;
          var otherX := other.x + other.pins[theirs].x;
          var otherY := other.y + other.pins[theirs].y;
          total := total + Abs(gateX - otherX) + Abs(gateY - otherY);
        }
        k := k + 1;
      }
      assert wires[..k] == wires;
    }

    /** Sets width and height to the bounding box of all gates. */
    method UpdateBoardDimensions()
      requires |gates| > 0
      modifies this
      ensures gates == old(gates) && wires == old(wires)
      ensures width == MaxRight(gates) && height == MaxTop(gates)
    {
      width := MaxRight(gates);
      height := MaxTop(gates);
    }

    /** Translates every gate by minus the minimum corner, then recomputes the box.
        What the translation achieves is proved about Shift: the layout then touches both
        axes in the first quadrant (ShiftToOrigin), keeps its overlap relation
        (ShiftKeepsNoOverlap) and its wire lengths (ShiftKeepsLength). */
    method ShiftToFirstQuadrant()
      requires |gates| > 0
      modifies this
      ensures gates == Shift(old(gates), -MinX(old(gates)), -MinY(old(gates)))
      ensures wires == old(wires)
      ensures width == MaxRight(gates) && height == MaxTop(gates)
    {
      var minX := MinX(gates);
      var minY := MinY(gates);
      SubtractCorner(minX, minY);
      UpdateBoardDimensions();
    }

    /** The translation loop of the shift: subtracts (minX, minY) from every gate's corner. */
    method SubtractCorner(minX: int, minY: int)
      modifies this
      ensures gates == Shift(old(gates), -minX, -minY)
      ensures wires == old(wires) && width == old(width) && height == old(height)
    {
      var k := 0;
      while k < |gates|
        invariant 0 <= k <= |gates| == |old(gates)|
        invariant forall q :: 0 <= q < k ==> gates[q] == old(gates)[q].(x := old(gates)[q].x - minX, y := old(gates)[q].y - minY)
        invariant forall q :: k <= q < |gates| ==> gates[q] == old(gates)[q]
        invariant wires == old(wires) && width == old(width) && height == old(height)
      {
        gates := gates[k := gates[k].(x := gates[k].x - minX, y := gates[k].y - minY)];
        k := k + 1;
      }
    }

    /** Puts gate i on the first valid cell of the 10-unit grid spanning the bounding box,
        rows bottom-up and each row left to right, or else just right of the box on the
        x axis. */
    method PlaceUnconnectedGate(i: nat)
      requires i < |gates|
      modifies this
      ensures wires == old(wires) && width == old(width) && height == old(height)
      ensures |gates| == |old(gates)| && gates == MoveTo(old(gates), i, gates[i].x, gates[i].y)
      ensures IsUnconnectedSpot(old(gates), i, gates[i].x, gates[i].y)
      ensures old(gates)[i].width >= 0 && MaxRight(old(gates)) >= 0 ==>
        ValidAt(old(gates), i, gates[i].x, gates[i].y)
    {
      var maxX := MaxRight(gates);
      var maxY := MaxTop(gates);
      var y := 0;
      while y < maxY
        invariant y >= 0 && y % GridStep == 0
        invariant gates == old(gates) && wires == old(wires) && width == old(width) && height == old(height)
        invariant forall cx, cy :: GridCell(gates, cx, cy) && cy < y ==> !ValidAt(gates, i, cx, cy)
      {
        var found, x := ScanRow(i, y, maxX);
        if found {
          RowSpot(gates, i, x, y);
          gates := MoveTo(gates, i, x, y);
          return;
        }
        y := y + GridStep;
      }
      FallbackSpot(gates, i, y);
      gates := MoveTo(gates, i, maxX + gates[i].width, 0);
      if old(gates)[i].width >= 0 && MaxRight(old(gates)) >= 0 {
        UnconnectedSpotValid(old(gates), i, gates[i].x, gates[i].y);
      }
    }

    /** One row of the unconnected grid scan: the first valid cell of row y, left to right. */
    method ScanRow(i: nat, y: int, maxX: int) returns (found: bool, x: int)
      requires i < |gates| && maxX == MaxRight(gates)
      requires 0 <= y < MaxTop(gates) && y % GridStep == 0
      ensures found ==> GridCell(gates, x, y) && ValidAt(gates, i, x, y)
      ensures found ==> forall cx :: GridCell(gates, cx, y) && cx < x ==> !ValidAt(gates, i, cx, y)
      ensures !found ==> forall cx :: GridCell(gates, cx, y) ==> !ValidAt(gates, i, cx, y)
    {
      x := 0;
      while x < maxX
        invariant x >= 0 && x % GridStep == 0
        invariant forall cx :: 0 <= cx < x && cx % GridStep == 0 ==> !ValidAt(gates, i, cx, y)
      {
        var ok := IsValidPlacement(i, x, y);
        if ok {
          return true, x;
        }
        forall cx | 0 <= cx < x + GridStep && cx % GridStep == 0
          ensures !ValidAt(gates, i, cx, y)
        {
          if x < cx {
            GridGap(x, cx);
          }
        }
        x := x + GridStep;
      }
      return false, x;
    }

    /** One cell of the windowed search: when gate i may stand at (x, y) and costs less
        there than the best choice so far, or there is none yet, (x, y) becomes the choice. */
    method OfferCell(i: nat, x: int, y: int, b: Choice) returns (r: Choice)
      requires WellFormed() && i < |gates|
      ensures r == Offer(gates, wires, i, b, Point(x, y))
    {
      r := b;
      var ok := IsValidPlacement(i, x, y);
      if ok {
        var distance := CalculateDistance(i, x, y);
        if r.NoChoice? || distance < r.cost {
          r := Choice(x, y, distance);
        }
      }
    }

    /** One column of the window around neighbour nb: cells (nb.x + dx, nb.y + dy) for
        dy from -height up to nb.height, each offered to the best choice so far. */
    method ScanColumn(i: nat, nb: Gate, dx: int, b: Choice, ghost seen: seq<Point>) returns (r: Choice)
      requires WellFormed() && i < |gates|
      requires Tracks(gates, wires, i, seen, b)
      ensures Tracks(gates, wires, i, seen + Column(nb, gates[i], dx, nb.height + 1), r)
    {
      var g := gates[i];
      r := b;
      var dy := -g.height;
      ghost var done := seen;
      assert done == seen + Column(nb, g, dx, dy);
      while dy < nb.height + 1
        invariant -g.height <= dy && (dy <= nb.height + 1 || dy == -g.height)
        invariant done == seen + Column(nb, g, dx, dy)
        invariant Tracks(gates, wires, i, done, r)
      {
        var x := nb.x + dx;
        var y := nb.y + dy;
        ghost var before := r;
        r := OfferCell(i, x, y, r);
        OfferKeepsTracks(gates, wires, i, done, before, Point(x, y));
        ColumnStep(seen, nb, g, dx, dy);
        done := done + [Point(x, y)];
        dy := dy + 1;
      }
      assert Column(nb, g, dx, dy) == Column(nb, g, dx, nb.height + 1);
    }

    /** The scan around one placed neighbour nb: every cell of its window, column by
        column, is offered to the best choice so far. */
    method ScanWindow(i: nat, nb: Gate, b: Choice, ghost seen: seq<Point>) returns (r: Choice)
      requires WellFormed() && i < |gates|
      requires Tracks(gates, wires, i, seen, b)
      ensures Tracks(gates, wires, i, seen + Window(nb, gates[i], nb.width + 1), r)
    {
      var g := gates[i];
      r := b;
      var dx := -g.width;
      ghost var done := seen;
      assert done == seen + Window(nb, g, dx);
      while dx < nb.width + 1
        invariant -g.width <= dx && (dx <= nb.width + 1 || dx == -g.width)
        invariant done == seen + Window(nb, g, dx)
        invariant Tracks(gates, wires, i, done, r)
      {
        r := ScanColumn(i, nb, dx, r, done);
        WindowStep(seen, nb, g, dx);
        done := done + Column(nb, g, dx, nb.height + 1);
        dx := dx + 1;
      }
      assert Window(nb, g, dx) == Window(nb, g, nb.width + 1);
    }

    /** Puts gate i, which has a placed neighbour, at the first cheapest valid cell of the
        windows around its placed neighbours, taken in connection-list order; with no
        valid cell it falls back to unconnected placement. */
    method PlaceConnectedGate(i: nat, placed: set<string>)
      requires WellFormed() && i < |gates|
      requires forall n :: n in placed ==> HasGate(gates, n)
      modifies this
      ensures wires == old(wires) && width == old(width) && height == old(height)
      ensures |gates| == |old(gates)| && gates == MoveTo(old(gates), i, gates[i].x, gates[i].y)
      ensures IsConnectedSpot(old(gates), wires, i, placed, gates[i].x, gates[i].y)
      ensures old(gates)[i].width >= 0 && MaxRight(old(gates)) >= 0 ==>
        ValidAt(old(gates), i, gates[i].x, gates[i].y)
    {
      var conns := gates[i].connections;
      var best := NoChoice;
      ghost var seen: seq<Point> := [];
      var c := 0;
      while c < |conns|
        invariant 0 <= c <= |conns|
        invariant gates == old(gates) && wires == old(wires) && width == old(width) && height == old(height)
        invariant seen == Candidates(gates, i, placed, conns[..c])
        invariant Tracks(gates, wires, i, seen, best)
      {
        var name := conns[c];
        assert conns[..c + 1][..c] == conns[..c];
        if name in placed {
          var nb := gates[IndexOf(gates, name)];
          best := ScanWindow(i, nb, best, seen);
          seen := seen + Window(nb, gates[i], nb.width + 1);
        }
        c := c + 1;
      }
      assert conns[..c] == conns;
      ghost var cands := ConnectedCandidates(gates, i, placed);
      if best.NoChoice? {
        assert !SomeValid(gates, i, cands);
        PlaceUnconnectedGate(i);
      } else {
        gates := MoveTo(gates, i, best.x, best.y);
      }
    }

    /** Greedy step k for gate order[k], the gates before it in the order being placed:
        the windowed search when one of its connections is already placed, unconnected
        placement otherwise. The gate at the origin stays there, and with no negative
        width the placed gates stay apart. */
    method PlaceNext(order: seq<nat>, k: nat, placed: set<string>, ghost start: seq<Gate>,
                     ghost trace: seq<seq<Gate>>) returns (ghost next: seq<seq<Gate>>)
      requires order == ConnectionOrder(start) && k < |order|
      requires GreedyProgress(start, wires, order, k, placed, trace, gates)
      modifies this
      ensures wires == old(wires) && width == old(width) && height == old(height)
      ensures GreedyStep(old(gates), wires, order[k], placed, gates)
      ensures GreedyProgress(start, wires, order, k + 1, placed + {gates[order[k]].name}, next, gates)
    {
      var i := order[k];
      assert forall n :: n in placed ==> HasGate(gates, n) by {
        forall n | n in placed ensures HasGate(gates, n) {
          var b :| 0 <= b < k && start[order[b]].name == n;
          assert gates[order[b]].name == n;
        }
      }
      RankedDistinct(start, order, 0, k);
      if HasPlacedNeighbour(gates[i].connections, placed) {
        PlaceConnectedGate(i, placed);
      } else {
        PlaceUnconnectedGate(i);
      }
      GreedyAdvance(start, wires, order, k, placed, trace, old(gates), gates);
      next := trace + [gates];
    }

    /** The greedy phase of optimize_placement: the gate with the most connections goes
        to the origin, then every other gate in connection order is placed by the
        windowed search when one of its connections is placed and by unconnected
        placement otherwise. `trace` holds the layout after each step. */
    method GreedyPlacement() returns (ghost trace: seq<seq<Gate>>)
      requires WellFormed() && |gates| > 0
      modifies this
      ensures wires == old(wires) && width == old(width) && height == old(height)
      ensures GreedyRun(old(gates), wires, trace) && trace[|trace| - 1] == gates
      ensures WellFormed()
    {
      ghost var start := gates;
      var order := ConnectionOrder(gates);
      var first := order[0];
      MoveKeepsShape(start, gates, wires, first, 0, 0);
      gates := MoveTo(gates, first, 0, 0);
      var placed := {gates[first].name};
      assert placed == PlacedNames(start, order, 1);
      trace := [gates];
      var k := 1;
      while k < |order|
        invariant wires == old(wires) && width == old(width) && height == old(height)
        invariant GreedyProgress(start, wires, order, k, placed, trace, gates)
      {
        var i := order[k];
        trace := PlaceNext(order, k, placed, start, trace);
        placed := placed + {gates[i].name};
        k := k + 1;
      }
      if WidthsNonNegative(start) {
        AllApartIsLegal(gates, order);
      }
    }

    /** The attempts of one annealing move: gate i's corner shifted by each offset in
        turn, clamped at 0, until a valid placement turns up (Python's for-else). */
    method FindPerturbation(i: nat, offsets: seq<Point>) returns (found: bool, p: Point)
      requires i < |gates| && |offsets| == Attempts
      ensures found ==> exists t :: FirstFit(gates, i, offsets, t) && p == Nudge(gates[i], offsets[t])
      ensures !found ==> forall t :: 0 <= t < |offsets| ==>
        !ValidAt(gates, i, Nudge(gates[i], offsets[t]).x, Nudge(gates[i], offsets[t]).y)
    {
      var oldX, oldY := gates[i].x, gates[i].y;
      var t := 0;
      while t < Attempts
        invariant 0 <= t <= Attempts
        invariant forall s :: 0 <= s < t ==>
          !ValidAt(gates, i, Nudge(gates[i], offsets[s]).x, Nudge(gates[i], offsets[s]).y)
      {
        var newX := ClampLow(oldX + offsets[t].x);
        var newY := ClampLow(oldY + offsets[t].y);
        var ok := IsValidPlacement(i, newX, newY);
        if ok {
          assert FirstFit(gates, i, offsets, t);
          return true, Point(newX, newY);
        }
        t := t + 1;
      }
      return false, Point(oldX, oldY);
    }

    /** Puts every gate at its entry of `solution`. */
    method RestoreSolution(solution: seq<Point>)
      requires |solution| == |gates|
      modifies this
      ensures gates == WithPositions(old(gates), solution)
      ensures wires == old(wires) && width == old(width) && height == old(height)
    {
      var r := 0;
      while r < |gates|
        invariant 0 <= r <= |gates| == |old(gates)|
        invariant wires == old(wires) && width == old(width) && height == old(height)
        invariant forall q :: 0 <= q < r ==> gates[q] == old(gates)[q].(x := solution[q].x, y := solution[q].y)
        invariant forall q :: r <= q < |gates| ==> gates[q] == old(gates)[q]
      {
        gates := MoveTo(gates, r, solution[r].x, solution[r].y);
        r := r + 1;
      }
    }

    /** One annealing iteration with draws `m`. `cooled` is false exactly when no attempt
        found a valid cell: then nothing changes and the temperature is not lowered.
        Otherwise the first fitting perturbation is committed or undone as TryMove says,
        and the temperature is multiplied by the cooling rate. */
    method AnnealStep(m: Move, st: AnnealState, coolingRate: real, ghost start: seq<Gate>, ghost legal: bool)
      returns (cooled: bool, next: AnnealState)
      requires MoveOk(|gates|, m) && Consistent(start, wires, gates, st, legal)
      modifies this
      ensures wires == old(wires) && width == old(width) && height == old(height)
      ensures Consistent(start, wires, gates, next, legal)
      ensures !cooled <==> NoFit(old(gates), m)
      ensures Annealed(start, wires, m, old(gates), st, gates, next)
      ensures next.temperature == if cooled then st.temperature * coolingRate else st.temperature
    {
      var found, p := FindPerturbation(m.gate, m.offsets);
      if !found {
        return false, st;
      }
      ghost var t :| FirstFit(gates, m.gate, m.offsets, t) && p == Nudge(gates[m.gate], m.offsets[t]);
      cooled := true;
      next := TryMove(m, p, st, start, legal);
      next := next.(temperature := st.temperature * coolingRate);
    }

    /** Gate m.gate tried at the valid cell p: it stays when the move does not raise the
        wire length or the Metropolis draw accepts it, and goes back otherwise; an
        accepted move that beats the best cost becomes the best solution. */
    method TryMove(m: Move, p: Point, st: AnnealState, ghost start: seq<Gate>, ghost legal: bool)
      returns (next: AnnealState)
      requires m.gate < |gates| && Consistent(start, wires, gates, st, legal)
      requires ValidAt(gates, m.gate, p.x, p.y)
      modifies this
      ensures wires == old(wires) && width == old(width) && height == old(height)
      ensures Consistent(start, wires, gates, next, legal)
      ensures next.bestCost <= st.bestCost
      ensures next.best == if next.currentCost < st.bestCost then next.current else st.best
      ensures Committed(old(gates), wires, m, st.currentCost, p, gates)
      ensures next.temperature == st.temperature
    {
      var i := m.gate;
      var oldX, oldY := gates[i].x, gates[i].y;
      ghost var before := gates;
      MoveKeepsShape(before, before, wires, i, p.x, p.y);
      gates := MoveTo(gates, i, p.x, p.y);
      MoveWithPositions(start, st.current, i, p.x, p.y);
      Repositioned(start, wires, st.current[i := p]);
      var newCost := CalculateWireLength();
      // at equal cost the acceptance probability exp(0) is 1, so the draw always passes
      if newCost <= st.currentCost || m.accept {
        if legal {
          ValidMoveKeepsLegal(before, i, p.x, p.y);
        }
        var current := st.current[i := p];
        if newCost < st.bestCost {
          next := AnnealState(current, newCost, current, newCost, st.temperature);
        } else {
          next := AnnealState(current, newCost, st.best, st.bestCost, st.temperature);
        }
      } else {
        gates := MoveTo(gates, i, oldX, oldY);
        MoveWithPositions(start, st.current[i := p], i, oldX, oldY);
        assert st.current[i := p][i := Point(oldX, oldY)] == st.current;
        assert gates == before;
        next := st;
      }
    }

    /** Simulated annealing from the current layout, with the random draws supplied by
        `moves`: iterations run while the temperature is above the minimum and draws
        remain; each keeps the cheapest layout seen, and cools the temperature unless no
        attempt found a valid cell. At the end the cheapest layout is restored and the
        bounding box recomputed. `layouts` and `states` record the board and the
        annealing state before the first iteration and after each one. */
    method SimulatedAnnealing(coolingRate: real, moves: seq<Move>)
      returns (ghost layouts: seq<seq<Gate>>, ghost states: seq<AnnealState>)
      requires WellFormed() && |gates| > 0
      requires forall m :: m in moves ==> MoveOk(|gates|, m)
      modifies this
      ensures wires == old(wires) && Static(old(gates), gates) && WellFormed()
      ensures AnnealRun(old(gates), wires, coolingRate, moves, layouts, states, gates)
      ensures TotalLength(gates, wires) <= TotalLength(old(gates), wires)
      ensures Legal(old(gates)) ==> Legal(gates)
      ensures width == MaxRight(gates) && height == MaxTop(gates)
    {
      ghost var start := gates;
      ghost var legal := Legal(gates);
      var current := Positions(gates);
      var currentCost := CalculateWireLength();
      var st := AnnealState(current, currentCost, current, currentCost, InitialTemperature);
      InitialConsistent(start, wires);
      layouts, states := [gates], [st];
      var k := 0;
      while st.temperature > MinTemperature && k < |moves|
        invariant 0 <= k <= |moves|
        invariant wires == old(wires) && |gates| == |start|
        invariant RunSoFar(start, wires, coolingRate, moves, layouts, states, k, gates, st)
        decreases |moves| - k
      {
        var m := moves[k];
        assert m in moves;
        ghost var before, prev := gates, st;
        assert moves[|states| - 1] == m && layouts[|layouts| - 1] == before && states[|states| - 1] == prev;
        var cooled;
        cooled, st := AnnealStep(m, st, coolingRate, start, legal);
        AnnealAdvance(start, wires, moves, layouts, states, legal, m, before, prev, gates, st);
        ScheduleAdvance(coolingRate, moves, layouts, states, m, before, prev, gates, st);
        layouts, states := layouts + [gates], states + [st];
        k := k + 1;
      }
      ghost var last := gates;
      RestoreSolution(st.best);
      BestRestored(start, wires, last, st, legal);
      AnnealOutcome(start, wires, coolingRate, moves, layouts, states, gates);
      UpdateBoardDimensions();
    }

    /** optimize_placement: the greedy phase, then annealing from the greedy layout.
        `trace` records the greedy phase, whose last layout starts the annealing run
        recorded by `layouts` and `states`. */
    method OptimizePlacement(coolingRate: real, moves: seq<Move>)
      returns (ghost trace: seq<seq<Gate>>, ghost layouts: seq<seq<Gate>>, ghost states: seq<AnnealState>)
      requires WellFormed() && |gates| > 0
      requires forall m :: m in moves ==> MoveOk(|gates|, m)
      modifies this
      ensures wires == old(wires) && Static(old(gates), gates) && WellFormed()
      ensures GreedyRun(old(gates), wires, trace)
      ensures AnnealRun(trace[|trace| - 1], wires, coolingRate, moves, layouts, states, gates)
      ensures TotalLength(gates, wires) <= TotalLength(trace[|trace| - 1], wires)
      ensures WidthsNonNegative(old(gates)) ==> Legal(gates)
      ensures width == MaxRight(gates) && height == MaxTop(gates)
    {
      trace := GreedyPlacement();
      layouts, states := SimulatedAnnealing(coolingRate, moves);
    }
  }
}
