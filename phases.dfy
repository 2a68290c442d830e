/** The placement phases stated declaratively: the annealer's random draws and
    bookkeeping, one greedy step and a trace of them, and the invariants the two phases
    keep (placed gates apart, annealing state consistent with the board). */
module Phases {
  import opened Layout
  import opened Geometry
  import opened Bounds
  import opened Cost
  import opened Search
  import opened Ordering

  /** Number of perturbations an annealing iteration tries. */
  const Attempts := 20
  /** Perturbation offsets are drawn from [-MaxOffset, MaxOffset] on each axis. */
  const MaxOffset := 20
  const InitialTemperature: real := 1000.0
  const MinTemperature: real := 0.01

  /** The random draws of one annealing iteration: the gate picked, the offsets of the
      attempts, and the outcome of the Metropolis draw `random() < exp(-delta / T)`,
      which decides only when the move raises the cost. */
  datatype Move = Move(gate: nat, offsets: seq<Point>, accept: bool)

  /** Draws the random source can produce on a table of n gates: a gate of the table and
      one offset per attempt, each coordinate within [-MaxOffset, MaxOffset]. */
  predicate MoveOk(n: nat, m: Move)
  {
    m.gate < n && |m.offsets| == Attempts &&
    forall t :: 0 <= t < |m.offsets| ==>
      -MaxOffset <= m.offsets[t].x <= MaxOffset && -MaxOffset <= m.offsets[t].y <= MaxOffset
  }

  /** The names of the first k gates of a greedy order: Python's `placed_gates`. */
  ghost function PlacedNames(gates: seq<Gate>, order: seq<nat>, k: nat): set<string>
    requires InRange(gates, order) && k <= |order|
  {
    set b | 0 <= b < k :: gates[order[b]].name
  }

  /** One step of the greedy phase: `after` is `before` with gate i moved to where the
      windowed search puts it when one of its connections is already placed, and to the
      unconnected spot otherwise. */
  ghost predicate GreedyStep(before: seq<Gate>, wires: seq<Wire>, i: nat, placed: set<string>, after: seq<Gate>)
  {
    i < |before| && UniqueNames(before) && WiresOk(before, wires) &&
    (forall n :: n in placed ==> HasGate(before, n)) &&
    |after| == |before| && after == MoveTo(before, i, after[i].x, after[i].y) &&
    if HasPlacedNeighbour(before[i].connections, placed) then
      IsConnectedSpot(before, wires, i, placed, after[i].x, after[i].y)
    else
      IsUnconnectedSpot(before, i, after[i].x, after[i].y)
  }

  /** `trace` records greedy steps: each layout after the first follows from the one
      before it by placing the next gate of `order`. */
  ghost predicate Traced(start: seq<Gate>, wires: seq<Wire>, order: seq<nat>, trace: seq<seq<Gate>>)
    requires InRange(start, order) && |trace| <= |order|
  {
    forall a :: 0 < a < |trace| ==> StepAt(start, wires, order, trace, a)
  }

  /** Layout a of a greedy trace follows from layout a - 1 by placing gate order[a]. */
  ghost predicate StepAt(start: seq<Gate>, wires: seq<Wire>, order: seq<nat>, trace: seq<seq<Gate>>, a: nat)
    requires InRange(start, order)
  {
    0 < a < |trace| && a < |order| &&
    GreedyStep(trace[a - 1], wires, order[a], PlacedNames(start, order, a), trace[a])
  }

  lemma TraceExtend(start: seq<Gate>, wires: seq<Wire>, order: seq<nat>, trace: seq<seq<Gate>>, after: seq<Gate>)
    requires InRange(start, order) && 0 < |trace| < |order| && Traced(start, wires, order, trace)
    requires GreedyStep(trace[|trace| - 1], wires, order[|trace|], PlacedNames(start, order, |trace|), after)
    ensures Traced(start, wires, order, trace + [after])
  {
    var t := trace + [after];
    forall a | 0 < a < |t|
      ensures StepAt(start, wires, order, t, a)
    {
      if a < |trace| {
        assert StepAt(start, wires, order, trace, a);
        assert t[a - 1] == trace[a - 1] && t[a] == trace[a];
      } else {
        assert t[a - 1] == trace[|trace| - 1] && t[a] == after;
      }
    }
  }

  /** Putting the gates of a well-formed table at other positions keeps it well formed. */
  lemma Repositioned(start: seq<Gate>, wires: seq<Wire>, ps: seq<Point>)
    requires UniqueNames(start) && WiresOk(start, wires) && |ps| == |start|
    ensures Static(start, WithPositions(start, ps))
    ensures UniqueNames(WithPositions(start, ps)) && WiresOk(WithPositions(start, ps), wires)
  {
    StaticWiresOk(start, WithPositions(start, ps), wires);
  }

  /** The annealer's bookkeeping: Python's current_solution, current_cost, best_solution,
      best_cost and temperature, the solutions as positions in table order. */
  datatype AnnealState = AnnealState(current: seq<Point>, currentCost: int, best: seq<Point>, bestCost: int,
                                     temperature: real)

  /** The board shows the current solution, both costs are the wire lengths of their
      solutions, the best is no dearer than the current, and, when annealing started from
      a legal layout, both solutions are legal. */
  ghost predicate Consistent(start: seq<Gate>, wires: seq<Wire>, gates: seq<Gate>, st: AnnealState, legal: bool)
  {
    UniqueNames(start) && WiresOk(start, wires) &&
    |st.current| == |start| && |st.best| == |start| &&
    gates == WithPositions(start, st.current) &&
    UniqueNames(gates) && WiresOk(gates, wires) && WiresOk(WithPositions(start, st.best), wires) &&
    st.currentCost == TotalLength(gates, wires) &&
    st.bestCost == TotalLength(WithPositions(start, st.best), wires) && st.bestCost <= st.currentCost &&
    (legal ==> Legal(gates) && Legal(WithPositions(start, st.best)))
  }

  /** The board after a perturbation of gate m.gate to p is tried: the move stays when
      it does not raise the wire length above `cost` or the draw accepts it, and is
      undone otherwise. */
  ghost predicate Committed(before: seq<Gate>, wires: seq<Wire>, m: Move, cost: int, p: Point, after: seq<Gate>)
    requires m.gate < |before| && WiresOk(before, wires)
  {
    var moved := MoveTo(before, m.gate, p.x, p.y);
    Static(before, moved) && WiresOk(moved, wires) &&
    after == if TotalLength(moved, wires) <= cost || m.accept then moved else before
  }

  /** Restoring the best solution over the current layout yields the best layout: the
      same gates, well formed, costing the best cost, and legal when annealing started
      from a legal layout. */
  lemma BestRestored(start: seq<Gate>, wires: seq<Wire>, gates: seq<Gate>, st: AnnealState, legal: bool)
    requires Consistent(start, wires, gates, st, legal)
    ensures var restored := WithPositions(gates, st.best);
      restored == WithPositions(start, st.best) && Static(start, restored) &&
      UniqueNames(restored) && WiresOk(restored, wires) &&
      TotalLength(restored, wires) == st.bestCost && (legal ==> Legal(restored))
  {
    assert WithPositions(gates, st.best) == WithPositions(start, st.best);
    Repositioned(start, wires, st.best);
  }

  /** The state annealing starts from: the board's positions as both the current and the
      best solution, each costing the board's wire length, at the initial temperature. */
  ghost function Initial(gates: seq<Gate>, wires: seq<Wire>): AnnealState
    requires WiresOk(gates, wires)
  {
    AnnealState(Positions(gates), TotalLength(gates, wires), Positions(gates), TotalLength(gates, wires),
                InitialTemperature)
  }

  /** The starting state is consistent with the board it was read from. */
  lemma InitialConsistent(gates: seq<Gate>, wires: seq<Wire>)
    requires UniqueNames(gates) && WiresOk(gates, wires)
    ensures Consistent(gates, wires, gates, Initial(gates, wires), Legal(gates))
  {
    PositionsRoundTrip(gates);
  }

  /** No attempt of draw m finds a valid cell for its gate: Python's for-else branch. */
  ghost predicate NoFit(before: seq<Gate>, m: Move)
    requires m.gate < |before|
  {
    forall t :: 0 <= t < |m.offsets| ==>
      !ValidAt(before, m.gate, Nudge(before[m.gate], m.offsets[t]).x, Nudge(before[m.gate], m.offsets[t]).y)
  }

  /** One annealing iteration with draws m takes board `before` in state `st` to board
      `after` in state `next`: when no attempt fits nothing changes; otherwise the first
      fitting perturbation is committed or undone, and the best snapshot is replaced
      exactly when the new current cost beats it. The new state follows the new board,
      and the best cost never rises. */
  ghost predicate Annealed(start: seq<Gate>, wires: seq<Wire>, m: Move, before: seq<Gate>, st: AnnealState,
                           after: seq<Gate>, next: AnnealState)
  {
    m.gate < |before| && WiresOk(before, wires) &&
    Consistent(start, wires, after, next, false) && next.bestCost <= st.bestCost &&
    if NoFit(before, m) then next == st && after == before
    else
      (exists t :: FirstFit(before, m.gate, m.offsets, t) &&
         Committed(before, wires, m, st.currentCost, Nudge(before[m.gate], m.offsets[t]), after)) &&
      next.best == (if next.currentCost < st.bestCost then next.current else st.best)
  }

  /** Entries j and j + 1 of a recorded run are one iteration with the draws moves[j]. */
  ghost predicate IterationAt(start: seq<Gate>, wires: seq<Wire>, moves: seq<Move>,
                              layouts: seq<seq<Gate>>, states: seq<AnnealState>, j: nat)
  {
    j < |moves| && j + 1 < |layouts| && j + 1 < |states| &&
    Annealed(start, wires, moves[j], layouts[j], states[j], layouts[j + 1], states[j + 1])
  }

  /** `layouts` and `states` record an annealing run: iteration j used the draws moves[j]
      and took entry j to entry j + 1; the last state is consistent with the last layout;
      the final best cost is at most every current cost seen, and the final best solution
      is one of the current solutions seen. */
  ghost predicate AnnealProgress(start: seq<Gate>, wires: seq<Wire>, moves: seq<Move>,
                                 layouts: seq<seq<Gate>>, states: seq<AnnealState>, legal: bool)
  {
    0 < |states| == |layouts| <= |moves| + 1 &&
    Consistent(start, wires, layouts[|layouts| - 1], states[|states| - 1], legal) &&
    (forall j :: 0 <= j < |states| - 1 ==> IterationAt(start, wires, moves, layouts, states, j)) &&
    (forall j :: 0 <= j < |states| ==> states[|states| - 1].bestCost <= states[j].currentCost) &&
    (exists j :: 0 <= j < |states| && states[|states| - 1].best == states[j].current)
  }

  /** A recorded run extended by one more iteration is still a recorded run. */
  lemma AnnealAdvance(start: seq<Gate>, wires: seq<Wire>, moves: seq<Move>, layouts: seq<seq<Gate>>,
                      states: seq<AnnealState>, legal: bool, m: Move, before: seq<Gate>, st: AnnealState,
                      after: seq<Gate>, next: AnnealState)
    requires AnnealProgress(start, wires, moves, layouts, states, legal) && |states| <= |moves|
    requires moves[|states| - 1] == m && layouts[|layouts| - 1] == before && states[|states| - 1] == st
    requires Annealed(start, wires, m, before, st, after, next)
    requires Consistent(start, wires, after, next, legal)
    ensures AnnealProgress(start, wires, moves, layouts + [after], states + [next], legal)
  {
    var n := |states|;
    var ls := layouts + [after];
    var ss := states + [next];
    forall j | 0 <= j < n
      ensures IterationAt(start, wires, moves, ls, ss, j)
    {
      if j < n - 1 {
        assert IterationAt(start, wires, moves, layouts, states, j);
        assert ls[j] == layouts[j] && ls[j + 1] == layouts[j + 1];
        assert ss[j] == states[j] && ss[j + 1] == states[j + 1];
      } else {
        assert ls[j] == before && ls[j + 1] == after;
        assert ss[j] == st && ss[j + 1] == next;
      }
    }
    forall j | 0 <= j < n + 1
      ensures next.bestCost <= ss[j].currentCost
    {
      if j < n {
        assert ss[j] == states[j];
      }
    }
    var w :| 0 <= w < n && st.best == states[w].current;
    if next.best == next.current {
      assert ss[n].current == next.best;
    } else {
      assert ss[w] == states[w];
    }
  }

  /** Entries j and j + 1 of a recorded run follow the cooling schedule: iteration j ran
      while the temperature was above the minimum, and it multiplied the temperature by
      `rate` exactly when some attempt fitted. */
  ghost predicate CooledAt(rate: real, moves: seq<Move>, layouts: seq<seq<Gate>>, states: seq<AnnealState>, j: nat)
  {
    j < |moves| && j + 1 < |layouts| && j + 1 < |states| && moves[j].gate < |layouts[j]| &&
    states[j].temperature > MinTemperature &&
    states[j + 1].temperature ==
      if NoFit(layouts[j], moves[j]) then states[j].temperature else states[j].temperature * rate
  }

  /** Every recorded iteration follows the cooling schedule. */
  ghost predicate Schedule(rate: real, moves: seq<Move>, layouts: seq<seq<Gate>>, states: seq<AnnealState>)
  {
    forall j :: 0 <= j < |states| - 1 ==> CooledAt(rate, moves, layouts, states, j)
  }

  /** A recorded schedule extended by one iteration that ran above the minimum
      temperature and cooled exactly when an attempt fitted is still a schedule. */
  lemma ScheduleAdvance(rate: real, moves: seq<Move>, layouts: seq<seq<Gate>>, states: seq<AnnealState>,
                        m: Move, before: seq<Gate>, st: AnnealState, after: seq<Gate>, next: AnnealState)
    requires Schedule(rate, moves, layouts, states) && 0 < |states| == |layouts| <= |moves|
    requires moves[|states| - 1] == m && layouts[|layouts| - 1] == before && states[|states| - 1] == st
    requires m.gate < |before| && st.temperature > MinTemperature
    requires next.temperature == if NoFit(before, m) then st.temperature else st.temperature * rate
    ensures Schedule(rate, moves, layouts + [after], states + [next])
  {
    var n := |states|;
    var ls := layouts + [after];
    var ss := states + [next];
    forall j | 0 <= j < n
      ensures CooledAt(rate, moves, ls, ss, j)
    {
      if j < n - 1 {
        assert CooledAt(rate, moves, layouts, states, j);
        assert ls[j] == layouts[j] && ss[j] == states[j] && ss[j + 1] == states[j + 1];
      } else {
        assert ls[j] == before && ss[j] == st && ss[j + 1] == next;
      }
    }
  }

  /** With a cooling rate between 0 and 1 the temperature never rises along a recorded
      schedule. */
  lemma {:induction false} ScheduleCools(rate: real, moves: seq<Move>, layouts: seq<seq<Gate>>,
                                         states: seq<AnnealState>, a: nat, b: nat)
    requires Schedule(rate, moves, layouts, states) && 0.0 <= rate <= 1.0 && a <= b < |states|
    ensures states[b].temperature <= states[a].temperature
    decreases b - a
  {
    if a < b {
      ScheduleCools(rate, moves, layouts, states, a, b - 1);
      assert CooledAt(rate, moves, layouts, states, b - 1);
      var t := states[b - 1].temperature;
      assert t > 0.0;
      assert t * rate <= t * 1.0;
    }
  }

  /** A whole annealing run from board `start` with cooling rate `rate` over the draws
      `moves`, recorded by `layouts` and `states`: it starts at the initial temperature,
      follows the cooling schedule, and stops when the draws are used up or the
      temperature is no longer above the minimum; then the best solution seen was
      restored as `final`. */
  ghost predicate AnnealRun(start: seq<Gate>, wires: seq<Wire>, rate: real, moves: seq<Move>,
                            layouts: seq<seq<Gate>>, states: seq<AnnealState>, final: seq<Gate>)
  {
    AnnealProgress(start, wires, moves, layouts, states, Legal(start)) &&
    layouts[0] == start && states[0] == Initial(start, wires) &&
    Schedule(rate, moves, layouts, states) &&
    (|states| == |moves| + 1 || states[|states| - 1].temperature <= MinTemperature) &&
    final == WithPositions(start, states[|states| - 1].best) &&
    TotalLength(final, wires) == states[|states| - 1].bestCost
  }

  /** The loop state of the annealer after k iterations: a recorded run from `start`
      whose last entries are the board `gates` and the state `st`. */
  ghost predicate RunSoFar(start: seq<Gate>, wires: seq<Wire>, rate: real, moves: seq<Move>,
                           layouts: seq<seq<Gate>>, states: seq<AnnealState>, k: nat, gates: seq<Gate>,
                           st: AnnealState)
  {
    AnnealProgress(start, wires, moves, layouts, states, Legal(start)) &&
    Schedule(rate, moves, layouts, states) &&
    |states| == k + 1 && layouts[0] == start && states[0] == Initial(start, wires) &&
    layouts[k] == gates && states[k] == st
  }

  /** What a run achieves: the restored board keeps every gate's name, size and pins,
      its wires stay well formed, its wire length is at most the starting one and at
      most every wire length seen during the run, and it is legal if the start was. */
  lemma AnnealOutcome(start: seq<Gate>, wires: seq<Wire>, rate: real, moves: seq<Move>,
                      layouts: seq<seq<Gate>>, states: seq<AnnealState>, final: seq<Gate>)
    requires AnnealRun(start, wires, rate, moves, layouts, states, final)
    ensures Static(start, final) && UniqueNames(final) && WiresOk(final, wires)
    ensures TotalLength(final, wires) <= TotalLength(start, wires)
    ensures forall j :: 0 <= j < |states| ==> TotalLength(final, wires) <= states[j].currentCost
    ensures Legal(start) ==> Legal(final)
  {
    var n := |states|;
    assert TotalLength(final, wires) <= states[0].currentCost;
    Repositioned(start, wires, states[n - 1].best);
  }

  /** One recorded iteration does not raise the best cost: the bound is read out of
      `Annealed`, whose clause on the best cost `TryMove` establishes. */
  lemma IterationKeepsBest(start: seq<Gate>, wires: seq<Wire>, moves: seq<Move>,
                           layouts: seq<seq<Gate>>, states: seq<AnnealState>, j: nat)
    requires forall j :: 0 <= j < |states| - 1 ==> IterationAt(start, wires, moves, layouts, states, j)
    requires j + 1 < |states|
    ensures states[j + 1].bestCost <= states[j].bestCost
  {
    assert IterationAt(start, wires, moves, layouts, states, j);
  }

  /** Along a run whose every iteration follows `Annealed` (as in any recorded run) the
      best cost never rises. */
  lemma {:induction false} RunBestNonIncreasing(start: seq<Gate>, wires: seq<Wire>, moves: seq<Move>,
                                                layouts: seq<seq<Gate>>, states: seq<AnnealState>,
                                                a: nat, b: nat)
    requires forall j :: 0 <= j < |states| - 1 ==> IterationAt(start, wires, moves, layouts, states, j)
    requires a <= b < |states|
    ensures states[b].bestCost <= states[a].bestCost
    decreases b - a
  {
    if a < b {
      RunBestNonIncreasing(start, wires, moves, layouts, states, a, b - 1);
      IterationKeepsBest(start, wires, moves, layouts, states, b - 1);
    }
  }

  /** Moving a gate keeps the table's shape, its unique keys and its wires' endpoints. */
  lemma MoveKeepsShape(start: seq<Gate>, gates: seq<Gate>, wires: seq<Wire>, i: nat, x: int, y: int)
    requires Static(start, gates) && UniqueNames(gates) && WiresOk(gates, wires) && i < |gates|
    ensures Static(start, MoveTo(gates, i, x, y)) && Static(gates, MoveTo(gates, i, x, y))
    ensures UniqueNames(MoveTo(gates, i, x, y)) && WiresOk(MoveTo(gates, i, x, y), wires)
  {
    StaticWiresOk(gates, MoveTo(gates, i, x, y), wires);
  }

  /** The first k gates of a greedy order overlap no other of them and lie in the first
      quadrant. */
  ghost predicate PlacedApart(gates: seq<Gate>, order: seq<nat>, k: nat)
    requires InRange(gates, order) && k <= |order|
  {
    (forall p, q :: 0 <= p < k && 0 <= q < k && p != q ==> !Overlap(gates[order[p]], gates[order[q]])) &&
    forall p :: 0 <= p < k ==> gates[order[p]].x >= 0 && gates[order[p]].y >= 0
  }

  /** Placing the next gate of the order on a valid cell keeps the placed gates apart. */
  lemma PlaceKeepsApart(start: seq<Gate>, before: seq<Gate>, order: seq<nat>, k: nat, x: int, y: int)
    requires |start| == |before| && UniqueNames(before)
    requires InRange(start, order) && Ranked(start, order) && k < |order|
    requires PlacedApart(before, order, k) && ValidAt(before, order[k], x, y)
    ensures PlacedApart(MoveTo(before, order[k], x, y), order, k + 1)
  {
    var i := order[k];
    var after := MoveTo(before, i, x, y);
    forall p | 0 <= p < k
      ensures order[p] != i && !Overlap(after[i], after[order[p]]) && !Overlap(after[order[p]], after[i])
    {
      RankedDistinct(start, order, p, k);
      ValidMoveIsDisjoint(before, i, x, y, order[p]);
    }
    forall p, q | 0 <= p < k + 1 && 0 <= q < k + 1 && p != q
      ensures !Overlap(after[order[p]], after[order[q]])
    {
      if p < k && q < k {
        RankedDistinct(start, order, p, k);
        RankedDistinct(start, order, q, k);
        assert !Overlap(before[order[p]], before[order[q]]);
      }
    }
  }

  /** A greedy step lands on a valid cell and keeps the placed gates apart: the gate at
      the origin makes the bounding box reach x >= 0, which with no negative width is
      the condition under which the step's cell is valid. */
  lemma GreedyStepKeepsApart(start: seq<Gate>, before: seq<Gate>, after: seq<Gate>, order: seq<nat>, k: nat)
    requires Static(start, before) && UniqueNames(before) && WidthsNonNegative(start)
    requires InRange(start, order) && Ranked(start, order) && 0 < k < |order|
    requires before[order[0]].x == 0 && before[order[0]].y == 0
    requires PlacedApart(before, order, k)
    requires |after| == |before| && after == MoveTo(before, order[k], after[order[k]].x, after[order[k]].y)
    requires before[order[k]].width >= 0 && MaxRight(before) >= 0 ==>
      ValidAt(before, order[k], after[order[k]].x, after[order[k]].y)
    ensures ValidAt(before, order[k], after[order[k]].x, after[order[k]].y)
    ensures PlacedApart(after, order, k + 1)
  {
    var first := order[0];
    assert Rights(before)[first] == before[first].width;
    assert before[order[k]].width == start[order[k]].width;
    PlaceKeepsApart(start, before, order, k, after[order[k]].x, after[order[k]].y);
  }

  /** Once every gate of the order is placed apart, the layout is legal. */
  lemma AllApartIsLegal(gates: seq<Gate>, order: seq<nat>)
    requires InRange(gates, order) && |order| == |gates|
    requires forall a :: 0 <= a < |gates| ==> a in order
    requires PlacedApart(gates, order, |order|)
    ensures Legal(gates)
  {
    forall a, b | 0 <= a < |gates| && 0 <= b < |gates| && a != b
      ensures !Overlap(gates[a], gates[b])
    {
      assert a in order && b in order;
      var p :| 0 <= p < |order| && order[p] == a;
      var q :| 0 <= q < |order| && order[q] == b;
    }
    forall a | 0 <= a < |gates| ensures gates[a].x >= 0 && gates[a].y >= 0 {
      assert a in order;
      var p :| 0 <= p < |order| && order[p] == a;
    }
  }

  lemma PlacedNamesStep(gates: seq<Gate>, order: seq<nat>, k: nat)
    requires InRange(gates, order) && k < |order|
    ensures PlacedNames(gates, order, k + 1) == PlacedNames(gates, order, k) + {gates[order[k]].name}
  {
  }

  /** Where the greedy phase stands before step k: the same gates as at the start, well
      formed, the first gate of the order at the origin, `placed` naming the first k
      gates of the order, `trace` holding the layouts so far, ending with `gates`, and,
      with no negative width, the placed gates apart. */
  ghost predicate GreedyProgress(start: seq<Gate>, wires: seq<Wire>, order: seq<nat>, k: nat,
                                 placed: set<string>, trace: seq<seq<Gate>>, gates: seq<Gate>)
  {
    InRange(start, order) && 1 <= k <= |order| == |start| &&
    Static(start, gates) && UniqueNames(gates) && WiresOk(gates, wires) &&
    gates[order[0]].x == 0 && gates[order[0]].y == 0 &&
    placed == PlacedNames(start, order, k) &&
    |trace| == k && trace[0] == MoveTo(start, order[0], 0, 0) && trace[k - 1] == gates &&
    Traced(start, wires, order, trace) &&
    (WidthsNonNegative(start) ==> PlacedApart(gates, order, k))
  }

  /** A whole greedy phase from `start`, recorded by `trace`: the first gate of the
      connection order goes to the origin, every later gate is placed by one greedy step
      in that order, the final layout keeps the gates, names and wires, and it is legal
      when no width is negative. */
  ghost predicate GreedyRun(start: seq<Gate>, wires: seq<Wire>, trace: seq<seq<Gate>>)
  {
    var order := ConnectionOrder(start);
    0 < |start| && |trace| == |start| && trace[0] == MoveTo(start, order[0], 0, 0) &&
    Traced(start, wires, order, trace) &&
    Static(start, trace[|trace| - 1]) && UniqueNames(trace[|trace| - 1]) && WiresOk(trace[|trace| - 1], wires) &&
    (WidthsNonNegative(start) ==> Legal(trace[|trace| - 1]))
  }

  /** A greedy step from where the phase stands carries its invariant over to the next
      step. */
  lemma GreedyAdvance(start: seq<Gate>, wires: seq<Wire>, order: seq<nat>, k: nat, placed: set<string>,
                      trace: seq<seq<Gate>>, before: seq<Gate>, after: seq<Gate>)
    requires GreedyProgress(start, wires, order, k, placed, trace, before) && Ranked(start, order) && k < |order|
    requires GreedyStep(before, wires, order[k], placed, after)
    requires before[order[k]].width >= 0 && MaxRight(before) >= 0 ==>
      ValidAt(before, order[k], after[order[k]].x, after[order[k]].y)
    ensures GreedyProgress(start, wires, order, k + 1, placed + {after[order[k]].name}, trace + [after], after)
  {
    var i := order[k];
    RankedDistinct(start, order, 0, k);
    MoveKeepsShape(start, before, wires, i, after[i].x, after[i].y);
    if WidthsNonNegative(start) {
      GreedyStepKeepsApart(start, before, after, order, k);
    }
    PlacedNamesStep(start, order, k);
    TraceExtend(start, wires, order, trace, after);
  }
}
