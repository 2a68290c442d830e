/** What the placement searches look for, stated declaratively: the candidate cells of
    the windowed search around placed neighbours, the first cheapest valid candidate,
    the first free cell of the unconnected grid scan with its fallback, and the
    clamped perturbations of an annealing move. */
module Search {
  import opened Layout
  import opened Geometry
  import opened Bounds
  import opened Cost

  /** Step of the unconnected-placement grid. */
  const GridStep := 10

  /** Cells (nb.x + dx, nb.y + dy) for dy from -g.height up to hi - 1, in ascending order. */
  function Column(nb: Gate, g: Gate, dx: int, hi: int): (r: seq<Point>)
    decreases hi + g.height
  {
    if hi <= -g.height then []
    else Column(nb, g, dx, hi - 1) + [Point(nb.x + dx, nb.y + hi - 1)]
  }

  /** Cells for dx from -g.width up to hi - 1 (outer) and dy from -g.height up to
      nb.height (inner): the window gate g scans around neighbour nb. */
  function Window(nb: Gate, g: Gate, hi: int): (r: seq<Point>)
    decreases hi + g.width
  {
    if hi <= -g.width then []
    else Window(nb, g, hi - 1) + Column(nb, g, hi - 1, nb.height + 1)
  }

  /** Scanning one more cell of a column extends the cells scanned so far by that cell. */
  lemma ColumnStep(seen: seq<Point>, nb: Gate, g: Gate, dx: int, dy: int)
    requires dy >= -g.height
    ensures seen + Column(nb, g, dx, dy) + [Point(nb.x + dx, nb.y + dy)] == seen + Column(nb, g, dx, dy + 1)
  {
  }

  /** Scanning one more column of a window extends the cells scanned so far by that column. */
  lemma WindowStep(seen: seq<Point>, nb: Gate, g: Gate, dx: int)
    requires dx >= -g.width
    ensures seen + Window(nb, g, dx) + Column(nb, g, dx, nb.height + 1) == seen + Window(nb, g, dx + 1)
  {
  }

  /** The candidate cells for gate i, neighbour by neighbour in connection-list order
      (duplicates included), skipping neighbours that are not yet placed. */
  function Candidates(gates: seq<Gate>, i: nat, placed: set<string>, conns: seq<string>): seq<Point>
    requires i < |gates|
    requires forall n :: n in placed ==> HasGate(gates, n)
  {
    if conns == [] then []
    else
      var last := conns[|conns| - 1];
      Candidates(gates, i, placed, conns[..|conns| - 1]) +
        (if last in placed then
           var nb := gates[IndexOf(gates, last)];
           Window(nb, gates[i], nb.width + 1)
         else [])
  }

  /** All candidates of gate i's windowed search. */
  function ConnectedCandidates(gates: seq<Gate>, i: nat, placed: set<string>): seq<Point>
    requires i < |gates|
    requires forall n :: n in placed ==> HasGate(gates, n)
  {
    Candidates(gates, i, placed, gates[i].connections)
  }

  /** Some entry of the connection list names an already placed gate. */
  predicate HasPlacedNeighbour(conns: seq<string>, placed: set<string>)
  {
    exists j :: 0 <= j < |conns| && conns[j] in placed
  }

  predicate SomeValid(gates: seq<Gate>, i: nat, cands: seq<Point>)
    requires i < |gates|
  {
    exists k :: 0 <= k < |cands| && ValidAt(gates, i, cands[k].x, cands[k].y)
  }

  /** cands[k] is valid, no valid candidate is cheaper, and every earlier valid
      candidate is strictly dearer: the first candidate reaching the minimum. */
  ghost predicate IsFirstMin(gates: seq<Gate>, wires: seq<Wire>, i: nat, cands: seq<Point>, k: int)
    requires i < |gates| && UniqueNames(gates) && WiresOk(gates, wires)
  {
    0 <= k < |cands| && ValidAt(gates, i, cands[k].x, cands[k].y) &&
    (forall j :: 0 <= j < |cands| && ValidAt(gates, i, cands[j].x, cands[j].y) ==>
       Distance(gates, wires, i, cands[k].x, cands[k].y) <= Distance(gates, wires, i, cands[j].x, cands[j].y)) &&
    (forall j :: 0 <= j < k && ValidAt(gates, i, cands[j].x, cands[j].y) ==>
       Distance(gates, wires, i, cands[k].x, cands[k].y) < Distance(gates, wires, i, cands[j].x, cands[j].y))
  }

  /** The windowed search has at most one answer. */
  lemma FirstMinUnique(gates: seq<Gate>, wires: seq<Wire>, i: nat, cands: seq<Point>, k1: int, k2: int)
    requires i < |gates| && UniqueNames(gates) && WiresOk(gates, wires)
    requires IsFirstMin(gates, wires, i, cands, k1) && IsFirstMin(gates, wires, i, cands, k2)
    ensures k1 == k2
  {
  }

  /** Scanning one more candidate keeps "the best so far is the first minimum" true:
      a valid candidate replaces the best exactly when it is strictly cheaper. */
  lemma ExtendFirstMin(gates: seq<Gate>, wires: seq<Wire>, i: nat, seen: seq<Point>, k: int, p: Point)
    requires i < |gates| && UniqueNames(gates) && WiresOk(gates, wires)
    requires IsFirstMin(gates, wires, i, seen, k)
    ensures ValidAt(gates, i, p.x, p.y) &&
            Distance(gates, wires, i, p.x, p.y) < Distance(gates, wires, i, seen[k].x, seen[k].y)
      ==> IsFirstMin(gates, wires, i, seen + [p], |seen|)
    ensures !(ValidAt(gates, i, p.x, p.y) &&
              Distance(gates, wires, i, p.x, p.y) < Distance(gates, wires, i, seen[k].x, seen[k].y))
      ==> IsFirstMin(gates, wires, i, seen + [p], k)
  {
    var s := seen + [p];
    assert forall j :: 0 <= j < |seen| ==> s[j] == seen[j];
    assert s[|seen|] == p;
  }

  /** The first valid candidate of a scan whose earlier candidates were all invalid. */
  lemma FirstValidIsFirstMin(gates: seq<Gate>, wires: seq<Wire>, i: nat, seen: seq<Point>, p: Point)
    requires i < |gates| && UniqueNames(gates) && WiresOk(gates, wires)
    requires forall j :: 0 <= j < |seen| ==> !ValidAt(gates, i, seen[j].x, seen[j].y)
    requires ValidAt(gates, i, p.x, p.y)
    ensures IsFirstMin(gates, wires, i, seen + [p], |seen|)
  {
    var s := seen + [p];
    assert forall j :: 0 <= j < |seen| ==> s[j] == seen[j];
    assert s[|seen|] == p;
  }

  /** The best candidate of a windowed search so far: none yet (Python's `None` with an
      infinite minimum), or a position and its local cost. */
  datatype Choice = NoChoice | Choice(x: int, y: int, cost: int)

  /** Scanning candidate p: a valid candidate replaces the best so far when there is none
      or when it is strictly cheaper. */
  function Offer(gates: seq<Gate>, wires: seq<Wire>, i: nat, b: Choice, p: Point): Choice
    requires i < |gates| && UniqueNames(gates) && WiresOk(gates, wires)
  {
    if ValidAt(gates, i, p.x, p.y) then
      var d := Distance(gates, wires, i, p.x, p.y);
      if b.NoChoice? || d < b.cost then Choice(p.x, p.y, d) else b
    else b
  }

  /** `b` is what the search should hold after scanning `seen`: nothing when no candidate
      of `seen` is valid, else the first minimum of `seen` and its cost. */
  ghost predicate Tracks(gates: seq<Gate>, wires: seq<Wire>, i: nat, seen: seq<Point>, b: Choice)
    requires i < |gates| && UniqueNames(gates) && WiresOk(gates, wires)
  {
    match b
    case NoChoice => forall j :: 0 <= j < |seen| ==> !ValidAt(gates, i, seen[j].x, seen[j].y)
    case Choice(x, y, cost) =>
      cost == Distance(gates, wires, i, x, y) &&
      exists k :: IsFirstMin(gates, wires, i, seen, k) && seen[k] == Point(x, y)
  }

  /** Offering every candidate in turn computes the first minimum. */
  lemma OfferKeepsTracks(gates: seq<Gate>, wires: seq<Wire>, i: nat, seen: seq<Point>, b: Choice, p: Point)
    requires i < |gates| && UniqueNames(gates) && WiresOk(gates, wires)
    requires Tracks(gates, wires, i, seen, b)
    ensures Tracks(gates, wires, i, seen + [p], Offer(gates, wires, i, b, p))
  {
    var s := seen + [p];
    assert s[|seen|] == p;
    match b
    case NoChoice =>
      if ValidAt(gates, i, p.x, p.y) {
        FirstValidIsFirstMin(gates, wires, i, seen, p);
      } else {
        assert forall j :: 0 <= j < |seen| ==> s[j] == seen[j];
      }
    case Choice(x, y, cost) =>
      var k :| IsFirstMin(gates, wires, i, seen, k) && seen[k] == Point(x, y);
      ExtendFirstMin(gates, wires, i, seen, k, p);
      assert s[k] == seen[k];
  }

  /** Where the windowed search puts gate i: the first cheapest valid candidate, or, when
      no candidate is valid, the unconnected spot. */
  ghost predicate IsConnectedSpot(gates: seq<Gate>, wires: seq<Wire>, i: nat, placed: set<string>, x: int, y: int)
    requires i < |gates| && UniqueNames(gates) && WiresOk(gates, wires)
    requires forall n :: n in placed ==> HasGate(gates, n)
  {
    var cands := ConnectedCandidates(gates, i, placed);
    if SomeValid(gates, i, cands) then
      exists k :: IsFirstMin(gates, wires, i, cands, k) && cands[k] == Point(x, y)
    else IsUnconnectedSpot(gates, i, x, y)
  }

  /** A cell of the unconnected-placement grid: multiples of the grid step from 0 up to,
      but excluding, the right and top edges of the bounding box. */
  predicate GridCell(gates: seq<Gate>, x: int, y: int)
    requires |gates| > 0
  {
    0 <= x < MaxRight(gates) && 0 <= y < MaxTop(gates) && x % GridStep == 0 && y % GridStep == 0
  }

  /** No grid line lies strictly between two neighbouring grid lines. */
  lemma GridGap(a: int, b: int)
    requires a % GridStep == 0 && b % GridStep == 0 && a < b
    ensures a + GridStep <= b
  {
  }

  /** (x1, y1) is scanned before (x2, y2): rows bottom-up, each row left to right. */
  predicate ScannedBefore(x1: int, y1: int, x2: int, y2: int)
  {
    y1 < y2 || (y1 == y2 && x1 < x2)
  }

  /** Where unconnected placement puts gate i: the first valid grid cell in scan order,
      or, if no grid cell is valid, (max_x + width, 0) just right of the bounding box. */
  ghost predicate IsUnconnectedSpot(gates: seq<Gate>, i: nat, x: int, y: int)
    requires i < |gates|
  {
    (GridCell(gates, x, y) && ValidAt(gates, i, x, y) &&
     forall cx, cy :: GridCell(gates, cx, cy) && ScannedBefore(cx, cy, x, y) ==> !ValidAt(gates, i, cx, cy))
    ||
    ((forall cx, cy :: GridCell(gates, cx, cy) ==> !ValidAt(gates, i, cx, cy)) &&
     x == MaxRight(gates) + gates[i].width && y == 0)
  }

  /** The first valid cell of row y, when no row below it had one, is the unconnected spot. */
  lemma RowSpot(gates: seq<Gate>, i: nat, x: int, y: int)
    requires i < |gates| && GridCell(gates, x, y) && ValidAt(gates, i, x, y)
    requires forall cx, cy :: GridCell(gates, cx, cy) && cy < y ==> !ValidAt(gates, i, cx, cy)
    requires forall cx :: GridCell(gates, cx, y) && cx < x ==> !ValidAt(gates, i, cx, y)
    ensures IsUnconnectedSpot(gates, i, x, y)
  {
  }

  /** When no row below the top edge had a valid cell, the fallback is the unconnected spot. */
  lemma FallbackSpot(gates: seq<Gate>, i: nat, y: int)
    requires i < |gates| && y >= MaxTop(gates)
    requires forall cx, cy :: GridCell(gates, cx, cy) && cy < y ==> !ValidAt(gates, i, cx, cy)
    ensures IsUnconnectedSpot(gates, i, MaxRight(gates) + gates[i].width, 0)
  {
  }

  /** The unconnected spot is a valid placement when the gate's width is non-negative
      and the bounding box's right edge is at x >= 0: a grid answer was tested valid, and
      the fallback lies right of every gate, on the x axis. */
  lemma UnconnectedSpotValid(gates: seq<Gate>, i: nat, x: int, y: int)
    requires i < |gates| && gates[i].width >= 0 && MaxRight(gates) >= 0
    requires IsUnconnectedSpot(gates, i, x, y)
    ensures ValidAt(gates, i, x, y)
  {
    if !GridCell(gates, x, y) || !ValidAt(gates, i, x, y) {
      forall j | 0 <= j < |gates|
        ensures !Overlap(gates[i].(x := x, y := y), gates[j])
      {
        assert Rights(gates)[j] <= MaxRight(gates);
      }
    }
  }

  /** Unconnected placement has exactly one answer. */
  lemma UnconnectedSpotUnique(gates: seq<Gate>, i: nat, x1: int, y1: int, x2: int, y2: int)
    requires i < |gates|
    requires IsUnconnectedSpot(gates, i, x1, y1) && IsUnconnectedSpot(gates, i, x2, y2)
    ensures x1 == x2 && y1 == y2
  {
  }

  /** max(0, v). */
  function ClampLow(v: int): (r: int)
    ensures r >= 0 && r >= v && (r == v || r == 0)
  {
    if v < 0 then 0 else v
  }

  /** The perturbed position of an annealing attempt: the gate's corner moved by the
      random offset, each coordinate clamped at 0. */
  function Nudge(g: Gate, offset: Point): (p: Point)
    ensures p.x >= 0 && p.y >= 0
  {
    Point(ClampLow(g.x + offset.x), ClampLow(g.y + offset.y))
  }

  /** Attempt t of an annealing move is the first of `offsets` whose perturbation of gate i
      is a valid placement. */
  predicate FirstFit(gates: seq<Gate>, i: nat, offsets: seq<Point>, t: int)
    requires i < |gates|
  {
    0 <= t < |offsets| &&
    ValidAt(gates, i, Nudge(gates[i], offsets[t]).x, Nudge(gates[i], offsets[t]).y) &&
    forall s :: 0 <= s < t ==> !ValidAt(gates, i, Nudge(gates[i], offsets[s]).x, Nudge(gates[i], offsets[s]).y)
  }
}
