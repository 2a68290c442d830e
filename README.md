# Circuit board placement engine, modelled in Dafny

This project models the placement engine of a circuit-board placer. The engine puts
fixed-size rectangular gates on an integer grid so that no two of them overlap. It then
tries to shorten the total Manhattan length of the wires between their pins. It has
four parts:

- a greedy initial placement: gates are taken by connection count, each one goes next
  to a placed neighbour, or else onto a coarse grid;
- a simulated-annealing refinement;
- the overlap test and the two cost functions (the whole board, and one gate's wires at
  a hypothetical position);
- the bounding-box bookkeeping, including the shift of the layout to the origin.

The board is the class `Placement.CircuitBoard`. Its fields are the gate table, the wire
list and the bounding box, and its methods reassign them as the source's methods do.
The gate dictionary is a sequence in insertion order with unique names. A gate's
position is stored in the gate itself.

The entities are values:

- `Layout.Gate` is the gate class of Circuit_Board.py:5-13: name, size, position, pins
  and connection list.
- `Layout.Wire` is the wire class of Circuit_Board.py:15-20: a gate name and a pin name
  at each end.
- `Phases.AnnealState` holds the annealer's local variables of Circuit_Board.py:127-133:
  the current and best solutions, their costs and the temperature.

Read-only loops are methods proved against specification functions:

- the overlap test against `Geometry.ValidAt`;
- the wire-length sum against `Cost.TotalLength`;
- the local cost against `Cost.Distance`;
- the perturbation attempts against `Search.FirstFit`.

The placement searches are specified declaratively in module `Search`:

- `IsFirstMin` is the first cheapest valid candidate.
- `IsUnconnectedSpot` is the first free grid cell, or the fallback just right of the
  bounding box.
- `IsConnectedSpot` puts the two together.

The stable sort by connection count is `Ordering.ConnectionOrder`. It is an insertion
sort proved sorted, strictly ranked (so the order is stable) and a permutation of the
table's indices.

The annealer's random draws of Circuit_Board.py:136-146 come in as data, one
`Phases.Move` per iteration:

- the gate picked;
- the twenty offsets tried;
- the outcome of the Metropolis draw.

Modules, leaves first:

- `Layout` holds the entities and the table operations.
- `Geometry` holds overlap, validity and legality.
- `Bounds` holds the extents and the shift lemmas.
- `Cost` holds the wire length and the local cost.
- `Ordering` holds the greedy order.
- `Search` holds what the searches look for.
- `Phases` holds the draws of an annealing iteration, what one greedy step and one
  annealing step do, and the invariants the two phases keep.
- `Placement` holds the board.

Two things a reader might expect of the placement and does not get:

- A gate that the greedy phase has not placed yet is not skipped. It stands at
  its current position (the origin for a fresh gate). It blocks candidate cells in the
  validity test, and it counts towards the bounding box that the unconnected grid scan
  and its fallback use.
- The fallback cell of unconnected placement is not always valid. It is valid when
  the placed gate's width and the bounding box's right edge are non-negative.

## Model

| member | source | states |
|---|---|---|
| `Layout.IndexOf` | Circuit_Board.py:40-41 | looking a gate up by name finds a gate with that name, and no earlier gate of the table has it |
| `Layout.Link` | Circuit_Board.py:34 | recording a connection changes no gate's name and keeps the table's size |
| `Layout.LinkBothEnds` | Circuit_Board.py:32-35 | linking a wire between existing gates appends the other end's name to each endpoint gate's connections (twice to one gate for a self-loop) and changes nothing else |
| `Layout.MoveTo` | Circuit_Board.py:147-158 | moving a gate sets that gate's position and leaves every other gate as it was |
| `Layout.Shift` | Circuit_Board.py:172-174 | every gate is translated by the same offset, in place, and nothing else about it changes |
| `Layout.Positions` | Circuit_Board.py:130 | the current solution holds each gate's position, in table order |
| `Layout.WithPositions` | Circuit_Board.py:162-164 | writing a solution back puts each gate at its entry and changes nothing else |
| `Layout.PositionsRoundTrip` | Circuit_Board.py:130-132 | writing back the positions read from a table gives back the table |
| `Layout.MoveWithPositions` | Circuit_Board.py:147-151 | moving one gate of the board is the same as updating that gate's entry in the solution |
| `Layout.StaticLookup` | Circuit_Board.py:74 | moving gates never changes which gate a name looks up |
| `Geometry.Overlap` | Circuit_Board.py:107-108 | two rectangles overlap exactly when each one's interval meets the other's on both axes, edges excluded |
| `Geometry.ValidAt` | Circuit_Board.py:102-110 | a cell is valid for a gate exactly when both coordinates are non-negative and the gate standing there overlaps no differently named gate |
| `Geometry.SideBySideDoNotOverlap` | Circuit_Board.py:107-108 | gates that only touch, side by side or one above the other, do not overlap, in either order |
| `Geometry.ValidAtIgnoresOwnPosition` | Circuit_Board.py:105-106 | whether a gate may stand at a cell does not depend on where it stands now |
| `Geometry.ValidMoveIsDisjoint` | Circuit_Board.py:102-110 | a gate moved to a cell that passed the test overlaps no other gate, in either order |
| `Geometry.ValidMoveKeepsLegal` | Circuit_Board.py:142-147 | committing a move that passed the test keeps a non-overlapping first-quadrant layout |
| `Geometry.ShiftKeepsOverlap` | Circuit_Board.py:172-174 | translating the layout keeps whether each pair of gates overlaps |
| `Geometry.ShiftKeepsNoOverlap` | Circuit_Board.py:172-174 | a translated layout is overlap-free exactly when the original is |
| `Bounds.MaxOf` | Circuit_Board.py:179-180 | the maximum bounds every value and is one of them |
| `Bounds.MaxRight` | Circuit_Board.py:179-180 | the right edge of the bounding box: the largest x + width over the gates |
| `Bounds.MaxTop` | Circuit_Board.py:179-180 | the top edge of the bounding box: the largest y + height over the gates |
| `Bounds.MinOf` | Circuit_Board.py:169-170 | the minimum is below every value and is one of them |
| `Bounds.MinX` | Circuit_Board.py:169 | the smallest x over the gates |
| `Bounds.MinY` | Circuit_Board.py:170 | the smallest y over the gates |
| `Bounds.OffsetExtremes` | Circuit_Board.py:169-180 | adding a constant to every value adds it to the maximum and to the minimum |
| `Bounds.ShiftExtents` | Circuit_Board.py:172-180 | translating the layout translates the bounding box and the minimum corner by the same offset |
| `Bounds.ShiftToOrigin` | Circuit_Board.py:168-174 | after translating by minus the minimum corner, the minimum x and y are 0 and every gate is in the first quadrant |
| `Cost.PinAt` | Circuit_Board.py:42-46 | a pin's absolute position is its gate's position plus the pin's offset |
| `Cost.WireLength` | Circuit_Board.py:42-46 | a wire's length is the Manhattan distance between the absolute positions of its two pins |
| `Cost.TotalLength` | Circuit_Board.py:37-47 | the board's wire length: the sum of the wires' lengths, in list order |
| `Cost.LocalTerm` | Circuit_Board.py:115-123 | a wire touching the gate adds the Manhattan distance from the gate's pin, taken at the hypothetical cell, to the other end's pin at its current position; any other wire adds nothing |
| `Cost.Distance` | Circuit_Board.py:112-124 | the local cost of a gate at a cell: the sum of the local terms of all wires |
| `Cost.ShiftWireLength` | Circuit_Board.py:42-46 | translating the layout leaves one wire's length unchanged |
| `Cost.ShiftKeepsLength` | Circuit_Board.py:168-174 | translating the layout leaves the total wire length unchanged |
| `Cost.LengthPrefix` | Circuit_Board.py:39-46 | adding one more wire to the running sum adds exactly its length |
| `Cost.DistancePrefix` | Circuit_Board.py:114-123 | adding one more wire to the running local cost adds exactly its local term |
| `Cost.MovedWireLength` | Circuit_Board.py:115-123 | after moving a gate, a wire touching it (not a self-loop) is as long as its local-cost term for that cell, and any other wire keeps its length |
| `Cost.MoveCostSplit` | Circuit_Board.py:112-124 | with no self-loop on the gate, the board's wire length after moving it to a cell is its local cost there plus the length of the wires not touching it |
| `Ordering.Insert` | Circuit_Board.py:50 | one insertion step of the sort holds the old entries plus the new index and nothing else |
| `Ordering.InsertRanked` | Circuit_Board.py:50 | inserting a later index after every entry with at least as many connections keeps the order ranked (the sort is stable) |
| `Ordering.SortPrefix` | Circuit_Board.py:50 | the first n gates sorted: descending connection count, insertion order among equals, each index exactly once |
| `Ordering.ConnectionOrder` | Circuit_Board.py:50 | the greedy order is a permutation of the table by descending connection count, stable among equals |
| `Ordering.RankedDistinct` | Circuit_Board.py:57 | the greedy order visits no gate twice |
| `Ordering.StaticOrder` | Circuit_Board.py:50 | the greedy order depends only on the connection lists, not on positions |
| `Search.Column` | Circuit_Board.py:76-78 | one column of a window: the cells at the given x offset from the neighbour, y offsets from minus the gate's height upwards, in ascending order |
| `Search.Window` | Circuit_Board.py:75-78 | the window around one neighbour: its columns for x offsets from minus the gate's width to the neighbour's width, in ascending order |
| `Search.Candidates` | Circuit_Board.py:72-78 | the candidate cells are the windows of the placed neighbours, in connection-list order, repeats included |
| `Search.Offer` | Circuit_Board.py:79-83 | a candidate replaces the best choice exactly when it is valid and there is no choice yet or it is strictly cheaper |
| `Search.HasPlacedNeighbour` | Circuit_Board.py:58 | some entry of the gate's connection list names a gate already placed |
| `Search.IsFirstMin` | Circuit_Board.py:79-83 | a candidate is the search's answer exactly when it is valid, no valid candidate is cheaper, and every earlier valid candidate is strictly dearer |
| `Search.Tracks` | Circuit_Board.py:69-83 | the search's running state is "nothing yet" exactly when no scanned candidate was valid, and otherwise the first minimum of the scanned candidates with its cost |
| `Search.IsConnectedSpot` | Circuit_Board.py:68-88 | the windowed search's answer when some candidate is valid, and the unconnected spot otherwise |
| `Search.IsUnconnectedSpot` | Circuit_Board.py:90-100 | the first valid grid cell, rows bottom-up and left to right; with none, (right edge + width, 0) |
| `Search.GridCell` | Circuit_Board.py:94-95 | a cell of the 10-step grid from 0 up to, but excluding, the right and top edges of the box |
| `Search.FirstMinUnique` | Circuit_Board.py:81-83 | the windowed search has at most one answer |
| `Search.ExtendFirstMin` | Circuit_Board.py:79-83 | scanning one more candidate keeps the best-so-far the first minimum; it is replaced exactly when the new one is valid and strictly cheaper |
| `Search.FirstValidIsFirstMin` | Circuit_Board.py:79-83 | the first valid candidate after only invalid ones is the first minimum so far |
| `Search.OfferKeepsTracks` | Circuit_Board.py:79-83 | offering candidates one at a time keeps "nothing valid yet" or "the first minimum and its cost" |
| `Search.RowSpot` | Circuit_Board.py:94-98 | the first valid cell of a row, with no valid cell in the rows below, is the unconnected spot |
| `Search.FallbackSpot` | Circuit_Board.py:94-100 | when no grid row had a valid cell, the fallback cell is the unconnected spot |
| `Search.UnconnectedSpotValid` | Circuit_Board.py:94-100 | the unconnected spot is a valid placement when the gate's width and the box's right edge are non-negative |
| `Search.UnconnectedSpotUnique` | Circuit_Board.py:94-100 | unconnected placement has exactly one answer |
| `Search.FirstFit` | Circuit_Board.py:139-143 | attempt t is the first whose clamped perturbation is a valid placement |
| `Search.ClampLow` | Circuit_Board.py:140-141 | clamping at 0 gives a non-negative value, at least the input, equal to it or 0 |
| `Search.Nudge` | Circuit_Board.py:140-141 | a perturbed position never has a negative coordinate |
| `Phases.Consistent` | Circuit_Board.py:130-156 | the annealer's bookkeeping matches the board: the current solution is the board's positions, both costs are the wire lengths of their layouts, the best cost is at most the current one, and both layouts are legal when annealing started legal |
| `Phases.MoveOk` | Circuit_Board.py:136-141 | a draw the random source can produce: a gate of the table and 20 offsets, each coordinate within [-20, 20] |
| `Phases.Committed` | Circuit_Board.py:147-158 | after a perturbation is tried the board holds the moved layout when its wire length does not exceed the current cost or the draw accepts it, and the old layout otherwise |
| `Phases.Initial` | Circuit_Board.py:130-133 | annealing starts with the board's positions as both the current and the best solution, costing the board's wire length, at temperature 1000 |
| `Phases.InitialConsistent` | Circuit_Board.py:130-133 | the starting state is consistent with the board, legal exactly when the board is |
| `Phases.NoFit` | Circuit_Board.py:139-145 | no attempt of a draw gives the gate a valid clamped cell |
| `Phases.Annealed` | Circuit_Board.py:135-160 | one iteration: with no fitting attempt nothing changes; otherwise the first fitting perturbation is committed or undone, and the best snapshot is replaced exactly when the new current cost beats it |
| `Phases.AnnealProgress` | Circuit_Board.py:135-160 | a recorded run: each iteration uses its own draws and follows `Annealed`; the final best cost is at most every current cost seen, and the final best solution is one of the current solutions seen |
| `Phases.RunSoFar` | Circuit_Board.py:135-160 | the annealer's loop state after k iterations: a recorded run from the start whose last entries are the current board and state, following the cooling schedule |
| `Phases.AnnealAdvance` | Circuit_Board.py:135-160 | a recorded run extended by one iteration that follows `Annealed` is still a recorded run |
| `Phases.IterationAt` | Circuit_Board.py:135-160 | entries j and j + 1 of a recorded run are one iteration with the j-th draw |
| `Phases.IterationKeepsBest` | Circuit_Board.py:154-156 | in a run whose iterations follow `Annealed`, each iteration does not raise the best cost; this reads the bound out of `Annealed`, whose clause `TryMove` establishes |
| `Phases.RunBestNonIncreasing` | Circuit_Board.py:154-156 | along a run whose iterations follow `Annealed` (every recorded run) the best cost never rises |
| `Phases.CooledAt` | Circuit_Board.py:135-160 | iteration j started above the minimum temperature and multiplied it by the cooling rate, unless no attempt fitted, in which case the temperature stayed |
| `Phases.Schedule` | Circuit_Board.py:135-160 | every iteration of a recorded run follows `CooledAt` |
| `Phases.ScheduleAdvance` | Circuit_Board.py:135-160 | a run that follows the schedule, extended by an iteration that started above the minimum and cooled exactly when an attempt fitted, still follows it |
| `Phases.ScheduleCools` | Circuit_Board.py:160 | with a cooling rate in [0, 1] the temperature never rises along a run |
| `Phases.AnnealRun` | Circuit_Board.py:126-164 | a whole run from the starting board, following the cooling schedule, that stops when the draws are used up or the temperature is at most 0.01, after which the best solution seen was written back |
| `Phases.AnnealOutcome` | Circuit_Board.py:126-164 | after a run the board keeps its gates, names and wires, is no longer than at the start nor than any current layout seen, and is legal if the start was |
| `Phases.GreedyStep` | Circuit_Board.py:57-62 | one greedy step moves only the gate being placed: to the connected spot when one of its connections is placed, else to the unconnected spot |
| `Phases.StepAt` | Circuit_Board.py:57-62 | layout a of a greedy trace follows from layout a - 1 by one greedy step for the a-th gate of the order |
| `Phases.Traced` | Circuit_Board.py:57-62 | every layout of the trace after the first follows from the one before it by a greedy step |
| `Phases.PlacedApart` | Circuit_Board.py:52-62 | the gates placed so far overlap no other placed gate and lie in the first quadrant |
| `Phases.GreedyProgress` | Circuit_Board.py:50-62 | the greedy phase's loop state: same gates, well formed, the first gate at the origin, the placed set, the trace ending at the board, and the placed gates apart when no width is negative |
| `Phases.GreedyAdvance` | Circuit_Board.py:57-62 | a greedy step onto a cell valid under the step's own condition carries the greedy phase's loop state over to the next gate |
| `Phases.GreedyRun` | Circuit_Board.py:50-62 | a whole greedy phase: the order's first gate at (0, 0), every later gate placed by one greedy step in order, the gates and wires kept, and the result legal when no width is negative |
| `Phases.PlaceKeepsApart` | Circuit_Board.py:57-62 | placing the next gate on a valid cell keeps the placed gates pairwise apart and in the first quadrant |
| `Phases.GreedyStepKeepsApart` | Circuit_Board.py:52-62 | with the first gate at the origin and no negative width, every greedy step lands on a valid cell and keeps the placed gates apart |
| `Phases.PlacedNames` | Circuit_Board.py:55-62 | the names of the first k gates of the greedy order: the set of placed gates |
| `Phases.AllApartIsLegal` | Circuit_Board.py:57-62 | once every gate is placed apart, no two gates overlap and all lie in the first quadrant |
| `Phases.PlacedNamesStep` | Circuit_Board.py:62 | the placed set grows by exactly the gate just placed |
| `Phases.TraceExtend` | Circuit_Board.py:57-62 | a recorded greedy run extended by one more step is still a greedy run |
| `Phases.Repositioned` | Circuit_Board.py:162-164 | putting the gates at other positions keeps the table's keys, shapes and wire endpoints |
| `Phases.BestRestored` | Circuit_Board.py:162-164 | writing the best solution back over the current layout gives the best layout: same gates, well formed, costing the best cost, legal when annealing started legal |
| `Phases.MoveKeepsShape` | Circuit_Board.py:147-158 | moving one gate (the perturbation and its undo here; the placements at lines 53-54, 88, 97 and 100 likewise) keeps the table's gates, keys and wire endpoints |
| `Placement.CircuitBoard.constructor` | Circuit_Board.py:23-27 | a new board has no gates, no wires and a 0 by 0 box |
| `Placement.CircuitBoard.AddGate` | Circuit_Board.py:29-30 | a gate with the same name is replaced in its slot, otherwise the gate is appended; afterwards the name looks up exactly this gate |
| `Placement.CircuitBoard.AddWire` | Circuit_Board.py:32-35 | the wire is appended; with both gates present each endpoint's connections gain the other end; a missing gate is a lookup failure that keeps the effects made before it |
| `Placement.CircuitBoard.CalculateWireLength` | Circuit_Board.py:37-47 | returns the sum over all wires of the Manhattan distance between their absolute pin positions, and changes nothing |
| `Placement.CircuitBoard.IsValidPlacement` | Circuit_Board.py:102-110 | true exactly when both coordinates are non-negative and the gate at that cell overlaps no differently named gate |
| `Placement.CircuitBoard.CalculateDistance` | Circuit_Board.py:112-124 | returns the cost of the gate's incident wires with the gate at the cell and every other gate in place (a self-loop's far end at the gate's current position) |
| `Placement.CircuitBoard.UpdateBoardDimensions` | Circuit_Board.py:178-180 | width and height become the right and top edges of the bounding box |
| `Placement.CircuitBoard.SubtractCorner` | Circuit_Board.py:172-174 | the translation loop leaves exactly the translated layout, and the wires and the box unchanged |
| `Placement.CircuitBoard.ShiftToFirstQuadrant` | Circuit_Board.py:168-176 | every gate is translated by minus the minimum corner (the layout `Shift` gives, whose effect `Bounds.ShiftToOrigin`, `Geometry.ShiftKeepsOverlap`, `Geometry.ShiftKeepsNoOverlap` and `Cost.ShiftKeepsLength` state) and the box is recomputed |
| `Placement.CircuitBoard.PlaceUnconnectedGate` | Circuit_Board.py:90-100 | only this gate moves, to the first valid 10-step grid cell in row order or else to (right edge + width, 0); the spot is valid when the gate's width and the box's right edge are non-negative |
| `Placement.CircuitBoard.ScanRow` | Circuit_Board.py:95-99 | finds the leftmost valid grid cell of one row, or reports that no grid cell of the row is valid |
| `Placement.CircuitBoard.OfferCell` | Circuit_Board.py:79-83 | a candidate cell replaces the best choice exactly when it is valid and strictly cheaper, or when there is no choice yet |
| `Placement.CircuitBoard.ScanColumn` | Circuit_Board.py:76-83 | after one column of a window, the best choice is still the first minimum of all cells scanned, or nothing when none was valid |
| `Placement.CircuitBoard.ScanWindow` | Circuit_Board.py:75-83 | after the window around one placed neighbour, the best choice is the first minimum of all cells scanned, or nothing when none was valid |
| `Placement.CircuitBoard.PlaceConnectedGate` | Circuit_Board.py:68-88 | only this gate moves: to the first cheapest valid candidate around its placed neighbours, or, with no valid candidate, to the unconnected spot |
| `Placement.CircuitBoard.PlaceNext` | Circuit_Board.py:57-62 | one greedy step: windowed search if a connection is placed, else unconnected placement; the phase's invariant (gates kept, first gate at the origin, placed set, trace, placed gates apart) carries over to the next step |
| `Placement.CircuitBoard.GreedyPlacement` | Circuit_Board.py:50-62 | returns the trace of a whole greedy phase (`Phases.GreedyRun`) ending at the new board: the first gate of the connection order goes to (0, 0); every later gate is placed once, in order, by the step its placed neighbours call for; the result is legal when no width is negative |
| `Placement.CircuitBoard.FindPerturbation` | Circuit_Board.py:137-145 | finds the first of the attempts whose clamped perturbation is valid, or reports that none of them is |
| `Placement.CircuitBoard.RestoreSolution` | Circuit_Board.py:162-164 | every gate is put at its entry of the solution |
| `Placement.CircuitBoard.AnnealStep` | Circuit_Board.py:136-160 | multiplies the temperature by the cooling rate exactly when some attempt fits; the board and state move as `Phases.Annealed` says for this draw, and the state stays consistent with the board |
| `Placement.CircuitBoard.TryMove` | Circuit_Board.py:147-158 | the perturbation stays if it does not raise the cost or the draw accepts it, and is undone if not; the temperature is unchanged; the state stays consistent with the board and the best cost never rises |
| `Placement.CircuitBoard.SimulatedAnnealing` | Circuit_Board.py:126-166 | returns the record of the run: it starts at temperature 1000; iteration k used the k-th draw, followed `Phases.Annealed` and multiplied the temperature by the cooling rate when an attempt fitted; it stops when the draws are used up or the temperature is at most 0.01; the final board is the starting board with the best solution seen written back, costing the final best cost, which is at most every current cost seen and the starting cost; a legal start stays legal; the box is recomputed |
| `Placement.CircuitBoard.OptimizePlacement` | Circuit_Board.py:49-65 | returns the greedy trace, which starts with the first gate of the order at (0, 0) and follows the greedy step, and the record of an annealing run (`Phases.AnnealRun`: cooling schedule and stop rule included) from the trace's last layout to the final board; the final board is legal when no width is negative, and its wire length is at most the greedy layout's |

## Left out

- Parsing the input, the multi-restart driver, timing and the output text are not part of this model. These are `parse_input`, `main_cluster`, `generate_output` and the driver script.
- Randomness is supplied as data. `random.choice`, `random.randint` and the Metropolis draw `random.random() < exp(...)` become the fields of `Phases.Move`. The model does not say how likely each draw is.
- The Metropolis draw is not computed. When the new cost equals the current cost, the model accepts, as the code does, because exp(0) is 1. When the new cost is higher, the outcome is the draw's `accept` flag.
- The temperature is a `real`, so floating-point rounding of the cooling schedule is not modelled.
- Placement.CircuitBoard.SimulatedAnnealing: the loop also stops when the supplied draws run out, which the source never does. The source can loop forever when every attempt keeps failing, because such iterations do not cool; that non-termination is not modelled.
- An empty gate table makes the source raise: the greedy phase indexes an empty list, `random.choice` fails, and the bounding box takes `max` of nothing. The model requires at least one gate for these operations.
- A wire naming a missing gate or pin makes `calculate_wire_length` raise a lookup error. `calculate_distance`, and so the windowed search, raises only on such a wire when it touches the gate being placed. The model requires every wire to be well formed for all of them, because `optimize_placement` calls `calculate_wire_length` at Circuit_Board.py:131, so a run with any malformed wire raises there anyway. `AddWire` does model its missing-gate error.
- The source's tests for an unset position are always true, so they are not modelled as branches.
- Gates are values in a sequence, not shared objects. The sorted list and the position dictionaries of the source are sequences of indices or positions, in table order.
- Placement.CircuitBoard.GreedyPlacement: legality is proved only when no gate has a negative width. The source has no check of its own. With a negative width, the fallback cell can have a negative x.
- Placement.CircuitBoard.OptimizePlacement: legality is proved under the same condition as the greedy phase.
- Cost.MoveCostSplit: self-loop wires are excluded. For such a wire, the local cost measures the far end at the gate's current position.
- The shift to the first quadrant is commented out inside `optimize_placement`, so `OptimizePlacement` does not call it. `ShiftToFirstQuadrant` is modelled on its own.
