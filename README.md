# A* path search over a hex map, with its binary min-heap

This project models the path finder of `temp/astar.c`: a hand-written
array-backed binary min-heap of `(cost, hex)` elements, and `find_path`,
the A* loop that uses it as its frontier together with two maps
(`cost_so_far`, `came_from`) and then walks the predecessor links back from
the goal.

- `hex.dfy` (module `Hexes`): the `Hex` coordinate pair and the `NULL_HEX`
  sentinel. Hex equality (`same_hex`) is structural equality of the datatype.
- `heap.dfy` (module `BinaryHeaps`): the index arithmetic, the heap order on
  a sequence of elements and the intermediate shapes that sift-up and
  sift-down pass through, and the class `BinaryHeap` with its array buffer,
  `size` and `capacity`. `heapify_up` and `heapify_down` stay recursive
  methods, as they are written. Every mutating method states its new state
  through `Elements()`, the live prefix `data[..size]`, or through the whole
  buffer. `Insert`, `Pop`, `HeapifyUp` and `HeapifyDown` also prove that the
  min-heap order holds afterwards and that the multiset of elements changes
  exactly as the operation says.
- `astar.dfy` (module `AStar`): the integer step cost, the guarded update of
  the two maps (`Relax`), path reconstruction, and `FindPath`. The search
  loop of `find_path` is split into four methods: `FindPath` (the outer
  loop and reconstruction), `SearchRound` (one pop and expansion),
  `ExpandNeighbours` (the loop over the six neighbours) and
  `ConsiderNeighbour` (the body for one in-bounds neighbour). What the
  neighbour loop does is specified by `Expand`, a fold of the step
  `Consider` over the neighbours in order; the lemmas about `Expand` carry
  its properties to the search loop. The geometry and the unit are
  parameters of `FindPath`:
  - `neighbours` stands for `get_neighbours`, and returns six hexes;
  - `inBounds` stands for `hex_inbounds`;
  - `distance` stands for `hex_distance`;
  - `speed` stands for `unit_speed(u, get_map_position_from_hex(h))`, a
    natural number.

The main results:

- After every insert and pop the live prefix is a min-heap.
- A pop takes out a cheapest element and leaves exactly the others.
- Each round pops a cheapest frontier entry and then changes the maps and
  the frontier exactly as `Expand` says. Only improved neighbours are
  pushed, with priority `new_cost + hex_distance(next, end)`, and linked to
  the expanded hex.
- A recorded cost never increases, and the two maps always have the same
  keys.
- A found path runs from the goal back to the start along `came_from`
  links between in-bounds neighbours, and its cost is covered by the cost
  recorded for the goal.
- `NotFound` means that no in-bounds walk from the start reaches the goal.

## Model

| member | source | states |
|---|---|---|
| `BinaryHeaps.Parent` | temp/astar.c:54 | The parent of a non-root slot `i` lies before it, and `i` is one of its two child slots |
| `BinaryHeaps.Left` | temp/astar.c:55 | The left child lies after `i` and has `i` as its parent |
| `BinaryHeaps.Right` | temp/astar.c:56 | The right child directly follows the left child and has `i` as its parent |
| `BinaryHeaps.ChildOfParent` | temp/astar.c:25-27 | Every non-root slot is the left or the right child of its parent |
| `BinaryHeaps.Swapped` | temp/astar.c:62-66 | Exchanging two slots swaps their values, leaves every other slot alone and keeps the multiset |
| `BinaryHeaps.RootBelow` | temp/astar.c:7-9 | In a min-heap the root costs no more than any slot, by induction up the parent chain |
| `BinaryHeaps.RootIsMinimal` | temp/astar.c:15-17 | The root of a non-empty min-heap is a cheapest element |
| `BinaryHeaps.SiftUpStep` | temp/astar.c:68-74 | Swapping a slot with a costlier parent moves the one possible order violation up to the parent |
| `BinaryHeaps.SiftDownStep` | temp/astar.c:76-89 | Swapping a slot with its cheaper child, when that child costs less, moves the violation down to that child |
| `BinaryHeaps.SiftDownDone` | temp/astar.c:84-87 | When no child costs less than the slot being sifted down, the whole sequence is a min-heap |
| `BinaryHeaps.AppendedBelowHeap` | temp/astar.c:95-96 | An element appended to a min-heap can only be out of order with its parent, which is the shape sift-up starts from |
| `BinaryHeaps.AppendedToPrefix` | temp/astar.c:95 | Writing the slot just past the live prefix extends the live elements by exactly that element |
| `BinaryHeaps.SwappedPrefix` | temp/astar.c:62-66 | Swapping two live slots of the buffer swaps them within the live prefix |
| `BinaryHeaps.RootReplacedByLast` | temp/astar.c:101-106 | Moving the last element of a heap into the root and dropping the old root leaves the sift-down shape at the root, and removes a cheapest element |
| `BinaryHeaps.RemovedMinimumPermuted` | temp/astar.c:105-106 | Reordering what is left after removing a cheapest element still leaves the same removal |
| `BinaryHeaps.BinaryHeap.Init` | temp/astar.c:41-47 | A new heap is empty, valid and has the requested capacity |
| `BinaryHeaps.BinaryHeap.Resize` | temp/astar.c:49-52 | The capacity doubles and every old slot of the buffer, so every live element, is kept in place |
| `BinaryHeaps.BinaryHeap.IsEmpty` | temp/astar.c:58 | True exactly when the heap holds no element |
| `BinaryHeaps.BinaryHeap.Cost` | temp/astar.c:60 | The priority of the element in a live slot |
| `BinaryHeaps.BinaryHeap.Swap` | temp/astar.c:62-66 | The buffer afterwards is the old buffer with the two slots exchanged |
| `BinaryHeaps.BinaryHeap.HeapifyUp` | temp/astar.c:68-74 | From the sift-up shape at `idx`, restores the min-heap order without changing the multiset |
| `BinaryHeaps.BinaryHeap.HeapifyDown` | temp/astar.c:76-89 | From the sift-down shape at `idx`, restores the min-heap order without changing the multiset |
| `BinaryHeaps.BinaryHeap.Insert` | temp/astar.c:91-97 | Afterwards the heap order holds, the size is one more, the multiset gains `el`, and the capacity doubled exactly when the buffer was full |
| `BinaryHeaps.BinaryHeap.Peek` | temp/astar.c:99 | Returns the root, which costs no more than any element held |
| `BinaryHeaps.BinaryHeap.MoveLastToRoot` | temp/astar.c:105 | The live elements become the old ones with the last moved into the root and the old root dropped |
| `BinaryHeaps.BinaryHeap.Pop` | temp/astar.c:101-108 | An empty heap yields `{-1, NULL_HEX}` and is unchanged; otherwise a cheapest element is returned, exactly it is removed from the multiset, and the heap order holds |
| `AStar.CDivide` | temp/astar.c:135 | C integer division of naturals: no result for a zero divisor, otherwise the floor quotient |
| `AStar.StepCostAsWritten` | temp/astar.c:134-138 | With the division before the zero check, speed 0 has no cost (the division traps), and every other speed costs `360 / speed` |
| `AStar.StepCost` | temp/astar.c:134-138 | Speed 0 costs 1000; otherwise the cost is the whole number of times the speed fits into 360 |
| `AStar.StepCostAntitone` | temp/astar.c:134-138 | A faster unit never pays more for a step than a slower one |
| `AStar.RecordedCost` | temp/astar.c:139 | The recorded cost of a hex, and 0 for a hex with no entry (the lookup default) |
| `AStar.Predecessor` | temp/astar.c:163 | The recorded predecessor of a hex, and the hex (0, 0) for a hex with no entry |
| `AStar.Relax` | temp/astar.c:139-146 | Both maps are written for the neighbour, together, exactly when it has no cost yet or the new cost is strictly lower; no cost ever rises and no key is lost; keys stay in sync |
| `AStar.RelaxKeepsConsistent` | temp/astar.c:139-146 | Relaxing an in-bounds neighbour of a reached hex keeps the maps consistent: same keys, links between neighbours, links back to recorded hexes or the start, costs that cover each step |
| `AStar.ConsiderKeepsConsistent` | temp/astar.c:139-146 | Considering one in-bounds neighbour of a reached hex keeps the maps consistent, and the hex stays reached |
| `AStar.ReconstructPath` | temp/astar.c:159-165 | A returned path starts at the goal, ends at the first occurrence of the start, and its k-th hex is the goal's k-th predecessor; without a path the start is not among the first links |
| `AStar.AncestorsRecorded` | temp/astar.c:162-165 | Following the links from a recorded hex meets only recorded hexes until the start |
| `AStar.ChainCostBounded` | temp/astar.c:139-145 | Along a chain of links ending at the start, the first hex's recorded cost covers the cost of the whole chain |
| `AStar.ReconstructedPathFollowsLinks` | temp/astar.c:159-165 | A reconstructed path follows recorded links between in-bounds neighbours, and its cost is at most the goal's recorded cost |
| `AStar.WalkStaysRecorded` | temp/astar.c:130-146 | Once the expanded hexes are closed under recording their in-bounds neighbours, every in-bounds walk from one of them stays on recorded hexes |
| `AStar.ExhaustedSearchMissesEnd` | temp/astar.c:125-157 | When the frontier runs dry without seeing the goal, no in-bounds walk from the start reaches it |
| `AStar.PopKeepsPending` | temp/astar.c:126 | After a pop, every other hex that was on the frontier still is |
| `AStar.GrowthKeepsPending` | temp/astar.c:144 | Adding to the frontier keeps every pending hex pending |
| `AStar.PoppedReadyToExpand` | temp/astar.c:125-128 | The popped hex is the start or recorded, the rest of the frontier stays recorded, and the goal is still unrecorded |
| `AStar.ExpandFoundIffEnd` | temp/astar.c:130-151 | Expanding a hex sees the goal exactly when the goal is one of its in-bounds neighbours still to be considered |
| `AStar.ExpandNeverRaises` | temp/astar.c:139-146 | Across the whole neighbour loop no recorded cost rises and no key is lost |
| `AStar.ExpandKeepsLinksToCurrent` | temp/astar.c:145 | The neighbour loop links hexes only to the hex being expanded, so such a link stays |
| `AStar.ExpandPushesImproved` | temp/astar.c:139-146 | Every element pushed during an expansion is an in-bounds neighbour whose cost was improved, that is now linked to the expanded hex, and whose priority covers its final recorded cost plus its distance to the goal |
| `AStar.ExpandKeepsConsistent` | temp/astar.c:130-151 | Expanding a reached hex keeps the two maps consistent |
| `AStar.ExpandFoundIffRecorded` | temp/astar.c:140-149 | Starting with the goal unrecorded, an expansion sees the goal exactly when it records it |
| `AStar.ExpandRecordsNeighbours` | temp/astar.c:130-146 | Unless the goal was seen, every in-bounds neighbour of the expanded hex ends up recorded |
| `AStar.ExpandNewKeysPushed` | temp/astar.c:140-145 | Every hex that an expansion records for the first time is pushed onto the frontier |
| `AStar.FrontierGrows` | temp/astar.c:144 | A frontier that gained some elements keeps all old ones, holds only old or pushed ones, and has every pushed hex pending |
| `AStar.ExpansionKeepsFrontier` | temp/astar.c:128-152 | Expanding a reached hex, with the frontier growing by exactly what was pushed: the maps stay consistent, no key is lost, the frontier stays recorded and keeps every old element, the goal is seen exactly when recorded, every in-bounds neighbour is recorded unless the goal was seen, and every newly recorded hex is pending |
| `AStar.SearchRoundKeepsInvariant` | temp/astar.c:125-152 | One round keeps the search invariant; the popped hex becomes expanded unless the goal was found |
| `AStar.ConsiderNeighbour` | temp/astar.c:132-146 | The maps become the result of relaxing the neighbour at the expanded hex's cost plus the step cost; when that improves it, the frontier gains exactly one element with priority `new_cost + hex_distance(next, end)`, and otherwise it is unchanged |
| `AStar.ExpandNeighbours` | temp/astar.c:128-152 | The maps, the flag and the frontier's new multiset are exactly those of the fold `Expand` of the neighbour step over the six neighbours in order, stopping at the first in-bounds neighbour equal to the goal |
| `AStar.SearchRound` | temp/astar.c:125-152 | The popped element was a cheapest frontier entry; the maps, the flag and the frontier (minus the popped element, plus the pushes) are exactly those of `Expand` from the popped hex; the search invariant is kept |
| `AStar.FindPath` | temp/astar.c:110-173 | The maps are consistent. A found path runs from the goal back to the start along `came_from` links between in-bounds neighbours, and costs at most the goal's recorded cost. `NotFound` means the goal was never recorded and no in-bounds walk from the start reaches it. When the goal was recorded, `OutOfFuel` means its first `fuel` links do not lead back to the start |

## Left out

- Memory management is not modelled: `malloc`, `realloc`, `hmfree`, `free`, and the leak of the heap and both maps when no path is found. `Resize` allocates a new array and copies the old slots into it.
- The stb_ds hash maps and dynamic array are Dafny `map`s and a `seq`. Their zero default for an absent key is made explicit in `RecordedCost` and `Predecessor`.
- The collaborators are parameters of `FindPath`: `get_neighbours`, `hex_inbounds`, `hex_distance`, `get_map_position_from_hex` and `unit_speed`. Their definitions are not part of this model. `hex_line`, `get_hexes_in_range` and `nearest_hex` are declared next to them but are not used by the path finder.
- The unit `u` and the map position `mp` do not appear; `speed` is already the composition of the two lookups.
- `unit_speed` is taken to return a natural number, so negative speeds are not modelled.
- C `int` overflow is not modelled. Costs, priorities, `size` and `capacity` are unbounded integers, so a doubling of `capacity` or a sum of costs past 2^31 - 1 is not captured.
- AStar.StepCost: computes the cost conditionally, so the division by zero at line 135 is not reproduced. The defect is recorded under Findings.
- BinaryHeaps.BinaryHeap.Init: requires a positive capacity. The only caller, `find_path`, passes 50 (temp/astar.c:112). With capacity 0, `resize` keeps capacity 0 and `insert` would write past the buffer.
- BinaryHeaps.BinaryHeap.Peek: requires a non-empty heap. `peek` on an empty heap reads an unused slot, and it is only called after the emptiness check in `pop`.
- AStar.FindPath: both loops take a `fuel` bound and give `OutOfFuel` when it runs out. This is because neither the search loop nor the walk back along `came_from` is evidently terminating. The walk back is bounded by the same `fuel`.
- AStar.FindPath: does not claim that a found path is a cheapest one. The search stops when the goal is first seen as a neighbour, not when it is popped, so the code does not guarantee a cheapest path.
- The frontier priorities `new_cost + hex_distance(next, end)` are computed and stored as written, but no property of `hex_distance` (such as admissibility) is assumed or used.
- The code does not record a cost for `start` at the outset. Until `start` is first seen as an in-bounds neighbour, a lookup of it reads the default 0. From then on it is recorded like any other hex: it gets a positive cost and a `came_from` link, and it is pushed onto the frontier again. A query with `start == end` succeeds only when the start is seen again in this way, and otherwise gives `NotFound`. The model follows the code on these points; `Relax` does not treat `start` specially.
- The reconstructed path is goal-first, as the code returns it. Reversing it is the caller's concern.

## Findings

| source | as written | input that shows it | evidently intended | confidence | as-written member | corrected member |
|---|---|---|---|---|---|---|
| temp/astar.c:134-138 | `360/speed` is evaluated before the `speed == 0` test, so a zero speed divides by zero (undefined behaviour in C) before the penalty is assigned | a search in which some in-bounds neighbour has `unit_speed` 0 | a step onto a zero-speed hex costs the 1000 penalty | high, not executed | `AStar.StepCostAsWritten` | `AStar.StepCost` |
