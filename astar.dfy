/** The A* driver: expands the cheapest frontier hex, records improved costs
    and predecessors, stops when the goal is seen as a neighbour, and walks
    the predecessors back from the goal to the start. */
module AStar {
  import opened Hexes
  import opened BinaryHeaps

  datatype Option<T> = None | Some(value: T)

  /** How a search ends. `OutOfFuel` is the model's own: it stands for a
      loop that had not finished after the given number of rounds. */
  datatype SearchOutcome = Found(path: seq<Hex>) | NotFound | OutOfFuel

  /** The frontier's initial capacity. */
  const INITIAL_CAPACITY: nat := 50
  /** The cost of one step at speed 1; faster units pay proportionally less. */
  const BASE_UNIT: nat := 360
  /** The cost of one step onto a hex where the unit's speed is 0. */
  const ZERO_SPEED_COST: nat := 1000

  // ---------------------------------------------------------------------
  // Step costs

  /** The cost of stepping onto a hex where the unit moves at `speed`:
      the whole number of times `speed` fits into BASE_UNIT, or the fixed
      penalty when the speed is 0. */
  function StepCost(speed: nat): (c: nat)
    ensures speed == 0 ==> c == ZERO_SPEED_COST
    ensures 0 < speed ==> c * speed <= BASE_UNIT < (c + 1) * speed
  {
    if speed == 0 then ZERO_SPEED_COST else BASE_UNIT / speed
  }

  /** Integer division as C performs it on non-negative operands: a zero
      divisor has no result (`None`), standing for the trap. */
  function CDivide(a: nat, b: nat): (q: Option<nat>)
    ensures q.None? <==> b == 0
    ensures q.Some? ==> q.value * b <= a < (q.value + 1) * b
  {
    if b == 0 then None else Some(a / b)
  }

  /** The step cost in the order the C code evaluates it: the quotient
      `BASE_UNIT / speed` is taken before the zero-speed check, so a speed
      of 0 never reaches the penalty and has no cost at all; every other
      speed costs what `StepCost` says. */
  function StepCostAsWritten(speed: nat): (c: Option<nat>)
    ensures c.None? <==> speed == 0
    ensures c.Some? ==> c.value == StepCost(speed)
  {
    match CDivide(BASE_UNIT, speed)
    case None => None
    case Some(q) => Some(if speed == 0 then ZERO_SPEED_COST else q)
  }

  /** A faster unit never pays more for a step, and speed 0 is the costliest. */
  lemma StepCostAntitone(slow: nat, fast: nat)
    requires slow <= fast
    ensures StepCost(fast) <= StepCost(slow)
  {
    var cs, cf := StepCost(slow), StepCost(fast);
    if slow == 0 {
      if 0 < fast {
        assert cf <= cf * fast <= BASE_UNIT;
      }
    } else {
      MulMonotone(cf, slow, fast);
      FactorCancels(cf, cs + 1, slow);
    }
  }

  /** Multiplying by a natural number preserves order. */
  lemma MulMonotone(c: nat, x: nat, y: nat)
    requires x <= y
    ensures c * x <= c * y
  {
  }

  /** A strict inequality between multiples of the same factor holds
      between the multiplied numbers. */
  lemma FactorCancels(a: nat, b: nat, k: nat)
    requires a * k < b * k
    ensures a < b
  {
    if b <= a {
      MulMonotone(k, b, a);
    }
  }

  // ---------------------------------------------------------------------
  // The two maps of the search. A lookup of an absent key yields the
  // map's zero default: cost 0 and the hex (0, 0).

  /** The recorded cost of `h`, or 0 when none is recorded. */
  function RecordedCost(costSoFar: map<Hex, int>, h: Hex): (c: int)
    ensures h in costSoFar ==> c == costSoFar[h]
    ensures h !in costSoFar ==> c == 0
  {
    if h in costSoFar then costSoFar[h] else 0
  }

  /** The recorded predecessor of `h`, or the hex (0, 0) when none is recorded. */
  function Predecessor(cameFrom: map<Hex, Hex>, h: Hex): (p: Hex)
    ensures h in cameFrom ==> p == cameFrom[h]
    ensures h !in cameFrom ==> p == Hex(0, 0)
  {
    if h in cameFrom then cameFrom[h] else Hex(0, 0)
  }

  /** The hex reached from `h` by following `k` predecessor links. */
  function Ancestor(cameFrom: map<Hex, Hex>, h: Hex, k: nat): Hex
  {
    if k == 0 then h else Predecessor(cameFrom, Ancestor(cameFrom, h, k - 1))
  }

  /** The maps after one neighbour has been considered. */
  datatype Relaxation = Relaxation(costSoFar: map<Hex, int>, cameFrom: map<Hex, Hex>, improved: bool)

  /** Considers reaching `next` from `from` at `newCost`: both maps are
      written for `next`, together, exactly when `next` had no recorded
      cost or `newCost` beats it. */
  function Relax(costSoFar: map<Hex, int>, cameFrom: map<Hex, Hex>, from: Hex, next: Hex, newCost: int): (r: Relaxation)
    ensures r.improved <==> next !in costSoFar || newCost < costSoFar[next]
    ensures r.improved ==> r.costSoFar == costSoFar[next := newCost] && r.cameFrom == cameFrom[next := from]
    ensures !r.improved ==> r.costSoFar == costSoFar && r.cameFrom == cameFrom
    ensures forall h :: h in costSoFar ==> h in r.costSoFar && r.costSoFar[h] <= costSoFar[h]
    ensures costSoFar.Keys == cameFrom.Keys ==> r.costSoFar.Keys == r.cameFrom.Keys
  {
    if next !in costSoFar || newCost < costSoFar[next] then
      Relaxation(costSoFar[next := newCost], cameFrom[next := from], true)
    else
      Relaxation(costSoFar, cameFrom, false)
  }

  // ---------------------------------------------------------------------
  // Paths

  /** The cost of following `p` from its last hex back to its first: each
      hex but the last is entered at its own step cost. */
  function PathCost(speed: Hex -> nat, p: seq<Hex>): nat
  {
    if |p| <= 1 then 0 else StepCost(speed(p[0])) + PathCost(speed, p[1..])
  }

  /** `w` is a walk in which every hex after the first is an in-bounds
      neighbour of the one before it. */
  ghost predicate InBoundsWalk(neighbours: Hex -> seq<Hex>, inBounds: Hex -> bool, w: seq<Hex>)
  {
    forall k :: 0 < k < |w| ==> inBounds(w[k]) && w[k] in neighbours(w[k - 1])
  }

  /** Walks the predecessor links from `end` until `start` is reached,
      collecting every hex on the way; gives up after `fuel` links. */
  method ReconstructPath(cameFrom: map<Hex, Hex>, start: Hex, end: Hex, fuel: nat) returns (path: Option<seq<Hex>>)
    ensures path.Some? ==>
      var p := path.value;
      0 < |p| <= fuel + 1 && p[0] == end && p[|p| - 1] == start &&
      (forall k :: 0 <= k < |p| ==> p[k] == Ancestor(cameFrom, end, k)) &&
      (forall k :: 0 <= k < |p| - 1 ==> p[k] != start)
    ensures path.None? ==> forall k :: 0 <= k <= fuel ==> Ancestor(cameFrom, end, k) != start
  {
    var curr := end;
    var p := [curr];
    var steps: nat := 0;
    while curr != start
      invariant steps <= fuel && |p| == steps + 1 && curr == p[steps]
      invariant forall k :: 0 <= k <= steps ==> p[k] == Ancestor(cameFrom, end, k)
      invariant forall k :: 0 <= k < steps ==> p[k] != start
      decreases fuel - steps
    {
      if steps == fuel {
        return None;
      }
      curr := Predecessor(cameFrom, curr);
      p := p + [curr];
      steps := steps + 1;
    }
    return Some(p);
  }

  // ---------------------------------------------------------------------
  // What the search keeps true of its two maps

  /** The two maps of a search from `start`: they have the same keys; each
      recorded hex is in bounds and a neighbour of its predecessor; each
      predecessor is `start` or itself recorded; costs are not negative; and
      a recorded cost covers the predecessor's cost (0 for `start`) plus the
      step onto the hex. */
  ghost predicate ConsistentMaps(neighbours: Hex -> seq<Hex>, inBounds: Hex -> bool, speed: Hex -> nat,
                                 start: Hex, costSoFar: map<Hex, int>, cameFrom: map<Hex, Hex>)
  {
    costSoFar.Keys == cameFrom.Keys &&
    (forall n :: n in cameFrom ==> inBounds(n) && n in neighbours(cameFrom[n])) &&
    (forall n :: n in cameFrom ==> cameFrom[n] == start || cameFrom[n] in cameFrom) &&
    (forall n :: n in costSoFar ==> 0 <= costSoFar[n]) &&
    (forall n :: n in cameFrom ==>
       (if cameFrom[n] == start then 0 else RecordedCost(costSoFar, cameFrom[n])) + StepCost(speed(n)) <= costSoFar[n])
  }

  /** Every in-bounds neighbour of an expanded hex has a recorded cost. */
  ghost predicate Closed(neighbours: Hex -> seq<Hex>, inBounds: Hex -> bool, expanded: set<Hex>, costSoFar: map<Hex, int>)
  {
    forall h, m :: h in expanded && m in neighbours(h) && inBounds(m) ==> m in costSoFar
  }

  /** Relaxing an in-bounds neighbour of a hex the search has reached, at
      that hex's cost plus the step cost, keeps the maps consistent. */
  lemma RelaxKeepsConsistent(neighbours: Hex -> seq<Hex>, inBounds: Hex -> bool, speed: Hex -> nat,
                             start: Hex, costSoFar: map<Hex, int>, cameFrom: map<Hex, Hex>,
                             from: Hex, next: Hex, newCost: int)
    requires ConsistentMaps(neighbours, inBounds, speed, start, costSoFar, cameFrom)
    requires from == start || from in cameFrom
    requires inBounds(next) && next in neighbours(from)
    requires newCost == RecordedCost(costSoFar, from) + StepCost(speed(next))
    ensures var r := Relax(costSoFar, cameFrom, from, next, newCost);
      ConsistentMaps(neighbours, inBounds, speed, start, r.costSoFar, r.cameFrom)
  {
    var r := Relax(costSoFar, cameFrom, from, next, newCost);
    if r.improved {
      forall n | n in r.cameFrom
        ensures (if r.cameFrom[n] == start then 0 else RecordedCost(r.costSoFar, r.cameFrom[n]))
                + StepCost(speed(n)) <= r.costSoFar[n]
      {
        if n != next && cameFrom[n] != start {
          assert cameFrom[n] in costSoFar;
        }
      }
    }
  }

  /** Following the links from a recorded `end`, every hex met before
      `start` is recorded. */
  lemma {:induction false} AncestorsRecorded(cameFrom: map<Hex, Hex>, start: Hex, end: Hex, k: nat)
    requires forall n :: n in cameFrom ==> cameFrom[n] == start || cameFrom[n] in cameFrom
    requires end == start || end in cameFrom
    requires forall j :: 0 <= j < k ==> Ancestor(cameFrom, end, j) != start
    ensures Ancestor(cameFrom, end, k) == start || Ancestor(cameFrom, end, k) in cameFrom
    decreases k
  {
    if 0 < k {
      AncestorsRecorded(cameFrom, start, end, k - 1);
    }
  }

  /** Along a chain of links that ends at `start`, the recorded cost of the
      first hex covers the cost of the whole chain. */
  lemma {:induction false} ChainCostBounded(neighbours: Hex -> seq<Hex>, inBounds: Hex -> bool, speed: Hex -> nat,
                                            start: Hex, costSoFar: map<Hex, int>, cameFrom: map<Hex, Hex>, p: seq<Hex>)
    requires ConsistentMaps(neighbours, inBounds, speed, start, costSoFar, cameFrom)
    requires 0 < |p| && p[|p| - 1] == start
    requires forall k :: 0 <= k < |p| - 1 ==> p[k] != start && p[k] in cameFrom && p[k + 1] == cameFrom[p[k]]
    ensures PathCost(speed, p) <= RecordedCost(costSoFar, p[0])
    decreases |p|
  {
    if 1 < |p| {
      ChainCostBounded(neighbours, inBounds, speed, start, costSoFar, cameFrom, p[1..]);
      assert p[1..][0] == p[1];
    }
  }

  /** A walk that starts in an expanded region closed under in-bounds
      neighbours, where every recorded hex is expanded, meets only recorded
      hexes after its first. */
  lemma {:induction false} WalkStaysRecorded(neighbours: Hex -> seq<Hex>, inBounds: Hex -> bool,
                                             expanded: set<Hex>, costSoFar: map<Hex, int>, w: seq<Hex>)
    requires Closed(neighbours, inBounds, expanded, costSoFar)
    requires forall n :: n in costSoFar ==> n in expanded
    requires InBoundsWalk(neighbours, inBounds, w) && 0 < |w| && w[0] in expanded
    ensures forall k :: 0 < k < |w| ==> w[k] in costSoFar
    decreases |w|
  {
    if 1 < |w| {
      var v := w[..|w| - 1];
      WalkStaysRecorded(neighbours, inBounds, expanded, costSoFar, v);
      assert w[|w| - 2] in expanded by {
        if 1 < |w| - 1 {
          assert v[|w| - 2] in costSoFar;
        }
      }
    }
  }

  // ---------------------------------------------------------------------
  // The search

  /** Some frontier entry stands for `n`. */
  ghost predicate Pending(elems: seq<Element>, n: Hex)
  {
    exists e :: e in elems && e.hex == n
  }

  /** Popping one element keeps every other hex pending. */
  lemma PopKeepsPending(before: seq<Element>, after: seq<Element>, head: Element)
    requires multiset(after) == multiset(before) - multiset{head}
    ensures forall e :: e in after ==> e in before
    ensures forall n :: Pending(before, n) && n != head.hex ==> Pending(after, n)
  {
    forall e | e in after
      ensures e in before
    {
      assert e in multiset(after);
    }
    forall n | Pending(before, n) && n != head.hex
      ensures Pending(after, n)
    {
      var e :| e in before && e.hex == n;
      assert multiset(after)[e] == multiset(before)[e] > 0;
      assert e in after;
    }
  }

  /** Adding elements keeps every hex pending. */
  lemma GrowthKeepsPending(before: seq<Element>, after: seq<Element>)
    requires forall e :: e in before ==> e in after
    ensures forall n :: Pending(before, n) ==> Pending(after, n)
  {
    forall n | Pending(before, n)
      ensures Pending(after, n)
    {
      var e :| e in before && e.hex == n;
      assert e in after;
    }
  }

  /** When the frontier is exhausted without seeing `end`, no in-bounds walk
      from `start` ever reaches `end`. */
  lemma ExhaustedSearchMissesEnd(neighbours: Hex -> seq<Hex>, inBounds: Hex -> bool,
                                 expanded: set<Hex>, costSoFar: map<Hex, int>, start: Hex, end: Hex)
    requires Closed(neighbours, inBounds, expanded, costSoFar)
    requires forall n :: n in costSoFar ==> n in expanded
    requires start in expanded && end !in costSoFar
    ensures forall w :: InBoundsWalk(neighbours, inBounds, w) && 0 < |w| && w[0] == start ==> end !in w[1..]
  {
    forall w | InBoundsWalk(neighbours, inBounds, w) && 0 < |w| && w[0] == start
      ensures end !in w[1..]
    {
      WalkStaysRecorded(neighbours, inBounds, expanded, costSoFar, w);
    }
  }

  /** The chain that `ReconstructPath` returns for a recorded `end` follows
      recorded links, steps between neighbours, and costs no more than the
      cost recorded for `end`. */
  lemma ReconstructedPathFollowsLinks(neighbours: Hex -> seq<Hex>, inBounds: Hex -> bool, speed: Hex -> nat,
                                      start: Hex, end: Hex, costSoFar: map<Hex, int>, cameFrom: map<Hex, Hex>,
                                      p: seq<Hex>)
    requires ConsistentMaps(neighbours, inBounds, speed, start, costSoFar, cameFrom)
    requires end in costSoFar
    requires 0 < |p| && p[|p| - 1] == start
    requires forall k :: 0 <= k < |p| ==> p[k] == Ancestor(cameFrom, end, k)
    requires forall k :: 0 <= k < |p| - 1 ==> p[k] != start
    ensures forall k :: 0 <= k < |p| - 1 ==>
      p[k] in cameFrom && p[k + 1] == cameFrom[p[k]] && inBounds(p[k]) && p[k] in neighbours(p[k + 1])
    ensures PathCost(speed, p) <= costSoFar[end]
  {
    forall k | 0 <= k < |p| - 1
      ensures p[k] in cameFrom && p[k + 1] == cameFrom[p[k]]
    {
      AncestorsRecorded(cameFrom, start, end, k);
    }
    ChainCostBounded(neighbours, inBounds, speed, start, costSoFar, cameFrom, p);
  }

  /** What the search loop keeps true between rounds, given the frontier's
      elements: the maps are consistent and every frontier hex recorded (or
      `start`); `found` says whether `end` is recorded; and until then the
      expanded hexes are closed under recording their in-bounds neighbours,
      and every recorded hex, and `start`, is expanded or still pending. */
  ghost predicate SearchInvariant(neighbours: Hex -> seq<Hex>, inBounds: Hex -> bool, speed: Hex -> nat,
                                  start: Hex, end: Hex, frontier: seq<Element>,
                                  costSoFar: map<Hex, int>, cameFrom: map<Hex, Hex>, found: bool, expanded: set<Hex>)
  {
    ConsistentMaps(neighbours, inBounds, speed, start, costSoFar, cameFrom) &&
    (forall e :: e in frontier ==> e.hex == start || e.hex in costSoFar) &&
    (found <==> end in costSoFar) &&
    (!found ==>
       Closed(neighbours, inBounds, expanded, costSoFar) &&
       (start in expanded || Pending(frontier, start)) &&
       (forall n :: n in costSoFar ==> n in expanded || Pending(frontier, n)))
  }

  /** After a pop from a frontier that satisfies the loop invariant, and
      before `end` is found, the popped hex may be expanded. */
  lemma PoppedReadyToExpand(neighbours: Hex -> seq<Hex>, inBounds: Hex -> bool, speed: Hex -> nat,
                            start: Hex, end: Hex, before: seq<Element>, popped: seq<Element>, current: Element,
                            costs: map<Hex, int>, preds: map<Hex, Hex>, expanded: set<Hex>)
    requires SearchInvariant(neighbours, inBounds, speed, start, end, before, costs, preds, false, expanded)
    requires current in before && multiset(popped) == multiset(before) - multiset{current}
    ensures ConsistentMaps(neighbours, inBounds, speed, start, costs, preds)
    ensures current.hex == start || current.hex in costs
    ensures forall e :: e in popped ==> e.hex == start || e.hex in costs
    ensures end !in costs
  {
    PopKeepsPending(before, popped, current);
  }

  /** One round of the search loop, popping `current` and then expanding
      it, keeps the loop's invariant. */
  lemma SearchRoundKeepsInvariant(neighbours: Hex -> seq<Hex>, inBounds: Hex -> bool, speed: Hex -> nat,
                                  start: Hex, end: Hex, before: seq<Element>, popped: seq<Element>, after: seq<Element>,
                                  current: Element, costs0: map<Hex, int>, preds0: map<Hex, Hex>,
                                  costs: map<Hex, int>, preds: map<Hex, Hex>, found: bool, expanded: set<Hex>)
    requires SearchInvariant(neighbours, inBounds, speed, start, end, before, costs0, preds0, false, expanded)
    requires multiset(popped) == multiset(before) - multiset{current}
    requires ConsistentMaps(neighbours, inBounds, speed, start, costs, preds)
    requires forall e :: e in after ==> e.hex == start || e.hex in costs
    requires forall e :: e in popped ==> e in after
    requires costs0.Keys <= costs.Keys
    requires found <==> end in costs
    requires !found ==> forall m :: m in neighbours(current.hex) && inBounds(m) ==> m in costs
    requires forall n :: n in costs ==> n in costs0 || Pending(after, n)
    ensures SearchInvariant(neighbours, inBounds, speed, start, end, after, costs, preds, found,
                            if found then expanded else expanded + {current.hex})
  {
    if !found {
      PopKeepsPending(before, popped, current);
      GrowthKeepsPending(popped, after);
      var expanded' := expanded + {current.hex};
      forall h, m | h in expanded' && m in neighbours(h) && inBounds(m)
        ensures m in costs
      {
        if h != current.hex {
          assert m in costs0;
        }
      }
      forall n | n in costs
        ensures n in expanded' || Pending(after, n)
      {
        if n in costs0 && n !in expanded' {
          assert Pending(popped, n);
        }
      }
    }
  }

  /** What each neighbour step of one search depends on: which hexes are on
      the map, the distance estimate, the unit's speed on each hex, and the
      goal. */
  datatype Query = Query(inBounds: Hex -> bool, distance: (Hex, Hex) -> int, speed: Hex -> nat, end: Hex)

  /** What expanding a hex does: the maps it leaves, the elements it pushes
      onto the frontier in order, and whether it saw `end`. */
  datatype Expansion = Expansion(costSoFar: map<Hex, int>, cameFrom: map<Hex, Hex>, pushed: seq<Element>, found: bool)

  /** Considering the in-bounds neighbour `n` of `current`: it is priced at
      the recorded cost of `current` plus the step cost onto it and relaxed;
      when that improves it, it is pushed with priority
      `new_cost + distance(n, end)`; it is `end` or not. */
  ghost function Consider(distance: (Hex, Hex) -> int, speed: Hex -> nat, end: Hex, current: Hex, n: Hex,
                          costs: map<Hex, int>, preds: map<Hex, Hex>): Expansion
  {
    var newCost := RecordedCost(costs, current) + StepCost(speed(n));
    var r := Relax(costs, preds, current, n, newCost);
    Expansion(r.costSoFar, r.cameFrom, if r.improved then [Element(newCost + distance(n, end), n)] else [], n == end)
  }

  /** Considering an in-bounds neighbour of a reached hex keeps the two maps
      consistent, and the hex stays reached. */
  lemma ConsiderKeepsConsistent(neighbours: Hex -> seq<Hex>, inBounds: Hex -> bool, distance: (Hex, Hex) -> int,
                                speed: Hex -> nat, start: Hex, end: Hex, current: Hex, n: Hex,
                                costs: map<Hex, int>, preds: map<Hex, Hex>)
    requires ConsistentMaps(neighbours, inBounds, speed, start, costs, preds)
    requires current == start || current in costs
    requires inBounds(n) && n in neighbours(current)
    ensures var s := Consider(distance, speed, end, current, n, costs, preds);
      ConsistentMaps(neighbours, inBounds, speed, start, s.costSoFar, s.cameFrom) &&
      (current == start || current in s.costSoFar)
  {
    var newCost := RecordedCost(costs, current) + StepCost(speed(n));
    var r := Relax(costs, preds, current, n, newCost);
    RelaxKeepsConsistent(neighbours, inBounds, speed, start, costs, preds, current, n, newCost);
    var s := Consider(distance, speed, end, current, n, costs, preds);
    assert s.costSoFar == r.costSoFar && s.cameFrom == r.cameFrom;
  }


  /** Considering the neighbours `next[i..]` of `current` in order, from the
      maps `costs` and `preds`; the first in-bounds neighbour equal to `end`
      stops the expansion. */
  ghost function Expand(q: Query, current: Hex, next: seq<Hex>, i: nat,
      costs: map<Hex, int>, preds: map<Hex, Hex>): Expansion
    decreases |next| - i
  {
    if |next| <= i then Expansion(costs, preds, [], false)
    else if !q.inBounds(next[i]) then Expand(q, current, next, i + 1, costs, preds)
    else
      var s := Consider(q.distance, q.speed, q.end, current, next[i], costs, preds);
      if next[i] == q.end then s
      else
        var rest := Expand(q, current, next, i + 1, s.costSoFar, s.cameFrom);
        Expansion(rest.costSoFar, rest.cameFrom, s.pushed + rest.pushed, rest.found)
  }

  /** An expansion sees `end` exactly when `end` is an in-bounds neighbour
      still to be considered. */
  lemma {:induction false} ExpandFoundIffEnd(q: Query, current: Hex, next: seq<Hex>, i: nat,
      costs: map<Hex, int>, preds: map<Hex, Hex>)
    ensures Expand(q, current, next, i, costs, preds).found <==>
      q.inBounds(q.end) && exists j :: i <= j < |next| && next[j] == q.end
    decreases |next| - i
  {
    if i < |next| {
      if !q.inBounds(next[i]) {
        ExpandFoundIffEnd(q, current, next, i + 1, costs, preds);
      } else {
        var s := Consider(q.distance, q.speed, q.end, current, next[i], costs, preds);
        if next[i] != q.end {
          ExpandFoundIffEnd(q, current, next, i + 1, s.costSoFar, s.cameFrom);
        }
      }
    }
  }

  /** An expansion never raises a recorded cost and never drops a key. */
  lemma {:induction false} ExpandNeverRaises(q: Query, current: Hex, next: seq<Hex>, i: nat,
      costs: map<Hex, int>, preds: map<Hex, Hex>)
    ensures var ex := Expand(q, current, next, i, costs, preds);
      forall h :: h in costs ==> h in ex.costSoFar && ex.costSoFar[h] <= costs[h]
    decreases |next| - i
  {
    if i < |next| {
      if !q.inBounds(next[i]) {
        ExpandNeverRaises(q, current, next, i + 1, costs, preds);
      } else {
        var s := Consider(q.distance, q.speed, q.end, current, next[i], costs, preds);
        if next[i] != q.end {
          ExpandNeverRaises(q, current, next, i + 1, s.costSoFar, s.cameFrom);
        }
      }
    }
  }

  /** An expansion only ever links hexes to `current`, so a link that
      already points at `current` stays. */
  lemma {:induction false} ExpandKeepsLinksToCurrent(q: Query, current: Hex, next: seq<Hex>, i: nat,
      costs: map<Hex, int>, preds: map<Hex, Hex>)
    ensures var ex := Expand(q, current, next, i, costs, preds);
      forall h :: h in preds && preds[h] == current ==> h in ex.cameFrom && ex.cameFrom[h] == current
    decreases |next| - i
  {
    if i < |next| {
      if !q.inBounds(next[i]) {
        ExpandKeepsLinksToCurrent(q, current, next, i + 1, costs, preds);
      } else {
        var s := Consider(q.distance, q.speed, q.end, current, next[i], costs, preds);
        if next[i] != q.end {
          ExpandKeepsLinksToCurrent(q, current, next, i + 1, s.costSoFar, s.cameFrom);
        }
      }
    }
  }

  /** Every element an expansion pushes stands for an in-bounds neighbour
      whose cost it improved and that ends up linked to `current`, with a
      priority that covers its final recorded cost plus its distance to
      `end`. */
  lemma {:induction false} ExpandPushesImproved(q: Query, current: Hex, next: seq<Hex>, i: nat,
      costs: map<Hex, int>, preds: map<Hex, Hex>)
    ensures var ex := Expand(q, current, next, i, costs, preds);
      forall e :: e in ex.pushed ==>
        q.inBounds(e.hex) && e.hex in next[i..] &&
        e.hex in ex.cameFrom && ex.cameFrom[e.hex] == current &&
        e.hex in ex.costSoFar && ex.costSoFar[e.hex] + q.distance(e.hex, q.end) <= e.cost &&
        (e.hex !in costs || ex.costSoFar[e.hex] < costs[e.hex])
    decreases |next| - i
  {
    if i < |next| {
      if !q.inBounds(next[i]) {
        ExpandPushesImproved(q, current, next, i + 1, costs, preds);
      } else {
        var s := Consider(q.distance, q.speed, q.end, current, next[i], costs, preds);
        if next[i] != q.end {
          ExpandPushesImproved(q, current, next, i + 1, s.costSoFar, s.cameFrom);
          ExpandNeverRaises(q, current, next, i + 1, s.costSoFar, s.cameFrom);
          ExpandKeepsLinksToCurrent(q, current, next, i + 1, s.costSoFar, s.cameFrom);
          assert next[i + 1..] == next[i..][1..];
        }
      }
    }
  }

  /** Expanding a hex the search has reached keeps the two maps consistent. */
  lemma {:induction false} ExpandKeepsConsistent(neighbours: Hex -> seq<Hex>, start: Hex, q: Query,
      current: Hex, next: seq<Hex>, i: nat, costs: map<Hex, int>, preds: map<Hex, Hex>)
    requires next == neighbours(current)
    requires ConsistentMaps(neighbours, q.inBounds, q.speed, start, costs, preds)
    requires current == start || current in costs
    ensures var ex := Expand(q, current, next, i, costs, preds);
      ConsistentMaps(neighbours, q.inBounds, q.speed, start, ex.costSoFar, ex.cameFrom)
    decreases |next| - i
  {
    if i < |next| {
      if !q.inBounds(next[i]) {
        ExpandKeepsConsistent(neighbours, start, q, current, next, i + 1, costs, preds);
      } else {
        var s := Consider(q.distance, q.speed, q.end, current, next[i], costs, preds);
        ConsiderKeepsConsistent(neighbours, q.inBounds, q.distance, q.speed, start, q.end, current, next[i], costs, preds);
        if next[i] != q.end {
          ExpandKeepsConsistent(neighbours, start, q, current, next, i + 1, s.costSoFar, s.cameFrom);
        }
      }
    }
  }

  /** Starting without `end` recorded, an expansion sees `end` exactly when it
      records it. */
  lemma {:induction false} ExpandFoundIffRecorded(q: Query, current: Hex, next: seq<Hex>, i: nat,
      costs: map<Hex, int>, preds: map<Hex, Hex>)
    requires q.end !in costs
    ensures var ex := Expand(q, current, next, i, costs, preds);
      ex.found <==> q.end in ex.costSoFar
    decreases |next| - i
  {
    if i < |next| {
      if !q.inBounds(next[i]) {
        ExpandFoundIffRecorded(q, current, next, i + 1, costs, preds);
      } else {
        var s := Consider(q.distance, q.speed, q.end, current, next[i], costs, preds);
        if next[i] != q.end {
          ExpandFoundIffRecorded(q, current, next, i + 1, s.costSoFar, s.cameFrom);
        }
      }
    }
  }

  /** An expansion that does not see `end` records every in-bounds neighbour
      it considers. */
  lemma {:induction false} ExpandRecordsNeighbours(q: Query, current: Hex, next: seq<Hex>, i: nat,
      costs: map<Hex, int>, preds: map<Hex, Hex>)
    ensures var ex := Expand(q, current, next, i, costs, preds);
      !ex.found ==> forall j :: i <= j < |next| && q.inBounds(next[j]) ==> next[j] in ex.costSoFar
    decreases |next| - i
  {
    if i < |next| {
      if !q.inBounds(next[i]) {
        ExpandRecordsNeighbours(q, current, next, i + 1, costs, preds);
      } else {
        var s := Consider(q.distance, q.speed, q.end, current, next[i], costs, preds);
        if next[i] != q.end {
          ExpandRecordsNeighbours(q, current, next, i + 1, s.costSoFar, s.cameFrom);
          ExpandNeverRaises(q, current, next, i + 1, s.costSoFar, s.cameFrom);
        }
      }
    }
  }

  /** Every hex an expansion newly records is pushed onto the frontier. */
  lemma {:induction false} ExpandNewKeysPushed(q: Query, current: Hex, next: seq<Hex>, i: nat,
      costs: map<Hex, int>, preds: map<Hex, Hex>)
    ensures var ex := Expand(q, current, next, i, costs, preds);
      forall n :: n in ex.costSoFar && n !in costs ==> Pending(ex.pushed, n)
    decreases |next| - i
  {
    if i < |next| {
      if !q.inBounds(next[i]) {
        ExpandNewKeysPushed(q, current, next, i + 1, costs, preds);
      } else {
        var s := Consider(q.distance, q.speed, q.end, current, next[i], costs, preds);
        forall n | n in s.costSoFar && n !in costs
          ensures Pending(s.pushed, n)
        {
          assert s.pushed[0] in s.pushed;
        }
        if next[i] != q.end {
          ExpandNewKeysPushed(q, current, next, i + 1, s.costSoFar, s.cameFrom);
          var rest := Expand(q, current, next, i + 1, s.costSoFar, s.cameFrom);
          GrowthKeepsPending(s.pushed, s.pushed + rest.pushed);
          GrowthKeepsPending(rest.pushed, s.pushed + rest.pushed);
        }
      }
    }
  }

  /** An out-of-bounds neighbour is skipped. */
  lemma ExpandSkips(q: Query, current: Hex, next: seq<Hex>, i: nat,
      costs: map<Hex, int>, preds: map<Hex, Hex>)
    requires i < |next| && !q.inBounds(next[i])
    ensures Expand(q, current, next, i, costs, preds) ==
      Expand(q, current, next, i + 1, costs, preds)
  {
  }

  /** An in-bounds neighbour other than `end` is considered, then the rest
      of the expansion goes on from the maps it leaves, after its push. */
  lemma ExpandStepsOn(q: Query, current: Hex, next: seq<Hex>, i: nat,
      costs: map<Hex, int>, preds: map<Hex, Hex>)
    requires i < |next| && q.inBounds(next[i]) && next[i] != q.end
    ensures var s := Consider(q.distance, q.speed, q.end, current, next[i], costs, preds);
      var ex := Expand(q, current, next, i, costs, preds);
      var rest := Expand(q, current, next, i + 1, s.costSoFar, s.cameFrom);
      ex == Expansion(rest.costSoFar, rest.cameFrom, s.pushed + rest.pushed, rest.found)
  {
  }

  /** An in-bounds neighbour equal to `end` is the last one considered. */
  lemma ExpandStopsAt(q: Query, current: Hex, next: seq<Hex>, i: nat,
      costs: map<Hex, int>, preds: map<Hex, Hex>)
    requires i < |next| && q.inBounds(next[i]) && next[i] == q.end
    ensures var s := Consider(q.distance, q.speed, q.end, current, next[i], costs, preds);
      Expand(q, current, next, i, costs, preds) ==
        Expansion(s.costSoFar, s.cameFrom, s.pushed, true)
  {
  }

  /** The frontier after an expansion is the frontier before it plus the
      pushed elements: nothing is lost, and what was pushed is pending. */
  lemma FrontierGrows(before: seq<Element>, pushed: seq<Element>, after: seq<Element>)
    requires multiset(after) == multiset(before) + multiset(pushed)
    ensures forall e :: e in before ==> e in after
    ensures forall e :: e in after ==> e in before || e in pushed
    ensures forall n :: Pending(pushed, n) ==> Pending(after, n)
  {
    forall e | e in before
      ensures e in after
    {
      assert e in multiset(after);
    }
    forall e | e in after
      ensures e in before || e in pushed
    {
      assert e in multiset(after);
    }
    forall n | Pending(pushed, n)
      ensures Pending(after, n)
    {
      var e :| e in pushed && e.hex == n;
      assert e in multiset(after);
    }
  }

  /** Expanding a reached hex `current` from consistent maps, with the
      frontier growing by what the expansion pushes: the maps stay
      consistent, recorded hexes only grow, every frontier hex stays
      recorded (or `start`), nothing on the frontier is lost, `end` is
      recorded exactly when it was seen, every in-bounds neighbour is
      recorded unless `end` was seen, and every newly recorded hex is
      pending. */
  lemma ExpansionKeepsFrontier(neighbours: Hex -> seq<Hex>, inBounds: Hex -> bool, distance: (Hex, Hex) -> int,
                               speed: Hex -> nat, start: Hex, end: Hex, current: Hex,
                               costs0: map<Hex, int>, preds0: map<Hex, Hex>, before: seq<Element>, after: seq<Element>)
    requires ConsistentMaps(neighbours, inBounds, speed, start, costs0, preds0)
    requires current == start || current in costs0
    requires forall e :: e in before ==> e.hex == start || e.hex in costs0
    requires end !in costs0
    requires multiset(after) ==
      multiset(before) + multiset(Expand(Query(inBounds, distance, speed, end), current, neighbours(current), 0, costs0, preds0).pushed)
    ensures var ex := Expand(Query(inBounds, distance, speed, end), current, neighbours(current), 0, costs0, preds0);
      ConsistentMaps(neighbours, inBounds, speed, start, ex.costSoFar, ex.cameFrom) &&
      costs0.Keys <= ex.costSoFar.Keys &&
      (forall e :: e in after ==> e.hex == start || e.hex in ex.costSoFar) &&
      (forall e :: e in before ==> e in after) &&
      (ex.found <==> end in ex.costSoFar) &&
      (!ex.found ==> forall m :: m in neighbours(current) && inBounds(m) ==> m in ex.costSoFar) &&
      (forall n :: n in ex.costSoFar ==> n in costs0 || Pending(after, n))
  {
    var q := Query(inBounds, distance, speed, end);
    var next := neighbours(current);
    var ex := Expand(q, current, next, 0, costs0, preds0);
    ExpandKeepsConsistent(neighbours, start, q, current, next, 0, costs0, preds0);
    ExpandNeverRaises(q, current, next, 0, costs0, preds0);
    ExpandPushesImproved(q, current, next, 0, costs0, preds0);
    ExpandFoundIffRecorded(q, current, next, 0, costs0, preds0);
    ExpandRecordsNeighbours(q, current, next, 0, costs0, preds0);
    ExpandNewKeysPushed(q, current, next, 0, costs0, preds0);
    FrontierGrows(before, ex.pushed, after);
    forall m | m in next && inBounds(m) && !ex.found
      ensures m in ex.costSoFar
    {
      var j :| 0 <= j < |next| && next[j] == m;
    }
  }

  /** Considers one in-bounds neighbour `n` of `current`: prices the step
      onto it, relaxes it from `current`, and when its cost improved puts it
      on the frontier with priority `new_cost + distance(n, end)`. */
  method ConsiderNeighbour(frontier: BinaryHeap, distance: (Hex, Hex) -> int, speed: Hex -> nat, end: Hex,
                           current: Hex, n: Hex, costs0: map<Hex, int>, preds0: map<Hex, Hex>)
    returns (costs: map<Hex, int>, preds: map<Hex, Hex>)
    requires frontier.Heap()
    modifies frontier.Repr
    ensures frontier.Heap() && fresh(frontier.Repr - old(frontier.Repr))
    ensures var s := Consider(distance, speed, end, current, n, costs0, preds0);
      costs == s.costSoFar && preds == s.cameFrom &&
      multiset(frontier.Elements()) == multiset(old(frontier.Elements())) + multiset(s.pushed) &&
      (s.pushed == [] ==> frontier.Elements() == old(frontier.Elements()))
  {
    var stepCost := StepCost(speed(n));
    var newCost := RecordedCost(costs0, current) + stepCost;
    var r := Relax(costs0, preds0, current, n, newCost);
    if r.improved {
      var priority := newCost + distance(n, end);
      frontier.Insert(Element(priority, n));
    }
    costs, preds := r.costSoFar, r.cameFrom;
  }

  /** Expands the popped hex `current`: for each of its six neighbours that
      is in bounds, prices the step onto it, relaxes it from `current`, puts
      it on the frontier when its cost improved, and stops as soon as the
      neighbour is `end`. */
  method ExpandNeighbours(frontier: BinaryHeap, neighbours: Hex -> seq<Hex>, inBounds: Hex -> bool,
                          distance: (Hex, Hex) -> int, speed: Hex -> nat, end: Hex,
                          current: Hex, costs0: map<Hex, int>, preds0: map<Hex, Hex>)
    returns (found: bool, costs: map<Hex, int>, preds: map<Hex, Hex>)
    requires |neighbours(current)| == 6
    requires frontier.Heap()
    modifies frontier.Repr
    ensures frontier.Heap() && fresh(frontier.Repr - old(frontier.Repr))
    ensures var ex := Expand(Query(inBounds, distance, speed, end), current, neighbours(current), 0, costs0, preds0);
      found == ex.found && costs == ex.costSoFar && preds == ex.cameFrom &&
      multiset(frontier.Elements()) == multiset(old(frontier.Elements())) + multiset(ex.pushed)
  {
    found := false;
    costs, preds := costs0, preds0;
    var next := neighbours(current);
    ghost var q := Query(inBounds, distance, speed, end);
    ghost var target := Expand(q, current, next, 0, costs0, preds0);
    var i := 0;
    while i < 6
      invariant i <= 6
      invariant frontier.Heap() && fresh(frontier.Repr - old(frontier.Repr))
      invariant var rest := Expand(q, current, next, i, costs, preds);
        target.costSoFar == rest.costSoFar && target.cameFrom == rest.cameFrom && target.found == rest.found &&
        multiset(frontier.Elements()) + multiset(rest.pushed) == multiset(old(frontier.Elements())) + multiset(target.pushed)
    {
      if inBounds(next[i]) {
        if next[i] != end {
          ExpandStepsOn(q, current, next, i, costs, preds);
        } else {
          ExpandStopsAt(q, current, next, i, costs, preds);
        }
        costs, preds := ConsiderNeighbour(frontier, distance, speed, end, current, next[i], costs, preds);
        if next[i] == end {
          found := true;
          break;
        }
      } else {
        ExpandSkips(q, current, next, i, costs, preds);
      }
      i := i + 1;
    }
  }


  /** One round of the search loop: pops a cheapest frontier entry
      `current` and expands its hex. */
  method SearchRound(frontier: BinaryHeap, neighbours: Hex -> seq<Hex>, inBounds: Hex -> bool,
                     distance: (Hex, Hex) -> int, speed: Hex -> nat, start: Hex, end: Hex,
                     costs0: map<Hex, int>, preds0: map<Hex, Hex>, ghost expanded0: set<Hex>)
    returns (current: Element, found: bool, costs: map<Hex, int>, preds: map<Hex, Hex>, ghost expanded: set<Hex>)
    requires forall h :: |neighbours(h)| == 6
    requires frontier.Heap() && frontier.size > 0
    requires SearchInvariant(neighbours, inBounds, speed, start, end, frontier.Elements(), costs0, preds0, false, expanded0)
    modifies frontier.Repr
    ensures frontier.Heap() && fresh(frontier.Repr - old(frontier.Repr))
    ensures current in old(frontier.Elements())
    ensures forall e :: e in old(frontier.Elements()) ==> current.cost <= e.cost
    ensures var ex := Expand(Query(inBounds, distance, speed, end), current.hex, neighbours(current.hex), 0, costs0, preds0);
      found == ex.found && costs == ex.costSoFar && preds == ex.cameFrom &&
      multiset(frontier.Elements()) == multiset(old(frontier.Elements())) - multiset{current} + multiset(ex.pushed)
    ensures SearchInvariant(neighbours, inBounds, speed, start, end, frontier.Elements(), costs, preds, found, expanded)
  {
    ghost var before := frontier.Elements();
    current := frontier.Pop();
    ghost var popped := frontier.Elements();
    PoppedReadyToExpand(neighbours, inBounds, speed, start, end, before, popped, current, costs0, preds0, expanded0);
    found, costs, preds := ExpandNeighbours(frontier, neighbours, inBounds, distance, speed,
                                            end, current.hex, costs0, preds0);
    ExpansionKeepsFrontier(neighbours, inBounds, distance, speed, start, end, current.hex, costs0, preds0,
                           popped, frontier.Elements());
    SearchRoundKeepsInvariant(neighbours, inBounds, speed, start, end, before, popped, frontier.Elements(),
                              current, costs0, preds0, costs, preds, found, expanded0);
    expanded := if found then expanded0 else expanded0 + {current.hex};
  }

  /** Searches from `start` for `end`. `neighbours`, `inBounds`, `distance`
      and `speed` are the map's geometry and the unit's speed on each hex;
      each of the two loops runs at most `fuel` rounds. */
  method FindPath(neighbours: Hex -> seq<Hex>, inBounds: Hex -> bool, distance: (Hex, Hex) -> int,
                  speed: Hex -> nat, start: Hex, end: Hex, fuel: nat)
    returns (outcome: SearchOutcome, ghost costSoFar: map<Hex, int>, ghost cameFrom: map<Hex, Hex>)
    requires forall h :: |neighbours(h)| == 6
    ensures ConsistentMaps(neighbours, inBounds, speed, start, costSoFar, cameFrom)
    ensures outcome.Found? ==>
      var p := outcome.path;
      end in costSoFar &&
      0 < |p| <= fuel + 1 && p[0] == end && p[|p| - 1] == start &&
      (forall k :: 0 <= k < |p| - 1 ==>
         p[k] != start && p[k] in cameFrom && p[k + 1] == cameFrom[p[k]] &&
         inBounds(p[k]) && p[k] in neighbours(p[k + 1])) &&
      PathCost(speed, p) <= costSoFar[end]
    ensures outcome.NotFound? ==>
      end !in costSoFar &&
      forall w :: InBoundsWalk(neighbours, inBounds, w) && 0 < |w| && w[0] == start ==> end !in w[1..]
    ensures outcome.OutOfFuel? && end in costSoFar ==>
      forall k :: 0 <= k <= fuel ==> Ancestor(cameFrom, end, k) != start
  {
    var found := false;
    var frontier := new BinaryHeap.Init(INITIAL_CAPACITY);
    frontier.Insert(Element(0, start));
    var costs: map<Hex, int> := map[];
    var preds: map<Hex, Hex> := map[];
    ghost var expanded: set<Hex> := {};
    assert multiset(frontier.Elements()) == multiset{Element(0, start)};
    assert Pending(frontier.Elements(), start) by {
      assert Element(0, start) in multiset(frontier.Elements());
    }
    forall e | e in frontier.Elements()
      ensures e == Element(0, start)
    {
      assert e in multiset(frontier.Elements());
    }
    var rounds: nat := 0;
    while !found && !frontier.IsEmpty()
      invariant rounds <= fuel
      invariant frontier.Heap() && fresh(frontier.Repr)
      invariant SearchInvariant(neighbours, inBounds, speed, start, end, frontier.Elements(), costs, preds, found, expanded)
      decreases fuel - rounds
    {
      if rounds == fuel {
        return OutOfFuel, costs, preds;
      }
      rounds := rounds + 1;
      var current;
      current, found, costs, preds, expanded := SearchRound(frontier, neighbours, inBounds, distance, speed,
                                                            start, end, costs, preds, expanded);
    }
    costSoFar, cameFrom := costs, preds;
    if !found {
      assert forall n :: !Pending(frontier.Elements(), n);
      ExhaustedSearchMissesEnd(neighbours, inBounds, expanded, costs, start, end);
      return NotFound, costSoFar, cameFrom;
    }
    var path := ReconstructPath(preds, start, end, fuel);
    if path.None? {
      return OutOfFuel, costSoFar, cameFrom;
    }
    var p := path.value;
    ReconstructedPathFollowsLinks(neighbours, inBounds, speed, start, end, costs, preds, p);
    return Found(p), costSoFar, cameFrom;
  }
}
