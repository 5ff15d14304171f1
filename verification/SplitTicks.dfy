/** Cutting a tick in two: the dog ends in the same place with the same loot and score. */
module SplitTicks {
  import opened DataTypes
  import opened MapModel
  import opened CollisionDetector
  import opened Dogs
  import opened SessionModel
  import opened GreedyBag

  // ---------------------------------------------------------------- the way of the dog

  /** A dog really moves in each of the two ticks t and u, and the cut is harmless. */
  predicate MovesTwice(roads: seq<Road>, m: Motion, t: nat, u: nat) {
    && OnRoad(roads, m) && AxisParallel(m.speed) && CutHarmless(roads, m, t, u)
    && var m1 := Advance(roads, m, t);
    && ValidRoad(roads, m1)
    && Displaced(m.position, m1.position)
    && Displaced(m1.position, Advance(roads, m1, u).position)
  }

  predicate InOrder(x: real, y: real, z: real) {
    x <= y <= z || x >= y >= z
  }

  /** One axis of the way, whether or not it is cut short in the end. */
  lemma SameWay(x: real, v: real, t: nat, u: nat, lo: real, hi: real)
    ensures InOrder(x, x + Travel(v, t), x + Travel(v, t + u))
    ensures lo <= x + Travel(v, t) <= hi ==> InOrder(x, x + Travel(v, t), Clamp(x + Travel(v, t + u), lo, hi))
    ensures v == 0.0 ==> Travel(v, t) == 0.0 && Travel(v, t + u) == 0.0
  {
    TravelAdds(v, t, u);
    TravelAdds(v, u, t);
    assert Travel(0.0, t) == 0.0 && Travel(0.0, t + u) == 0.0;
  }

  /** Where the whole way passes the target of its first part, it does so in order. */
  lemma PassesTarget(roads: seq<Road>, m: Motion, t: nat, u: nat)
    requires OnRoad(roads, m) && AxisParallel(m.speed) && CutHarmless(roads, m, t, u)
    requires RoadFor(roads, m.road, EvaluateNewPosition(m, t)).Some?
    ensures var a, p, b := m.position, EvaluateNewPosition(m, t), Advance(roads, m, t + u).position;
            InOrder(a.x, p.x, b.x) && InOrder(a.y, p.y, b.y) && (a.y == p.y == b.y || a.x == p.x == b.x)
  {
    var rect := BoundRect(roads[m.road]);
    SameWay(m.position.x, m.speed.vx, t, u, rect.minPoint.x, rect.maxPoint.x);
    SameWay(m.position.y, m.speed.vy, t, u, rect.minPoint.y, rect.maxPoint.y);
    hide Travel, InOrder, Adjacency;
  }

  /** The first of the two updates is not stopped, and the second goes on the same way. */
  lemma GoesOn(roads: seq<Road>, m: Motion, t: nat, u: nat)
    requires MovesTwice(roads, m, t, u)
    ensures var a, m1, b := m.position, Advance(roads, m, t), Advance(roads, Advance(roads, m, t), u).position;
            var p := m1.position;
            && Advance(roads, m1, u) == Advance(roads, m, t + u)
            && ((a.y == p.y == b.y && (a.x < p.x < b.x || a.x > p.x > b.x)) ||
                (a.x == p.x == b.x && (a.y < p.y < b.y || a.y > p.y > b.y)))
  {
    var m1 := Advance(roads, m, t);
    TwoTicksIff(roads, m, t, u);
    AdvanceEndsOnRoad(roads, m, t);
    Standing(roads, m1, u);
    assert RoadFor(roads, m.road, EvaluateNewPosition(m, t)).Some? && m1.position == EvaluateNewPosition(m, t);
    hide Advance, EvaluateNewPosition, RoadFor, CutHarmless, OnRoad;
    PassesTarget(roads, m, t, u);
  }

  lemma Standing(roads: seq<Road>, m: Motion, u: nat)
    requires OnRoad(roads, m)
    ensures m.speed == DogSpeed(0.0, 0.0) ==> Advance(roads, m, u) == m
  {
    assert m.speed == DogSpeed(0.0, 0.0) ==> Travel(m.speed.vx, u) == 0.0 && Travel(m.speed.vy, u) == 0.0;
  }

  /** The joint of the two ticks as a fraction of the whole way. */
  lemma Joint(a: Point, p: Point, b: Point) returns (s: real)
    requires (a.y == p.y == b.y && (a.x < p.x < b.x || a.x > p.x > b.x)) ||
             (a.x == p.x == b.x && (a.y < p.y < b.y || a.y > p.y > b.y))
    ensures a != b && 0.0 < s < 1.0 && p == Along(a, b, s)
  {
    if a.y == b.y {
      s := Fraction(p.x - a.x, b.x - a.x);
    } else {
      s := Fraction(p.y - a.y, b.y - a.y);
    }
  }

  lemma Fraction(part: real, whole: real) returns (s: real)
    requires 0.0 < part < whole || 0.0 > part > whole
    ensures 0.0 < s < 1.0 && s * whole == part
  {
    s := part / whole;
    assert s * whole == part;
    assert s <= 0.0 ==> (whole > 0.0 ==> s * whole <= 0.0) && (whole < 0.0 ==> s * whole >= 0.0);
    assert s >= 1.0 ==> (whole > 0.0 ==> s * whole >= whole) && (whole < 0.0 ==> s * whole <= whole);
  }

  // ---------------------------------------------------------------- what each part collects

  /** g1 and g2 are the two parts of g, cut at the fraction s. */
  predicate CutInTwo(g: Gatherer, g1: Gatherer, g2: Gatherer, s: real) {
    && 0.0 < s < 1.0 && g.startPos != g.endPos
    && g1 == g.(endPos := Along(g.startPos, g.endPos, s))
    && g2 == g.(startPos := Along(g.startPos, g.endPos, s))
    && Moved(g, SWEEP_EPSILON) && Moved(g1, SWEEP_EPSILON) && Moved(g2, SWEEP_EPSILON)
  }

  function Scaled(s: real, t: real): real {
    s * t
  }

  lemma ScaledKeepsOrder(s: real, x: real, y: real)
    requires s > 0.0
    ensures x <= y ==> Scaled(s, x) <= Scaled(s, y)
    ensures x < y ==> Scaled(s, x) < Scaled(s, y)
    ensures Scaled(s, 0.0) == 0.0 && Scaled(s, 1.0) == s
  {
    assert s * (y - x) == s * y - s * x;
    if x < y {
      var q := ProductPositive(s, y - x);
    }
  }

  /** An item is collected on the whole way if it is on a part, at the corresponding time. */
  lemma PartsCollect(g: Gatherer, g1: Gatherer, g2: Gatherer, s: real, item: Item)
    requires CutInTwo(g, g1, g2, s)
    ensures Collects(g, item) <==> Collects(g1, item) || Collects(g2, item)
    ensures Collects(g1, item) ==> TimeOf(g, item) == Scaled(s, TimeOf(g1, item)) && TimeOf(g1, item) <= 1.0
    ensures Collects(g2, item) ==>
              TimeOf(g, item) == s + Scaled(1.0 - s, TimeOf(g2, item)) && TimeOf(g2, item) >= 0.0
  {
    hide TryCollectPoint, Along, Moved;
    var a, b, c, radius := g.startPos, g.endPos, item.position, g.width + item.width;
    SplitSweepCollectsSame(a, b, c, s, radius);
    FirstHalf(a, b, c, s);
    SecondHalf(a, b, c, s);
    Rescale(TryCollectPoint(a, b, c).projRatio, s);
  }

  /** The item is touched at the very end of the sweep. */
  predicate AtEnd(g: Gatherer, item: Item) {
    Collects(g, item) && TimeOf(g, item) == 1.0
  }

  /** What is touched at the end of the first part is touched again at the start of the second. */
  lemma JointIsShared(g: Gatherer, g1: Gatherer, g2: Gatherer, s: real, item: Item)
    requires CutInTwo(g, g1, g2, s)
    ensures AtEnd(g1, item) <==> Collects(g2, item) && TimeOf(g2, item) == 0.0
  {
    hide TryCollectPoint, Along, Moved;
    var a, b, c := g.startPos, g.endPos, item.position;
    FirstHalf(a, b, c, s);
    SecondHalf(a, b, c, s);
    RescaleEnds(TryCollectPoint(a, b, c).projRatio, s);
  }

  lemma RescaleEnds(p: real, s: real)
    requires 0.0 < s < 1.0
    ensures p / s == 1.0 <==> p == s
    ensures (p - s) / (1.0 - s) == 0.0 <==> p == s
  {
    DivideBounds(p, s);
    DivideBounds(p - s, 1.0 - s);
    var q, r := p / s, (p - s) / (1.0 - s);
    assert s * q == p && (1.0 - s) * r == p - s;
    assert q == 1.0 ==> s * q == s;
    assert r == 0.0 ==> (1.0 - s) * r == 0.0;
  }

  /** The order within the first part is the order on the whole way. */
  lemma FirstInOrder(g: Gatherer, g1: Gatherer, g2: Gatherer, s: real, x: Item, y: Item)
    requires CutInTwo(g, g1, g2, s)
    requires Collects(g1, x) && Collects(g1, y) && TimeOf(g1, x) <= TimeOf(g1, y)
    ensures Collects(g, x) && Collects(g, y) && TimeOf(g, x) <= TimeOf(g, y)
  {
    PartsCollect(g, g1, g2, s, x);
    PartsCollect(g, g1, g2, s, y);
    assert 0.0 < s < 1.0;
    hide *;
    ScaledKeepsOrder(s, TimeOf(g1, x), TimeOf(g1, y));
  }

  lemma SecondInOrder(g: Gatherer, g1: Gatherer, g2: Gatherer, s: real, x: Item, y: Item)
    requires CutInTwo(g, g1, g2, s)
    requires Collects(g2, x) && Collects(g2, y) && TimeOf(g2, x) <= TimeOf(g2, y)
    ensures Collects(g, x) && Collects(g, y) && TimeOf(g, x) <= TimeOf(g, y)
  {
    PartsCollect(g, g1, g2, s, x);
    PartsCollect(g, g1, g2, s, y);
    assert 0.0 < s < 1.0;
    hide *;
    ScaledKeepsOrder(1.0 - s, TimeOf(g2, x), TimeOf(g2, y));
  }

  lemma FirstBeforeSecond(g: Gatherer, g1: Gatherer, g2: Gatherer, s: real, x: Item, y: Item)
    requires CutInTwo(g, g1, g2, s)
    requires Collects(g1, x) && Collects(g2, y) && TimeOf(g2, y) > 0.0
    ensures Collects(g, x) && Collects(g, y) && TimeOf(g, x) < TimeOf(g, y)
  {
    PartsCollect(g, g1, g2, s, x);
    PartsCollect(g, g1, g2, s, y);
    assert 0.0 < s < 1.0;
    hide *;
    ScaledKeepsOrder(s, TimeOf(g1, x), 1.0);
    ScaledKeepsOrder(1.0 - s, 0.0, TimeOf(g2, y));
  }

  // ---------------------------------------------------------------- what is left on the floor

  lemma RemovedMembers(loots: seq<LootInfo>, k: nat, l: LootInfo)
    requires k < |loots|
    ensures l in RemoveAt(loots, k) ==> l in loots
    ensures l in loots && l != loots[k] ==> l in RemoveAt(loots, k)
  {
    assert loots == loots[..k] + [loots[k]] + loots[k + 1..];
  }

  predicate Touched(items: seq<Item>, id: int) {
    exists i :: 0 <= i < |items| && items[i].kind == ItemType.Loot && items[i].id == id
  }

  /** Only loot that was touched leaves the floor. */
  lemma {:induction false} LeftOnFloor(m: Map, d: DogView, loots: seq<LootInfo>, items: seq<Item>, l: LootInfo)
    requires Kinds(m, d, loots)
    ensures l in Collect(m, d, loots, items).1 ==> l in loots
    ensures l in loots && !Touched(items, l.id) ==> l in Collect(m, d, loots, items).1
    decreases |items|
  {
    if items != [] {
      var (d', loots') := CollectOne(m, d, loots, items[0]);
      var k := FindLoot(loots, items[0].id);
      if k < |loots| {
        RemovedMembers(loots, k, l);
      }
      LeftOnFloor(m, d', loots', items[1..], l);
      if Touched(items[1..], l.id) {
        var i :| 0 <= i < |items[1..]| && items[1..][i].kind == ItemType.Loot && items[1..][i].id == l.id;
        assert items[i + 1].id == l.id && items[i + 1].kind == ItemType.Loot;
      }
    }
  }

  /** rest is what is left of the floor after the items have been touched. */
  ghost predicate Leaves(loots: seq<LootInfo>, items: seq<Item>, rest: seq<LootInfo>) {
    && UniqueIds(loots) && UniqueIds(rest)
    && (forall l :: l in rest ==> l in loots)
    && (forall l :: l in loots && !Touched(items, l.id) ==> l in rest)
  }

  lemma CollectLeaves(m: Map, d: DogView, loots: seq<LootInfo>, items: seq<Item>)
    requires Kinds(m, d, loots) && UniqueIds(loots)
    ensures Leaves(loots, items, Collect(m, d, loots, items).1)
  {
    CollectKeepsUnique(m, d, loots, items);
    forall l ensures (l in Collect(m, d, loots, items).1 ==> l in loots)
                  && (l in loots && !Touched(items, l.id) ==> l in Collect(m, d, loots, items).1) {
      LeftOnFloor(m, d, loots, items, l);
    }
  }

  // ---------------------------------------------------------------- one order out of two

  /** Where the j-th item of the remaining floor was in the list for the whole floor. */
  function Origin(loots: seq<LootInfo>, rest: seq<LootInfo>, j: nat): nat {
    if j < |rest| then FindLoot(loots, rest[j].id) else j - |rest| + |loots|
  }

  lemma OriginIsSame(m: Map, loots: seq<LootInfo>, items: seq<Item>, rest: seq<LootInfo>, j: nat)
    requires Leaves(loots, items, rest) && j < |ItemsOf(m, rest)|
    ensures var o := Origin(loots, rest, j); o < |ItemsOf(m, loots)| && ItemsOf(m, loots)[o] == ItemsOf(m, rest)[j]
    ensures forall i: nat :: i < |ItemsOf(m, rest)| && i != j ==> Origin(loots, rest, i) != Origin(loots, rest, j)
  {
    forall i: nat | i < |rest|
      ensures FindLoot(loots, rest[i].id) < |loots| && loots[FindLoot(loots, rest[i].id)] == rest[i]
    {
      FoundOnFloor(loots, rest[i]);
    }
  }

  lemma FoundOnFloor(loots: seq<LootInfo>, l: LootInfo)
    requires UniqueIds(loots) && l in loots
    ensures FindLoot(loots, l.id) < |loots| && loots[FindLoot(loots, l.id)] == l
  {
    var k :| 0 <= k < |loots| && loots[k] == l;
    assert loots[FindLoot(loots, l.id)].id == l.id;
  }

  function Origins(loots: seq<LootInfo>, rest: seq<LootInfo>, order: seq<int>): seq<int>
    requires forall k :: 0 <= k < |order| ==> 0 <= order[k]
  {
    seq(|order|, k requires 0 <= k < |order| => Origin(loots, rest, order[k]))
  }

  /** Whatever the second part collects of the whole list is still among the rest. */
  lemma StillThere(m: Map, loots: seq<LootInfo>, rest: seq<LootInfo>, g1: Gatherer,
                   o1: seq<int>, j: nat) returns (i: nat)
    requires IsGatherOrder(ItemsOf(m, loots), g1, o1) && Leaves(loots, Pick(ItemsOf(m, loots), o1), rest)
    requires j < |ItemsOf(m, loots)| && !Collects(g1, ItemsOf(m, loots)[j])
    ensures i < |ItemsOf(m, rest)| && ItemsOf(m, rest)[i] == ItemsOf(m, loots)[j] && Origin(loots, rest, i) == j
  {
    var items := ItemsOf(m, loots);
    if j < |loots| {
      hide Collects;
      forall k | 0 <= k < |o1| && Pick(items, o1)[k].kind == ItemType.Loot
        ensures Pick(items, o1)[k].id != loots[j].id
      {
        assert Collects(g1, items[o1[k]]);
        assert o1[k] != j && o1[k] < |loots|;
      }
      assert !Touched(Pick(items, o1), loots[j].id);
      assert loots[j] in rest;
      i :| 0 <= i < |rest| && rest[i] == loots[j];
      FoundOnFloor(loots, rest[i]);
    } else {
      i := j - |loots| + |rest|;
    }
  }

  /** A gather order without what is touched at the very start of the sweep. */
  ghost predicate IsLateOrder(items: seq<Item>, g: Gatherer, order: seq<int>) {
    && OnlyCollected(items, g, order) && InTimeOrder(items, g, order)
    && (forall k :: 0 <= k < |order| ==> TimeOf(g, items[order[k]]) > 0.0)
    && (forall j :: 0 <= j < |items| && Collects(g, items[j]) && TimeOf(g, items[j]) > 0.0 ==> j in order)
  }

  /** The last index of an order whose time is at most t, plus one. */
  lemma LaterThan(items: seq<Item>, g: Gatherer, order: seq<int>, t: real) returns (n: nat)
    requires OnlyCollected(items, g, order) && InTimeOrder(items, g, order)
    ensures n <= |order|
    ensures forall k :: 0 <= k < n ==> TimeOf(g, items[order[k]]) <= t
    ensures forall k :: n <= k < |order| ==> TimeOf(g, items[order[k]]) > t
  {
    hide Collects, TimeOf;
    n := |order|;
    while n > 0 && TimeOf(g, items[order[n - 1]]) > t
      invariant 0 <= n <= |order|
      invariant forall k :: n <= k < |order| ==> TimeOf(g, items[order[k]]) > t
    {
      n := n - 1;
    }
  }

  lemma DropStart(items: seq<Item>, g: Gatherer, order: seq<int>) returns (n: nat)
    requires IsGatherOrder(items, g, order)
    ensures n <= |order| && IsLateOrder(items, g, order[n..])
    ensures forall k :: 0 <= k < n ==> Collects(g, items[order[k]]) && TimeOf(g, items[order[k]]) == 0.0
  {
    n := LaterThan(items, g, order, 0.0);
    forall k | 0 <= k < |order| ensures TimeOf(g, items[order[k]]) >= 0.0 {
      hide TryCollectPoint, Moved;
      assert Collects(g, items[order[k]]);
    }
    hide Collects, TimeOf;
    forall j | 0 <= j < |items| && Collects(g, items[j]) && TimeOf(g, items[j]) > 0.0 ensures j in order[n..] {
      var k :| 0 <= k < |order| && order[k] == j;
      assert k >= n && order[n..][k - n] == j;
    }
  }

  /** Two sweeps one after the other: o1 collected over the whole floor, o2 over the rest,
      not counting what is touched again at the joint. */
  ghost predicate TwoSweeps(m: Map, loots: seq<LootInfo>, rest: seq<LootInfo>, s: real,
                            g: Gatherer, g1: Gatherer, g2: Gatherer, o1: seq<int>, o2: seq<int>)
  {
    && CutInTwo(g, g1, g2, s)
    && IsGatherOrder(ItemsOf(m, loots), g1, o1)
    && Leaves(loots, Pick(ItemsOf(m, loots), o1), rest)
    && IsLateOrder(ItemsOf(m, rest), g2, o2)
  }

  lemma JoinedIsCollected(m: Map, loots: seq<LootInfo>, rest: seq<LootInfo>, s: real,
                          g: Gatherer, g1: Gatherer, g2: Gatherer, o1: seq<int>, o2: seq<int>)
    requires TwoSweeps(m, loots, rest, s, g, g1, g2, o1, o2)
    ensures var items, o := ItemsOf(m, loots), o1 + Origins(loots, rest, o2);
            forall k :: 0 <= k < |o| ==>
              && 0 <= o[k] < |items| && Collects(g, items[o[k]])
              && items[o[k]] == if k < |o1| then items[o1[k]] else ItemsOf(m, rest)[o2[k - |o1|]]
  {
    var items, left := ItemsOf(m, loots), ItemsOf(m, rest);
    var o := o1 + Origins(loots, rest, o2);
    hide Collects, TimeOf, CutInTwo, ItemsOf, Leaves, Scaled, Origin;
    forall k | 0 <= k < |o|
      ensures 0 <= o[k] < |items| && Collects(g, items[o[k]])
      ensures items[o[k]] == if k < |o1| then items[o1[k]] else left[o2[k - |o1|]]
    {
      if k < |o1| {
        PartsCollect(g, g1, g2, s, items[o1[k]]);
      } else {
        OriginIsSame(m, loots, Pick(items, o1), rest, o2[k - |o1|]);
        PartsCollect(g, g1, g2, s, left[o2[k - |o1|]]);
      }
    }
  }

  lemma JoinedMissesNothing(m: Map, loots: seq<LootInfo>, rest: seq<LootInfo>, s: real,
                            g: Gatherer, g1: Gatherer, g2: Gatherer, o1: seq<int>, o2: seq<int>,
                            j: nat)
    requires TwoSweeps(m, loots, rest, s, g, g1, g2, o1, o2)
    requires j < |ItemsOf(m, loots)| && Collects(g, ItemsOf(m, loots)[j])
    ensures j in o1 + Origins(loots, rest, o2)
  {
    var items, o := ItemsOf(m, loots), o1 + Origins(loots, rest, o2);
    hide Collects, TimeOf, CutInTwo, ItemsOf, Leaves, Scaled, Origin;
    PartsCollect(g, g1, g2, s, items[j]);
    if Collects(g1, items[j]) {
      var k :| 0 <= k < |o1| && o1[k] == j;
      assert o[k] == j;
    } else {
      JointIsShared(g, g1, g2, s, items[j]);
      var i := StillThere(m, loots, rest, g1, o1, j);
      var k :| 0 <= k < |o2| && o2[k] == i;
      assert o[|o1| + k] == j;
    }
  }

  lemma JoinedInOrder(m: Map, loots: seq<LootInfo>, rest: seq<LootInfo>, s: real,
                      g: Gatherer, g1: Gatherer, g2: Gatherer, o1: seq<int>, o2: seq<int>,
                      k: nat, l: nat)
    requires TwoSweeps(m, loots, rest, s, g, g1, g2, o1, o2)
    requires k < l < |o1| + |o2|
    ensures var items, o := ItemsOf(m, loots), o1 + Origins(loots, rest, o2);
            && 0 <= o[k] < |items| && 0 <= o[l] < |items| && o[k] != o[l]
            && Collects(g, items[o[k]]) && Collects(g, items[o[l]])
            && TimeOf(g, items[o[k]]) <= TimeOf(g, items[o[l]])
  {
    var items, left := ItemsOf(m, loots), ItemsOf(m, rest);
    JoinedIsCollected(m, loots, rest, s, g, g1, g2, o1, o2);
    hide Collects, TimeOf, CutInTwo, ItemsOf, Leaves, Scaled, Origin;
    if l < |o1| {
      FirstInOrder(g, g1, g2, s, items[o1[k]], items[o1[l]]);
    } else if k < |o1| {
      FirstBeforeSecond(g, g1, g2, s, items[o1[k]], left[o2[l - |o1|]]);
    } else {
      OriginIsSame(m, loots, Pick(items, o1), rest, o2[l - |o1|]);
      assert o2[k - |o1|] != o2[l - |o1|];
      SecondInOrder(g, g1, g2, s, left[o2[k - |o1|]], left[o2[l - |o1|]]);
    }
  }

  lemma PicksJoin(items: seq<Item>, left: seq<Item>, o1: seq<int>, o2: seq<int>, o: seq<int>)
    requires |o| == |o1| + |o2| && o[..|o1|] == o1
    requires forall k :: 0 <= k < |o| ==> 0 <= o[k] < |items|
    requires forall k :: 0 <= k < |o2| ==> 0 <= o2[k] < |left| && items[o[|o1| + k]] == left[o2[k]]
    ensures Pick(items, o) == Pick(items, o1) + Pick(left, o2)
  {
    assert forall k :: 0 <= k < |o1| ==> o[..|o1|][k] == o1[k] == o[k];
  }

  lemma JoinedIsOrdered(m: Map, loots: seq<LootInfo>, rest: seq<LootInfo>, s: real,
                        g: Gatherer, g1: Gatherer, g2: Gatherer, o1: seq<int>, o2: seq<int>)
    requires TwoSweeps(m, loots, rest, s, g, g1, g2, o1, o2)
    requires OnlyCollected(ItemsOf(m, loots), g, o1 + Origins(loots, rest, o2))
    ensures InTimeOrder(ItemsOf(m, loots), g, o1 + Origins(loots, rest, o2))
  {
    var items, o := ItemsOf(m, loots), o1 + Origins(loots, rest, o2);
    assert |o| == |o1| + |o2|;
    hide Collects, TimeOf, ItemsOf, Origins, TwoSweeps;
    forall k, l | 0 <= k < l < |o| ensures o[k] != o[l] && TimeOf(g, items[o[k]]) <= TimeOf(g, items[o[l]]) {
      JoinedInOrder(m, loots, rest, s, g, g1, g2, o1, o2, k, l);
    }
  }

  /** The items of the two sweeps in one list are a gather order for the whole sweep. */
  lemma OrdersJoin(m: Map, loots: seq<LootInfo>, rest: seq<LootInfo>, s: real,
                   g: Gatherer, g1: Gatherer, g2: Gatherer, o1: seq<int>, o2: seq<int>)
    requires TwoSweeps(m, loots, rest, s, g, g1, g2, o1, o2)
    ensures IsGatherOrder(ItemsOf(m, loots), g, o1 + Origins(loots, rest, o2))
    ensures Pick(ItemsOf(m, loots), o1 + Origins(loots, rest, o2)) ==
            Pick(ItemsOf(m, loots), o1) + Pick(ItemsOf(m, rest), o2)
  {
    var items, o := ItemsOf(m, loots), o1 + Origins(loots, rest, o2);
    hide Collects, TimeOf, ItemsOf, Pick, InTimeOrder, Origin, CutInTwo, Leaves;
    JoinedIsCollected(m, loots, rest, s, g, g1, g2, o1, o2);
    PicksJoin(items, ItemsOf(m, rest), o1, o2, o);
    hide TwoSweeps, Origins;
    JoinedIsOrdered(m, loots, rest, s, g, g1, g2, o1, o2);
    forall j | 0 <= j < |items| && Collects(g, items[j]) ensures j in o {
      JoinedMissesNothing(m, loots, rest, s, g, g1, g2, o1, o2, j);
    }
  }

  // ---------------------------------------------------------------- both ticks

  lemma CollectOneIgnoresMotion(m: Map, d: DogView, loots: seq<LootInfo>, item: Item,
                                motion: Motion, playTime: int)
    requires Kinds(m, d, loots)
    ensures CollectOne(m, d.(motion := motion, playTime := playTime), loots, item) ==
            (CollectOne(m, d, loots, item).0.(motion := motion, playTime := playTime), CollectOne(m, d, loots, item).1)
  {
    hide FindLoot, RemoveAt, ScoreOf, AsSize;
  }

  lemma {:induction false} CollectIgnoresMotion(m: Map, d: DogView, loots: seq<LootInfo>, items: seq<Item>,
                                                motion: Motion, playTime: int)
    requires Kinds(m, d, loots)
    ensures Collect(m, d.(motion := motion, playTime := playTime), loots, items) ==
            (Collect(m, d, loots, items).0.(motion := motion, playTime := playTime), Collect(m, d, loots, items).1)
    decreases |items|
  {
    hide CollectOne;
    if items != [] {
      var (d', loots') := CollectOne(m, d, loots, items[0]);
      CollectOneIgnoresMotion(m, d, loots, items[0], motion, playTime);
      CollectIgnoresMotion(m, d', loots', items[1..], motion, playTime);
    }
  }

  /** The k-th dog is now d, moved and aged as given, over the given floor. */
  function AfterTurn(w: Sweep, k: nat, d: DogView, loots: seq<LootInfo>, motion: Motion, playTime: int): Sweep
    requires k < |w.players|
  {
    WithDog(w, k, d.(motion := motion, playTime := playTime)).(loots := loots)
  }

  lemma AfterTurnSets(w: Sweep, k: nat, d: DogView, loots: seq<LootInfo>, motion: Motion, playTime: int,
                      motion': Motion, playTime': int)
    requires k < |w.players|
    ensures AfterTurn(w, k, d.(motion := motion', playTime := playTime'), loots, motion, playTime) ==
            AfterTurn(w, k, d, loots, motion, playTime)
  {}

  /** A dog that collects on its turn, in terms of the dog before it. */
  lemma TurnCollects(m: Map, w: Sweep, k: nat, deltaTime: int, items: seq<Item>)
    requires Ready(m, w) && k < |w.players| && MoveOf(m, w, k, deltaTime).1.Some?
    ensures var d := w.players[k].dog;
            var moved := Advance(m.roads, d.motion, deltaTime);
            && d.direction != STOP
            && MoveOf(m, w, k, deltaTime).1.value == Gatherer(d.motion.position, moved.position, GATHERER_WIDTH)
            && Displaced(d.motion.position, moved.position)
            && var (d', loots') := Collect(m, d.(idleTime := 0), w.loots, items);
            MoveOne(m, w, k, deltaTime, items) == AfterTurn(w, k, d', loots', moved, d.playTime + deltaTime)
  {
    hide Advance, Collect;
    var d := w.players[k].dog;
    CollectIgnoresMotion(m, d.(idleTime := 0), w.loots, items,
                         Advance(m.roads, d.motion, deltaTime), d.playTime + deltaTime);
  }

  lemma TurnGathers(m: Map, w: Sweep, k: nat, deltaTime: int)
    requires Ready(m, w) && k < |w.players|
    ensures MoveOf(m, w, k, deltaTime).1.Some? <==>
            var d := w.players[k].dog;
            d.direction != STOP && Displaced(d.motion.position, Advance(m.roads, d.motion, deltaTime).position)
  {
    hide Advance;
  }

  /** Both ticks take the dog somewhere. */
  predicate GoesTwice(m: Map, w: Sweep, k: nat, t: nat, u: nat, s1: seq<Item>)
    requires Ready(m, w) && k < |w.players|
  {
    MoveOf(m, w, k, t).1.Some? && MoveOf(m, MoveOne(m, w, k, t, s1), k, u).1.Some?
  }

  /** s1 and s2 are what the dog is offered in the two ticks. */
  ghost predicate Offered(m: Map, w: Sweep, k: nat, t: nat, u: nat, s1: seq<Item>, s2: seq<Item>)
    requires Ready(m, w) && k < |w.players| && GoesTwice(m, w, k, t, u, s1)
  {
    var w1 := MoveOne(m, w, k, t, s1);
    && IsGathered(ItemsOf(m, w.loots), MoveOf(m, w, k, t).1.value, s1)
    && IsGathered(ItemsOf(m, w1.loots), MoveOf(m, w1, k, u).1.value, s2)
  }

  lemma AfterTurnTwice(w: Sweep, k: nat, d1: DogView, loots1: seq<LootInfo>, motion1: Motion, playTime1: int,
                       d2: DogView, loots2: seq<LootInfo>, motion2: Motion, playTime2: int)
    requires k < |w.players|
    ensures var w1 := AfterTurn(w, k, d1, loots1, motion1, playTime1);
            && |w1.players| == |w.players| && w1.loots == loots1
            && w1.players[k].dog == d1.(motion := motion1, playTime := playTime1)
            && AfterTurn(w1, k, d2, loots2, motion2, playTime2) == AfterTurn(w, k, d2, loots2, motion2, playTime2)
  {}

  /** The bag, score and floor of the two ticks one after the other are those of the one. */
  lemma SameBag(m: Map, d: DogView, loots: seq<LootInfo>, s1: seq<Item>, s2: seq<Item>,
                motion: Motion, playTime: int)
    requires Kinds(m, d, loots)
    ensures var (d1, floor) := Collect(m, d.(idleTime := 0), loots, s1);
            var (d2, floor2) := Collect(m, d1.(motion := motion, playTime := playTime, idleTime := 0), floor, s2);
            Collect(m, d.(idleTime := 0), loots, s1 + s2) ==
              (d2.(motion := d.motion, playTime := d.playTime), floor2)
  {
    hide Collect;
    var (d1, floor) := Collect(m, d.(idleTime := 0), loots, s1);
    CollectSplits(m, d.(idleTime := 0), loots, s1, s2);
    CollectIgnoresMotion(m, d1, floor, s2, motion, playTime);
    CollectKeepsMotion(m, d.(idleTime := 0), loots, s1);
    CollectKeepsMotion(m, d1, floor, s2);
  }

  /** A dog whose two turns both yield a gatherer moves twice. */
  lemma TurnsMoveTwice(m: Map, w: Sweep, k: nat, t: nat, u: nat, s1: seq<Item>)
    requires Ready(m, w) && k < |w.players| && GoesTwice(m, w, k, t, u, s1)
    requires var d := w.players[k].dog;
             OnRoad(m.roads, d.motion) && AxisParallel(d.motion.speed) && CutHarmless(m.roads, d.motion, t, u)
    ensures MovesTwice(m.roads, w.players[k].dog.motion, t, u)
    ensures MoveOf(m, w, k, t + u).1.Some?
  {
    var d, w1 := w.players[k].dog, MoveOne(m, w, k, t, s1);
    AdvanceEndsOnRoad(m.roads, d.motion, t);
    TurnCollects(m, w, k, t, s1);
    TurnCollects(m, w1, k, u, []);
    hide Advance, Collect, MoveOf, MoveOne, OnRoad, AxisParallel, CutHarmless;
    GoesOn(m.roads, d.motion, t, u);
    TurnGathers(m, w, k, t + u);
  }

  /** The outcome of two turns in terms of the dog before them. */
  lemma TwoTurnsCollect(m: Map, w: Sweep, k: nat, t: nat, u: nat, s1: seq<Item>, s2: seq<Item>)
    requires Ready(m, w) && k < |w.players| && GoesTwice(m, w, k, t, u, s1)
    ensures var d := w.players[k].dog;
            var m1 := Advance(m.roads, d.motion, t);
            && ValidRoad(m.roads, m1)
            && var (d1, floor) := Collect(m, d.(idleTime := 0), w.loots, s1);
            var (d2, floor2) := Collect(m, d1.(motion := m1, playTime := d.playTime + t, idleTime := 0), floor, s2);
            MoveOne(m, MoveOne(m, w, k, t, s1), k, u, s2) ==
              AfterTurn(w, k, d2, floor2, Advance(m.roads, m1, u), d.playTime + t + u)
  {
    hide Advance, Collect, MoveOf, MoveOne, AfterTurn, Displaced, KindsKnown;
    var d, w1 := w.players[k].dog, MoveOne(m, w, k, t, s1);
    AdvanceStaysValid(m.roads, d.motion, t);
    var m1 := Advance(m.roads, d.motion, t);
    var (d1, floor) := Collect(m, d.(idleTime := 0), w.loots, s1);
    TurnCollects(m, w, k, t, s1);
    TurnCollects(m, w1, k, u, s2);
    CollectKeepsMotion(m, d.(idleTime := 0), w.loots, s1);
    var (d2, floor2) := Collect(m, d1.(motion := m1, playTime := d.playTime + t, idleTime := 0), floor, s2);
    AfterTurnTwice(w, k, d1, floor, m1, d.playTime + t, d2, floor2, Advance(m.roads, m1, u), d.playTime + t + u);
  }

  lemma AdvanceStaysValid(roads: seq<Road>, m: Motion, deltaTime: int)
    requires ValidRoad(roads, m)
    ensures ValidRoad(roads, Advance(roads, m, deltaTime))
  {
    AdvanceEndsOnRoad(roads, m, deltaTime);
  }

  /** The same, with both offers in one list. */
  lemma TwoTurnsTogether(m: Map, w: Sweep, k: nat, t: nat, u: nat, s1: seq<Item>, s2: seq<Item>)
    requires Ready(m, w) && k < |w.players| && GoesTwice(m, w, k, t, u, s1)
    ensures var d := w.players[k].dog;
            var (d', loots') := Collect(m, d.(idleTime := 0), w.loots, s1 + s2);
            var m1 := Advance(m.roads, d.motion, t);
            && ValidRoad(m.roads, m1)
            && MoveOne(m, MoveOne(m, w, k, t, s1), k, u, s2) ==
                 AfterTurn(w, k, d', loots', Advance(m.roads, m1, u), d.playTime + t + u)
  {
    hide Advance, Collect, MoveOf, MoveOne, AfterTurn, GoesTwice;
    TwoTurnsCollect(m, w, k, t, u, s1, s2);
    var d := w.players[k].dog;
    var m1 := Advance(m.roads, d.motion, t);
    var (d1, floor) := Collect(m, d.(idleTime := 0), w.loots, s1);
    var (d2, floor2) := Collect(m, d1.(motion := m1, playTime := d.playTime + t, idleTime := 0), floor, s2);
    SameBag(m, d, w.loots, s1, s2, m1, d.playTime + t);
    AfterTurnSets(w, k, d2, floor2, Advance(m.roads, m1, u), d.playTime + t + u, d.motion, d.playTime);
  }

  /** The dogs of the two ticks and of the one, and what they leave on the floor. */
  lemma SameDog(m: Map, w: Sweep, k: nat, t: nat, u: nat, s1: seq<Item>, s2: seq<Item>)
    requires Ready(m, w) && k < |w.players| && GoesTwice(m, w, k, t, u, s1)
    requires MovesTwice(m.roads, w.players[k].dog.motion, t, u) && MoveOf(m, w, k, t + u).1.Some?
    ensures MoveOne(m, w, k, t + u, s1 + s2) == MoveOne(m, MoveOne(m, w, k, t, s1), k, u, s2)
  {
    hide Advance, Collect, MoveOf, MoveOne, AfterTurn, GoesTwice, Displaced, OnRoad, AxisParallel, CutHarmless;
    TwoTicksIff(m.roads, w.players[k].dog.motion, t, u);
    TwoTurnsTogether(m, w, k, t, u, s1, s2);
    TurnCollects(m, w, k, t + u, s1 + s2);
  }

  // ---------------------------------------------------------------- touched twice

  predicate AllOfKind(items: seq<Item>, kind: ItemType) {
    forall k :: 0 <= k < |items| ==> items[k].kind == kind
  }

  /** A full bag takes nothing. */
  lemma {:induction false} FullBagRefuses(m: Map, d: DogView, loots: seq<LootInfo>, items: seq<Item>)
    requires Kinds(m, d, loots) && BagFull(d) && AllOfKind(items, ItemType.Loot)
    ensures Collect(m, d, loots, items) == (d, loots)
    decreases |items|
  {
    if items != [] {
      FullBagRefuses(m, d, loots, items[1..]);
    }
  }

  /** An empty bag has nothing to pass to an office. */
  lemma {:induction false} EmptyBagPassesNothing(m: Map, d: DogView, loots: seq<LootInfo>, items: seq<Item>)
    requires Kinds(m, d, loots) && d.bag == [] && AllOfKind(items, ItemType.Office)
    ensures Collect(m, d, loots, items) == (d, loots)
    decreases |items|
  {
    if items != [] {
      assert d.delivered + [] == d.delivered;
      EmptyBagPassesNothing(m, d, loots, items[1..]);
    }
  }

  lemma {:induction false} OnlyTouchedLeaves(m: Map, d: DogView, loots: seq<LootInfo>, items: seq<Item>, id: int)
    requires Kinds(m, d, loots) && !OnFloor(loots, id)
    ensures !OnFloor(Collect(m, d, loots, items).1, id)
    decreases |items|
  {
    if items != [] {
      var (d', loots') := CollectOne(m, d, loots, items[0]);
      StaysAway(loots, FindLoot(loots, items[0].id), id);
      OnlyTouchedLeaves(m, d', loots', items[1..], id);
    }
  }

  lemma StaysAway(loots: seq<LootInfo>, k: nat, id: int)
    requires !OnFloor(loots, id)
    ensures k < |loots| ==> !OnFloor(RemoveAt(loots, k), id)
  {}

  lemma TakenIsGone(loots: seq<LootInfo>, id: int)
    requires UniqueIds(loots) && OnFloor(loots, id)
    ensures !OnFloor(RemoveAt(loots, FindLoot(loots, id)), id)
  {
    var k := FindLoot(loots, id);
    var rest := RemoveAt(loots, k);
    assert forall j :: 0 <= j < |rest| ==> rest[j] == loots[if j < k then j else j + 1];
  }

  /** Loot touched with nothing but loot after it is gone in the end, or the bag is full. */
  lemma GoneOrFull(m: Map, d: DogView, loots: seq<LootInfo>, item: Item, after: seq<Item>)
    requires Kinds(m, d, loots) && UniqueIds(loots)
    requires item.kind == ItemType.Loot && AllOfKind(after, ItemType.Loot)
    ensures var r := Collect(m, d, loots, [item] + after); !OnFloor(r.1, item.id) || BagFull(r.0)
  {
    var (d', loots') := CollectOne(m, d, loots, item);
    assert ([item] + after)[1..] == after;
    if BagFull(d) {
      FullBagRefuses(m, d', loots', after);
    } else {
      if OnFloor(loots, item.id) {
        TakenIsGone(loots, item.id);
      }
      OnlyTouchedLeaves(m, d', loots', after, item.id);
    }
  }

  /** The same, with anything before it. */
  lemma GoneOrFullAt(m: Map, d: DogView, loots: seq<LootInfo>, items: seq<Item>, k: nat)
    requires Kinds(m, d, loots) && UniqueIds(loots)
    requires k < |items| && AllOfKind(items[k..], ItemType.Loot)
    ensures var r := Collect(m, d, loots, items); !OnFloor(r.1, items[k].id) || BagFull(r.0)
  {
    var (d1, floor) := Collect(m, d, loots, items[..k]);
    assert items[k..] == [items[k]] + items[k + 1..];
    assert items == items[..k] + ([items[k]] + items[k + 1..]);
    assert items[k..][1..] == items[k + 1..];
    CollectKeepsUnique(m, d, loots, items[..k]);
    hide Collect, UniqueIds;
    CollectSplits(m, d, loots, items[..k], [items[k]] + items[k + 1..]);
    GoneOrFull(m, d1, floor, items[k], items[k + 1..]);
  }

  lemma EndsEmpty(m: Map, d: DogView, loots: seq<LootInfo>, items: seq<Item>)
    requires Kinds(m, d, loots) && items != [] && items[|items| - 1].kind == ItemType.Office
    ensures Collect(m, d, loots, items).0.bag == []
  {
    CollectLast(m, d, loots, items[..|items| - 1], items[|items| - 1]);
    assert items == items[..|items| - 1] + [items[|items| - 1]];
  }

  /** Both a loot and an office are touched at the very end of the sweep. */
  ghost predicate MixedEnd(items: seq<Item>, g: Gatherer) {
    exists i, j :: && 0 <= i < |items| && AtEnd(g, items[i]) && items[i].kind == ItemType.Loot
                   && 0 <= j < |items| && AtEnd(g, items[j]) && items[j].kind == ItemType.Office
  }

  /** From an item touched at the end on, everything is touched at the end and of one kind. */
  lemma RestAtEnd(items: seq<Item>, g: Gatherer, order: seq<int>, k: nat)
    requires IsGatherOrder(items, g, order) && !MixedEnd(items, g)
    requires k < |order| && AtEnd(g, items[order[k]])
    ensures AllOfKind(Pick(items, order)[k..], items[order[k]].kind)
  {
    forall l | k <= l < |order| ensures items[order[l]].kind == items[order[k]].kind {
      assert Collects(g, items[order[l]]);
      assert k < l ==> TimeOf(g, items[order[k]]) <= TimeOf(g, items[order[l]]);
      assert TimeOf(g, items[order[l]]) == 1.0 by {
        hide TryCollectPoint, Moved;
      }
      hide Collects, TimeOf;
      assert AtEnd(g, items[order[l]]);
    }
  }

  /** What has been touched at the end and is touched once more changes nothing. */
  lemma TouchedAgain(m: Map, d: DogView, loots: seq<LootInfo>, g: Gatherer, order: seq<int>, again: seq<Item>)
    requires Kinds(m, d, loots) && UniqueIds(loots)
    requires IsGatherOrder(ItemsOf(m, loots), g, order) && !MixedEnd(ItemsOf(m, loots), g)
    requires forall k :: 0 <= k < |again| ==> AtEnd(g, again[k]) && again[k] in ItemsOf(m, loots)
    ensures var r := Collect(m, d, loots, Pick(ItemsOf(m, loots), order));
            Collect(m, r.0, r.1, again) == r
  {
    var items := ItemsOf(m, loots);
    var r := Collect(m, d, loots, Pick(items, order));
    if again != [] {
      var kind := again[0].kind;
      forall k | 0 <= k < |again|
        ensures again[k].kind == kind
        ensures kind == ItemType.Loot ==> !OnFloor(r.1, again[k].id) || BagFull(r.0)
        ensures kind == ItemType.Office ==> r.0.bag == []
      {
        var p := EndPosition(items, g, order, again[k]);
        var p0 := EndPosition(items, g, order, again[0]);
        RestAtEnd(items, g, order, p);
        if kind == ItemType.Loot {
          SameKindAtEnd(items, g, again[0], again[k]);
          GoneOrFullAt(m, d, loots, Pick(items, order), p);
        } else {
          SameKindAtEnd(items, g, again[0], again[k]);
          assert Pick(items, order)[p..][|order| - 1 - p].kind == ItemType.Office;
          EndsEmpty(m, d, loots, Pick(items, order));
        }
      }
      if kind == ItemType.Office {
        EmptyBagPassesNothing(m, r.0, r.1, again);
      } else {
        NothingToTake(m, r.0, r.1, again);
      }
    }
  }

  lemma SameKindAtEnd(items: seq<Item>, g: Gatherer, x: Item, y: Item)
    requires !MixedEnd(items, g) && x in items && y in items && AtEnd(g, x) && AtEnd(g, y)
    ensures x.kind == y.kind
  {
    var i :| 0 <= i < |items| && items[i] == x;
    var j :| 0 <= j < |items| && items[j] == y;
  }

  lemma EndPosition(items: seq<Item>, g: Gatherer, order: seq<int>, item: Item) returns (p: nat)
    requires IsGatherOrder(items, g, order) && AtEnd(g, item) && item in items
    ensures p < |order| && items[order[p]] == item
  {
    hide Collects, TimeOf;
    var j :| 0 <= j < |items| && items[j] == item;
    p :| 0 <= p < |order| && order[p] == j;
  }

  lemma {:induction false} NothingToTake(m: Map, d: DogView, loots: seq<LootInfo>, items: seq<Item>)
    requires Kinds(m, d, loots) && AllOfKind(items, ItemType.Loot)
    requires forall k :: 0 <= k < |items| ==> !OnFloor(loots, items[k].id) || BagFull(d)
    ensures Collect(m, d, loots, items) == (d, loots)
    decreases |items|
  {
    if items != [] {
      NothingToTake(m, d, loots, items[1..]);
    }
  }

  /** The offer of the second part falls into what is touched again at the joint and the rest. */
  lemma OffersJoin(m: Map, loots: seq<LootInfo>, rest: seq<LootInfo>, s: real, g: Gatherer, g1: Gatherer, g2: Gatherer,
                   o1: seq<int>, s2: seq<Item>) returns (again: seq<Item>, late: seq<Item>)
    requires CutInTwo(g, g1, g2, s)
    requires IsGatherOrder(ItemsOf(m, loots), g1, o1) && Leaves(loots, Pick(ItemsOf(m, loots), o1), rest)
    requires IsGathered(ItemsOf(m, rest), g2, s2)
    ensures s2 == again + late
    ensures forall k :: 0 <= k < |again| ==> AtEnd(g1, again[k]) && again[k] in ItemsOf(m, loots)
    ensures IsGathered(ItemsOf(m, loots), g, Pick(ItemsOf(m, loots), o1) + late)
  {
    hide CutInTwo, Leaves, ItemsOf, IsLateOrder, AtEnd, Collects, TimeOf, InTimeOrder, AllCollected, Origin;
    var items, left := ItemsOf(m, loots), ItemsOf(m, rest);
    var o2: seq<int> :| IsGatherOrder(left, g2, o2) && s2 == Pick(left, o2);
    var n := DropStart(left, g2, o2);
    again, late := Pick(left, o2[..n]), Pick(left, o2[n..]);
    OrdersJoin(m, loots, rest, s, g, g1, g2, o1, o2[n..]);
    forall k | 0 <= k < |again| ensures AtEnd(g1, again[k]) && again[k] in items {
      JointIsShared(g, g1, g2, s, left[o2[k]]);
      OriginIsSame(m, loots, Pick(items, o1), rest, o2[k]);
    }
  }

  /** The second offer without what the first already had at the joint has the same outcome. */
  lemma DropAgain(m: Map, d: DogView, loots: seq<LootInfo>, s: real,
                  g: Gatherer, g1: Gatherer, g2: Gatherer, s1: seq<Item>, s2: seq<Item>) returns (late: seq<Item>)
    requires Kinds(m, d, loots) && UniqueIds(loots)
    requires CutInTwo(g, g1, g2, s) && !MixedEnd(ItemsOf(m, loots), g1)
    requires IsGathered(ItemsOf(m, loots), g1, s1)
    requires IsGathered(ItemsOf(m, Collect(m, d, loots, s1).1), g2, s2)
    ensures IsGathered(ItemsOf(m, loots), g, s1 + late)
    ensures Collect(m, d, loots, s1 + late) == Collect(m, d, loots, s1 + s2)
  {
    var r := Collect(m, d, loots, s1);
    CollectLeaves(m, d, loots, s1);
    var o1: seq<int> :| IsGatherOrder(ItemsOf(m, loots), g1, o1) && s1 == Pick(ItemsOf(m, loots), o1);
    hide *;
    var again, late' := OffersJoin(m, loots, r.1, s, g, g1, g2, o1, s2);
    late := late';
    TouchedAgain(m, d, loots, g1, o1, again);
    CollectSplits(m, d, loots, s1, s2);
    CollectSplits(m, d, loots, s1, late);
    CollectSplits(m, r.0, r.1, again, late);
  }

  /** Offers with the same effect on bag and floor have the same outcome of the turn. */
  lemma TurnsAlike(m: Map, w: Sweep, k: nat, deltaTime: int, a: seq<Item>, b: seq<Item>)
    requires Ready(m, w) && k < |w.players| && MoveOf(m, w, k, deltaTime).1.Some?
    requires var d := w.players[k].dog.(idleTime := 0);
             Collect(m, d, w.loots, a) == Collect(m, d, w.loots, b)
    ensures MoveOne(m, w, k, deltaTime, a) == MoveOne(m, w, k, deltaTime, b)
  {
    hide Collect, MoveOne, MoveOf, Advance, WithDog;
    TurnCollects(m, w, k, deltaTime, a);
    TurnCollects(m, w, k, deltaTime, b);
  }

  lemma FloorAfterTurn(m: Map, w: Sweep, k: nat, deltaTime: int, items: seq<Item>)
    requires Ready(m, w) && k < |w.players| && MoveOf(m, w, k, deltaTime).1.Some?
    ensures MoveOne(m, w, k, deltaTime, items).loots ==
            Collect(m, w.players[k].dog.(idleTime := 0), w.loots, items).1
  {
    hide Collect, MoveOne, MoveOf, Advance;
    TurnCollects(m, w, k, deltaTime, items);
  }

  /** What the two turns have to do with the turn of the whole tick. */
  lemma TurnsCut(m: Map, w: Sweep, k: nat, t: nat, u: nat, s1: seq<Item>, s2: seq<Item>) returns (s: real)
    requires Ready(m, w) && k < |w.players| && GoesTwice(m, w, k, t, u, s1)
    requires var d := w.players[k].dog;
             OnRoad(m.roads, d.motion) && AxisParallel(d.motion.speed) && CutHarmless(m.roads, d.motion, t, u)
    ensures MoveOf(m, w, k, t + u).1.Some?
    ensures MoveOne(m, w, k, t + u, s1 + s2) == MoveOne(m, MoveOne(m, w, k, t, s1), k, u, s2)
    ensures CutInTwo(MoveOf(m, w, k, t + u).1.value, MoveOf(m, w, k, t).1.value,
                     MoveOf(m, MoveOne(m, w, k, t, s1), k, u).1.value, s)
    ensures MoveOne(m, w, k, t, s1).loots == Collect(m, w.players[k].dog.(idleTime := 0), w.loots, s1).1
  {
    hide MoveOf, MoveOne, OnRoad, CutHarmless, AxisParallel, MovesTwice, Collect, CutInTwo;
    TurnsMoveTwice(m, w, k, t, u, s1);
    SameDog(m, w, k, t, u, s1, s2);
    FloorAfterTurn(m, w, k, t, s1);
    s := GatherersCut(m, w, k, t, u, s1);
  }

  /** The offers of two parts of a turn make an offer of the whole turn. */
  lemma WholeOffer(m: Map, w: Sweep, k: nat, deltaTime: nat, s: real,
                   g1: Gatherer, g2: Gatherer, s1: seq<Item>, s2: seq<Item>) returns (whole: seq<Item>)
    requires Ready(m, w) && k < |w.players| && UniqueIds(w.loots)
    requires MoveOf(m, w, k, deltaTime).1.Some? && CutInTwo(MoveOf(m, w, k, deltaTime).1.value, g1, g2, s)
    requires !MixedEnd(ItemsOf(m, w.loots), g1) && IsGathered(ItemsOf(m, w.loots), g1, s1)
    requires IsGathered(ItemsOf(m, Collect(m, w.players[k].dog.(idleTime := 0), w.loots, s1).1), g2, s2)
    ensures IsGathered(ItemsOf(m, w.loots), MoveOf(m, w, k, deltaTime).1.value, whole)
    ensures MoveOne(m, w, k, deltaTime, whole) == MoveOne(m, w, k, deltaTime, s1 + s2)
  {
    hide MoveOf, MoveOne, IsGathered, ItemsOf, MixedEnd, Collect, UniqueIds, CutInTwo;
    var d, g := w.players[k].dog.(idleTime := 0), MoveOf(m, w, k, deltaTime).1.value;
    var late := DropAgain(m, d, w.loots, s, g, g1, g2, s1, s2);
    whole := s1 + late;
    TurnsAlike(m, w, k, deltaTime, whole, s1 + s2);
  }

  /** Let both parts of a tick cut in two take the dog somewhere, with the cut harmless to its
      motion and not both a loot and an office touched at the joint. Then there is an offer for
      the whole tick with the same outcome: position, speed, clocks, bag, score and floor. */
  lemma SplitTickSameOutcome(m: Map, w: Sweep, k: nat, t: nat, u: nat, s1: seq<Item>, s2: seq<Item>)
    returns (whole: seq<Item>)
    requires Ready(m, w) && k < |w.players| && UniqueIds(w.loots)
    requires var d := w.players[k].dog;
             OnRoad(m.roads, d.motion) && AxisParallel(d.motion.speed) && CutHarmless(m.roads, d.motion, t, u)
    requires GoesTwice(m, w, k, t, u, s1) && Offered(m, w, k, t, u, s1, s2)
    requires !MixedEnd(ItemsOf(m, w.loots), MoveOf(m, w, k, t).1.value)
    ensures MoveOf(m, w, k, t + u).1.Some?
    ensures IsGathered(ItemsOf(m, w.loots), MoveOf(m, w, k, t + u).1.value, whole)
    ensures MoveOne(m, w, k, t + u, whole) == MoveOne(m, MoveOne(m, w, k, t, s1), k, u, s2)
  {
    hide MoveOf, MoveOne, IsGathered, ItemsOf, MixedEnd, Collect, OnRoad, CutHarmless, AxisParallel, UniqueIds, CutInTwo;
    var s := TurnsCut(m, w, k, t, u, s1, s2);
    whole := WholeOffer(m, w, k, t + u, s, MoveOf(m, w, k, t).1.value,
                        MoveOf(m, MoveOne(m, w, k, t, s1), k, u).1.value, s1, s2);
  }

  lemma GatherersCut(m: Map, w: Sweep, k: nat, t: nat, u: nat, s1: seq<Item>) returns (s: real)
    requires Ready(m, w) && k < |w.players| && GoesTwice(m, w, k, t, u, s1)
    requires MovesTwice(m.roads, w.players[k].dog.motion, t, u) && MoveOf(m, w, k, t + u).1.Some?
    ensures CutInTwo(MoveOf(m, w, k, t + u).1.value, MoveOf(m, w, k, t).1.value,
                     MoveOf(m, MoveOne(m, w, k, t, s1), k, u).1.value, s)
  {
    hide Advance, Collect, MoveOf, MoveOne;
    var d, w1 := w.players[k].dog, MoveOne(m, w, k, t, s1);
    TurnCollects(m, w, k, t, s1);
    TurnCollects(m, w1, k, u, []);
    TurnCollects(m, w, k, t + u, []);
    GoesOn(m.roads, d.motion, t, u);
    s := Joint(d.motion.position, w1.players[k].dog.motion.position,
               Advance(m.roads, w1.players[k].dog.motion, u).position);
  }
}
