/** A dog drives past a corner with loot and offices, in one tick or in two. */
module CornerTicks {
  import opened DataTypes
  import opened MapModel
  import opened CollisionDetector
  import opened Dogs
  import opened SessionModel
  import opened GreedyBag
  import opened SplitTicks
  import opened JointTicks

  function CornerOffice(): DataTypes.Office {
    DataTypes.Office.Office("o", Point(1.0, 0.0))
  }

  /** One road, and the given number of offices at the same corner. */
  function CornerMap(offices: nat): Map {
    Map("m", [Road(Point(0.0, 0.0), Point(10.0, 0.0))], seq(offices, _ => CornerOffice()), [LootKind(1)], 1.0, 1)
  }

  function CornerLoot(): LootInfo {
    LootInfo(1, 0, 1.0, 0.0)
  }

  function X(): Item {
    LootItem(CornerLoot())
  }

  function O(): Item {
    OfficeItem(CornerOffice())
  }

  /** Drives east from the start of the road with all its bag can hold. */
  function FullDog(): DogView {
    Turned(FreshDog(1), EAST, 1.0).(bag := [LootInfo(0, 0, 0.0, 0.0)])
  }

  function CornerSweep(): (w: Sweep)
    ensures forall n: nat :: Ready(CornerMap(n), w)
  {
    Sweep([PlayerView(0, "a", "t", FullDog())], [CornerLoot()])
  }

  lemma FullDogFacts(n: nat)
    ensures var d := FullDog();
            && d.motion == Motion(0, Point(0.0, 0.0), DogSpeed(1.0, 0.0)) && d.direction == EAST
            && BagFull(d) && d.delivered == [] && |d.bag| == 1 && d.bagCapacity == 1
            && CornerSweep().loots == [CornerLoot()] && |CornerSweep().players| == 1 && CornerSweep().players[0].dog == d
            && Kinds(CornerMap(n), d, [CornerLoot()]) && |CornerMap(n).loots| > 0
            && d.delivered + d.bag == d.bag
  {}

  // ---------------------------------------------------------------- the way past the corner

  function CornerWay(from: real, to: real): Gatherer {
    Gatherer(Point(from, 0.0), Point(to, 0.0), GATHERER_WIDTH)
  }

  lemma AtEnds(a: Point, b: Point)
    requires a != b
    ensures TryCollectPoint(a, b, a) == CollectionResult(0.0, 0.0)
    ensures TryCollectPoint(a, b, b) == CollectionResult(0.0, 1.0)
  {
    assert Dot(a, b, a) == 0.0 && Dot(a, b, b) == Dist2(a, b) && Dist2(a, a) == 0.0;
    Projection(a, b, a, 0.0);
    Projection(a, b, b, 1.0);
  }

  lemma CornerCut()
    ensures CutInTwo(CornerWay(0.0, 2.0), CornerWay(0.0, 1.0), CornerWay(1.0, 2.0), 0.5)
  {}

  /** Both parts of the way touch whatever lies at the corner. */
  lemma CornerReached(item: Item)
    requires item.position == Point(1.0, 0.0) && item.width >= 0.0
    ensures AtEnd(CornerWay(0.0, 1.0), item)
    ensures Collects(CornerWay(0.0, 1.0), item) && TimeOf(CornerWay(0.0, 1.0), item) == 1.0
    ensures Collects(CornerWay(1.0, 2.0), item) && TimeOf(CornerWay(1.0, 2.0), item) == 0.0
  {
    hide TryCollectPoint;
    AtEnds(Point(0.0, 0.0), Point(1.0, 0.0));
    AtEnds(Point(1.0, 0.0), Point(2.0, 0.0));
    var q := SquarePositive(GATHERER_WIDTH + item.width);
  }

  lemma CornerReachedInOne(item: Item)
    requires item.position == Point(1.0, 0.0) && item.width >= 0.0
    ensures Collects(CornerWay(0.0, 2.0), item)
  {
    CornerCut();
    hide CutInTwo, Collects, TimeOf, CornerWay;
    CornerReached(item);
    PartsCollect(CornerWay(0.0, 2.0), CornerWay(0.0, 1.0), CornerWay(1.0, 2.0), 0.5, item);
  }

  lemma CornerItems()
    ensures X().kind == ItemType.Loot && O().kind == ItemType.Office
    ensures X().position == O().position == Point(1.0, 0.0) && X().width >= 0.0 && O().width >= 0.0
    ensures ItemsOf(CornerMap(1), [CornerLoot()]) == [X(), O()]
    ensures ItemsOf(CornerMap(2), [CornerLoot()]) == [X(), O(), O()]
    ensures ItemsOf(CornerMap(2), []) == [O(), O()]
  {}

  /** The sweep reaches all the items at the same time. */
  predicate AllAtOnce(items: seq<Item>, g: Gatherer) {
    && (forall i :: 0 <= i < |items| ==> Collects(g, items[i]))
    && (forall i, j :: 0 <= i < |items| && 0 <= j < |items| ==> TimeOf(g, items[i]) == TimeOf(g, items[j]))
  }

  lemma CornerAllAtOnce(items: seq<Item>, g: Gatherer)
    requires forall i :: 0 <= i < |items| ==> items[i].position == Point(1.0, 0.0) && items[i].width >= 0.0
    requires g in {CornerWay(0.0, 1.0), CornerWay(1.0, 2.0), CornerWay(0.0, 2.0)}
    ensures AllAtOnce(items, g)
  {
    hide TryCollectPoint, Moved;
    forall i | 0 <= i < |items| ensures Collects(g, items[i]) {
      CornerReached(items[i]);
      CornerReachedInOne(items[i]);
    }
  }

  /** Items reached at once may come in any order of all of them. */
  lemma AnyOrder(items: seq<Item>, g: Gatherer, order: seq<int>)
    requires AllAtOnce(items, g)
    requires forall i :: 0 <= i < |order| ==> 0 <= order[i] < |items|
    requires forall i, j :: 0 <= i < j < |order| ==> order[i] != order[j]
    requires forall i :: 0 <= i < |items| ==> i in order
    ensures IsGathered(items, g, Pick(items, order))
  {
    hide Collects, TimeOf;
    assert IsGatherOrder(items, g, order);
  }

  /** The turns of the dog on this road. */
  lemma CornerTurn(n: nat, w: Sweep, from: real, deltaTime: int)
    requires Ready(CornerMap(n), w) && |w.players| == 1 && w.players[0].dog.direction == EAST
    requires w.players[0].dog.motion == Motion(0, Point(from, 0.0), DogSpeed(1.0, 0.0))
    requires 0.0 <= from <= 1.0 && 1000 <= deltaTime <= 2000
    ensures var d, to := w.players[0].dog, from + deltaTime as real / 1000.0;
            && Advance(CornerMap(n).roads, d.motion, deltaTime) == d.motion.(position := Point(to, 0.0))
            && MoveOf(CornerMap(n), w, 0, deltaTime).1 == Some(CornerWay(from, to))
  {
    var d, to := w.players[0].dog, from + deltaTime as real / 1000.0;
    assert EvaluateNewPosition(d.motion, deltaTime) == Point(to, 0.0);
  }

  // ---------------------------------------------------------------- what the corner does to a dog

  /** X touched: it is taken if it is there and the bag is empty. */
  lemma TouchX(m: Map, d: DogView, floor: seq<LootInfo>)
    requires Kinds(m, d, floor) && d.bagCapacity == 1 && floor in {[], [CornerLoot()]}
    ensures CollectOne(m, d, floor, X()) ==
            if d.bag == [] && floor != [] then (d.(bag := [CornerLoot()]), []) else (d, floor)
  {
    assert FindLoot([CornerLoot()], 1) == 0 && RemoveAt([CornerLoot()], 0) == [];
    assert d.bag == [] ==> d.bag + [CornerLoot()] == [CornerLoot()];
  }

  lemma TouchO(m: Map, d: DogView, floor: seq<LootInfo>)
    requires Kinds(m, d, floor)
    ensures CollectOne(m, d, floor, O()) == (PassedToOffice(m, d), floor)
    ensures d.bag == [] ==> PassedToOffice(m, d) == d
    ensures PassedToOffice(m, d).bag == [] && PassedToOffice(m, d).bagCapacity == d.bagCapacity
    ensures PassedToOffice(m, d).delivered == d.delivered + d.bag
  {}

  lemma CollectThree(m: Map, d: DogView, loots: seq<LootInfo>, x: Item, y: Item, z: Item)
    requires Kinds(m, d, loots)
    ensures var (d1, loots1) := CollectOne(m, d, loots, x);
            var (d2, loots2) := CollectOne(m, d1, loots1, y);
            && Collect(m, d, loots, [x, y]) == (d2, loots2)
            && Collect(m, d, loots, [x, y, z]) == CollectOne(m, d2, loots2, z)
  {
    hide CollectOne;
    assert Collect(m, d, loots, []) == (d, loots);
    CollectLast(m, d, loots, [], x);
    CollectLast(m, d, loots, [x], y);
    CollectLast(m, d, loots, [x, y], z);
    assert [] + [x] == [x] && [x] + [y] == [x, y] && [x, y] + [z] == [x, y, z];
  }

  /** The dog after the office took what it came with, and after the office took X too. */
  lemma CornerOffers(m: Map, d: DogView)
    requires Kinds(m, d, [CornerLoot()]) && d.bagCapacity == 1 && d.bag != [] && 0 < |m.loots|
    ensures var e := PassedToOffice(m, d);
            && Kinds(m, e, [CornerLoot()]) && e.bag == [] && e.bagCapacity == 1 && e.delivered == d.delivered + d.bag
            && Collect(m, d, [CornerLoot()], [X(), O()]) == (e, [CornerLoot()])
            && Collect(m, d, [CornerLoot()], [X(), O(), O()]) == (e, [CornerLoot()])
            && var f := PassedToOffice(m, e.(bag := [CornerLoot()]));
            && f.bag == [] && f.bagCapacity == 1 && f.delivered == e.delivered + [CornerLoot()]
            && Collect(m, d, [CornerLoot()], [O(), X(), O()]) == (f, [])
            && Collect(m, d, [CornerLoot()], [O(), O(), X()]) == (e.(bag := [CornerLoot()]), [])
  {
    hide Collect, CollectOne, ScoreOf, X, O, CornerLoot, PassedToOffice;
    var l := [CornerLoot()];
    TouchX(m, d, l);
    TouchO(m, d, l);
    var e := PassedToOffice(m, d);
    TouchX(m, e, l);
    TouchO(m, e, l);
    TouchO(m, e.(bag := l), []);
    CollectThree(m, d, l, X(), O(), O());
    CollectThree(m, d, l, O(), X(), O());
    CollectThree(m, d, l, O(), O(), X());
  }

  /** With an empty bag. */
  lemma CornerOffersEmpty(m: Map, e: DogView)
    requires Kinds(m, e, [CornerLoot()]) && e.bagCapacity == 1 && e.bag == [] && 0 < |m.loots|
    ensures var f := PassedToOffice(m, e.(bag := [CornerLoot()]));
            && f.bag == [] && f.delivered == e.delivered + [CornerLoot()]
            && Collect(m, e, [CornerLoot()], [X(), O()]) == (f, [])
            && Collect(m, e, [CornerLoot()], [X(), O(), O()]) == (f, [])
            && Collect(m, e, [CornerLoot()], [O(), X(), O()]) == (f, [])
            && Collect(m, e, [CornerLoot()], [O(), O(), X()]) == (e.(bag := [CornerLoot()]), [])
            && Collect(m, e.(bag := [CornerLoot()]), [], [O(), O()]) == (f, [])
            && Collect(m, f, [], [O(), O()]) == (f, [])
  {
    hide Collect, CollectOne, ScoreOf, X, O, CornerLoot, PassedToOffice;
    var l := [CornerLoot()];
    TouchX(m, e, l);
    TouchO(m, e, l);
    TouchO(m, e.(bag := l), []);
    var f := PassedToOffice(m, e.(bag := l));
    TouchO(m, f, []);
    CollectThree(m, e, l, X(), O(), O());
    CollectThree(m, e, l, O(), X(), O());
    CollectThree(m, e, l, O(), O(), X());
    CollectThree(m, e.(bag := l), [], O(), O(), O());
    CollectThree(m, f, [], O(), O(), O());
  }

  // ---------------------------------------------------------------- the offers there are

  lemma ThreeOffers(x: Item, o: Item, g: Gatherer, s: seq<Item>)
    requires AllAtOnce([x, o, o], g) && IsGathered([x, o, o], g, s)
    ensures s in {[x, o, o], [o, x, o], [o, o, x]}
  {
    hide Collects, TimeOf;
    var items := [x, o, o];
    var order: seq<int> :| IsGatherOrder(items, g, order) && s == Pick(items, order);
    assert Collects(g, items[0]) && Collects(g, items[1]) && Collects(g, items[2]);
    assert 0 in order && 1 in order && 2 in order;
    assert ElementsOf(order) == {0, 1, 2};
    DistinctElements(order);
    assert s == [items[order[0]], items[order[1]], items[order[2]]];
  }

  function ElementsOf(order: seq<int>): set<int> {
    set k | 0 <= k < |order| :: order[k]
  }

  lemma ElementsWithLast(init: seq<int>, x: int)
    ensures ElementsOf(init + [x]) == ElementsOf(init) + {x}
  {
    forall y | y in ElementsOf(init) + {x} ensures y in ElementsOf(init + [x]) {
      var k := if y == x then |init| else (var i :| 0 <= i < |init| && init[i] == y; i);
      assert (init + [x])[k] == y;
    }
  }

  lemma {:induction false} DistinctElements(order: seq<int>)
    requires forall k, l :: 0 <= k < l < |order| ==> order[k] != order[l]
    ensures |ElementsOf(order)| == |order|
  {
    if order != [] {
      var n := |order| - 1;
      assert order == order[..n] + [order[n]];
      assert order[n] !in ElementsOf(order[..n]);
      DistinctElements(order[..n]);
      hide ElementsOf;
      ElementsWithLast(order[..n], order[n]);
    }
  }

  lemma TwoOffers(o: Item, g: Gatherer, s: seq<Item>)
    requires AllAtOnce([o, o], g) && IsGathered([o, o], g, s)
    ensures s == [o, o]
  {
    hide Collects, TimeOf;
    var items := [o, o];
    var order: seq<int> :| IsGatherOrder(items, g, order) && s == Pick(items, order);
    assert Collects(g, items[0]) && Collects(g, items[1]);
    assert 0 in order && 1 in order;
    assert ElementsOf(order) == {0, 1};
    DistinctElements(order);
  }

  // ---------------------------------------------------------------- both ticks

  /** One tick past the corner's near side, whatever the dog is offered. */
  lemma CornerFirst(n: nat, s1: seq<Item>)
    ensures var m, w := CornerMap(n), CornerSweep();
            var w1 := MoveOne(m, w, 0, 1000, s1);
            && MoveOf(m, w, 0, 1000).1 == Some(CornerWay(0.0, 1.0))
            && MoveOf(m, w1, 0, 1000).1 == Some(CornerWay(1.0, 2.0))
            && GoesTwice(m, w, 0, 1000, 1000, s1)
            && w1.loots == Collect(m, FullDog().(idleTime := 0), [CornerLoot()], s1).1
  {
    hide FullDog, CornerSweep, CornerMap, CornerWay, Advance, MoveOf, MoveOne, Collect, Ready;
    var m, w, d := CornerMap(n), CornerSweep(), FullDog();
    FullDogFacts(n);
    CornerTurn(n, w, 0.0, 1000);
    TurnCollects(m, w, 0, 1000, s1);
    CollectKeepsMotion(m, d.(idleTime := 0), w.loots, s1);
    CornerTurn(n, MoveOne(m, w, 0, 1000, s1), 1.0, 1000);
  }

  /** The two ticks past the corner are one tick with both offers. */
  lemma CornerBoth(n: nat, s1: seq<Item>, s2: seq<Item>)
    ensures var m, w := CornerMap(n), CornerSweep();
            && MoveOf(m, w, 0, 2000).1 == Some(CornerWay(0.0, 2.0))
            && GoesTwice(m, w, 0, 1000, 1000, s1)
            && MoveOne(m, MoveOne(m, w, 0, 1000, s1), 0, 1000, s2) == MoveOne(m, w, 0, 2000, s1 + s2)
  {
    hide FullDog, CornerSweep, CornerMap, CornerWay, Advance, MoveOf, MoveOne, CutHarmless, OnRoad, AxisParallel, Ready,
         CutInTwo;
    CornerFirst(n, s1);
    CornerHarmless(n);
    FullDogFacts(n);
    CornerTurn(n, CornerSweep(), 0.0, 2000);
    var s := TurnsCut(CornerMap(n), CornerSweep(), 0, 1000, 1000, s1, s2);
  }

  lemma CornerHarmless(n: nat)
    ensures var m, d := CornerMap(n), FullDog();
            OnRoad(m.roads, d.motion) && AxisParallel(d.motion.speed) && CutHarmless(m.roads, d.motion, 1000, 1000)
  {
    var d := FullDog();
    assert EvaluateNewPosition(d.motion, 1000) == Point(1.0, 0.0);
  }

  /** Loot and one office at the joint of two ticks of a second each: the dog is offered both
      twice and delivers the loot, which no tick of two seconds lets it do. */
  lemma TouchedAtJoint() returns (r: Sweep)
    ensures TwoTicksTo(CornerMap(1), CornerSweep(), 0, 1000, 1000, [X(), O()], [X(), O()], r)
    ensures |r.players| == 1 && CornerLoot() in r.players[0].dog.delivered
    ensures forall offer, r' :: OneTickTo(CornerMap(1), CornerSweep(), 0, 2000, offer, r') ==>
              |r'.players| == 1 && r'.players[0].dog.delivered == FullDog().bag
  {
    hide FullDog, CornerSweep, CornerMap, CornerWay, CornerLoot, X, O, MoveOf, MoveOne, Collect, Ready, ItemsOf,
         IsGathered, AllAtOnce, CutInTwo, OneOfficeAtJoint, MixedEnd, OneTickTo, PassedToOffice, BagFull;
    var m, w, d := CornerMap(1), CornerSweep(), FullDog().(idleTime := 0);
    var items := [X(), O()];
    FullDogFacts(1);
    CornerItems();
    CornerFirst(1, items);
    CornerBoth(1, items, items);
    CornerAllAtOnce(items, CornerWay(0.0, 1.0));
    CornerAllAtOnce(items, CornerWay(1.0, 2.0));
    InListOrder(items, CornerWay(0.0, 1.0));
    InListOrder(items, CornerWay(1.0, 2.0));
    CornerOffers(m, d);
    CornerOffersEmpty(m, PassedToOffice(m, d));
    CollectSplits(m, d, w.loots, items, items);
    r := MoveOne(m, w, 0, 2000, items + items);
    DeliveredInTurn(m, w, 0, 2000, items + items);
    forall offer, r' | OneTickTo(m, w, 0, 2000, offer, r')
      ensures |r'.players| == 1 && r'.players[0].dog.delivered == FullDog().bag
    {
      CornerWhole(offer, r');
    }
  }

  lemma InListOrder(items: seq<Item>, g: Gatherer)
    requires |items| == 2 && AllAtOnce(items, g)
    ensures IsGathered(items, g, items)
  {
    hide AllAtOnce;
    AnyOrder(items, g, [0, 1]);
    assert items == Pick(items, [0, 1]);
  }

  lemma BothAtEnd(items: seq<Item>, g1: Gatherer, g2: Gatherer)
    requires |items| == 2 && items[0].kind == ItemType.Loot && items[1].kind == ItemType.Office
    requires AtEnd(g1, items[0]) && AtEnd(g1, items[1])
    ensures OneOfficeAtJoint(items, g1, g2) && MixedEnd(items, g1)
  {
    hide Collects, TimeOf, AtEnd;
  }

  /** In one tick past one office the dog delivers what it carries and no more. */
  lemma CornerWhole(offer: seq<Item>, r: Sweep)
    requires OneTickTo(CornerMap(1), CornerSweep(), 0, 2000, offer, r)
    ensures |r.players| == 1 && r.players[0].dog.delivered == FullDog().bag
  {
    hide FullDog, CornerSweep, CornerLoot, CornerMap, X, O, CornerWay, MoveOf, MoveOne, Collect, IsGathered,
         OneOfficeAtJoint, MixedEnd, AtEnd, CutInTwo, ItemsOf, Ready, AsSize;
    var m, w, d := CornerMap(1), CornerSweep(), FullDog().(idleTime := 0);
    FullDogFacts(1);
    CornerItems();
    CornerReached(X());
    CornerReached(O());
    BothAtEnd([X(), O()], CornerWay(0.0, 1.0), CornerWay(1.0, 2.0));
    CornerCut();
    CornerBoth(1, [], []);
    WholeDeliversOnce(m, d, w.loots, 0.5, CornerWay(0.0, 2.0), CornerWay(0.0, 1.0), CornerWay(1.0, 2.0), offer);
    DeliveredInTurn(m, w, 0, 2000, offer);
  }

  // ---------------------------------------------------------------- two offices

  /** With two offices at the corner, any two offers have the effect of one. */
  lemma TwoOfficesOffers(m: Map, d: DogView, g1: Gatherer, g2: Gatherer, s1: seq<Item>, s2: seq<Item>)
    returns (whole: seq<Item>)
    requires m == CornerMap(2) && Kinds(m, d, [CornerLoot()]) && d.bagCapacity == 1 && d.bag != []
    requires g1 == CornerWay(0.0, 1.0) && g2 == CornerWay(1.0, 2.0)
    requires IsGathered(ItemsOf(m, [CornerLoot()]), g1, s1)
    requires IsGathered(ItemsOf(m, Collect(m, d, [CornerLoot()], s1).1), g2, s2)
    ensures whole in {[O(), X(), O()], [O(), O(), X()]}
    ensures Collect(m, d, [CornerLoot()], whole) == Collect(m, d, [CornerLoot()], s1 + s2)
  {
    hide CornerMap, CornerLoot, X, O, CornerWay, Collect, IsGathered, ItemsOf, AllAtOnce, PassedToOffice;
    var l := [CornerLoot()];
    FullDogFacts(2);
    CornerItems();
    CornerAllAtOnce([X(), O(), O()], g1);
    CornerAllAtOnce([X(), O(), O()], g2);
    CornerAllAtOnce([O(), O()], g2);
    ThreeOffers(X(), O(), g1, s1);
    var e := PassedToOffice(m, d);
    CornerOffers(m, d);
    CornerOffersEmpty(m, e);
    CollectSplits(m, d, l, s1, s2);
    if s1 == [X(), O(), O()] {
      ThreeOffers(X(), O(), g2, s2);
      whole := if s2 == [O(), O(), X()] then [O(), O(), X()] else [O(), X(), O()];
    } else {
      TwoOffers(O(), g2, s2);
      whole := [O(), X(), O()];
    }
  }

  /** With two offices at the corner the cut is hidden, even from a full bag and with loot and
      offices touched at the joint; so the condition on the offices in CutHiddenIff matters. */
  lemma TwoOfficesHideCut()
    ensures var m, w := CornerMap(2), CornerSweep();
            && MoveOf(m, w, 0, 1000).1.Some? && MixedEnd(ItemsOf(m, w.loots), MoveOf(m, w, 0, 1000).1.value)
            && BagFull(w.players[0].dog) && AsSize(w.players[0].dog.bagCapacity) > 0
            && CutHidden(m, w, 0, 1000, 1000)
  {
    hide FullDog, CornerSweep, CornerLoot, CornerMap, X, O, CornerWay, MoveOf, MoveOne, Collect, IsGathered, MixedEnd,
         ItemsOf, Ready, TwoTicksTo, InOneTick, BagFull;
    var m, w := CornerMap(2), CornerSweep();
    FullDogFacts(2);
    CornerItems();
    CornerMixed();
    CornerFirst(2, []);
    forall s1, s2, r | TwoTicksTo(m, w, 0, 1000, 1000, s1, s2, r) ensures InOneTick(m, w, 0, 2000, r) {
      TwoOfficesOutcome(s1, s2, r);
    }
  }

  lemma CornerMixed()
    ensures MixedEnd([X(), O(), O()], CornerWay(0.0, 1.0))
  {
    hide X, O, CornerWay, AtEnd, ItemsOf;
    CornerItems();
    CornerReached(X());
    CornerReached(O());
    var items := [X(), O(), O()];
    assert AtEnd(CornerWay(0.0, 1.0), items[0]) && AtEnd(CornerWay(0.0, 1.0), items[1]);
  }

  lemma TwoOfficesOutcome(s1: seq<Item>, s2: seq<Item>, r: Sweep)
    requires TwoTicksTo(CornerMap(2), CornerSweep(), 0, 1000, 1000, s1, s2, r)
    ensures InOneTick(CornerMap(2), CornerSweep(), 0, 2000, r)
  {
    hide FullDog, CornerSweep, CornerLoot, CornerMap, X, O, CornerWay, MoveOf, MoveOne, Collect, IsGathered, ItemsOf,
         Ready, AllAtOnce;
    var m, w, d := CornerMap(2), CornerSweep(), FullDog().(idleTime := 0);
    var items, g := [X(), O(), O()], CornerWay(0.0, 2.0);
    FullDogFacts(2);
    CornerItems();
    CornerFirst(2, s1);
    CornerBoth(2, s1, s2);
    var whole := TwoOfficesOffers(m, d, CornerWay(0.0, 1.0), CornerWay(1.0, 2.0), s1, s2);
    CornerAllAtOnce(items, g);
    AnyOrder(items, g, [1, 0, 2]);
    AnyOrder(items, g, [1, 2, 0]);
    assert Pick(items, [1, 0, 2]) == [O(), X(), O()] && Pick(items, [1, 2, 0]) == [O(), O(), X()];
    TurnsAlike(m, w, 0, 2000, whole, s1 + s2);
    assert OneTickTo(m, w, 0, 2000, whole, r);
  }
}
