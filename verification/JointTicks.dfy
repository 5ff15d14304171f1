/** When cutting a tick in two shows: loot and office touched together at the joint. */
module JointTicks {
  import opened DataTypes
  import opened MapModel
  import opened CollisionDetector
  import opened Dogs
  import opened SessionModel
  import opened GreedyBag
  import opened SplitTicks

  // ---------------------------------------------------------------- an order with ties by index

  /** Items reached at the same time come in the order of the list. */
  ghost predicate Stable(items: seq<Item>, g: Gatherer, order: seq<int>)
    requires OnlyCollected(items, g, order)
  {
    forall k, l :: 0 <= k < l < |order| && TimeOf(g, items[order[k]]) == TimeOf(g, items[order[l]]) ==> order[k] < order[l]
  }

  /** What is collected of the first n items, in order of time and then of the list. */
  ghost predicate IsStableOrder(items: seq<Item>, g: Gatherer, order: seq<int>, n: nat) {
    && OnlyCollected(items, g, order) && InTimeOrder(items, g, order) && Stable(items, g, order)
    && (forall k :: 0 <= k < |order| ==> order[k] < n)
    && (forall j :: 0 <= j < n && j < |items| && Collects(g, items[j]) ==> j in order)
  }

  lemma {:induction false} StableOrder(items: seq<Item>, g: Gatherer, n: nat) returns (order: seq<int>)
    requires n <= |items|
    ensures IsStableOrder(items, g, order, n)
  {
    hide Collects, TimeOf;
    if n == 0 {
      order := [];
    } else {
      var before := StableOrder(items, g, n - 1);
      if Collects(g, items[n - 1]) {
        var k := LaterThan(items, g, before, TimeOf(g, items[n - 1]));
        order := Inserted(before, n - 1, k);
        InsertKeepsStable(items, g, before, n - 1, k);
      } else {
        order := before;
      }
    }
  }

  function Inserted(before: seq<int>, n: nat, k: nat): (r: seq<int>)
    requires k <= |before|
    ensures |r| == |before| + 1
    ensures forall i :: 0 <= i < |r| ==> r[i] == if i < k then before[i] else if i == k then n else before[i - 1]
  {
    before[..k] + [n] + before[k..]
  }

  /** Two positions after the insertion, in terms of those before. */
  lemma InsertedPair(items: seq<Item>, g: Gatherer, before: seq<int>, n: nat, k: nat, i: nat, j: nat)
    requires n < |items| && IsStableOrder(items, g, before, n) && Collects(g, items[n]) && k <= |before|
    requires forall i :: 0 <= i < k ==> TimeOf(g, items[before[i]]) <= TimeOf(g, items[n])
    requires forall i :: k <= i < |before| ==> TimeOf(g, items[before[i]]) > TimeOf(g, items[n])
    requires i < j < |Inserted(before, n, k)|
    ensures var order := Inserted(before, n, k);
            && 0 <= order[i] <= n && 0 <= order[j] <= n && order[i] != order[j]
            && Collects(g, items[order[i]]) && Collects(g, items[order[j]])
            && TimeOf(g, items[order[i]]) <= TimeOf(g, items[order[j]])
            && (TimeOf(g, items[order[i]]) == TimeOf(g, items[order[j]]) ==> order[i] < order[j])
  {
    hide Collects, TimeOf;
    if j < k {
      assert before[i] != before[j];
    } else if i > k {
      assert before[i - 1] != before[j - 1];
    } else if i < k < j {
      assert before[i] != before[j - 1];
    }
  }

  lemma InsertedHas(items: seq<Item>, g: Gatherer, before: seq<int>, n: nat, k: nat, j: nat)
    requires n < |items| && IsStableOrder(items, g, before, n) && k <= |before|
    requires j <= n && Collects(g, items[j])
    ensures j in Inserted(before, n, k)
  {
    hide Collects, TimeOf;
    var order := Inserted(before, n, k);
    if j < n {
      var i :| 0 <= i < |before| && before[i] == j;
      assert order[if i < k then i else i + 1] == j;
    } else {
      assert order[k] == j;
    }
  }

  lemma InsertKeepsStable(items: seq<Item>, g: Gatherer, before: seq<int>, n: nat, k: nat)
    requires n < |items| && IsStableOrder(items, g, before, n) && Collects(g, items[n]) && k <= |before|
    requires forall i :: 0 <= i < k ==> TimeOf(g, items[before[i]]) <= TimeOf(g, items[n])
    requires forall i :: k <= i < |before| ==> TimeOf(g, items[before[i]]) > TimeOf(g, items[n])
    ensures IsStableOrder(items, g, Inserted(before, n, k), n + 1)
  {
    var order := Inserted(before, n, k);
    assert forall i :: 0 <= i < |order| ==> 0 <= order[i] <= n && Collects(g, items[order[i]]);
    hide Collects, TimeOf, IsStableOrder;
    forall j | 0 <= j <= n && Collects(g, items[j]) ensures j in order {
      InsertedHas(items, g, before, n, k, j);
    }
    forall i, j | 0 <= i < j < |order|
      ensures order[i] != order[j] && TimeOf(g, items[order[i]]) <= TimeOf(g, items[order[j]])
      ensures TimeOf(g, items[order[i]]) == TimeOf(g, items[order[j]]) ==> order[i] < order[j]
    {
      InsertedPair(items, g, before, n, k, i, j);
    }
    IsStableFrom(items, g, order, n + 1);
  }

  lemma IsStableFrom(items: seq<Item>, g: Gatherer, order: seq<int>, n: nat)
    requires OnlyCollected(items, g, order) && forall i :: 0 <= i < |order| ==> order[i] < n
    requires forall j :: 0 <= j < n && j < |items| && Collects(g, items[j]) ==> j in order
    requires forall i, j :: 0 <= i < j < |order| ==>
               && order[i] != order[j] && TimeOf(g, items[order[i]]) <= TimeOf(g, items[order[j]])
               && (TimeOf(g, items[order[i]]) == TimeOf(g, items[order[j]]) ==> order[i] < order[j])
    ensures IsStableOrder(items, g, order, n)
  {
    hide Collects, TimeOf;
  }

  // ---------------------------------------------------------------- one office, at the joint

  /** The two parts of the way touch at most one office, and none but at the joint. */
  ghost predicate OneOfficeAtJoint(items: seq<Item>, g1: Gatherer, g2: Gatherer) {
    && (forall j :: 0 <= j < |items| && OfficeOnWay(items[j], g1, g2) ==> AtEnd(g1, items[j]))
    && (forall i, j :: 0 <= i < j < |items| ==> !(OfficeOnWay(items[i], g1, g2) && OfficeOnWay(items[j], g1, g2)))
  }

  predicate OfficeOnWay(item: Item, g1: Gatherer, g2: Gatherer) {
    item.kind == ItemType.Office && (Collects(g1, item) || Collects(g2, item))
  }

  lemma KindByIndex(m: Map, loots: seq<LootInfo>, j: nat)
    requires j < |ItemsOf(m, loots)|
    ensures ItemsOf(m, loots)[j].kind == if j < |loots| then ItemType.Loot else ItemType.Office
    ensures j < |loots| ==> ItemsOf(m, loots)[j].id == loots[j].id && OnFloor(loots, loots[j].id)
  {
    assert j < |loots| ==> FindLoot(loots, loots[j].id) <= j;
  }

  /** The offer holds one office, at position q, and otherwise loot. */
  predicate OneOfficeAt(offer: seq<Item>, q: nat) {
    && q < |offer| && offer[q].kind == ItemType.Office
    && AllOfKind(offer[..q], ItemType.Loot) && AllOfKind(offer[q + 1..], ItemType.Loot)
  }

  /** Any sweep over the way offers the office once. */
  lemma OfficeOnce(m: Map, loots: seq<LootInfo>, g: Gatherer, g1: Gatherer, g2: Gatherer, order: seq<int>, j: nat)
    returns (q: nat)
    requires IsGatherOrder(ItemsOf(m, loots), g, order)
    requires forall item :: Collects(g, item) ==> Collects(g1, item) || Collects(g2, item)
    requires OneOfficeAtJoint(ItemsOf(m, loots), g1, g2)
    requires j < |ItemsOf(m, loots)| && ItemsOf(m, loots)[j].kind == ItemType.Office && Collects(g, ItemsOf(m, loots)[j])
    ensures q < |order| && order[q] == j && OneOfficeAt(Pick(ItemsOf(m, loots), order), q)
    ensures forall k :: 0 <= k < |order| && k != q ==> ItemsOf(m, loots)[order[k]].kind == ItemType.Loot
  {
    var items := ItemsOf(m, loots);
    hide Collects, TimeOf, ItemsOf, AtEnd;
    assert j in order;
    q :| 0 <= q < |order| && order[q] == j;
    forall k | 0 <= k < |order| && k != q ensures items[order[k]].kind == ItemType.Loot {
      assert order[k] != j;
      assert Collects(g, items[order[k]]);
      assert OfficeOnWay(items[j], g1, g2);
      assert !OfficeOnWay(items[order[k]], g1, g2);
    }
  }

  // ---------------------------------------------------------------- what is delivered

  /** Without an office nothing is delivered and the bag does not shrink. */
  lemma {:induction false} LootOnlyFills(m: Map, d: DogView, loots: seq<LootInfo>, items: seq<Item>)
    requires Kinds(m, d, loots) && AllOfKind(items, ItemType.Loot)
    ensures var d' := Collect(m, d, loots, items).0;
            d'.delivered == d.delivered && |d'.bag| >= |d.bag|
    decreases |items|
  {
    if items != [] {
      var (d', loots') := CollectOne(m, d, loots, items[0]);
      LootOnlyFills(m, d', loots', items[1..]);
    }
  }

  lemma SomethingTaken(m: Map, d: DogView, loots: seq<LootInfo>, items: seq<Item>)
    requires Kinds(m, d, loots) && AllOfKind(items, ItemType.Loot)
    requires items != [] && OnFloor(loots, items[0].id) && !BagFull(d)
    ensures |Collect(m, d, loots, items).0.bag| > 0
  {
    var (d', loots') := CollectOne(m, d, loots, items[0]);
    LootOnlyFills(m, d', loots', items[1..]);
  }

  lemma OfficeEmptiesBag(m: Map, d: DogView, floor: seq<LootInfo>, office: Item)
    requires Kinds(m, d, floor) && office.kind == ItemType.Office
    ensures var (d', floor') := CollectOne(m, d, floor, office);
            d'.bag == [] && d'.delivered == d.delivered + d.bag && d'.bagCapacity == d.bagCapacity && floor' == floor
  {}

  /** What a dog has after an offer with one office: delivered is the bag it came with. */
  lemma DeliversOnce(m: Map, d: DogView, loots: seq<LootInfo>, offer: seq<Item>, q: nat)
    requires Kinds(m, d, loots) && OneOfficeAt(offer, q)
    ensures var (d1, floor1) := Collect(m, d, loots, offer[..q]);
            Collect(m, d, loots, offer).0.delivered == d1.delivered + d1.bag
  {
    hide Collect, CollectOne;
    var (d1, floor1) := Collect(m, d, loots, offer[..q]);
    var (d2, floor2) := CollectOne(m, d1, floor1, offer[q]);
    OfficeEmptiesBag(m, d1, floor1, offer[q]);
    LootOnlyFills(m, d2, floor2, offer[q + 1..]);
    assert offer == offer[..q] + [offer[q]] + offer[q + 1..];
    CollectLast(m, d, loots, offer[..q], offer[q]);
    CollectSplits(m, d, loots, offer[..q] + [offer[q]], offer[q + 1..]);
  }

  /** A dog that comes with a full bag delivers just that. */
  lemma FullBagDeliversOnce(m: Map, d: DogView, loots: seq<LootInfo>, offer: seq<Item>, q: nat)
    requires Kinds(m, d, loots) && BagFull(d) && OneOfficeAt(offer, q)
    ensures Collect(m, d, loots, offer).0.delivered == d.delivered + d.bag
  {
    FullBagRefuses(m, d, loots, offer[..q]);
    DeliversOnce(m, d, loots, offer, q);
  }

  /** Offered loot, then the office, then loot and office again, it delivers more. */
  lemma FullBagDeliversMore(m: Map, d: DogView, loots: seq<LootInfo>, s1: seq<Item>, s2: seq<Item>, q: nat)
    requires Kinds(m, d, loots) && BagFull(d) && AsSize(d.bagCapacity) > 0
    requires s1 != [] && OneOfficeAt(s1, |s1| - 1)
    requires OneOfficeAt(s2, q) && q > 0 && OnFloor(loots, s2[0].id)
    ensures Collect(m, d, loots, s1).1 == loots
    ensures |Collect(m, d, loots, s1 + s2).0.delivered| > |d.delivered| + |d.bag|
  {
    var n := |s1| - 1;
    var (d1, floor1) := Collect(m, d, loots, s1);
    FullBagRefuses(m, d, loots, s1[..n]);
    CollectLast(m, d, loots, s1[..n], s1[n]);
    assert s1 == s1[..n] + [s1[n]];
    OfficeEmptiesBag(m, d, loots, s1[n]);
    assert d1.bag == [] && d1.delivered == d.delivered + d.bag && floor1 == loots && !BagFull(d1);
    SomethingTaken(m, d1, loots, s2[..q]);
    LootOnlyFills(m, d1, loots, s2[..q]);
    hide Collect, CollectOne, OneOfficeAt;
    DeliversOnce(m, d1, loots, s2, q);
    CollectSplits(m, d, loots, s1, s2);
  }

  // ---------------------------------------------------------------- offers that show the cut

  /** In the first part the office comes last, after all loot. */
  lemma OfficeLast(m: Map, loots: seq<LootInfo>, g1: Gatherer, g2: Gatherer, order: seq<int>)
    requires IsGatherOrder(ItemsOf(m, loots), g1, order) && Stable(ItemsOf(m, loots), g1, order)
    requires OneOfficeAtJoint(ItemsOf(m, loots), g1, g2) && MixedEnd(ItemsOf(m, loots), g1)
    ensures order != [] && OneOfficeAt(Pick(ItemsOf(m, loots), order), |order| - 1)
  {
    var items := ItemsOf(m, loots);
    var i, j :| && 0 <= i < |items| && AtEnd(g1, items[i]) && items[i].kind == ItemType.Loot
                && 0 <= j < |items| && AtEnd(g1, items[j]) && items[j].kind == ItemType.Office;
    var q := OfficeOnce(m, loots, g1, g1, g2, order, j);
    OfficesAfter(m, loots, g1, order, q, |order| - 1);
  }

  /** Nothing but offices comes after an office at the end. */
  lemma OfficesAfter(m: Map, loots: seq<LootInfo>, g: Gatherer, order: seq<int>, q: nat, l: nat)
    requires IsGatherOrder(ItemsOf(m, loots), g, order) && Stable(ItemsOf(m, loots), g, order)
    requires q <= l < |order|
    requires AtEnd(g, ItemsOf(m, loots)[order[q]]) && ItemsOf(m, loots)[order[q]].kind == ItemType.Office
    ensures ItemsOf(m, loots)[order[l]].kind == ItemType.Office
  {
    var items := ItemsOf(m, loots);
    assert Collects(g, items[order[l]]);
    assert q < l ==> TimeOf(g, items[order[q]]) <= TimeOf(g, items[order[l]]);
    NeverAfterEnd(g, items[order[l]]);
    KindByIndex(m, loots, order[q]);
    KindByIndex(m, loots, order[l]);
  }

  lemma NeverAfterEnd(g: Gatherer, item: Item)
    requires Collects(g, item)
    ensures 0.0 <= TimeOf(g, item) <= 1.0
  {
    hide TryCollectPoint, Moved;
  }

  /** In the second part loot at the joint comes before the office. */
  lemma LootFirst(m: Map, loots: seq<LootInfo>, g: Gatherer, g1: Gatherer, g2: Gatherer, s: real, order: seq<int>)
    returns (q: nat)
    requires CutInTwo(g, g1, g2, s)
    requires IsGatherOrder(ItemsOf(m, loots), g2, order) && Stable(ItemsOf(m, loots), g2, order)
    requires OneOfficeAtJoint(ItemsOf(m, loots), g1, g2) && MixedEnd(ItemsOf(m, loots), g1)
    ensures var offer := Pick(ItemsOf(m, loots), order);
            0 < q < |offer| && OneOfficeAt(offer, q) && OnFloor(loots, offer[0].id)
  {
    var items := ItemsOf(m, loots);
    var i, j :| && 0 <= i < |items| && AtEnd(g1, items[i]) && items[i].kind == ItemType.Loot
                && 0 <= j < |items| && AtEnd(g1, items[j]) && items[j].kind == ItemType.Office;
    JointIsShared(g, g1, g2, s, items[i]);
    JointIsShared(g, g1, g2, s, items[j]);
    KindByIndex(m, loots, i);
    KindByIndex(m, loots, j);
    hide ItemsOf, Collects, TimeOf, CutInTwo, MixedEnd, AtEnd;
    q := OfficeOnce(m, loots, g2, g1, g2, order, j);
    var p :| 0 <= p < |order| && order[p] == i;
    assert p < q;
    assert Pick(items, order)[..q][0].kind == ItemType.Loot;
    KindByIndex(m, loots, order[0]);
  }

  // ---------------------------------------------------------------- outcomes

  /** r is an outcome of one tick of the dog, with this offer. */
  ghost predicate OneTickTo(m: Map, w: Sweep, k: nat, deltaTime: int, offer: seq<Item>, r: Sweep)
    requires Ready(m, w) && k < |w.players|
  {
    && MoveOf(m, w, k, deltaTime).1.Some?
    && IsGathered(ItemsOf(m, w.loots), MoveOf(m, w, k, deltaTime).1.value, offer)
    && r == MoveOne(m, w, k, deltaTime, offer)
  }

  /** r is an outcome of one tick of the dog. */
  ghost predicate InOneTick(m: Map, w: Sweep, k: nat, deltaTime: int, r: Sweep)
    requires Ready(m, w) && k < |w.players|
  {
    exists offer :: OneTickTo(m, w, k, deltaTime, offer, r)
  }

  /** r is an outcome of two ticks that both take the dog somewhere, with these offers. */
  ghost predicate TwoTicksTo(m: Map, w: Sweep, k: nat, t: nat, u: nat, s1: seq<Item>, s2: seq<Item>, r: Sweep)
    requires Ready(m, w) && k < |w.players|
  {
    && GoesTwice(m, w, k, t, u, s1) && Offered(m, w, k, t, u, s1, s2)
    && r == MoveOne(m, MoveOne(m, w, k, t, s1), k, u, s2)
  }

  /** Every outcome of the two ticks is one of the whole tick. */
  ghost predicate CutHidden(m: Map, w: Sweep, k: nat, t: nat, u: nat)
    requires Ready(m, w) && k < |w.players|
  {
    forall s1, s2, r :: TwoTicksTo(m, w, k, t, u, s1, s2, r) ==> InOneTick(m, w, k, t + u, r)
  }

  /** The way of the second tick does not depend on what the first one was offered. */
  lemma SecondGatherer(m: Map, w: Sweep, k: nat, t: nat, u: nat, s1: seq<Item>)
    requires Ready(m, w) && k < |w.players| && GoesTwice(m, w, k, t, u, [])
    ensures GoesTwice(m, w, k, t, u, s1)
    ensures MoveOf(m, MoveOne(m, w, k, t, s1), k, u).1 == MoveOf(m, MoveOne(m, w, k, t, []), k, u).1
  {
    var d, w0, w1 := w.players[k].dog, MoveOne(m, w, k, t, []), MoveOne(m, w, k, t, s1);
    TurnCollects(m, w, k, t, []);
    TurnCollects(m, w, k, t, s1);
    CollectKeepsMotion(m, d.(idleTime := 0), w.loots, []);
    CollectKeepsMotion(m, d.(idleTime := 0), w.loots, s1);
    hide MoveOf, MoveOne, Advance, Collect;
    TurnGathers(m, w0, k, u);
    TurnGathers(m, w1, k, u);
    TurnCollects(m, w0, k, u, []);
    TurnCollects(m, w1, k, u, []);
  }

  lemma DeliveredInTurn(m: Map, w: Sweep, k: nat, deltaTime: int, offer: seq<Item>)
    requires Ready(m, w) && k < |w.players| && MoveOf(m, w, k, deltaTime).1.Some?
    ensures MoveOne(m, w, k, deltaTime, offer).players[k].dog.delivered ==
            Collect(m, w.players[k].dog.(idleTime := 0), w.loots, offer).0.delivered
  {
    hide MoveOf, MoveOne, Advance, Collect;
    TurnCollects(m, w, k, deltaTime, offer);
  }

  /** The dog comes with a full bag, on a way with at most one office, which is at the joint. */
  ghost predicate FullWithOneOffice(m: Map, w: Sweep, k: nat, t: nat, u: nat)
    requires Ready(m, w) && k < |w.players| && GoesTwice(m, w, k, t, u, [])
  {
    && BagFull(w.players[k].dog) && AsSize(w.players[k].dog.bagCapacity) > 0
    && OneOfficeAtJoint(ItemsOf(m, w.loots), MoveOf(m, w, k, t).1.value,
                        MoveOf(m, MoveOne(m, w, k, t, []), k, u).1.value)
  }

  /** In one tick such a dog delivers what it came with and no more. */
  lemma WholeDeliversOnce(m: Map, d: DogView, loots: seq<LootInfo>, s: real,
                          g: Gatherer, g1: Gatherer, g2: Gatherer, offer: seq<Item>)
    requires Kinds(m, d, loots) && BagFull(d) && CutInTwo(g, g1, g2, s)
    requires OneOfficeAtJoint(ItemsOf(m, loots), g1, g2) && MixedEnd(ItemsOf(m, loots), g1)
    requires IsGathered(ItemsOf(m, loots), g, offer)
    ensures Collect(m, d, loots, offer).0.delivered == d.delivered + d.bag
  {
    var items := ItemsOf(m, loots);
    hide ItemsOf, Collects, TimeOf, CutInTwo, Collect;
    var order: seq<int> :| IsGatherOrder(items, g, order) && offer == Pick(items, order);
    var j :| 0 <= j < |items| && AtEnd(g1, items[j]) && items[j].kind == ItemType.Office;
    forall item ensures Collects(g, item) <==> Collects(g1, item) || Collects(g2, item) {
      PartsCollect(g, g1, g2, s, item);
    }
    var q := OfficeOnce(m, loots, g, g1, g2, order, j);
    FullBagDeliversOnce(m, d, loots, offer, q);
  }

  /** Offers for the two parts by which the dog delivers more than it came with. */
  lemma TellingOffers(m: Map, d: DogView, loots: seq<LootInfo>, s: real, g: Gatherer, g1: Gatherer, g2: Gatherer)
    returns (s1: seq<Item>, s2: seq<Item>)
    requires Kinds(m, d, loots) && BagFull(d) && AsSize(d.bagCapacity) > 0 && CutInTwo(g, g1, g2, s)
    requires OneOfficeAtJoint(ItemsOf(m, loots), g1, g2) && MixedEnd(ItemsOf(m, loots), g1)
    ensures IsGathered(ItemsOf(m, loots), g1, s1) && IsGathered(ItemsOf(m, loots), g2, s2)
    ensures Collect(m, d, loots, s1).1 == loots
    ensures |Collect(m, d, loots, s1 + s2).0.delivered| > |d.delivered| + |d.bag|
  {
    var items := ItemsOf(m, loots);
    hide ItemsOf, Collects, TimeOf, CutInTwo, Collect, OneOfficeAtJoint, MixedEnd;
    var order1 := StableOrder(items, g1, |items|);
    var order2 := StableOrder(items, g2, |items|);
    s1, s2 := Pick(items, order1), Pick(items, order2);
    OfficeLast(m, loots, g1, g2, order1);
    var q := LootFirst(m, loots, g, g1, g2, s, order2);
    hide OneOfficeAt;
    FullBagDeliversMore(m, d, loots, s1, s2, q);
  }

  /** In r the dog has delivered more than it had delivered and carried in w. */
  predicate DeliversMore(w: Sweep, k: nat, r: Sweep)
    requires k < |w.players|
  {
    && |r.players| == |w.players|
    && |r.players[k].dog.delivered| > |w.players[k].dog.delivered| + |w.players[k].dog.bag|
  }

  lemma TurnDeliversMore(m: Map, w: Sweep, k: nat, deltaTime: int, offer: seq<Item>)
    requires Ready(m, w) && k < |w.players| && MoveOf(m, w, k, deltaTime).1.Some?
    requires var d := w.players[k].dog.(idleTime := 0);
             |Collect(m, d, w.loots, offer).0.delivered| > |d.delivered| + |d.bag|
    ensures DeliversMore(w, k, MoveOne(m, w, k, deltaTime, offer))
  {
    hide MoveOf, MoveOne, Collect;
    DeliveredInTurn(m, w, k, deltaTime, offer);
  }

  /** An outcome in which the dog has delivered more than it came with is none of one tick. */
  lemma MoreThanOneTick(m: Map, w: Sweep, k: nat, deltaTime: int, s: real, g1: Gatherer, g2: Gatherer, r: Sweep)
    requires Ready(m, w) && k < |w.players| && BagFull(w.players[k].dog)
    requires MoveOf(m, w, k, deltaTime).1.Some? && CutInTwo(MoveOf(m, w, k, deltaTime).1.value, g1, g2, s)
    requires OneOfficeAtJoint(ItemsOf(m, w.loots), g1, g2) && MixedEnd(ItemsOf(m, w.loots), g1)
    requires DeliversMore(w, k, r)
    ensures !InOneTick(m, w, k, deltaTime, r)
  {
    hide MoveOf, MoveOne, CutInTwo, Collect, ItemsOf, IsGathered, OneOfficeAtJoint, MixedEnd;
    var d, g := w.players[k].dog.(idleTime := 0), MoveOf(m, w, k, deltaTime).1.value;
    forall offer ensures !OneTickTo(m, w, k, deltaTime, offer, r) {
      if IsGathered(ItemsOf(m, w.loots), g, offer) {
        WholeDeliversOnce(m, d, w.loots, s, g, g1, g2, offer);
        DeliveredInTurn(m, w, k, deltaTime, offer);
      }
    }
  }

  /** The offers for the two ticks of the dog by which it delivers more. */
  lemma TellingTurns(m: Map, w: Sweep, k: nat, t: nat, u: nat, s: real) returns (s1: seq<Item>, s2: seq<Item>)
    requires Ready(m, w) && k < |w.players| && GoesTwice(m, w, k, t, u, [])
    requires MoveOf(m, w, k, t + u).1.Some?
    requires CutInTwo(MoveOf(m, w, k, t + u).1.value, MoveOf(m, w, k, t).1.value,
                      MoveOf(m, MoveOne(m, w, k, t, []), k, u).1.value, s)
    requires FullWithOneOffice(m, w, k, t, u) && MixedEnd(ItemsOf(m, w.loots), MoveOf(m, w, k, t).1.value)
    ensures IsGathered(ItemsOf(m, w.loots), MoveOf(m, w, k, t).1.value, s1)
    ensures IsGathered(ItemsOf(m, w.loots), MoveOf(m, MoveOne(m, w, k, t, []), k, u).1.value, s2)
    ensures var d := w.players[k].dog.(idleTime := 0);
            && Collect(m, d, w.loots, s1).1 == w.loots
            && |Collect(m, d, w.loots, s1 + s2).0.delivered| > |d.delivered| + |d.bag|
  {
    var d := w.players[k].dog.(idleTime := 0);
    hide MoveOf, MoveOne, CutInTwo, Collect, ItemsOf, IsGathered, OneOfficeAtJoint, MixedEnd, AsSize;
    s1, s2 := TellingOffers(m, d, w.loots, s, MoveOf(m, w, k, t + u).1.value, MoveOf(m, w, k, t).1.value,
                            MoveOf(m, MoveOne(m, w, k, t, []), k, u).1.value);
  }

  /** If the first tick leaves the floor as it was, both offers are over the same floor. */
  lemma OfferedOnSameFloor(m: Map, w: Sweep, k: nat, t: nat, u: nat, s1: seq<Item>, s2: seq<Item>)
    requires Ready(m, w) && k < |w.players| && GoesTwice(m, w, k, t, u, [])
    requires Collect(m, w.players[k].dog.(idleTime := 0), w.loots, s1).1 == w.loots
    requires IsGathered(ItemsOf(m, w.loots), MoveOf(m, w, k, t).1.value, s1)
    requires IsGathered(ItemsOf(m, w.loots), MoveOf(m, MoveOne(m, w, k, t, []), k, u).1.value, s2)
    ensures GoesTwice(m, w, k, t, u, s1) && Offered(m, w, k, t, u, s1, s2)
  {
    hide MoveOf, MoveOne, Collect, ItemsOf, IsGathered;
    SecondGatherer(m, w, k, t, u, s1);
    FloorAfterTurn(m, w, k, t, s1);
  }

  /** With loot and office at the joint, some outcome of the two ticks is none of the whole. */
  lemma CutShows(m: Map, w: Sweep, k: nat, t: nat, u: nat) returns (s1: seq<Item>, s2: seq<Item>, r: Sweep)
    requires Ready(m, w) && k < |w.players| && UniqueIds(w.loots) && GoesTwice(m, w, k, t, u, [])
    requires var d := w.players[k].dog;
             OnRoad(m.roads, d.motion) && AxisParallel(d.motion.speed) && CutHarmless(m.roads, d.motion, t, u)
    requires FullWithOneOffice(m, w, k, t, u) && MixedEnd(ItemsOf(m, w.loots), MoveOf(m, w, k, t).1.value)
    ensures TwoTicksTo(m, w, k, t, u, s1, s2, r)
    ensures !InOneTick(m, w, k, t + u, r)
  {
    hide MoveOf, MoveOne, OnRoad, CutHarmless, AxisParallel, CutInTwo, Collect, ItemsOf, OneOfficeAtJoint, MixedEnd,
         UniqueIds, Offered, InOneTick, AsSize, DeliversMore;
    var s := TurnsCut(m, w, k, t, u, [], []);
    s1, s2 := TellingTurns(m, w, k, t, u, s);
    OfferedOnSameFloor(m, w, k, t, u, s1, s2);
    TurnDeliversMore(m, w, k, t + u, s1 + s2);
    var s' := TurnsCut(m, w, k, t, u, s1, s2);
    r := MoveOne(m, MoveOne(m, w, k, t, s1), k, u, s2);
    MoreThanOneTick(m, w, k, t + u, s, MoveOf(m, w, k, t).1.value,
                    MoveOf(m, MoveOne(m, w, k, t, []), k, u).1.value, r);
  }

  /** For a dog with a full bag, on a way with at most one office, at the joint if anywhere,
      the cut is hidden if and only if the joint does not touch both a loot and that office. */
  lemma CutHiddenIff(m: Map, w: Sweep, k: nat, t: nat, u: nat)
    requires Ready(m, w) && k < |w.players| && UniqueIds(w.loots) && GoesTwice(m, w, k, t, u, [])
    requires var d := w.players[k].dog;
             OnRoad(m.roads, d.motion) && AxisParallel(d.motion.speed) && CutHarmless(m.roads, d.motion, t, u)
    requires FullWithOneOffice(m, w, k, t, u)
    ensures CutHidden(m, w, k, t, u) <==> !MixedEnd(ItemsOf(m, w.loots), MoveOf(m, w, k, t).1.value)
  {
    hide MoveOf, MoveOne, OnRoad, CutHarmless, AxisParallel, ItemsOf, IsGathered, FullWithOneOffice, MixedEnd, UniqueIds;
    if MixedEnd(ItemsOf(m, w.loots), MoveOf(m, w, k, t).1.value) {
      var s1, s2, r := CutShows(m, w, k, t, u);
    } else {
      forall s1, s2, r | TwoTicksTo(m, w, k, t, u, s1, s2, r)
        ensures InOneTick(m, w, k, t + u, r)
      {
        var whole := SplitTickSameOutcome(m, w, k, t, u, s1, s2);
        assert OneTickTo(m, w, k, t + u, whole, r);
      }
    }
  }
}
