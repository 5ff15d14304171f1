/** What a dog reaches on its way and what becomes of it, in distances alone. */
module Harvest {
  import opened DataTypes
  import opened MapModel
  import opened CollisionDetector
  import opened Dogs
  import opened SessionModel
  import opened GreedyBag
  import opened SplitTicks
  import opened SessionRuns

  // ---------------------------------------------------------------- what is reached

  /** The foot of the perpendicular from p lies between a and b, its squared distance from p
      within the limit. */
  ghost predicate Passes(a: Point, b: Point, p: Point, limit: real) {
    exists t :: IsFoot(a, b, p, t) && 0.0 <= t <= 1.0 && Dist2(Along(a, b, t), p) <= limit
  }

  /** A gatherer collects an item if and only if it moved by more than 0.0000000001 on an axis
      and passes the item within the sum of the two widths. */
  lemma CollectsIff(g: Gatherer, item: Item)
    requires g.width + item.width >= 0.0
    ensures Collects(g, item) <==>
            && (Abs(g.startPos.x - g.endPos.x) > 0.0000000001 || Abs(g.startPos.y - g.endPos.y) > 0.0000000001)
            && Passes(g.startPos, g.endPos, item.position, (g.width + item.width) * (g.width + item.width))
  {
    hide TryCollectPoint, CollectionResult.IsCollected, IsFoot, Dist2, Along;
    if Moved(g, SWEEP_EPSILON) {
      CollectedIffFootOnSegment(g.startPos, g.endPos, item.position, g.width + item.width);
    }
  }

  /** The gathered items are exactly those collected. */
  lemma GatheredIff(items: seq<Item>, g: Gatherer, gathered: seq<Item>, item: Item)
    requires IsGathered(items, g, gathered)
    ensures item in gathered <==> item in items && Collects(g, item)
  {
    hide Collects, InTimeOrder;
    var order: seq<int> :| IsGatherOrder(items, g, order) && gathered == Pick(items, order);
    if item in gathered {
      var k :| 0 <= k < |gathered| && gathered[k] == item;
      assert items[order[k]] == item;
    }
    if item in items && Collects(g, item) {
      var j :| 0 <= j < |items| && items[j] == item;
      assert j in order;
      var k :| 0 <= k < |order| && order[k] == j;
      assert gathered[k] == item;
    }
  }

  ghost predicate HasLoot(items: seq<Item>, l: LootInfo) {
    exists item :: item in items && item.kind == ItemType.Loot && item.id == l.id && item.position == Point(l.x, l.y)
  }

  ghost predicate HasOffice(items: seq<Item>, p: Point) {
    exists item :: item in items && item.kind == ItemType.Office && item.position == p
  }

  /** Every item is a piece of loot of the floor or an office of the map. */
  lemma KindOfItem(m: Map, loots: seq<LootInfo>, item: Item)
    requires item in ItemsOf(m, loots)
    ensures item.kind == ItemType.Loot ==> exists k :: 0 <= k < |loots| && item == LootItem(loots[k])
    ensures item.kind == ItemType.Office ==> exists k :: 0 <= k < |m.offices| && item == OfficeItem(m.offices[k])
  {
    var i :| 0 <= i < |ItemsOf(m, loots)| && ItemsOf(m, loots)[i] == item;
    if i < |loots| {
      assert item == LootItem(loots[i]);
    } else {
      assert item == OfficeItem(m.offices[i - |loots|]);
    }
  }

  lemma ItemOfLoot(m: Map, loots: seq<LootInfo>, k: nat)
    requires k < |loots|
    ensures LootItem(loots[k]) in ItemsOf(m, loots)
  {
    assert ItemsOf(m, loots)[k] == LootItem(loots[k]);
  }

  lemma ItemOfOffice(m: Map, loots: seq<LootInfo>, k: nat)
    requires k < |m.offices|
    ensures OfficeItem(m.offices[k]) in ItemsOf(m, loots)
  {
    assert ItemsOf(m, loots)[|loots| + k] == OfficeItem(m.offices[k]);
  }

  /** The way of a dog in its turn. */
  ghost predicate IsWay(roads: seq<Road>, d: DogView, deltaTime: int, a: Point, b: Point) {
    && ValidRoad(roads, d.motion) && Goes(roads, d, deltaTime)
    && a == d.motion.position && b == MotionAfter(roads, d, deltaTime).position
  }

  lemma GathererOfWay(roads: seq<Road>, d: DogView, deltaTime: int, a: Point, b: Point)
    requires IsWay(roads, d, deltaTime, a, b)
    ensures MovedDog(roads, d, deltaTime).1 == Some(Gatherer(a, b, 0.6))
    ensures Abs(a.x - b.x) > 0.0000000001 || Abs(a.y - b.y) > 0.0000000001
  {
    hide Advance;
    GoesIff(roads, d, deltaTime);
    GathererIsProper(roads, d, deltaTime);
  }

  /** What the dog is offered: of the floor exactly the loot it passes within 0.6, of the map
      exactly the offices it passes within 1.1, and nothing else. */
  lemma OfferedIff(m: Map, d: DogView, deltaTime: int, a: Point, b: Point, loots: seq<LootInfo>, gathered: seq<Item>)
    requires IsWay(m.roads, d, deltaTime, a, b)
    requires IsGathered(ItemsOf(m, loots), MovedDog(m.roads, d, deltaTime).1.value, gathered)
    ensures forall k :: 0 <= k < |loots| ==>
              (HasLoot(gathered, loots[k]) <==> Passes(a, b, Point(loots[k].x, loots[k].y), 0.36))
    ensures forall k :: 0 <= k < |m.offices| ==>
              (HasOffice(gathered, m.offices[k].position) <==> Passes(a, b, m.offices[k].position, 1.21))
    ensures forall item :: item in gathered ==>
              if item.kind == ItemType.Loot
              then exists k :: 0 <= k < |loots| && item.id == loots[k].id && item.position == Point(loots[k].x, loots[k].y)
              else exists k :: 0 <= k < |m.offices| && item.position == m.offices[k].position
  {
    hide Passes, Collects, ItemsOf, IsGathered, IsWay, MovedDog;
    GathererOfWay(m.roads, d, deltaTime, a, b);
    var items, g := ItemsOf(m, loots), Gatherer(a, b, 0.6);
    forall item | item in gathered
      ensures item in items
      ensures item.kind == ItemType.Loot ==>
                exists k :: 0 <= k < |loots| && item.id == loots[k].id && item.position == Point(loots[k].x, loots[k].y)
      ensures item.kind == ItemType.Office ==>
                exists k :: 0 <= k < |m.offices| && item.position == m.offices[k].position
    {
      GatheredIff(items, g, gathered, item);
      KindOfItem(m, loots, item);
    }
    forall k | 0 <= k < |loots|
      ensures HasLoot(gathered, loots[k]) <==> Passes(a, b, Point(loots[k].x, loots[k].y), 0.36)
    {
      LootOffered(m, loots, g, gathered, k);
    }
    forall k | 0 <= k < |m.offices|
      ensures HasOffice(gathered, m.offices[k].position) <==> Passes(a, b, m.offices[k].position, 1.21)
    {
      OfficeOffered(m, loots, g, gathered, k);
    }
  }

  lemma LootOffered(m: Map, loots: seq<LootInfo>, g: Gatherer, gathered: seq<Item>, k: nat)
    requires k < |loots| && IsGathered(ItemsOf(m, loots), g, gathered) && g.width == 0.6
    requires Abs(g.startPos.x - g.endPos.x) > 0.0000000001 || Abs(g.startPos.y - g.endPos.y) > 0.0000000001
    ensures HasLoot(gathered, loots[k]) <==> Passes(g.startPos, g.endPos, Point(loots[k].x, loots[k].y), 0.36)
  {
    hide Passes, Collects, ItemsOf, IsGathered;
    var item := LootItem(loots[k]);
    ItemOfLoot(m, loots, k);
    GatheredIff(ItemsOf(m, loots), g, gathered, item);
    CollectsIff(g, item);
    if HasLoot(gathered, loots[k]) {
      var other :| other in gathered && other.kind == ItemType.Loot
                && other.id == loots[k].id && other.position == Point(loots[k].x, loots[k].y);
      GatheredIff(ItemsOf(m, loots), g, gathered, other);
      KindOfItem(m, loots, other);
      assert other == item;
    }
  }

  lemma OfficeOffered(m: Map, loots: seq<LootInfo>, g: Gatherer, gathered: seq<Item>, k: nat)
    requires k < |m.offices| && IsGathered(ItemsOf(m, loots), g, gathered) && g.width == 0.6
    requires Abs(g.startPos.x - g.endPos.x) > 0.0000000001 || Abs(g.startPos.y - g.endPos.y) > 0.0000000001
    ensures HasOffice(gathered, m.offices[k].position) <==> Passes(g.startPos, g.endPos, m.offices[k].position, 1.21)
  {
    hide Passes, Collects, ItemsOf, IsGathered;
    var item := OfficeItem(m.offices[k]);
    ItemOfOffice(m, loots, k);
    GatheredIff(ItemsOf(m, loots), g, gathered, item);
    CollectsIff(g, item);
    if HasOffice(gathered, m.offices[k].position) {
      var other :| other in gathered && other.kind == ItemType.Office && other.position == m.offices[k].position;
      GatheredIff(ItemsOf(m, loots), g, gathered, other);
      KindOfItem(m, loots, other);
      assert other == item;
    }
  }

  // ---------------------------------------------------------------- what becomes of it

  ghost predicate AnyOffice(items: seq<Item>) {
    exists item :: item in items && item.kind == ItemType.Office
  }

  /** The bag and all that was delivered before are delivered; or else are what they were, but
      for loot added to the bag, and the score is the same. */
  ghost predicate Delivers(d: DogView, d': DogView, delivers: bool) {
    if delivers then d.delivered + d.bag <= d'.delivered
    else d'.delivered == d.delivered && d'.score == d.score && d.bag <= d'.bag
  }

  lemma DeliversTwice(d: DogView, d1: DogView, d2: DogView, first: bool, second: bool)
    requires Delivers(d, d1, first) && Delivers(d1, d2, second)
    requires first ==> d1.delivered == d.delivered + d.bag
    ensures Delivers(d, d2, first || second)
  {}

  lemma OneDelivers(m: Map, d: DogView, loots: seq<LootInfo>, item: Item)
    requires Kinds(m, d, loots)
    ensures var d' := CollectOne(m, d, loots, item).0;
            && Delivers(d, d', item.kind == ItemType.Office)
            && (item.kind == ItemType.Office ==> d'.delivered == d.delivered + d.bag)
  {}

  /** An office on the way takes what was in the bag; without one the bag only grows. */
  lemma {:induction false} CollectDelivers(m: Map, d: DogView, loots: seq<LootInfo>, items: seq<Item>)
    requires Kinds(m, d, loots)
    ensures Delivers(d, Collect(m, d, loots, items).0, AnyOffice(items))
    decreases |items|
  {
    hide CollectOne, Kinds;
    if items != [] {
      var (d1, loots1) := CollectOne(m, d, loots, items[0]);
      OneDelivers(m, d, loots, items[0]);
      CollectDelivers(m, d1, loots1, items[1..]);
      OfficeFirstOrLater(items);
      hide Delivers, AnyOffice;
      DeliversTwice(d, d1, Collect(m, d, loots, items).0, items[0].kind == ItemType.Office, AnyOffice(items[1..]));
    }
  }

  lemma OfficeFirstOrLater(items: seq<Item>)
    requires items != []
    ensures AnyOffice(items) <==> items[0].kind == ItemType.Office || AnyOffice(items[1..])
  {
    assert forall item :: item in items <==> item == items[0] || item in items[1..];
  }

  /** Some office of the map is passed within 1.1. */
  ghost predicate PassesOffice(m: Map, a: Point, b: Point) {
    exists k :: 0 <= k < |m.offices| && Passes(a, b, m.offices[k].position, 1.21)
  }

  /** The turn of a dog that goes somewhere, and what it is offered on the way. */
  ghost predicate IsTurn(m: Map, w: Sweep, k: nat, deltaTime: int, a: Point, b: Point, items: seq<Item>) {
    && Ready(m, w) && k < |w.players|
    && IsWay(m.roads, w.players[k].dog, deltaTime, a, b)
    && MoveOf(m, w, k, deltaTime).1.Some?
    && IsGathered(ItemsOf(m, w.loots), MoveOf(m, w, k, deltaTime).1.value, items)
  }

  lemma TurnOffers(m: Map, w: Sweep, k: nat, deltaTime: int, a: Point, b: Point, items: seq<Item>)
    requires IsTurn(m, w, k, deltaTime, a, b, items)
    ensures forall j :: 0 <= j < |w.loots| ==>
              (HasLoot(items, w.loots[j]) <==> Passes(a, b, Point(w.loots[j].x, w.loots[j].y), 0.36))
    ensures AnyOffice(items) <==> PassesOffice(m, a, b)
    ensures forall item :: item in items && item.kind == ItemType.Loot ==>
              exists j :: 0 <= j < |w.loots| && item.id == w.loots[j].id && item.position == Point(w.loots[j].x, w.loots[j].y)
  {
    var d := w.players[k].dog;
    assert MovedDog(m.roads, d, deltaTime).1 == MoveOf(m, w, k, deltaTime).1;
    hide Passes, IsGathered, ItemsOf, IsWay, MovedDog, Ready, MoveOf;
    OfferedIff(m, d, deltaTime, a, b, w.loots, items);
  }

  /** A dog with anything in its bag delivers if and only if it passes an office, and then all
      that was in the bag; otherwise it keeps what it had, and its score. */
  lemma DeliversIff(m: Map, w: Sweep, k: nat, deltaTime: int, a: Point, b: Point, items: seq<Item>)
    requires IsTurn(m, w, k, deltaTime, a, b, items)
    ensures var d, d' := w.players[k].dog, MoveOne(m, w, k, deltaTime, items).players[k].dog;
            && (d.bag != [] ==> (d'.delivered != d.delivered <==> PassesOffice(m, a, b)))
            && (PassesOffice(m, a, b) ==> d.delivered + d.bag <= d'.delivered)
            && (!PassesOffice(m, a, b) ==> d'.delivered == d.delivered && d'.score == d.score && d.bag <= d'.bag)
  {
    hide PassesOffice, IsGathered, ItemsOf, IsWay, MoveOne, MoveOf, Advance, Collect, AfterTurn;
    TurnOffers(m, w, k, deltaTime, a, b, items);
    TurnCollects(m, w, k, deltaTime, items);
    var d := w.players[k].dog.(idleTime := 0);
    CollectDelivers(m, d, w.loots, items);
    TurnLeaves(w, k, Collect(m, d, w.loots, items), Advance(m.roads, d.motion, deltaTime), d.playTime + deltaTime);
  }

  lemma TurnLeaves(w: Sweep, k: nat, r: (DogView, seq<LootInfo>), motion: Motion, playTime: int)
    requires k < |w.players|
    ensures var w' := AfterTurn(w, k, r.0, r.1, motion, playTime);
            var d' := w'.players[k].dog;
            && w'.loots == r.1 && d'.bag == r.0.bag && d'.delivered == r.0.delivered && d'.score == r.0.score
            && d'.bagCapacity == r.0.bagCapacity
  {}

  /** No loot leaves the floor that the dog does not pass within 0.6, and none comes to it. */
  lemma NothingElseTaken(m: Map, w: Sweep, k: nat, deltaTime: int, a: Point, b: Point, items: seq<Item>, l: LootInfo)
    requires IsTurn(m, w, k, deltaTime, a, b, items) && UniqueIds(w.loots)
    ensures var w' := MoveOne(m, w, k, deltaTime, items);
            && (l in w'.loots ==> l in w.loots)
            && (l in w.loots && l !in w'.loots ==> Passes(a, b, Point(l.x, l.y), 0.36))
  {
    hide Passes, PassesOffice, IsGathered, ItemsOf, IsWay, MoveOne, MoveOf, Advance, Collect, AfterTurn;
    TurnOffers(m, w, k, deltaTime, a, b, items);
    TurnCollects(m, w, k, deltaTime, items);
    var d := w.players[k].dog.(idleTime := 0);
    LeftOnFloor(m, d, w.loots, items, l);
    TurnLeaves(w, k, Collect(m, d, w.loots, items), Advance(m.roads, d.motion, deltaTime), d.playTime + deltaTime);
    if l in w.loots && Touched(items, l.id) {
      SameLoot(w.loots, items, l);
    }
  }

  /** With distinct numbers, touching a number is touching that piece of loot. */
  lemma SameLoot(loots: seq<LootInfo>, items: seq<Item>, l: LootInfo)
    requires UniqueIds(loots) && l in loots && Touched(items, l.id)
    requires forall item :: item in items && item.kind == ItemType.Loot ==>
               exists j :: 0 <= j < |loots| && item.id == loots[j].id && item.position == Point(loots[j].x, loots[j].y)
    ensures HasLoot(items, l)
    ensures exists j :: 0 <= j < |loots| && loots[j] == l && HasLoot(items, loots[j])
  {
    var i :| 0 <= i < |items| && items[i].kind == ItemType.Loot && items[i].id == l.id;
    assert items[i] in items;
    var j :| 0 <= j < |loots| && items[i].id == loots[j].id && items[i].position == Point(loots[j].x, loots[j].y);
    var n :| 0 <= n < |loots| && loots[n] == l;
    assert j == n;
  }

  /** Away from offices, a dog whose bag has room to the end has taken all the loot it passed
      within 0.6, and left all other. */
  lemma TakesAllItPasses(m: Map, w: Sweep, k: nat, deltaTime: int, a: Point, b: Point, items: seq<Item>, l: LootInfo)
    requires IsTurn(m, w, k, deltaTime, a, b, items) && UniqueIds(w.loots) && !PassesOffice(m, a, b)
    requires var d' := MoveOne(m, w, k, deltaTime, items).players[k].dog;
             0 <= d'.bagCapacity < 0x1_0000_0000_0000_0000 && |d'.bag| < d'.bagCapacity
    requires l in w.loots
    ensures var w' := MoveOne(m, w, k, deltaTime, items);
            && (l in w'.loots <==> !Passes(a, b, Point(l.x, l.y), 0.36))
            && (l !in w'.loots ==> l in w'.players[k].dog.bag)
  {
    hide Passes, PassesOffice, IsGathered, ItemsOf, IsWay, MoveOne, MoveOf, Advance, Collect, AfterTurn;
    NothingElseTaken(m, w, k, deltaTime, a, b, items, l);
    TurnOffers(m, w, k, deltaTime, a, b, items);
    TurnCollects(m, w, k, deltaTime, items);
    var d := w.players[k].dog.(idleTime := 0);
    CollectKeepsMotion(m, d, w.loots, items);
    TurnLeaves(w, k, Collect(m, d, w.loots, items), Advance(m.roads, d.motion, deltaTime), d.playTime + deltaTime);
    RoomToTheEnd(m, d, w.loots, items, l);
  }

  /** A bag that has room at the end has taken all that was touched. */
  lemma RoomToTheEnd(m: Map, d: DogView, loots: seq<LootInfo>, items: seq<Item>, l: LootInfo)
    requires Kinds(m, d, loots) && UniqueIds(loots) && l in loots
    requires forall item :: item in items ==> item.kind == ItemType.Loot
    requires |Collect(m, d, loots, items).0.bag| < AsSize(d.bagCapacity)
    ensures var (d', loots') := Collect(m, d, loots, items);
            && (HasLoot(items, l) ==> l !in loots')
            && (l !in loots' ==> l in d'.bag)
  {
    hide AsSize, Collect, FirstHits, Keep;
    var (d', loots') := Collect(m, d, loots, items);
    var hits := FirstHits(loots, items);
    GreedyBag.GreedyBag(m, d, loots, items);
    FirstHitsFacts(loots, items);
    assert TakenFrom(d, hits) == hits;
    assert d'.bag == d.bag + hits && loots' == Keep(loots, Ids(hits));
    if HasLoot(items, l) {
      FoundOnFloor(loots, l);
      var i :| 0 <= i < |items| && items[i].id == l.id;
      assert l.id in Ids(hits);
    }
    if l !in loots' {
      HitIsLoot(loots, items, l);
    }
  }

  lemma {:induction false} HitsAreThere(loots: seq<LootInfo>, items: seq<Item>, h: LootInfo)
    ensures h in FirstHits(loots, items) ==> h in loots
  {
    if items != [] {
      HitsAreThere(loots, items[..|items| - 1], h);
    }
  }

  lemma HitIsLoot(loots: seq<LootInfo>, items: seq<Item>, l: LootInfo)
    requires UniqueIds(loots) && l in loots && l.id in Ids(FirstHits(loots, items))
    ensures l in FirstHits(loots, items)
  {
    var hits := FirstHits(loots, items);
    var k :| 0 <= k < |hits| && hits[k].id == l.id;
    HitsAreThere(loots, items, hits[k]);
    var i :| 0 <= i < |loots| && loots[i] == hits[k];
    var j :| 0 <= j < |loots| && loots[j] == l;
    assert i == j;
  }
}
