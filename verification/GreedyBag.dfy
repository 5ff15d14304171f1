/** How a dog fills its bag: the loop over the reached items against the greedy rule. */
module GreedyBag {
  import opened DataTypes
  import opened MapModel
  import opened CollisionDetector
  import opened Dogs
  import opened SessionModel

  // ---------------------------------------------------------------- collecting in pieces

  lemma {:induction false} CollectSplits(m: Map, d: DogView, loots: seq<LootInfo>, a: seq<Item>, b: seq<Item>)
    requires Kinds(m, d, loots)
    ensures var (d', loots') := Collect(m, d, loots, a);
            Collect(m, d, loots, a + b) == Collect(m, d', loots', b)
    decreases |a|
  {
    if a == [] {
      assert a + b == b;
    } else {
      var (d1, l1) := CollectOne(m, d, loots, a[0]);
      assert (a + b)[1..] == a[1..] + b;
      CollectSplits(m, d1, l1, a[1..], b);
    }
  }

  lemma CollectLast(m: Map, d: DogView, loots: seq<LootInfo>, init: seq<Item>, item: Item)
    requires Kinds(m, d, loots)
    ensures var (d', loots') := Collect(m, d, loots, init);
            Collect(m, d, loots, init + [item]) == CollectOne(m, d', loots', item)
  {
    hide CollectOne;
    CollectSplits(m, d, loots, init, [item]);
    var (d', loots') := Collect(m, d, loots, init);
    var (d'', loots'') := CollectOne(m, d', loots', item);
    assert [item][1..] == [];
    assert Collect(m, d'', loots'', []) == (d'', loots'');
  }

  // ---------------------------------------------------------------- the greedy bag

  predicate UniqueIds(loots: seq<LootInfo>) {
    forall i, j :: 0 <= i < j < |loots| ==> loots[i].id != loots[j].id
  }

  predicate OnFloor(loots: seq<LootInfo>, id: int) {
    FindLoot(loots, id) < |loots|
  }

  /** The loot on the floor that the items touch, in the order of first contact. */
  function FirstHits(loots: seq<LootInfo>, items: seq<Item>): seq<LootInfo> {
    if items == [] then []
    else
      var n := |items| - 1;
      var earlier, id := FirstHits(loots, items[..n]), items[n].id;
      if OnFloor(loots, id) && (forall j :: 0 <= j < n ==> items[j].id != id) then earlier + [loots[FindLoot(loots, id)]]
      else earlier
  }

  function Ids(loots: seq<LootInfo>): set<int> {
    set k | 0 <= k < |loots| :: loots[k].id
  }

  /** The loot whose id is not in the set, in the original order. */
  function Keep(loots: seq<LootInfo>, ids: set<int>): (r: seq<LootInfo>)
    ensures forall l :: l in r <==> l in loots && l.id !in ids
  {
    if loots == [] then []
    else (if loots[0].id in ids then [] else [loots[0]]) + Keep(loots[1..], ids)
  }

  lemma {:induction false} KeepAll(loots: seq<LootInfo>, ids: set<int>)
    requires forall k :: 0 <= k < |loots| ==> loots[k].id !in ids
    ensures Keep(loots, ids) == loots
  {
    if loots != [] {
      KeepAll(loots[1..], ids);
    }
  }

  lemma {:induction false} KeepUnique(loots: seq<LootInfo>, ids: set<int>)
    requires UniqueIds(loots)
    ensures UniqueIds(Keep(loots, ids))
  {
    if loots != [] {
      KeepUnique(loots[1..], ids);
      var rest := Keep(loots[1..], ids);
      forall j | 0 <= j < |rest| ensures rest[j].id != loots[0].id {
        assert rest[j] in loots[1..];
      }
    }
  }

  ghost predicate RemovesFromKept(loots: seq<LootInfo>, ids: set<int>, id: int) {
    var kept := Keep(loots, ids);
    && OnFloor(kept, id)
    && OnFloor(loots, id)
    && kept[FindLoot(kept, id)] == loots[FindLoot(loots, id)]
    && RemoveAt(kept, FindLoot(kept, id)) == Keep(loots, ids + {id})
  }

  lemma RemoveFront(head: LootInfo, rest: seq<LootInfo>, ids: set<int>)
    requires forall k :: 0 <= k < |rest| ==> rest[k].id != head.id
    requires head.id !in ids
    ensures RemovesFromKept([head] + rest, ids, head.id)
  {
    KeepStep(head, rest, ids);
    KeepStep(head, rest, ids + {head.id});
    KeepSame(rest, ids, head.id);
    FindFront(head, rest);
    FindFront(head, Keep(rest, ids));
  }

  lemma RemoveBehind(head: LootInfo, rest: seq<LootInfo>, ids: set<int>, id: int)
    requires head.id != id && RemovesFromKept(rest, ids, id)
    ensures RemovesFromKept([head] + rest, ids, id)
  {
    hide Keep, RemoveAt, FindLoot;
    var kept, fewer := Keep(rest, ids), Keep(rest, ids + {id});
    KeepStep(head, rest, ids);
    KeepStep(head, rest, ids + {id});
    FindBehind(head, rest, id);
    if head.id in ids {
      assert [] + kept == kept && [] + fewer == fewer;
    } else {
      FindBehind(head, kept, id);
    }
  }

  /** Removing the next id from what is kept is keeping everything but one id more. */
  lemma {:induction false} RemoveFromKept(loots: seq<LootInfo>, ids: set<int>, id: int)
    requires UniqueIds(loots) && id !in ids && OnFloor(loots, id)
    ensures RemovesFromKept(loots, ids, id)
  {
    var head, rest := loots[0], loots[1..];
    assert loots == [head] + rest;
    UniqueTail(head, rest);
    if head.id == id {
      RemoveFront(head, rest, ids);
    } else {
      RemoveFromKept(rest, ids, id);
      RemoveBehind(head, rest, ids, id);
    }
  }

  lemma UniqueTail(head: LootInfo, rest: seq<LootInfo>)
    requires UniqueIds([head] + rest)
    ensures UniqueIds(rest)
    ensures forall k :: 0 <= k < |rest| ==> rest[k].id != head.id
  {
    assert ([head] + rest)[0] == head;
    assert forall k :: 0 <= k < |rest| ==> rest[k] == ([head] + rest)[k + 1];
  }

  lemma KeepStep(head: LootInfo, rest: seq<LootInfo>, ids: set<int>)
    ensures Keep([head] + rest, ids) == (if head.id in ids then [] else [head]) + Keep(rest, ids)
  {
    assert ([head] + rest)[1..] == rest;
  }

  lemma FindFront(head: LootInfo, rest: seq<LootInfo>)
    ensures OnFloor([head] + rest, head.id) && FindLoot([head] + rest, head.id) == 0
    ensures RemoveAt([head] + rest, 0) == rest
  {}

  lemma FindBehind(head: LootInfo, rest: seq<LootInfo>, id: int)
    requires head.id != id && OnFloor(rest, id)
    ensures var loots, k := [head] + rest, FindLoot(rest, id);
            && FindLoot(loots, id) == 1 + k
            && loots[1 + k] == rest[k]
            && RemoveAt(loots, 1 + k) == [head] + RemoveAt(rest, k)
  {
    var loots, k := [head] + rest, FindLoot(rest, id);
    assert loots[1..] == rest;
    assert loots[..1 + k] == [head] + rest[..k];
    assert loots[1 + k + 1..] == rest[k + 1..];
  }

  lemma {:induction false} KeepSame(loots: seq<LootInfo>, ids: set<int>, id: int)
    requires forall k :: 0 <= k < |loots| ==> loots[k].id != id
    ensures Keep(loots, ids + {id}) == Keep(loots, ids)
  {
    if loots != [] {
      KeepSame(loots[1..], ids, id);
    }
  }

  lemma {:induction false} FirstHitsFacts(loots: seq<LootInfo>, items: seq<Item>)
    requires UniqueIds(loots)
    ensures forall id :: id in Ids(FirstHits(loots, items)) <==>
              OnFloor(loots, id) && exists j :: 0 <= j < |items| && items[j].id == id
    ensures UniqueIds(FirstHits(loots, items))
  {
    if items != [] {
      var n := |items| - 1;
      var init, id := items[..n], items[n].id;
      var earlier := FirstHits(loots, init);
      FirstHitsFacts(loots, init);
      forall i | i in Ids(FirstHits(loots, items))
        ensures OnFloor(loots, i) && exists j :: 0 <= j < |items| && items[j].id == i
      {
        if i in Ids(earlier) {
          var j :| 0 <= j < |init| && init[j].id == i;
          assert items[j].id == i;
        } else {
          assert items[n].id == i;
        }
      }
      forall i | OnFloor(loots, i) && exists j :: 0 <= j < |items| && items[j].id == i
        ensures i in Ids(FirstHits(loots, items))
      {
        var j :| 0 <= j < |items| && items[j].id == i;
        if j < n {
          assert init[j].id == i;
          assert i in Ids(earlier);
          var k :| 0 <= k < |earlier| && earlier[k].id == i;
          assert FirstHits(loots, items)[k].id == i;
        } else if forall l :: 0 <= l < n ==> items[l].id != i {
          assert FirstHits(loots, items)[|earlier|].id == i;
        } else {
          var l :| 0 <= l < n && items[l].id == i;
          assert init[l].id == i;
          assert i in Ids(earlier);
          var k :| 0 <= k < |earlier| && earlier[k].id == i;
          assert FirstHits(loots, items)[k].id == i;
        }
      }
      if |FirstHits(loots, items)| > |earlier| {
        assert id !in Ids(earlier);
        assert forall k :: 0 <= k < |earlier| ==> earlier[k].id in Ids(earlier);
      }
    }
  }

  function Room(d: DogView): nat {
    if BagFull(d) then 0 else AsSize(d.bagCapacity) - |d.bag|
  }

  function Least(a: nat, b: nat): nat {
    if a <= b then a else b
  }

  function TakenFrom(d: DogView, hits: seq<LootInfo>): seq<LootInfo> {
    hits[..Least(Room(d), |hits|)]
  }

  /** The outcome of the greedy rule: the first hits that still fit go into the bag, and
      everything else stays where it was. */
  ghost predicate IsGreedy(d: DogView, loots: seq<LootInfo>, hits: seq<LootInfo>, r: (DogView, seq<LootInfo>)) {
    var taken := TakenFrom(d, hits);
    && r.0 == d.(bag := d.bag + taken)
    && r.1 == Keep(loots, Ids(taken))
  }

  /** Without an office in between, a dog takes exactly the first loots it touches, as many
      as its bag has room for. */
  lemma {:induction false} GreedyBag(m: Map, d: DogView, loots: seq<LootInfo>, items: seq<Item>)
    requires Kinds(m, d, loots) && UniqueIds(loots)
    requires forall k :: 0 <= k < |items| ==> items[k].kind == ItemType.Loot
    ensures IsGreedy(d, loots, FirstHits(loots, items), Collect(m, d, loots, items))
  {
    if items == [] {
      assert Ids([]) == {};
      KeepAll(loots, {});
    } else {
      var n := |items| - 1;
      GreedyBag(m, d, loots, items[..n]);
      assert items == items[..n] + [items[n]];
      CollectLast(m, d, loots, items[..n], items[n]);
      FirstHitsFacts(loots, items[..n]);
      GreedyStep(m, d, loots, items);
    }
  }

  lemma {:induction false} GreedyStep(m: Map, d: DogView, loots: seq<LootInfo>, items: seq<Item>)
    requires Kinds(m, d, loots) && UniqueIds(loots) && items != []
    requires items[|items| - 1].kind == ItemType.Loot
    requires var init := items[..|items| - 1];
             IsGreedy(d, loots, FirstHits(loots, init), Collect(m, d, loots, init))
    ensures var r := Collect(m, d, loots, items[..|items| - 1]);
            IsGreedy(d, loots, FirstHits(loots, items), CollectOne(m, r.0, r.1, items[|items| - 1]))
  {
    var n := |items| - 1;
    var init, id := items[..n], items[n].id;
    var hits, r := FirstHits(loots, init), Collect(m, d, loots, init);
    FirstHitsFacts(loots, init);
    if OnFloor(loots, id) && forall j :: 0 <= j < n ==> items[j].id != id {
      assert id !in Ids(hits) by {
        assert forall j :: 0 <= j < n ==> init[j].id != id;
      }
      GreedyNewHit(m, d, loots, hits, r, items[n]);
    } else {
      assert OnFloor(loots, id) ==> id in Ids(hits) by {
        assert forall j :: 0 <= j < n ==> init[j] == items[j];
      }
      GreedyOldHit(m, d, loots, hits, r, items[n]);
    }
  }

  /** Touching something new: it is taken if there is room. */
  lemma GreedyNewHit(m: Map, d: DogView, loots: seq<LootInfo>, hits: seq<LootInfo>,
                     r: (DogView, seq<LootInfo>), item: Item)
    requires UniqueIds(loots) && Kinds(m, r.0, r.1) && IsGreedy(d, loots, hits, r)
    requires item.kind == ItemType.Loot && OnFloor(loots, item.id) && item.id !in Ids(hits)
    ensures IsGreedy(d, loots, hits + [loots[FindLoot(loots, item.id)]], CollectOne(m, r.0, r.1, item))
  {
    var taken, l := TakenFrom(d, hits), loots[FindLoot(loots, item.id)];
    IdsOfPrefix(hits, |taken|);
    RemoveFromKept(loots, Ids(taken), item.id);
    hide Keep, Ids, UniqueIds;
    if BagFull(r.0) {
      assert TakenFrom(d, hits + [l]) == taken;
    } else {
      assert taken == hits && TakenFrom(d, hits + [l]) == hits + [l];
      IdsOfLonger(hits, l);
      assert d.bag + (hits + [l]) == d.bag + hits + [l];
    }
  }

  /** Touching something absent or already touched changes nothing. */
  lemma GreedyOldHit(m: Map, d: DogView, loots: seq<LootInfo>, hits: seq<LootInfo>,
                     r: (DogView, seq<LootInfo>), item: Item)
    requires Kinds(m, r.0, r.1) && IsGreedy(d, loots, hits, r)
    requires item.kind == ItemType.Loot && (OnFloor(loots, item.id) ==> item.id in Ids(hits))
    ensures CollectOne(m, r.0, r.1, item) == r
  {
    if !BagFull(r.0) {
      assert TakenFrom(d, hits) == hits;
      NotKept(loots, Ids(hits), item.id);
    }
  }

  lemma NotKept(loots: seq<LootInfo>, ids: set<int>, id: int)
    requires id in ids || !OnFloor(loots, id)
    ensures !OnFloor(Keep(loots, ids), id)
  {
    var kept := Keep(loots, ids);
    assert forall l :: l in kept ==> l.id != id;
  }

  lemma IdsOfPrefix(loots: seq<LootInfo>, n: nat)
    requires n <= |loots|
    ensures Ids(loots[..n]) <= Ids(loots)
  {
    forall id | id in Ids(loots[..n]) ensures id in Ids(loots) {
      var k :| 0 <= k < n && loots[..n][k].id == id;
      assert loots[k].id == id;
    }
  }

  lemma IdsOfLonger(loots: seq<LootInfo>, l: LootInfo)
    ensures Ids(loots + [l]) == Ids(loots) + {l.id}
  {
    forall id | id in Ids(loots) + {l.id} ensures id in Ids(loots + [l]) {
      if id == l.id {
        assert (loots + [l])[|loots|].id == id;
      } else {
        var k :| 0 <= k < |loots| && loots[k].id == id;
        assert (loots + [l])[k].id == id;
      }
    }
  }

  lemma RemoveKeepsUnique(loots: seq<LootInfo>, k: nat)
    requires UniqueIds(loots) && k < |loots|
    ensures UniqueIds(RemoveAt(loots, k))
  {
    var r := RemoveAt(loots, k);
    assert forall j :: 0 <= j < |r| ==> r[j] == loots[if j < k then j else j + 1];
  }

  lemma {:induction false} CollectKeepsUnique(m: Map, d: DogView, loots: seq<LootInfo>, items: seq<Item>)
    requires Kinds(m, d, loots) && UniqueIds(loots)
    ensures UniqueIds(Collect(m, d, loots, items).1)
    decreases |items|
  {
    if items != [] {
      var (d', loots') := CollectOne(m, d, loots, items[0]);
      var k := FindLoot(loots, items[0].id);
      if k < |loots| {
        RemoveKeepsUnique(loots, k);
      }
      CollectKeepsUnique(m, d', loots', items[1..]);
    }
  }

  /** An office empties the bag; from there to the next office the dog takes exactly the
      first loots it touches, as many as the whole bag holds, and the rest stays in order. */
  lemma GreedyBetweenOffices(m: Map, d: DogView, loots: seq<LootInfo>,
                             before: seq<Item>, office: Item, segment: seq<Item>)
    requires Kinds(m, d, loots) && UniqueIds(loots)
    requires office.kind == ItemType.Office
    requires forall k :: 0 <= k < |segment| ==> segment[k].kind == ItemType.Loot
    ensures var (d1, floor) := Collect(m, d, loots, before);
            var (d2, floor2) := Collect(m, d, loots, before + [office] + segment);
            var hits := FirstHits(floor, segment);
            var taken := hits[..Least(AsSize(d.bagCapacity), |hits|)];
            && d2.bag == taken
            && floor2 == Keep(floor, Ids(taken))
            && d2.delivered == d1.delivered + d1.bag
            && d2.score == d1.score + Worth(m, d1.bag)
  {
    var (d1, floor) := Collect(m, d, loots, before);
    CollectKeepsUnique(m, d, loots, before);
    CollectKeepsMotion(m, d, loots, before);
    var emptied := CollectOne(m, d1, floor, office).0;
    ScoreIsWorth(m, d1.bag);
    CollectSplits(m, d, loots, before + [office], segment);
    CollectSplits(m, d, loots, before, [office]);
    assert Collect(m, d1, floor, [office]) == (emptied, floor) by {
      assert [office][1..] == [];
      assert Collect(m, emptied, floor, []) == (emptied, floor);
    }
    GreedyBag(m, emptied, floor, segment);
  }

  /** The bag never exceeds its capacity if it did not before. */
  lemma {:induction false} BagStaysWithinCapacity(m: Map, d: DogView, loots: seq<LootInfo>, items: seq<Item>)
    requires Kinds(m, d, loots) && |d.bag| <= AsSize(d.bagCapacity)
    ensures var d' := Collect(m, d, loots, items).0;
            && d'.bagCapacity == d.bagCapacity && |d'.bag| <= AsSize(d.bagCapacity)
            && (0 <= d.bagCapacity < 0x1_0000_0000_0000_0000 ==> |d'.bag| <= d.bagCapacity)
    decreases |items|
  {
    if items != [] {
      var (d', loots') := CollectOne(m, d, loots, items[0]);
      BagStaysWithinCapacity(m, d', loots', items[1..]);
    }
  }
}
