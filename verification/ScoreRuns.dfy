/** What scores grow by, and how much loot can lie about, in runs from any session. */
module ScoreRuns {
  import opened DataTypes
  import opened MapModel
  import opened CollisionDetector
  import opened Dogs
  import opened LootGenerators
  import opened SessionModel
  import opened SessionRuns

  /** From d to d' loot was delivered, and the score grew by exactly the value of that loot. */
  ghost predicate Credited(m: Map, d: DogView, d': DogView) {
    && |d.delivered| <= |d'.delivered| && d'.delivered[..|d.delivered|] == d.delivered
    && var since := d'.delivered[|d.delivered|..];
    && KindsKnown(m, since) && d'.score == d.score + Worth(m, since)
  }

  lemma NothingCredited(m: Map, d: DogView, d': DogView)
    requires d'.delivered == d.delivered && d'.score == d.score
    ensures Credited(m, d, d')
  {
    assert d'.delivered[|d.delivered|..] == [];
    NothingIsWorth(m, |m.loots|);
  }

  lemma CreditedTwice(m: Map, d: DogView, d1: DogView, d2: DogView)
    requires Credited(m, d, d1) && Credited(m, d1, d2)
    ensures Credited(m, d, d2)
  {
    var a, b := d1.delivered[|d.delivered|..], d2.delivered[|d1.delivered|..];
    WorthAdds(m, a, b);
    assert d2.delivered == d1.delivered + b;
    assert d2.delivered[|d.delivered|..] == a + b;
  }

  lemma OneCredits(m: Map, d: DogView, loots: seq<LootInfo>, item: Item)
    requires Kinds(m, d, loots)
    ensures Credited(m, d, CollectOne(m, d, loots, item).0)
    ensures |CollectOne(m, d, loots, item).1| <= |loots|
  {
    var d' := CollectOne(m, d, loots, item).0;
    if d'.delivered == d.delivered && d'.score == d.score {
      NothingCredited(m, d, d');
    } else {
      assert d'.delivered[|d.delivered|..] == d.bag;
      ScoreIsWorth(m, d.bag);
    }
  }

  lemma {:induction false} CollectCredits(m: Map, d: DogView, loots: seq<LootInfo>, items: seq<Item>)
    requires Kinds(m, d, loots)
    ensures Credited(m, d, Collect(m, d, loots, items).0)
    ensures |Collect(m, d, loots, items).1| <= |loots|
    decreases |items|
  {
    hide CollectOne, Credited;
    if items == [] {
      NothingCredited(m, d, d);
    } else {
      var (d', loots') := CollectOne(m, d, loots, items[0]);
      OneCredits(m, d, loots, items[0]);
      CollectCredits(m, d', loots', items[1..]);
      CreditedTwice(m, d, d', Collect(m, d, loots, items).0);
    }
  }

  lemma TurnCredits(m: Map, w: Sweep, k: nat, deltaTime: int, items: seq<Item>)
    requires Ready(m, w) && k < |w.players|
    ensures Credited(m, w.players[k].dog, MoveOne(m, w, k, deltaTime, items).players[k].dog)
    ensures forall j :: 0 <= j < |w.players| && j != k ==>
              MoveOne(m, w, k, deltaTime, items).players[j] == w.players[j]
    ensures |MoveOne(m, w, k, deltaTime, items).loots| <= |w.loots|
  {
    hide Collect, Advance, Credited;
    var d := w.players[k].dog;
    var (d1, g) := MoveOf(m, w, k, deltaTime);
    var moved := d1.(idleTime := if g.Some? then 0 else d1.idleTime + deltaTime);
    MoveKeepsRoad(m, w, k, deltaTime);
    NothingCredited(m, d, moved);
    if g.Some? {
      CollectCredits(m, moved, w.loots, items);
      CreditedTwice(m, d, moved, Collect(m, moved, w.loots, items).0);
    }
  }

  lemma {:induction false} RoundCredits(m: Map, w: Sweep, deltaTime: int, picks: seq<seq<Item>>)
    requires Ready(m, w) && |picks| <= |w.players|
    ensures var w' := MoveFirst(m, w, deltaTime, picks);
            && |w'.loots| <= |w.loots|
            && forall j :: 0 <= j < |w.players| ==> Credited(m, w.players[j].dog, w'.players[j].dog)
  {
    hide Credited;
    if picks == [] {
      forall j | 0 <= j < |w.players| ensures Credited(m, w.players[j].dog, w.players[j].dog) {
        NothingCredited(m, w.players[j].dog, w.players[j].dog);
      }
    } else {
      var n := |picks| - 1;
      var before, after := MoveFirst(m, w, deltaTime, picks[..n]), MoveFirst(m, w, deltaTime, picks);
      RoundCredits(m, w, deltaTime, picks[..n]);
      hide MoveOne, Ready;
      TurnCredits(m, before, n, deltaTime, picks[n]);
      CreditedTwice(m, w.players[n].dog, before.players[n].dog, after.players[n].dog);
    }
  }

  /** Who was there is credited with what it delivered, who is new has delivered nothing, and
      the floor has grown only up to the number of players. */
  ghost predicate SessionCredited(m: Map, s: SessionView, s': SessionView) {
    && |s.players| <= |s'.players|
    && (forall i :: 0 <= i < |s.players| ==> Credited(m, s.players[i].dog, s'.players[i].dog))
    && (forall i :: |s.players| <= i < |s'.players| ==> Credited(m, Newcomer(), s'.players[i].dog))
    && (|s'.loots| <= |s.loots| || |s'.loots| <= |s'.players|)
  }

  /** Any new dog, as far as score and deliveries go. */
  function Newcomer(): DogView {
    FreshDog(0)
  }

  lemma StepCredits(m: Map, cap: int, s: SessionView, op: Op)
    requires Enabled(m, s, op)
    ensures SessionCredited(m, s, Step(m, cap, s, op))
  {
    hide Credited;
    var s' := Step(m, cap, s, op);
    match op
    case Move(dt, picks) =>
      RoundCredits(m, SweepOf(s), dt, picks);
    case Generate(dt, chance, draws) =>
      GeneratedBound(s.generator, dt, |s.loots|, |s.players|, chance);
      hide Generated;
      var added := GenerateAppends(m, s, dt, chance, draws);
      SameDogsCredited(m, s, s');
    case _ =>
      SameDogsCredited(m, s, s');
  }

  lemma SameDogsCredited(m: Map, s: SessionView, s': SessionView)
    requires |s.players| <= |s'.players|
    requires forall i :: 0 <= i < |s'.players| ==>
               var d := if i < |s.players| then s.players[i].dog else Newcomer();
               s'.players[i].dog.delivered == d.delivered && s'.players[i].dog.score == d.score
    ensures forall i :: 0 <= i < |s.players| ==> Credited(m, s.players[i].dog, s'.players[i].dog)
    ensures forall i :: |s.players| <= i < |s'.players| ==> Credited(m, Newcomer(), s'.players[i].dog)
  {
    hide Credited;
    forall i | 0 <= i < |s'.players|
      ensures Credited(m, if i < |s.players| then s.players[i].dog else Newcomer(), s'.players[i].dog)
    {
      NothingCredited(m, if i < |s.players| then s.players[i].dog else Newcomer(), s'.players[i].dog);
    }
  }

  lemma SessionCreditedTwice(m: Map, s: SessionView, s1: SessionView, s2: SessionView)
    requires SessionCredited(m, s, s1) && SessionCredited(m, s1, s2)
    ensures SessionCredited(m, s, s2)
  {
    hide Credited;
    forall i | 0 <= i < |s1.players|
      ensures Credited(m, if i < |s.players| then s.players[i].dog else Newcomer(), s2.players[i].dog)
    {
      CreditedTwice(m, if i < |s.players| then s.players[i].dog else Newcomer(), s1.players[i].dog, s2.players[i].dog);
    }
  }

  /** Over any run from any session, for instance a restored one: each score has grown by
      exactly the map's value of what that dog delivered since, and the floor holds no more
      than it did at the start or than there are players. */
  lemma {:induction false} ScoresFromAnywhere(m: Map, cap: int, trace: seq<SessionView>, ops: seq<Op>, k: nat)
    requires IsRunFrom(m, cap, trace, ops) && k <= |ops|
    ensures SessionCredited(m, trace[0], trace[k])
  {
    if k == 0 {
      SameDogsCredited(m, trace[0], trace[0]);
    } else {
      ScoresFromAnywhere(m, cap, trace, ops, k - 1);
      assert Transition(m, cap, trace[k - 1], ops[k - 1], trace[k - 1 + 1]);
      hide SessionCredited;
      StepCredits(m, cap, trace[k - 1], ops[k - 1]);
      SessionCreditedTwice(m, trace[0], trace[k - 1], trace[k]);
    }
  }
}
