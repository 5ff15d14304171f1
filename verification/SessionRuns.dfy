/** What every run of a session keeps, from its creation on. */
module SessionRuns {
  import opened DataTypes
  import opened MapModel
  import opened CollisionDetector
  import opened Dogs
  import opened LootGenerators
  import opened SessionModel
  import opened GreedyBag

  // ---------------------------------------------------------------- counting loot

  function Held(d: DogView, x: LootInfo): nat {
    multiset(d.bag)[x] + multiset(d.delivered)[x]
  }

  function HeldBy(players: seq<PlayerView>, x: LootInfo): nat {
    if players == [] then 0
    else HeldBy(players[..|players| - 1], x) + Held(players[|players| - 1].dog, x)
  }

  /** How many times x occurs on the floor, in the bags and among the delivered loot. */
  function Places(w: Sweep, x: LootInfo): nat {
    multiset(w.loots)[x] + HeldBy(w.players, x)
  }

  lemma {:induction false} HeldUpdate(players: seq<PlayerView>, k: nat, p: PlayerView, x: LootInfo)
    requires k < |players|
    ensures HeldBy(players[k := p], x) + Held(players[k].dog, x) == HeldBy(players, x) + Held(p.dog, x)
  {
    var n := |players| - 1;
    if k == n {
      assert players[k := p][..n] == players[..n];
    } else {
      assert players[k := p][..n] == players[..n][k := p];
      HeldUpdate(players[..n], k, p, x);
    }
  }

  lemma {:induction false} HeldByEach(players: seq<PlayerView>, k: nat, x: LootInfo)
    requires k < |players|
    ensures Held(players[k].dog, x) <= HeldBy(players, x)
    ensures forall j :: 0 <= j < k ==> Held(players[j].dog, x) + Held(players[k].dog, x) <= HeldBy(players, x)
  {
    var n := |players| - 1;
    if k < n {
      HeldByEach(players[..n], k, x);
    } else {
      forall j | 0 <= j < k ensures Held(players[j].dog, x) <= HeldBy(players[..n], x) {
        HeldByEach(players[..n], j, x);
      }
    }
  }

  lemma CountSplit(a: seq<LootInfo>, b: seq<LootInfo>, x: LootInfo)
    ensures multiset(a + b)[x] == multiset(a)[x] + multiset(b)[x]
  {}

  lemma CountRemove(loots: seq<LootInfo>, k: nat, x: LootInfo)
    requires k < |loots|
    ensures multiset(RemoveAt(loots, k))[x] + (if loots[k] == x then 1 else 0) == multiset(loots)[x]
  {
    assert loots == loots[..k] + ([loots[k]] + loots[k + 1..]);
    CountSplit(loots[..k], [loots[k]] + loots[k + 1..], x);
    CountSplit([loots[k]], loots[k + 1..], x);
    CountSplit(loots[..k], loots[k + 1..], x);
  }

  lemma CollectOneConserves(m: Map, d: DogView, loots: seq<LootInfo>, item: Item, x: LootInfo)
    requires Kinds(m, d, loots)
    ensures var (d', loots') := CollectOne(m, d, loots, item);
            Held(d', x) + multiset(loots')[x] == Held(d, x) + multiset(loots)[x]
  {
    if item.kind == ItemType.Office {
      CountSplit(d.delivered, d.bag, x);
    } else if FindLoot(loots, item.id) < |loots| {
      var k := FindLoot(loots, item.id);
      CountRemove(loots, k, x);
      CountSplit(d.bag, [loots[k]], x);
    }
  }

  /** Collecting moves loot about but never makes, loses or changes any. */
  lemma {:induction false} CollectConserves(m: Map, d: DogView, loots: seq<LootInfo>, items: seq<Item>, x: LootInfo)
    requires Kinds(m, d, loots)
    ensures var (d', loots') := Collect(m, d, loots, items);
            Held(d', x) + multiset(loots')[x] == Held(d, x) + multiset(loots)[x]
    decreases |items|
  {
    if items != [] {
      var (d', loots') := CollectOne(m, d, loots, items[0]);
      CollectOneConserves(m, d, loots, items[0], x);
      CollectConserves(m, d', loots', items[1..], x);
    }
  }

  lemma MoveOneConserves(m: Map, w: Sweep, k: nat, deltaTime: int, items: seq<Item>, x: LootInfo)
    requires Ready(m, w) && k < |w.players|
    ensures Places(MoveOne(m, w, k, deltaTime, items), x) == Places(w, x)
  {
    hide Collect, MoveOf, HeldBy;
    var w' := MoveOne(m, w, k, deltaTime, items);
    var (d, g) := MoveOf(m, w, k, deltaTime);
    MoveKeepsRoad(m, w, k, deltaTime);
    HeldUpdate(w.players, k, w'.players[k], x);
    if g.Some? {
      CollectConserves(m, d.(idleTime := 0), w.loots, items, x);
    }
  }

  /** A round conserves every piece of loot, whatever the dogs are offered. */
  lemma {:induction false} RoundConserves(m: Map, w: Sweep, deltaTime: int, picks: seq<seq<Item>>, x: LootInfo)
    requires Ready(m, w) && |picks| <= |w.players|
    ensures Places(MoveFirst(m, w, deltaTime, picks), x) == Places(w, x)
  {
    if picks != [] {
      var k := |picks| - 1;
      RoundConserves(m, w, deltaTime, picks[..k], x);
      MoveOneConserves(m, MoveFirst(m, w, deltaTime, picks[..k]), k, deltaTime, picks[k], x);
    }
  }

  // ---------------------------------------------------------------- a round, dog by dog

  lemma GathererOfPrefix(m: Map, w: Sweep, deltaTime: int, picks: seq<seq<Item>>, k: nat)
    requires Ready(m, w) && k < |picks| - 1 && |picks| <= |w.players|
    ensures GathererOf(m, w, deltaTime, picks[..|picks| - 1], k) == GathererOf(m, w, deltaTime, picks, k)
  {
    assert picks[..|picks| - 1][..k] == picks[..k];
  }

  /** Only the dogs that had their turn change. A dog's play time grows by the tick; its
      idle time starts again from zero exactly when it went somewhere, and grows otherwise. */
  lemma {:induction false} RoundTouchesPrefix(m: Map, w: Sweep, deltaTime: int, picks: seq<seq<Item>>, k: nat)
    requires Ready(m, w) && |picks| <= |w.players| && k < |w.players|
    ensures var p, p' := w.players[k], MoveFirst(m, w, deltaTime, picks).players[k];
            && p' == p.(dog := p'.dog)
            && (k >= |picks| ==> p' == p)
            && (k < |picks| ==>
                  && p'.dog.playTime == p.dog.playTime + deltaTime
                  && p'.dog.idleTime == if GathererOf(m, w, deltaTime, picks, k).Some? then 0
                                        else p.dog.idleTime + deltaTime)
            && (k < |picks| ==> p'.dog.motion == MovedDog(m.roads, p.dog, deltaTime).0.motion)
  {
    if picks != [] {
      var n := |picks| - 1;
      var before := MoveFirst(m, w, deltaTime, picks[..n]);
      RoundTouchesPrefix(m, w, deltaTime, picks[..n], k);
      assert GathererOf(m, w, deltaTime, picks, n) == MoveOf(m, before, n, deltaTime).1;
      hide MovedDog, Ready, MoveOf, MoveOne, GathererOf;
      TurnTouches(m, before, n, deltaTime, picks[n]);
      if k < n {
        GathererOfPrefix(m, w, deltaTime, picks, k);
      }
    }
  }

  lemma TurnTouches(m: Map, w: Sweep, k: nat, deltaTime: int, items: seq<Item>)
    requires Ready(m, w) && k < |w.players|
    ensures var w', p := MoveOne(m, w, k, deltaTime, items), w.players[k];
            var p' := w'.players[k];
            && w'.players == w.players[k := p']
            && p' == p.(dog := p'.dog)
            && p'.dog.playTime == p.dog.playTime + deltaTime
            && p'.dog.idleTime == (if MoveOf(m, w, k, deltaTime).1.Some? then 0 else p.dog.idleTime + deltaTime)
            && p'.dog.motion == MovedDog(m.roads, p.dog, deltaTime).0.motion
  {
    hide Collect, Advance;
    var (d, g) := MoveOf(m, w, k, deltaTime);
    MoveKeepsRoad(m, w, k, deltaTime);
    if g.Some? {
      CollectKeepsMotion(m, d.(idleTime := 0), w.loots, items);
    }
  }

  /** What a dog's turn will yield is known before the round starts. */
  lemma GathererInAdvance(m: Map, w: Sweep, deltaTime: int, picks: seq<seq<Item>>, k: nat)
    requires Ready(m, w) && k < |picks| <= |w.players|
    ensures GathererOf(m, w, deltaTime, picks, k) == MovedDog(m.roads, w.players[k].dog, deltaTime).1
  {
    RoundTouchesPrefix(m, w, deltaTime, picks[..k], k);
  }

  /** The motion of a dog after a tick of its own. */
  function MotionAfter(roads: seq<Road>, d: DogView, deltaTime: int): Motion
    requires ValidRoad(roads, d.motion)
  {
    if d.direction == STOP then d.motion else Advance(roads, d.motion, deltaTime)
  }

  /** A tick takes the dog somewhere: more than 0.0001 away on an axis. */
  predicate Goes(roads: seq<Road>, d: DogView, deltaTime: int)
    requires ValidRoad(roads, d.motion)
  {
    var p, q := d.motion.position, MotionAfter(roads, d, deltaTime).position;
    Abs(p.x - q.x) > 0.0001 || Abs(p.y - q.y) > 0.0001
  }

  lemma GoesIff(roads: seq<Road>, d: DogView, deltaTime: int)
    requires ValidRoad(roads, d.motion)
    ensures MovedDog(roads, d, deltaTime).1.Some? <==> Goes(roads, d, deltaTime)
    ensures MovedDog(roads, d, deltaTime).0.motion == MotionAfter(roads, d, deltaTime)
  {
    hide Advance;
    GathererIsProper(roads, d, deltaTime);
  }

  /** The dogs before the k-th one would all go somewhere. */
  predicate AllGoBefore(m: Map, w: Sweep, deltaTime: int, k: nat)
    requires Ready(m, w) && k <= |w.players|
  {
    forall j :: 0 <= j < k ==> Goes(m.roads, w.players[j].dog, deltaTime)
  }

  /** A dog gets its turn in a round if and only if every dog before it goes somewhere. */
  lemma RoundReachesIff(m: Map, w: Sweep, deltaTime: int, picks: seq<seq<Item>>, k: nat)
    requires Ready(m, w) && LegalRound(m, w, deltaTime, picks) && k < |w.players|
    ensures k < |picks| <==> AllGoBefore(m, w, deltaTime, k)
  {
    hide GathererOf, MovedDog, PickOk, Goes;
    forall j | 0 <= j < |picks|
      ensures GathererOf(m, w, deltaTime, picks, j).Some? <==> Goes(m.roads, w.players[j].dog, deltaTime)
    {
      GathererInAdvance(m, w, deltaTime, picks, j);
      GoesIff(m.roads, w.players[j].dog, deltaTime);
    }
  }

  /** What a round does to each dog, in terms of the state before it alone. */
  lemma RoundOutcome(m: Map, w: Sweep, deltaTime: int, picks: seq<seq<Item>>, k: nat)
    requires Ready(m, w) && LegalRound(m, w, deltaTime, picks) && k < |w.players|
    ensures var p, p' := w.players[k], MoveFirst(m, w, deltaTime, picks).players[k];
            if AllGoBefore(m, w, deltaTime, k) then
              && p'.dog.motion == MotionAfter(m.roads, p.dog, deltaTime)
              && p'.dog.playTime == p.dog.playTime + deltaTime
              && p'.dog.idleTime == if Goes(m.roads, p.dog, deltaTime) then 0 else p.dog.idleTime + deltaTime
            else p' == p
  {
    hide MovedDog, GathererOf, Goes, MotionAfter, AllGoBefore, MoveFirst, PickOk;
    RoundReachesIff(m, w, deltaTime, picks, k);
    RoundTouchesPrefix(m, w, deltaTime, picks, k);
    if k < |picks| {
      GathererInAdvance(m, w, deltaTime, picks, k);
      GoesIff(m.roads, w.players[k].dog, deltaTime);
    }
  }

  /** A dog standing still keeps the dog after it from moving. */
  lemma DrivingDogLeftBehind(picks: seq<seq<Item>>)
    ensures var m := Map("m", [Road(Point(0.0, 0.0), Point(10.0, 0.0))], [], [], 1.0, 3);
            var driving := Turned(FreshDog(3), EAST, 1.0);
            var w := Sweep([PlayerView(0, "a", "s", FreshDog(3)), PlayerView(1, "b", "t", driving)], []);
            && Ready(m, w)
            && Goes(m.roads, driving, 1000)
            && LegalRound(m, w, 1000, [[]])
            && (LegalRound(m, w, 1000, picks) ==> MoveFirst(m, w, 1000, picks).players[1].dog == driving)
  {
    var m := Map("m", [Road(Point(0.0, 0.0), Point(10.0, 0.0))], [], [], 1.0, 3);
    var driving := Turned(FreshDog(3), EAST, 1.0);
    var w := Sweep([PlayerView(0, "a", "s", FreshDog(3)), PlayerView(1, "b", "t", driving)], []);
    assert EvaluateNewPosition(driving.motion, 1000) == Point(1.0, 0.0);
    assert EvaluateNewPosition(FreshDog(3).motion, 1000) == Point(0.0, 0.0);
    assert MovedDog(m.roads, w.players[0].dog, 1000).1.None?;
    GathererInAdvance(m, w, 1000, [[]], 0);
    if LegalRound(m, w, 1000, picks) {
      RoundOutcome(m, w, 1000, picks, 1);
    }
  }

  // ---------------------------------------------------------------- runs

  datatype Op =
    | Join(name: string, token: string)
    | SetSpeed(k: nat, dir: DogDirection, speed: real)
    | Generate(timeDelta: int, chance: real, draws: seq<Draw>)
    | Move(deltaTime: int, picks: seq<seq<Item>>)

  /** Ready is what moving needs of the state; RunIsReady shows that it never fails. */
  ghost predicate Enabled(m: Map, s: SessionView, op: Op) {
    match op
    case Join(_, _) => true
    case SetSpeed(k, _, _) => k < |s.players|
    case Generate(_, _, draws) => DrawsFit(m, s, draws)
    case Move(dt, picks) => Ready(m, SweepOf(s)) && LegalRound(m, SweepOf(s), dt, picks)
  }

  function WithSpeed(s: SessionView, k: nat, dir: DogDirection, speed: real): SessionView
    requires k < |s.players|
  {
    var p := s.players[k];
    s.(players := s.players[k := p.(dog := Turned(p.dog, dir, speed))])
  }

  ghost function Step(m: Map, defaultBagCapacity: int, s: SessionView, op: Op): SessionView
    requires Enabled(m, s, op)
  {
    match op
    case Join(name, token) => Joined(s, m, name, token, defaultBagCapacity).0
    case SetSpeed(k, dir, speed) => WithSpeed(s, k, dir, speed)
    case Generate(dt, chance, draws) => LootGenerated(s, m, dt, chance, draws).0
    case Move(dt, picks) => MovedSession(s, m, dt, picks)
  }

  ghost predicate Transition(m: Map, defaultBagCapacity: int, s: SessionView, op: Op, s': SessionView) {
    Enabled(m, s, op) && s' == Step(m, defaultBagCapacity, s, op)
  }

  /** trace[0], ..., trace[n], with ops[k] leading from trace[k] to trace[k + 1]. */
  ghost predicate IsRunFrom(m: Map, defaultBagCapacity: int, trace: seq<SessionView>, ops: seq<Op>) {
    && |trace| == |ops| + 1
    && forall k :: 0 <= k < |ops| ==> Transition(m, defaultBagCapacity, trace[k], ops[k], trace[k + 1])
  }

  /** A run of a new session. */
  ghost predicate IsRun(m: Map, defaultBagCapacity: int, trace: seq<SessionView>, ops: seq<Op>) {
    IsRunFrom(m, defaultBagCapacity, trace, ops) && trace[0] == FreshSession(trace[0].mapId, trace[0].generator)
  }

  predicate OnMap(m: Map, l: LootInfo) {
    && 0 <= l.kind < |m.loots|
    && exists r :: 0 <= r < |m.roads| && OnSegment(m.roads[r], Point(l.x, l.y))
  }

  /** Everything ever generated is numbered in order, is of a known kind and lies on a road. */
  predicate ProperHistory(m: Map, s: SessionView) {
    && |s.spawned| == s.lootId
    && forall k :: 0 <= k < |s.spawned| ==> s.spawned[k].id == k && OnMap(m, s.spawned[k])
  }

  ghost predicate LootConserved(s: SessionView) {
    forall x :: Places(SweepOf(s), x) == multiset(s.spawned)[x]
  }

  predicate DogInv(m: Map, d: DogView) {
    && ValidRoad(m.roads, d.motion) && AxisParallel(d.motion.speed) && d.direction != STOP
    && KindsKnown(m, d.bag) && KindsKnown(m, d.delivered)
    && |d.bag| <= AsSize(d.bagCapacity)
    && d.score == Worth(m, d.delivered)
  }

  predicate SessionInv(m: Map, s: SessionView) {
    && KindsKnown(m, s.loots)
    && (forall k :: 0 <= k < |s.players| ==> DogInv(m, s.players[k].dog))
    && |s.loots| <= |s.players|
    && ProperHistory(m, s)
  }

  predicate AlignedMap(m: Map) {
    m.roads != [] && forall r :: 0 <= r < |m.roads| ==> m.roads[r].AxisAligned()
  }

  lemma NewLootOnMap(m: Map, id: int, d: Draw)
    requires AlignedMap(m) && ValidDraw(m, d)
    ensures OnMap(m, NewLoot(m, id, d))
  {
    var l, r := NewLoot(m, id, d), m.roads[d.road];
    assert r.AxisAligned();
    assert OnSegment(r, Point(l.x, l.y));
  }

  /** Generation only appends: numbered on from the counter, of existing kinds, on the roads
      of the map, and never more than there are players short of loot. */
  lemma GenerateAppends(m: Map, s: SessionView, dt: int, chance: real, draws: seq<Draw>)
    returns (added: seq<LootInfo>)
    requires DrawsFit(m, s, draws)
    ensures var s' := LootGenerated(s, m, dt, chance, draws).0;
            && s' == s.(generator := s'.generator, loots := s.loots + added, spawned := s.spawned + added,
                        lootId := s.lootId + |added|)
    ensures |added| <= Shortage(|s.loots|, |s.players|)
    ensures Numbered(s.lootId, added) && KindsKnown(m, added)
    ensures AlignedMap(m) ==> forall k :: 0 <= k < |added| ==> OnMap(m, added[k])
  {
    hide Generated;
    var (g, n) := Generated(s.generator, dt, |s.loots|, |s.players|, chance);
    GeneratedBound(s.generator, dt, |s.loots|, |s.players|, chance);
    assert s.loots + [] == s.loots && s.spawned + [] == s.spawned;
    if n > 0 && m.loots != [] && m.roads != [] {
      added := NewLoots(m, s.lootId, draws[..n]);
      forall k | 0 <= k < n && AlignedMap(m) ensures OnMap(m, added[k]) {
        NewLootOnMap(m, s.lootId + k, draws[k]);
      }
    } else {
      added := [];
    }
  }

  /** What can be drawn is exactly the loot of every kind of the map at every point of its roads. */
  lemma AnythingOnMapCanBeDrawn(m: Map, id: int, kind: int, p: Point)
    requires AlignedMap(m)
    ensures (exists d :: ValidDraw(m, d) && NewLoot(m, id, d) == LootInfo(id, kind, p.x, p.y)) <==>
            OnMap(m, LootInfo(id, kind, p.x, p.y))
  {
    forall d | ValidDraw(m, d) && NewLoot(m, id, d) == LootInfo(id, kind, p.x, p.y)
      ensures OnMap(m, LootInfo(id, kind, p.x, p.y))
    {
      NewLootOnMap(m, id, d);
    }
    if OnMap(m, LootInfo(id, kind, p.x, p.y)) {
      var r :| 0 <= r < |m.roads| && OnSegment(m.roads[r], p);
      var d := Draw(kind, r, if m.roads[r].IsHorizontal() then p.x else p.y);
      assert m.roads[r].AxisAligned();
      assert ValidDraw(m, d) && NewLoot(m, id, d) == LootInfo(id, kind, p.x, p.y);
    }
  }

  predicate Numbered(first: int, loots: seq<LootInfo>) {
    forall k :: 0 <= k < |loots| ==> loots[k].id == first + k
  }

  lemma GenerateKeeps(m: Map, s: SessionView, dt: int, chance: real, draws: seq<Draw>)
    requires AlignedMap(m) && SessionInv(m, s) && DrawsFit(m, s, draws)
    ensures SessionInv(m, LootGenerated(s, m, dt, chance, draws).0)
  {
    hide DogInv, LootGenerated, OnMap;
    var added := GenerateAppends(m, s, dt, chance, draws);
  }

  lemma FreshDogInv(m: Map, bagCapacity: int, x: LootInfo)
    ensures AlignedMap(m) ==> DogInv(m, FreshDog(bagCapacity))
    ensures Held(FreshDog(bagCapacity), x) == 0
  {
    NothingIsWorth(m, |m.loots|);
  }

  lemma JoinKeeps(m: Map, s: SessionView, name: string, token: string, cap: int)
    requires AlignedMap(m) && SessionInv(m, s)
    ensures SessionInv(m, Joined(s, m, name, token, cap).0)
  {
    hide DogInv, FreshDog, CapacityOn, OnMap;
    FreshDogInv(m, CapacityOn(m, cap), LootInfo(0, 0, 0.0, 0.0));
  }

  lemma SetSpeedKeeps(m: Map, s: SessionView, k: nat, dir: DogDirection, speed: real)
    requires SessionInv(m, s) && k < |s.players|
    ensures SessionInv(m, WithSpeed(s, k, dir, speed))
  {
    assert DogInv(m, s.players[k].dog);
    TurnedTravels(s.players[k].dog, dir, speed, 0);
  }

  // ---------------------------------------------------------------- what one step does to the loot

  lemma JoinConserves(m: Map, s: SessionView, name: string, token: string, cap: int, x: LootInfo)
    ensures Places(SweepOf(Joined(s, m, name, token, cap).0), x) == Places(SweepOf(s), x)
  {
    hide FreshDog, CapacityOn, Held;
    var s' := Joined(s, m, name, token, cap).0;
    if s' != s {
      assert s'.players[..|s.players|] == s.players;
      FreshDogInv(m, CapacityOn(m, cap), x);
    }
  }

  lemma SetSpeedConserves(s: SessionView, k: nat, dir: DogDirection, speed: real, x: LootInfo)
    requires k < |s.players|
    ensures Places(SweepOf(WithSpeed(s, k, dir, speed)), x) == Places(SweepOf(s), x)
  {
    HeldUpdate(s.players, k, WithSpeed(s, k, dir, speed).players[k], x);
  }

  /** s' has the loot of s, moved about at will, and the added loot, numbered on. */
  ghost predicate Accounts(s: SessionView, s': SessionView, added: seq<LootInfo>) {
    && s'.spawned == s.spawned + added
    && s'.lootId == s.lootId + |added|
    && Numbered(s.lootId, added)
    && forall x :: Places(SweepOf(s'), x) == Places(SweepOf(s), x) + multiset(added)[x]
  }

  /** Whatever the step, all loot there was is still there, with what was generated. */
  lemma StepAccounts(m: Map, cap: int, s: SessionView, op: Op) returns (added: seq<LootInfo>)
    requires Enabled(m, s, op)
    ensures Accounts(s, Step(m, cap, s, op), added)
    ensures Ready(m, SweepOf(s)) && m.roads != [] ==> Ready(m, SweepOf(Step(m, cap, s, op)))
  {
    hide Places, FreshDog, LootGenerated;
    var s' := Step(m, cap, s, op);
    added := [];
    match op
    case Join(name, token) =>
      forall x ensures Places(SweepOf(s'), x) == Places(SweepOf(s), x) {
        JoinConserves(m, s, name, token, cap, x);
      }
      NewDogReady(CapacityOn(m, cap));
    case SetSpeed(k, dir, speed) =>
      forall x ensures Places(SweepOf(s'), x) == Places(SweepOf(s), x) {
        SetSpeedConserves(s, k, dir, speed, x);
      }
    case Generate(dt, chance, draws) =>
      added := GenerateAppends(m, s, dt, chance, draws);
      AppendAccounts(s, s', added);
    case Move(dt, picks) =>
      assert SweepOf(s') == MoveFirst(m, SweepOf(s), dt, picks);
      forall x ensures Places(SweepOf(s'), x) == Places(SweepOf(s), x) {
        RoundConserves(m, SweepOf(s), dt, picks, x);
      }
  }

  lemma NewDogReady(bagCapacity: int)
    ensures var d := FreshDog(bagCapacity); d.motion.road == 0 && d.bag == [] && d.delivered == []
  {}

  lemma AppendAccounts(s: SessionView, s': SessionView, added: seq<LootInfo>)
    requires s'.players == s.players && s'.loots == s.loots + added
    ensures forall x :: Places(SweepOf(s'), x) == Places(SweepOf(s), x) + multiset(added)[x]
  {
    forall x ensures Places(SweepOf(s'), x) == Places(SweepOf(s), x) + multiset(added)[x] {
      CountSplit(s.loots, added, x);
    }
  }

  lemma AccountsTwice(s: SessionView, s1: SessionView, s2: SessionView,
                      a: seq<LootInfo>, b: seq<LootInfo>)
    requires Accounts(s, s1, a) && Accounts(s1, s2, b)
    ensures Accounts(s, s2, a + b)
  {
    hide Places;
    assert s.spawned + (a + b) == s.spawned + a + b;
    forall x ensures Places(SweepOf(s2), x) == Places(SweepOf(s), x) + multiset(a + b)[x] {
      CountSplit(a, b, x);
      assert Places(SweepOf(s1), x) == Places(SweepOf(s), x) + multiset(a)[x];
    }
  }

  /** Loot conservation from any state at all, for instance a restored one: after any run,
      the loot that was there is there in the same number of places, and besides it exactly
      what was generated, numbered on from the counter. A state that is ready stays ready. */
  lemma {:induction false} ConservationFromAnywhere(m: Map, cap: int, trace: seq<SessionView>, ops: seq<Op>, k: nat)
    returns (added: seq<LootInfo>)
    requires IsRunFrom(m, cap, trace, ops) && k <= |ops|
    ensures Accounts(trace[0], trace[k], added)
    ensures Ready(m, SweepOf(trace[0])) && m.roads != [] ==> Ready(m, SweepOf(trace[k]))
  {
    if k == 0 {
      added := [];
    } else {
      var before := ConservationFromAnywhere(m, cap, trace, ops, k - 1);
      assert Transition(m, cap, trace[k - 1], ops[k - 1], trace[k - 1 + 1]);
      hide Accounts, Ready;
      var last := StepAccounts(m, cap, trace[k - 1], ops[k - 1]);
      AccountsTwice(trace[0], trace[k - 1], trace[k], before, last);
      added := before + last;
    }
  }

  lemma {:induction false} CollectKeepsDog(m: Map, d: DogView, loots: seq<LootInfo>, items: seq<Item>)
    requires Kinds(m, d, loots) && DogInv(m, d)
    ensures DogInv(m, Collect(m, d, loots, items).0)
    ensures |Collect(m, d, loots, items).1| <= |loots|
    decreases |items|
  {
    if items != [] {
      var (d', loots') := CollectOne(m, d, loots, items[0]);
      if items[0].kind == ItemType.Office {
        WorthAdds(m, d.delivered, d.bag);
        ScoreIsWorth(m, d.bag);
      }
      CollectKeepsDog(m, d', loots', items[1..]);
    }
  }

  lemma MoveKeepsDog(m: Map, d: DogView, deltaTime: int)
    requires DogInv(m, d)
    ensures DogInv(m, MovedDog(m.roads, d, deltaTime).0)
  {
    AdvanceEndsOnRoad(m.roads, d.motion, deltaTime);
  }

  lemma {:induction false} RoundKeeps(m: Map, w: Sweep, deltaTime: int, picks: seq<seq<Item>>)
    requires Ready(m, w) && |picks| <= |w.players|
    requires forall j :: 0 <= j < |w.players| ==> DogInv(m, w.players[j].dog)
    ensures var w' := MoveFirst(m, w, deltaTime, picks);
            && |w'.loots| <= |w.loots|
            && forall j :: 0 <= j < |w.players| ==> DogInv(m, w'.players[j].dog)
  {
    if picks != [] {
      var n := |picks| - 1;
      var before := MoveFirst(m, w, deltaTime, picks[..n]);
      RoundKeeps(m, w, deltaTime, picks[..n]);
      hide DogInv, MoveOne, Ready;
      TurnKeepsDog(m, before, n, deltaTime, picks[n]);
    }
  }

  lemma TurnKeepsDog(m: Map, w: Sweep, k: nat, deltaTime: int, items: seq<Item>)
    requires Ready(m, w) && k < |w.players| && DogInv(m, w.players[k].dog)
    ensures DogInv(m, MoveOne(m, w, k, deltaTime, items).players[k].dog)
    ensures forall j :: 0 <= j < |w.players| && j != k ==>
              MoveOne(m, w, k, deltaTime, items).players[j] == w.players[j]
    ensures |MoveOne(m, w, k, deltaTime, items).loots| <= |w.loots|
  {
    hide Collect, MovedDog;
    var d := w.players[k].dog;
    MoveKeepsDog(m, d.(playTime := d.playTime + deltaTime), deltaTime);
    MoveKeepsRoad(m, w, k, deltaTime);
    var (d', g) := MoveOf(m, w, k, deltaTime);
    if g.Some? {
      CollectKeepsDog(m, d'.(idleTime := 0), w.loots, items);
    }
  }

  lemma StepKeeps(m: Map, cap: int, s: SessionView, op: Op)
    requires AlignedMap(m) && SessionInv(m, s) && LootConserved(s) && Enabled(m, s, op)
    ensures SessionInv(m, Step(m, cap, s, op)) && LootConserved(Step(m, cap, s, op))
  {
    var added := StepAccounts(m, cap, s, op);
    AccountsKeepConserved(s, Step(m, cap, s, op), added);
    hide LootConserved, Accounts;
    match op
    case Join(name, token) => JoinKeeps(m, s, name, token, cap);
    case SetSpeed(k, dir, speed) => SetSpeedKeeps(m, s, k, dir, speed);
    case Generate(dt, chance, draws) => GenerateKeeps(m, s, dt, chance, draws);
    case Move(dt, picks) => RoundKeeps(m, SweepOf(s), dt, picks);
  }

  lemma AccountsKeepConserved(s: SessionView, s': SessionView, added: seq<LootInfo>)
    requires LootConserved(s) && Accounts(s, s', added)
    ensures LootConserved(s')
  {
    hide Places;
    forall x ensures Places(SweepOf(s'), x) == multiset(s'.spawned)[x] {
      CountSplit(s.spawned, added, x);
      assert Places(SweepOf(s), x) == multiset(s.spawned)[x];
    }
  }

  /** In every state of every run the bag, score, road and loot-count bounds hold, and the
      loot on the floor, in the bags and delivered is exactly what was generated. */
  lemma {:induction false} RunKeeps(m: Map, cap: int, trace: seq<SessionView>, ops: seq<Op>, k: nat)
    requires AlignedMap(m) && IsRun(m, cap, trace, ops) && k <= |ops|
    ensures SessionInv(m, trace[k]) && LootConserved(trace[k])
  {
    if k == 0 {
      assert SweepOf(trace[0]) == Sweep([], []);
    } else {
      RunKeeps(m, cap, trace, ops, k - 1);
      assert Transition(m, cap, trace[k - 1], ops[k - 1], trace[k - 1 + 1]);
      hide SessionInv, LootConserved;
      StepKeeps(m, cap, trace[k - 1], ops[k - 1]);
    }
  }

  lemma {:induction false} CountInHistory(spawned: seq<LootInfo>, x: LootInfo)
    requires forall k :: 0 <= k < |spawned| ==> spawned[k].id == k
    ensures multiset(spawned)[x] == if 0 <= x.id < |spawned| && spawned[x.id] == x then 1 else 0
  {
    if spawned != [] {
      var n := |spawned| - 1;
      CountInHistory(spawned[..n], x);
      assert spawned == spawned[..n] + [spawned[n]];
      CountSplit(spawned[..n], [spawned[n]], x);
    }
  }

  /** Loot conservation over every run: the loot with each number issued so far is in
      exactly one place, unchanged since it was generated, and there is no other loot. */
  lemma LootConservation(m: Map, cap: int, trace: seq<SessionView>, ops: seq<Op>, k: nat, x: LootInfo)
    requires AlignedMap(m) && IsRun(m, cap, trace, ops) && k <= |ops|
    ensures var s := trace[k];
            && |s.spawned| == s.lootId
            && (forall id :: 0 <= id < s.lootId ==> s.spawned[id].id == id)
            && Places(SweepOf(s), x) == (if 0 <= x.id < s.lootId && s.spawned[x.id] == x then 1 else 0)
            && (Places(SweepOf(s), x) > 0 ==> OnMap(m, x))
  {
    RunKeeps(m, cap, trace, ops, k);
    assert Places(SweepOf(trace[k]), x) == multiset(trace[k].spawned)[x];
    CountInHistory(trace[k].spawned, x);
  }

  predicate Holds(d: DogView, x: LootInfo) {
    x in d.bag || x in d.delivered
  }

  lemma FloorIsUnique(m: Map, cap: int, trace: seq<SessionView>, ops: seq<Op>, k: nat)
    requires AlignedMap(m) && IsRun(m, cap, trace, ops) && k <= |ops|
    ensures UniqueIds(trace[k].loots)
  {
    var floor := trace[k].loots;
    forall a, b | 0 <= a < b < |floor| ensures floor[a].id != floor[b].id {
      LootConservation(m, cap, trace, ops, k, floor[a]);
      LootConservation(m, cap, trace, ops, k, floor[b]);
      hide *;
      InMultiset(trace[k], a);
      InMultiset(trace[k], b);
      if floor[a].id == floor[b].id {
        TwiceInMultiset(floor, a, b);
      }
    }
  }

  lemma InMultiset(s: SessionView, a: nat)
    requires a < |s.loots|
    ensures 1 <= multiset(s.loots)[s.loots[a]] <= Places(SweepOf(s), s.loots[a])
  {
    assert s.loots[a] in multiset(s.loots);
  }

  /** No loot number is held by two dogs, or by a dog while it lies on the floor, and none
      lies on the floor twice. */
  lemma NoLootTwice(m: Map, cap: int, trace: seq<SessionView>, ops: seq<Op>, k: nat,
                    i: nat, j: nat, x: LootInfo, y: LootInfo)
    requires AlignedMap(m) && IsRun(m, cap, trace, ops) && k <= |ops|
    requires i <= j < |trace[k].players|
    requires x.id == y.id
    ensures var s := trace[k];
            && (i < j ==> !(Holds(s.players[i].dog, x) && Holds(s.players[j].dog, y)))
            && !(x in s.loots && (Holds(s.players[i].dog, y) || Holds(s.players[j].dog, y)))
            && UniqueIds(s.loots)
  {
    var players := trace[k].players;
    FloorIsUnique(m, cap, trace, ops, k);
    LootConservation(m, cap, trace, ops, k, x);
    LootConservation(m, cap, trace, ops, k, y);
    hide IsRun, UniqueIds, OnMap, AlignedMap;
    HeldByEach(players, j, x);
    HeldByEach(players, j, y);
    HeldByEach(players, i, y);
    HeldByEach(players, i, x);
  }

  /** Score accounting: a dog's score is, summed over the kinds of the map, the number of
      pieces it delivered times the value of the kind; every kind used as an index exists. The
      floor never holds more loot than there are players, and no dog more than its bag holds. */
  lemma ScoresAndBounds(m: Map, cap: int, trace: seq<SessionView>, ops: seq<Op>, k: nat, i: nat)
    requires AlignedMap(m) && IsRun(m, cap, trace, ops) && k <= |ops| && i < |trace[k].players|
    ensures var d := trace[k].players[i].dog;
            && KindsKnown(m, d.delivered) && KindsKnown(m, d.bag)
            && d.score == Worth(m, d.delivered)
            && (0 <= d.bagCapacity < 0x1_0000_0000_0000_0000 ==> |d.bag| <= d.bagCapacity)
            && |trace[k].loots| <= |trace[k].players|
  {
    RunKeeps(m, cap, trace, ops, k);
    assert DogInv(m, trace[k].players[i].dog);
  }

  /** No run is ever cut short: whatever moving needs of the state always holds. */
  lemma RunIsReady(m: Map, cap: int, trace: seq<SessionView>, ops: seq<Op>, k: nat)
    requires AlignedMap(m) && IsRun(m, cap, trace, ops) && k <= |ops|
    ensures Ready(m, SweepOf(trace[k]))
  {
    RunKeeps(m, cap, trace, ops, k);
    assert forall i :: 0 <= i < |trace[k].players| ==> DogInv(m, trace[k].players[i].dog);
  }
}
