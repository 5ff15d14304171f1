/** Runs that go on from a restored snapshot: which numbers are issued a second time. */
module RestoredRuns {
  import opened DataTypes
  import opened MapModel
  import opened Dogs
  import opened LootGenerators
  import opened SessionModel
  import opened SessionRuns
  import opened GameModel
  import opened GameProofs
  import opened GameRuns

  // ---------------------------------------------------------------- loot numbers

  /** Two pieces of loot, or two copies of one, carry the same number. */
  ghost predicate NumberTwice(w: Sweep) {
    exists x, y :: SameNumber(w, x, y)
  }

  predicate SameNumber(w: Sweep, x: LootInfo, y: LootInfo) {
    x.id == y.id && (if x == y then Places(w, x) >= 2 else Places(w, x) >= 1 && Places(w, y) >= 1)
  }

  predicate InRecordedBag(p: PlayerState, n: int) {
    exists j :: 0 <= j < |p.dog.bag| && p.dog.bag[j].id == n
  }

  predicate InRecordedBags(players: seq<PlayerState>, n: int) {
    exists i :: 0 <= i < |players| && InRecordedBag(players[i], n)
  }

  /** The snapshot has loot with this number, on the floor or in a bag. */
  predicate Recorded(info: SessionInfo, n: int) {
    (exists k :: 0 <= k < |info.loots| && info.loots[k].id == n) || InRecordedBags(info.players, n)
  }

  predicate InBag(p: PlayerView, n: int) {
    exists j :: 0 <= j < |p.dog.bag| && p.dog.bag[j].id == n
  }

  predicate InBags(players: seq<PlayerView>, n: int) {
    exists i :: 0 <= i < |players| && InBag(players[i], n)
  }

  predicate NothingDelivered(players: seq<PlayerView>) {
    forall i :: 0 <= i < |players| ==> players[i].dog.delivered == []
  }

  lemma BagGrows(q: PlayerView, p: PlayerState, d: DogView, n: int)
    requires d.bag == q.dog.bag + BagFrom(p.dog.bag)
    ensures InBag(q.(id := p.id, dog := d), n) <==> InBag(q, n) || InRecordedBag(p, n)
  {
    if InBag(q, n) {
      var j :| 0 <= j < |q.dog.bag| && q.dog.bag[j].id == n;
      assert d.bag[j].id == n;
    }
    if InRecordedBag(p, n) {
      var j :| 0 <= j < |p.dog.bag| && p.dog.bag[j].id == n;
      assert d.bag[|q.dog.bag| + j].id == n;
    }
  }

  lemma RestoredBag(c: Config, m: Map, s: SessionView, p: PlayerState, n: int)
    requires DirectionFromString(p.dog.dir).Some? && NothingDelivered(s.players)
    ensures var r := RestorePlayer(c, m, s, p).value;
            NothingDelivered(r.players) && (InBags(r.players, n) <==> InBags(s.players, n) || InRecordedBag(p, n))
  {
    var (s', j) := Joined(s, m, p.name, p.token, c.defaultBagCapacity);
    var r, q := RestorePlayer(c, m, s, p).value, s'.players[j];
    BagGrows(q, p, r.players[j].dog, n);
    hide InBag, InRecordedBag, Joined, InitDog, DirectionFromString;
    assert r.players == s'.players[j := r.players[j]];
    NewcomerHasNothing(c, m, s, p, n);
    if InBags(s'.players, n) {
      var i :| 0 <= i < |s'.players| && InBag(s'.players[i], n);
      assert InBag(r.players[i], n);
    }
    if InRecordedBag(p, n) {
      assert InBag(r.players[j], n);
    }
  }

  lemma NewcomerHasNothing(c: Config, m: Map, s: SessionView, p: PlayerState, n: int)
    requires NothingDelivered(s.players)
    ensures var (s', j) := Joined(s, m, p.name, p.token, c.defaultBagCapacity);
            && j < |s'.players| && NothingDelivered(s'.players)
            && (InBags(s'.players, n) <==> InBags(s.players, n))
  {
    var (s', j) := Joined(s, m, p.name, p.token, c.defaultBagCapacity);
    hide InBag, FreshDog;
    NewDogReady(CapacityOn(m, c.defaultBagCapacity));
    if InBags(s.players, n) {
      var i :| 0 <= i < |s.players| && InBag(s.players[i], n);
      assert InBag(s'.players[i], n);
    }
    EmptyBag(s'.players[j], n);
  }

  lemma EmptyBag(p: PlayerView, n: int)
    ensures p.dog.bag == [] ==> !InBag(p, n)
  {}

  lemma {:induction false} RestoredBags(c: Config, s: SessionView, records: seq<PlayerState>, n: int)
    requires s.players == [] && RestorePlayers(c, s, records).Some?
    ensures var r := RestorePlayers(c, s, records).value;
            NothingDelivered(r.players) && (InBags(r.players, n) <==> InRecordedBags(records, n))
  {
    if records != [] {
      var i := |records| - 1;
      var before, p := RestorePlayers(c, s, records[..i]), records[i];
      RestoredBags(c, s, records[..i], n);
      hide InBags, NothingDelivered, RestorePlayer;
      RestoredBag(c, c.maps[s.mapId], before.value, p, n);
      assert InRecordedBags(records, n) <==> InRecordedBags(records[..i], n) || InRecordedBag(p, n) by {
        hide InRecordedBag;
        assert forall k :: 0 <= k < i ==> records[..i][k] == records[k];
      }
    }
  }

  lemma {:induction false} PlacesPositive(players: seq<PlayerView>, x: LootInfo)
    ensures HeldBy(players, x) > 0 <==> exists i :: 0 <= i < |players| && Holds(players[i].dog, x)
  {
    if players != [] {
      var n := |players| - 1;
      PlacesPositive(players[..n], x);
      assert forall i :: 0 <= i < n ==> players[..n][i] == players[i];
      assert Held(players[n].dog, x) > 0 <==> Holds(players[n].dog, x);
    }
  }

  /** Restoring brings back exactly the recorded numbers. */
  lemma RestoredNumbers(c: Config, info: SessionInfo, n: int)
    requires RestoreSession(c, info).Some?
    ensures Recorded(info, n) <==>
            exists x: LootInfo :: x.id == n && Places(SweepOf(RestoreSession(c, info).value), x) > 0
  {
    var s := RestoreSession(c, info).value;
    RestoreSessionResult(c, info);
    RestoredBags(c, EmptySession(c, info.mapId).(loots := info.loots), info.players, n);
    if x: LootInfo :| x.id == n && Places(SweepOf(s), x) > 0 {
      PlacesPositive(s.players, x);
      if x in s.loots {
        var k :| 0 <= k < |s.loots| && s.loots[k] == x;
      } else {
        var i :| 0 <= i < |s.players| && Holds(s.players[i].dog, x);
        assert InBag(s.players[i], n);
      }
    }
    if k :| 0 <= k < |info.loots| && info.loots[k].id == n {
      assert Places(SweepOf(s), s.loots[k]) > 0;
    } else if InBags(s.players, n) {
      var i :| 0 <= i < |s.players| && InBag(s.players[i], n);
      var j :| 0 <= j < |s.players[i].dog.bag| && s.players[i].dog.bag[j].id == n;
      var x := s.players[i].dog.bag[j];
      PlacesPositive(s.players, x);
      assert Holds(s.players[i].dog, x);
    }
  }

  /** Added loot collides with what was there exactly when it reuses one of its numbers. */
  lemma AddedCollides(s: SessionView, s': SessionView, added: seq<LootInfo>)
    requires Accounts(s, s', added) && s.lootId == 0 && !NumberTwice(SweepOf(s))
    ensures NumberTwice(SweepOf(s')) <==> exists x :: Places(SweepOf(s), x) > 0 && 0 <= x.id < |added|
  {
    hide Places;
    var w, w' := SweepOf(s), SweepOf(s');
    if x, y :| SameNumber(w', x, y) {
      CountInHistory(added, x);
      CountInHistory(added, y);
      assert Places(w', x) == Places(w, x) + multiset(added)[x];
      assert Places(w', y) == Places(w, y) + multiset(added)[y];
      assert !SameNumber(w, x, y);
      assert Places(w, x) > 0 || Places(w, y) > 0;
    }
    if x :| Places(w, x) > 0 && 0 <= x.id < |added| {
      var y := added[x.id];
      CountInHistory(added, y);
      assert Places(w', x) == Places(w, x) + multiset(added)[x];
      assert Places(w', y) == Places(w, y) + multiset(added)[y];
      assert SameNumber(w', x, y);
    }
  }

  /** A restored session numbers new loot from zero again. Over any run from there, loot on
      the floor, in the bags and delivered keeps distinct numbers if and only if no recorded
      number, on the floor or in a bag, is below the amount of loot generated since. */
  lemma RestoredLootNumbers(c: Config, info: SessionInfo, m: Map, cap: int,
                            trace: seq<SessionView>, ops: seq<Op>, k: nat)
    requires IsRunFrom(m, cap, trace, ops) && k <= |ops|
    requires RestoreSession(c, info) == Some(trace[0]) && !NumberTwice(SweepOf(trace[0]))
    ensures NumberTwice(SweepOf(trace[k])) <==> exists n :: 0 <= n < trace[k].lootId && Recorded(info, n)
  {
    hide NumberTwice, Recorded, Places;
    RestoreSessionResult(c, info);
    var added := ConservationFromAnywhere(m, cap, trace, ops, k);
    AddedCollides(trace[0], trace[k], added);
    forall n ensures Recorded(info, n) <==> exists x: LootInfo :: x.id == n && Places(SweepOf(trace[0]), x) > 0 {
      RestoredNumbers(c, info, n);
    }
    if x: LootInfo :| Places(SweepOf(trace[0]), x) > 0 && 0 <= x.id < |added| {
      assert Recorded(info, x.id);
    }
  }

  // ---------------------------------------------------------------- player ids

  /** Over any run players are only appended, with ids counting on. */
  lemma {:induction false} PlayersAppended(m: Map, cap: int, trace: seq<SessionView>, ops: seq<Op>, k: nat)
    requires IsRunFrom(m, cap, trace, ops) && k <= |ops|
    ensures SessionExtends(trace[0], trace[k])
    ensures trace[k].playerId == trace[0].playerId + |trace[k].players| - |trace[0].players|
    ensures forall i :: |trace[0].players| <= i < |trace[k].players| ==>
              trace[k].players[i].id == trace[0].playerId + i - |trace[0].players|
  {
    if k > 0 {
      PlayersAppended(m, cap, trace, ops, k - 1);
      assert Transition(m, cap, trace[k - 1], ops[k - 1], trace[k - 1 + 1]);
      hide IsRunFrom, FreshDog;
      var s, s', op := trace[k - 1], trace[k], ops[k - 1];
      if !op.Join? {
        SessionStepKeepsPlayers(m, cap, s, op);
      }
      hide Step;
      forall i | 0 <= i < |s.players| ensures SamePlayer(s.players[i], s'.players[i]) {}
    }
  }

  /** A restored session numbers new players from the number of those restored. Over any run
      from there, every new player has an id of its own if and only if no restored id lies
      in the range of the new ones. */
  lemma RestoredPlayerNumbers(c: Config, info: SessionInfo, m: Map, cap: int,
                              trace: seq<SessionView>, ops: seq<Op>, k: nat)
    requires IsRunFrom(m, cap, trace, ops) && k <= |ops|
    requires RestoreSession(c, info) == Some(trace[0])
    ensures var restored, players := trace[0].players, trace[k].players;
            && |restored| <= |players|
            && ((forall i, j :: 0 <= i < j < |players| && |restored| <= j ==> players[i].id != players[j].id) <==>
                forall i :: 0 <= i < |restored| ==> !(|restored| <= restored[i].id < |players|))
  {
    RestoreSessionResult(c, info);
    PlayersAppended(m, cap, trace, ops, k);
    var restored, players := trace[0].players, trace[k].players;
    assert forall i :: 0 <= i < |restored| ==> SamePlayer(restored[i], players[i]);
    if i :| 0 <= i < |restored| && |restored| <= restored[i].id < |players| {
      assert players[i].id == players[restored[i].id].id;
    }
  }

  // ---------------------------------------------------------------- tokens

  function RecordedTokens(state: seq<SessionInfo>): set<string> {
    set k, i | 0 <= k < |state| && 0 <= i < |state[k].players| :: state[k].players[i].token
  }

  /** The snapshot has no name twice in a session and no token twice at all. */
  predicate ProperSnapshot(state: seq<SessionInfo>) {
    && (forall k :: 0 <= k < |state| ==> NamesUnique(state[k].players))
    && (forall k, i, j :: 0 <= k < |state| && 0 <= i < j < |state[k].players| ==>
          state[k].players[i].token != state[k].players[j].token)
    && (forall k, l, i, j :: 0 <= k < l < |state| && 0 <= i < |state[k].players| && 0 <= j < |state[l].players| ==>
          state[k].players[i].token != state[l].players[j].token)
  }

  lemma RestoredTokens(c: Config, state: seq<SessionInfo>)
    requires RestoreGame(c, state).1 && ProperSnapshot(state)
    ensures TokensKept(RestoreGame(c, state).0, RecordedTokens(state))
    ensures StateOfGame(RestoreGame(c, state).0) == state
  {
    var g := RestoreGame(c, state).0;
    SnapshotRoundTrip(c, state);
    hide RestoreGame, NamesUnique;
    forall k | 0 <= k < |g|
      ensures |g[k].players| == |state[k].players|
      ensures forall i :: 0 <= i < |g[k].players| ==> g[k].players[i].token == state[k].players[i].token
    {
      assert StateOfSession(g[k]) == state[k];
    }
    hide StateOfGame, StateOfSession;
    assert forall k :: 0 <= k < |g| ==> TokensUnique(g[k].players);
  }

  /** Every recorded token leads to its player in every state of every run from the restored
      game, as long as nobody draws it again. */
  lemma RestoredTokenResolves(c: Config, state: seq<SessionInfo>, trace: seq<seq<SessionView>>, ops: seq<GameOp>,
                              k: nat, a: nat, i: nat)
    requires ProperSnapshot(state) && IsGameRunFrom(c, trace, ops, RecordedTokens(state))
    requires RestoreGame(c, state) == (trace[0], true)
    requires k <= |ops| && a < |state| && i < |state[a].players|
    ensures a < |trace[k]| && i < |trace[k][a].players|
    ensures Resolve(trace[k], state[a].players[i].token) == Some((a, i))
    ensures var p, q := state[a].players[i], trace[k][a].players[i]; q.id == p.id && q.name == p.name
  {
    RestoredTokens(c, state);
    assert StateOfSession(trace[0][a]) == state[a];
    assert PlayerStateOf(trace[0][a].players[i]) == state[a].players[i];
    hide IsGameRunFrom, Resolve, RestoreGame, StateOfGame;
    OldTokensResolve(c, trace, ops, RecordedTokens(state), k, a, i);
  }

  // ---------------------------------------------------------------- numbers issued twice

  /** A map with one road and one kind of loot. */
  function SmallMap(): Map {
    Map("m", [Road(Point(0.0, 0.0), Point(10.0, 0.0))], [], [LootKind(1)], 1.0, 3)
  }

  function SmallConfig(): Config {
    Config(map["m" := SmallMap()], 1, 1.0, 3, 60000.0)
  }

  /** One player with an empty floor. */
  function OnePlayer(id: int, bag: seq<GatheredLootItem>): SessionInfo {
    SessionInfo("m", [PlayerState(id, "a", "s", DogState(Point(0.0, 0.0), "R", 0, 0, 0, 0, bag))], [])
  }

  lemma OnePlayerRestored(id: int, bag: seq<GatheredLootItem>)
    ensures var info, r := OnePlayer(id, bag), RestoreSession(SmallConfig(), OnePlayer(id, bag));
            && r.Some?
            && r.value == EmptySession(SmallConfig(), "m").(
                 players := [RestoredPlayer(SmallConfig(), SmallMap(), info.players[0])], playerId := 1)
  {
    var c, info := SmallConfig(), OnePlayer(id, bag);
    var start, p := EmptySession(c, "m").(loots := []), info.players[0];
    assert start == EmptySession(c, "m");
    assert info.players[..0] == [] && RestorePlayers(c, start, []) == Some(start);
    DirectionRoundTrip(EAST, p.dog.dir);
    RestoreNewPlayer(c, SmallMap(), start, p);
  }

  /** With probability one in each millisecond, loot is certain after one. */
  lemma CertainChance(power: (real, real) -> real)
    ensures power(0.0, 1.0) == 0.0 ==> Chance(GenView(1, 1.0, 0), 1, power, 1.0) == 1.0
  {}

  /** The dog carries number 0 when the snapshot is taken; the first loot generated after
      restoring, after a millisecond and with the chance the power function gives then,
      gets number 0 again. */
  lemma LootNumberIssuedTwice() returns (s: SessionView, s': SessionView)
    ensures RestoreSession(SmallConfig(), OnePlayer(0, [GatheredLootItem(0, 0)])) == Some(s)
    ensures IsRunFrom(SmallMap(), 3, [s, s'], [Generate(1, 1.0, [Draw(0, 0, 0.0)])])
    ensures forall power: (real, real) -> real :: power(0.0, 1.0) == 0.0 ==> Chance(s.generator, 1, power, 1.0) == 1.0
    ensures !NumberTwice(SweepOf(s)) && NumberTwice(SweepOf(s'))
  {
    var c, m, info := SmallConfig(), SmallMap(), OnePlayer(0, [GatheredLootItem(0, 0)]);
    var draws := [Draw(0, 0, 0.0)];
    OnePlayerRestored(0, [GatheredLootItem(0, 0)]);
    s := RestoreSession(c, info).value;
    s' := LootGenerated(s, m, 1, 1.0, draws).0;
    assert IsRunFrom(m, 3, [s, s'], [Generate(1, 1.0, draws)]);
    var x := LootInfo(0, 0, 0.0, 0.0);
    assert s.players[0].dog.bag == [x] && s.players[0].dog.delivered == [];
    forall y ensures Places(SweepOf(s), y) == if y == x then 1 else 0 {
      assert s.players[..0] == [] && HeldBy([], y) == 0;
      assert HeldBy(s.players, y) == Held(s.players[0].dog, y);
    }
    forall power: (real, real) -> real ensures power(0.0, 1.0) == 0.0 ==> Chance(s.generator, 1, power, 1.0) == 1.0 {
      CertainChance(power);
    }
    hide Chance;
    GeneratedBound(s.generator, 1, 0, 1, 1.0);
    assert s'.lootId == 1;
    assert InRecordedBag(info.players[0], 0) && Recorded(info, 0);
    RestoredLootNumbers(c, info, m, 3, [s, s'], [Generate(1, 1.0, draws)], 1);
  }

  /** The only restored player has id 1, as it may after a retirement; the next one to join
      gets id 1 again. */
  lemma PlayerIdIssuedTwice() returns (s: SessionView, s': SessionView)
    ensures RestoreSession(SmallConfig(), OnePlayer(1, [])) == Some(s)
    ensures IsRunFrom(SmallMap(), 3, [s, s'], [Op.Join("b", "t")])
    ensures |s'.players| == 2 && s'.players[0].id == s'.players[1].id
  {
    OnePlayerRestored(1, []);
    s := RestoreSession(SmallConfig(), OnePlayer(1, [])).value;
    s' := Joined(s, SmallMap(), "b", "t", 3).0;
    assert IsRunFrom(SmallMap(), 3, [s, s'], [Op.Join("b", "t")]);
  }
}
