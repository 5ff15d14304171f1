/** The game object: its sessions and the operations on all of them. */
module Games {
  import opened DataTypes
  import opened MapModel
  import opened CollisionDetector
  import opened Dogs
  import opened LootGenerators
  import opened SessionModel
  import opened GameSessions
  import opened GameModel

  ghost function At(g: seq<SessionView>, places: seq<nat>): seq<SessionView>
    requires forall j :: 0 <= j < |places| ==> places[j] < |g|
  {
    seq(|places|, j requires 0 <= j < |places| => g[places[j]])
  }

  lemma AtAppend(g: seq<SessionView>, places: seq<nat>, i: nat)
    requires i < |g| && forall j :: 0 <= j < |places| ==> places[j] < |g|
    ensures At(g, places + [i]) == At(g, places) + [g[i]]
  {}

  lemma NobodyInNothing(c: Config)
    ensures FindExpired(c, []) == [] && ViewsOf([]) == []
  {}

  class Game {
    const config: Config
    var sessions: seq<GameSession>
    ghost var Repr: set<object>

    /** The sessions share no object, and each plays the map it is named after. */
    ghost predicate Valid()
      reads this, Repr
    {
      && this in Repr
      && (forall k :: 0 <= k < |sessions| ==>
            && sessions[k] in Repr && sessions[k].Repr <= Repr && this !in sessions[k].Repr
            && sessions[k].Valid() && sessions[k].OneMap()
            && MapFits(sessions[k].gameMap, sessions[k].mapId)
            && sessions[k].lootGen.baseInterval == config.basePeriod)
      && (forall j, k :: 0 <= j < k < |sessions| ==> sessions[j].Repr !! sessions[k].Repr)
    }

    predicate MapFits(m: Option<Map>, mapId: string) {
      m.Some? ==> mapId in config.maps && m.value == config.maps[mapId]
    }

    ghost function View(): (r: seq<SessionView>)
      reads this, Repr
      requires Valid()
      ensures |r| == |sessions|
      ensures forall k :: 0 <= k < |sessions| ==> r[k] == sessions[k].View()
    {
      seq(|sessions|, k requires 0 <= k < |sessions| && Valid() reads this, Repr => sessions[k].View())
    }

    constructor (config: Config)
      ensures Valid() && fresh(Repr) && this.config == config && View() == []
    {
      this.config := config;
      sessions := [];
      Repr := {this};
    }

    /** If only session i and its new objects differ, the game differs in that session only. */
    twostate lemma OnlySession(i: nat)
      requires old(Valid()) && sessions == old(sessions) && i < |sessions|
      requires forall o :: o in old(Repr) && o !in old(sessions[i].Repr) && o != this ==> unchanged(o)
      requires sessions[i].Valid() && sessions[i].OneMap() && MapFits(sessions[i].gameMap, sessions[i].mapId)
      requires old(sessions[i].Repr) <= sessions[i].Repr && fresh(sessions[i].Repr - old(sessions[i].Repr))
      requires Repr == old(Repr) + sessions[i].Repr
      ensures Valid() && View() == old(View())[i := sessions[i].View()]
    {
      forall k | 0 <= k < |sessions| && k != i
        ensures sessions[k].Valid() && sessions[k].View() == old(sessions[k].View())
        ensures sessions[k].Repr == old(sessions[k].Repr)
      {
        assert old(sessions[k].Repr) !! old(sessions[i].Repr);
        assert forall o :: o in old(sessions[k].Repr) ==> unchanged(o);
      }
    }

    // -------------------------------------------------------------- lookups

    method FindSessionOf(mapId: string) returns (k: nat)
      requires Valid()
      ensures k == FindSession(View(), mapId)
    {
      k := 0;
      while k < |sessions| && sessions[k].mapId != mapId
        invariant 0 <= k <= |sessions|
        invariant forall j :: 0 <= j < k ==> sessions[j].mapId != mapId
      {
        k := k + 1;
      }
    }

    method FindSessionWithTokenOf(token: string) returns (k: nat)
      requires Valid()
      ensures k == FindSessionWithToken(View(), token)
    {
      hide HasToken, GameSession.Valid, GameSession.View;
      k := 0;
      while k < |sessions|
        invariant 0 <= k <= |sessions|
        invariant forall j :: 0 <= j < k ==> !HasToken(View()[j], token)
      {
        var found := sessions[k].HasPlayerWithAuthToken(token);
        if found {
          return;
        }
        k := k + 1;
      }
    }

    method GetPlayerWithAuthToken(token: string) returns (player: Option<Player>)
      requires Valid()
      ensures var r := Resolve(View(), token);
              match r
              case None => player == None
              case Some((k, i)) => k < |sessions| && i < |sessions[k].players| && player == Some(sessions[k].players[i])
    {
      hide FindSessionWithToken, ViewsOf;
      var k := FindSessionWithTokenOf(token);
      if k == |sessions| {
        return None;
      }
      player := sessions[k].FindPlayerWithAuthToken(token);
    }

    // -------------------------------------------------------------- joining

    /** The session of the map, made now if there was none. */
    method OpenSession(mapId: string) returns (k: nat)
      requires Valid() && mapId in config.maps
      modifies this
      ensures Valid() && fresh(Repr - old(Repr)) && old(Repr) <= Repr
      ensures k == FindSession(old(View()), mapId) < |sessions|
      ensures View() == WithSession(config, old(View()), mapId)
    {
      ghost var views := View();
      k := FindSessionOf(mapId);
      if k == |sessions| {
        var session := new GameSession(mapId, config.basePeriod, config.probability);
        PushSession(session);
      }
    }

    method PushSession(session: GameSession)
      requires Valid() && session.Valid() && session.OneMap() && session.Repr !! Repr
      requires MapFits(session.gameMap, session.mapId) && session.lootGen.baseInterval == config.basePeriod
      modifies this`sessions, this`Repr
      ensures Valid() && Repr == old(Repr) + session.Repr
      ensures sessions == old(sessions) + [session]
      ensures View() == old(View()) + [session.View()]
    {
      sessions := sessions + [session];
      Repr := Repr + session.Repr;
    }

    method AddPlayer(mapId: string, name: string, token: string) returns (outcome: JoinOutcome)
      requires Valid()
      modifies this, Repr
      ensures Valid() && fresh(Repr - old(Repr))
      ensures (View(), outcome) == JoinedGame(config, old(View()), mapId, name, token)
    {
      if name == "" {
        return EmptyName;
      }
      if mapId !in config.maps {
        return MapNotFound;
      }
      var k := OpenSession(mapId);
      var player := JoinSession(k, name, token);
      outcome := Joins(player.token, player.id);
    }

    method JoinSession(k: nat, name: string, token: string) returns (player: Player)
      requires Valid() && k < |sessions| && sessions[k].mapId in config.maps
      modifies this`Repr, sessions[k]
      ensures Valid() && fresh(Repr - old(Repr)) && old(Repr) <= Repr && sessions == old(sessions)
      ensures var m := config.maps[sessions[k].mapId];
              var (s, j) := Joined(old(View())[k], m, name, token, config.defaultBagCapacity);
              && View() == old(View())[k := s]
              && player.token == s.players[j].token && player.id == s.players[j].id
    {
      var session := sessions[k];
      player := session.AddPlayer(name, config.maps[session.mapId], token, config.defaultBagCapacity);
      Repr := Repr + session.Repr;
      OnlySession(k);
    }

    // -------------------------------------------------------------- ticks

    ghost predicate ReadyToMove()
      reads this, Repr
      requires Valid()
    {
      forall k :: 0 <= k < |sessions| ==> sessions[k].ReadyToMove()
    }

    /** Every session plays one round; rounds[k] is what its dogs were offered. */
    method MoveDogs(deltaTime: int) returns (ghost rounds: seq<seq<seq<Item>>>)
      requires Valid() && ReadyToMove()
      modifies Repr
      ensures Valid() && ReadyToMove() && sessions == old(sessions) && |rounds| == |sessions|
      ensures forall k :: 0 <= k < |sessions| ==>
                var s, m := old(View())[k], old(sessions[k].CurrentMap());
                && LegalRound(m, SweepOf(s), deltaTime, rounds[k])
                && View()[k] == MovedSession(s, m, deltaTime, rounds[k])
    {
      rounds := [];
      for i := 0 to |sessions|
        invariant Valid() && ReadyToMove() && sessions == old(sessions) && Repr == old(Repr) && |rounds| == i
        invariant forall k :: 0 <= k < |sessions| ==> sessions[k].CurrentMap() == old(sessions[k].CurrentMap())
        invariant forall k :: i <= k < |sessions| ==> View()[k] == old(View())[k]
        invariant forall k :: 0 <= k < i ==>
                    var s, m := old(View())[k], old(sessions[k].CurrentMap());
                    && LegalRound(m, SweepOf(s), deltaTime, rounds[k])
                    && View()[k] == MovedSession(s, m, deltaTime, rounds[k])
      {
        ghost var round := MoveSession(i, deltaTime);
        rounds := rounds + [round];
      }
    }

    method MoveSession(i: nat, deltaTime: int) returns (ghost round: seq<seq<Item>>)
      requires Valid() && ReadyToMove() && i < |sessions|
      modifies sessions[i].Repr
      ensures Valid() && ReadyToMove() && sessions == old(sessions) && Repr == old(Repr)
      ensures forall k :: 0 <= k < |sessions| ==> sessions[k].CurrentMap() == old(sessions[k].CurrentMap())
      ensures var s, m := old(View())[i], old(sessions[i].CurrentMap());
              && LegalRound(m, SweepOf(s), deltaTime, round)
              && View() == old(View())[i := MovedSession(s, m, deltaTime, round)]
    {
      round := sessions[i].MoveDogs(deltaTime);
      OnlySession(i);
    }

    /** The sessions generate loot in turn; the first failure ends the call. */
    method GenerateLoot(timeDelta: int, power: (real, real) -> real, randoms: seq<real>, draws: seq<seq<Draw>>)
      returns (outcome: Outcome)
      requires Valid() && ProperGens(View()) && |randoms| == |sessions|
      requires LuckFits(config, View(), ChancesOf(View(), timeDelta, power, randoms), draws)
      modifies Repr
      ensures Valid() && sessions == old(sessions)
      ensures var g := old(View());
              (View(), outcome) == LootGeneratedInFirst(config, g, |g|, timeDelta,
                                                        ChancesOf(g, timeDelta, power, randoms), draws)
      ensures GetsWhatIsDue(config, old(View()), ChancesOf(old(View()), timeDelta, power, randoms), View(), outcome)
    {
      hide GetsWhatIsDue;
      hide Chance, LootGenerated, DrawsFit, ProperGen, LootGeneratedInFirst;
      ghost var g, chances := View(), ChancesOf(View(), timeDelta, power, randoms);
      CallGivesWhatIsDue(config, g, timeDelta, chances, draws);
      for i := 0 to |sessions|
        invariant Valid() && sessions == old(sessions) && Repr == old(Repr)
        invariant (View(), Done) == LootGeneratedInFirst(config, g, i, timeDelta, chances, draws)
      {
        assert View()[i] == g[i] && ProperGen(g[i].generator);
        LootGeneratedStep(config, g, i, timeDelta, chances, draws);
        if sessions[i].mapId !in config.maps {
          FailureEndsCall(config, g, i + 1, |g|, timeDelta, chances, draws);
          return MapUnknown;
        }
        outcome := GenerateInSession(i, timeDelta, power, randoms[i], draws[i]);
        if outcome != Done {
          FailureEndsCall(config, g, i + 1, |g|, timeDelta, chances, draws);
          return;
        }
      }
      outcome := Done;
    }

    method GenerateInSession(i: nat, timeDelta: int, power: (real, real) -> real, random: real, draws: seq<Draw>)
      returns (outcome: Outcome)
      requires Valid() && i < |sessions| && sessions[i].mapId in config.maps
      requires ProperGen(View()[i].generator) && DrawsFit(config.maps[sessions[i].mapId], View()[i], draws)
      modifies sessions[i].Repr
      ensures Valid() && sessions == old(sessions) && Repr == old(Repr)
      ensures var s, m := old(View())[i], config.maps[sessions[i].mapId];
              var (s', o) := LootGenerated(s, m, timeDelta, Chance(s.generator, timeDelta, power, random), draws);
              View() == old(View())[i := s'] && outcome == o
    {
      outcome := sessions[i].GenerateLoot(timeDelta, config.maps[sessions[i].mapId], power, random, draws);
      OnlySession(i);
    }

    // -------------------------------------------------------------- snapshots

    method CreateGameState() returns (state: seq<SessionInfo>)
      requires Valid()
      ensures state == StateOfGame(View())
    {
      state := [];
      for k := 0 to |sessions|
        invariant |state| == k
        invariant forall j :: 0 <= j < k ==> state[j] == StateOfSession(sessions[j].View())
      {
        var info := sessions[k].GetSessionState();
        state := state + [info];
      }
    }

    /** False stands for the exception on an unknown direction; the dog is then half set. */
    method InitDogFrom(dog: Dog, state: DogState) returns (ok: bool)
      modifies dog`position, dog`direction, dog`score, dog`idleTime, dog`playTime, dog`currentRoadIndex, dog`gatheredLoots
      ensures ok == DirectionFromString(state.dir).Some?
      ensures ok ==> dog.View() == InitDog(old(dog.View()), state, DirectionFromString(state.dir).value)
      ensures ok ==>
                && dog.position == state.pos && dog.currentRoadIndex == state.curRoad
                && Some(dog.direction) == DirectionFromString(state.dir)
                && dog.score == state.score && dog.idleTime == state.idleTime && dog.playTime == state.playTime
                && |dog.gatheredLoots| == |old(dog.gatheredLoots)| + |state.bag|
      ensures !ok ==> dog.View() == old(dog.View()).(motion := old(dog.View()).motion.(position := state.pos))
    {
      dog.position := state.pos;
      var dir := DirectionFromString(state.dir);
      if dir.None? {
        return false;
      }
      dog.direction := dir.value;
      dog.score := state.score;
      dog.idleTime := state.idleTime;
      dog.playTime := state.playTime;
      dog.currentRoadIndex := state.curRoad;
      ghost var bag := dog.gatheredLoots;
      for k := 0 to |state.bag|
        invariant dog.View() == InitDog(old(dog.View()), state, dir.value).(bag := bag + BagFrom(state.bag[..k]))
      {
        dog.gatheredLoots := dog.gatheredLoots + [LootInfo(state.bag[k].id, state.bag[k].kind, 0.0, 0.0)];
        assert BagFrom(state.bag[..k + 1]) == BagFrom(state.bag[..k]) + [dog.gatheredLoots[|dog.gatheredLoots| - 1]];
      }
      assert state.bag[..|state.bag|] == state.bag;
      ok := true;
    }

    method RestoreOnePlayer(session: GameSession, m: Map, p: PlayerState) returns (ok: bool)
      requires session.Valid() && session.OneMap() && (session.gameMap.None? || session.gameMap == Some(m))
      modifies session.Repr
      ensures session.Valid() && fresh(session.Repr - old(session.Repr))
      ensures session.OneMap() && session.gameMap == Some(m)
      ensures ok == RestorePlayer(config, m, old(session.View()), p).Some?
      ensures ok ==> session.View() == RestorePlayer(config, m, old(session.View()), p).value
    {
      hide InitDog, FreshDog;
      ghost var j := Joined(session.View(), m, p.name, p.token, config.defaultBagCapacity).1;
      var player := session.AddPlayer(p.name, m, p.token, config.defaultBagCapacity);
      ok := FillPlayer(session, player, j, p);
    }

    method FillPlayer(session: GameSession, player: Player, ghost j: nat, p: PlayerState) returns (ok: bool)
      requires session.Valid() && j < |session.players| && session.players[j] == player
      modifies player`id, player.dog
      ensures session.Valid()
      ensures ok == DirectionFromString(p.dog.dir).Some?
      ensures ok ==>
                var s := old(session.View());
                var d := InitDog(s.players[j].dog, p.dog, DirectionFromString(p.dog.dir).value);
                session.View() == s.(players := s.players[j := s.players[j].(id := p.id, dog := d)])
    {
      hide InitDog, DirectionFromString;
      ghost var views := session.View().players;
      player.id := p.id;
      ok := InitDogFrom(player.dog, p.dog);
      assert ViewsOf(session.players) == views[j := player.View()];
    }

    method RestoreOneSession(info: SessionInfo) returns (r: Option<GameSession>)
      ensures r.Some? <==> RestoreSession(config, info).Some?
      ensures r.Some? ==>
                && r.value.Valid() && r.value.OneMap() && fresh(r.value.Repr)
                && MapFits(r.value.gameMap, r.value.mapId) && r.value.lootGen.baseInterval == config.basePeriod
                && r.value.View() == RestoreSession(config, info).value
    {
      hide GameSession.Valid, RestorePlayer;
      var session := new GameSession(info.mapId, config.basePeriod, config.probability);
      session.SetLootList(info.loots);
      ghost var start := session.View();
      for i := 0 to |info.players|
        invariant session.Valid() && session.OneMap() && fresh(session.Repr)
        invariant MapFits(session.gameMap, session.mapId)
        invariant RestorePlayers(config, start, info.players[..i]) == Some(session.View())
      {
        assert info.players[..i + 1][..i] == info.players[..i];
        if info.mapId !in config.maps {
          FailureEndsPlayers(config, start, info.players, i + 1);
          return None;
        }
        var ok := RestoreOnePlayer(session, config.maps[info.mapId], info.players[i]);
        if !ok {
          FailureEndsPlayers(config, start, info.players, i + 1);
          return None;
        }
      }
      assert info.players[..|info.players|] == info.players;
      r := Some(session);
    }

    /** False stands for an exception, after which the sessions restored so far remain. */
    method RestoreSessions(state: seq<SessionInfo>) returns (ok: bool)
      requires Valid()
      modifies this
      ensures Valid() && fresh(Repr - old(Repr))
      ensures (View(), ok) == RestoreGame(config, state)
    {
      hide GameSession.Valid, RestoreSession;
      sessions := [];
      for i := 0 to |state|
        invariant Valid() && fresh(Repr - old(Repr))
        invariant (View(), true) == RestoreGame(config, state[..i])
      {
        assert state[..i + 1][..i] == state[..i];
        var session := RestoreOneSession(state[i]);
        if session.None? {
          FailureEndsRestore(config, state, i + 1);
          return false;
        }
        PushSession(session.value);
      }
      assert state[..|state|] == state;
      ok := true;
    }

    // -------------------------------------------------------------- retirement

    lemma ViewsAppend(a: seq<Player>, b: seq<Player>)
      ensures ViewsOf(a + b) == ViewsOf(a) + ViewsOf(b)
    {}

    /** Appends the expired players of one session. */
    method ExpiredIn(session: GameSession, before: seq<Player>) returns (expired: seq<Player>)
      requires session.Valid()
      ensures ViewsOf(expired) == ViewsOf(before) + ExpiredOf(config, session.View().players)
    {
      ghost var views := session.View().players;
      expired := before;
      for j := 0 to |session.players|
        invariant ViewsOf(expired) + ExpiredOf(config, views[j..]) == ViewsOf(before) + ExpiredOf(config, views)
      {
        var player := session.players[j];
        ExpiredStep(config, views, j, ViewsOf(expired));
        if player.dog.idleTime as real >= config.retirementTime {
          ViewsAppend(expired, [player]);
          assert ViewsOf([player]) == [player.View()];
          expired := expired + [player];
        }
      }
      assert ViewsOf(expired) + [] == ViewsOf(expired);
    }

    method FindExpiredPlayers() returns (expired: seq<Player>)
      requires Valid()
      ensures ViewsOf(expired) == FindExpired(config, View())
    {
      ghost var g := View();
      expired := [];
      hide ExpiredOf, FindExpired, ViewsOf, GameSession.Valid, GameSession.View;
      assert g[0..] == g && g[|g|..] == [];
      NobodyInNothing(config);
      for i := 0 to |sessions|
        invariant ViewsOf(expired) + FindExpired(config, g[i..]) == FindExpired(config, g)
      {
        FindExpiredStep(config, g, i, ViewsOf(expired));
        expired := ExpiredIn(sessions[i], expired);
      }
      assert ViewsOf(expired) + [] == ViewsOf(expired);
    }

    /** Looks the player up in the first session and deletes what it finds there;
        false stands for the exception when the token is not there. */
    method DeleteFromFirst(token: string) returns (ok: bool)
      requires Valid() && sessions != []
      modifies sessions[0]
      ensures Valid() && sessions == old(sessions) && Repr == old(Repr)
      ensures var s := old(View())[0];
              var k := FindToken(s.players, token);
              if k == |s.players| then !ok && View() == old(View())
              else ok && View() == old(View())[0 := WithoutPlayer(s, k)]
    {
      hide ViewsOf, WithoutPlayer, GameSession.Valid;
      ghost var k := FindToken(View()[0].players, token);
      var candidate := sessions[0].FindPlayerWithAuthToken(token);
      if candidate.None? {
        return false;
      }
      assert PlayerIndex(sessions[0].players, candidate.value) == k;
      sessions[0].DeletePlayer(candidate.value);
      OnlySession(0);
      ok := true;
    }

    /** Every expired player is looked for in the first session only. */
    method DeleteExpiredPlayers(expired: seq<Player>) returns (ok: bool)
      requires Valid()
      modifies Repr
      ensures Valid() && sessions == old(sessions) && Repr == old(Repr)
      ensures (View(), ok) == DeleteExpired(old(View()), old(ViewsOf(expired)))
    {
      ghost var views := ViewsOf(expired);
      for i := 0 to |expired|
        invariant Valid() && sessions == old(sessions) && Repr == old(Repr)
        invariant ViewsOf(expired) == views
        invariant DeleteExpired(View(), views[i..]) == DeleteExpired(old(View()), views)
      {
        assert views[i..][0] == expired[i].View() && views[i..][1..] == views[i + 1..];
        if sessions != [] {
          var found := DeleteFromFirst(expired[i].token);
          assert ViewsOf(expired) == views;
          if !found {
            return false;
          }
        }
      }
      ok := true;
    }

    /** The sessions with players, and where they stand in the list. */
    method PopulatedSessions() returns (kept: seq<GameSession>, ghost places: seq<nat>)
      requires Valid()
      ensures |places| == |kept|
      ensures forall j :: 0 <= j < |kept| ==> places[j] < |sessions| && kept[j] == sessions[places[j]]
      ensures forall j, k :: 0 <= j < k < |kept| ==> places[j] < places[k]
      ensures At(View(), places) == NonEmpty(View())
    {
      hide GameSession.Valid;
      ghost var g := View();
      kept, places := [], [];
      for i := 0 to |sessions|
        invariant |places| == |kept|
        invariant forall j :: 0 <= j < |kept| ==> places[j] < i && kept[j] == sessions[places[j]]
        invariant forall j, k :: 0 <= j < k < |kept| ==> places[j] < places[k]
        invariant At(g, places) + NonEmpty(g[i..]) == NonEmpty(g)
      {
        NonEmptyStep(g, i, At(g, places));
        if sessions[i].players != [] {
          AtAppend(g, places, i);
          kept := kept + [sessions[i]];
          places := places + [i];
        }
      }
      assert At(g, places) + [] == At(g, places);
    }

    /** Erases every empty session; the library's collect-and-erase is one pass here. */
    method DeleteEmptySessions()
      requires Valid()
      modifies this`sessions
      ensures Valid() && Repr == old(Repr)
      ensures View() == NonEmpty(old(View()))
    {
      hide NonEmpty;
      ghost var g := View();
      var kept, places := PopulatedSessions();
      sessions := kept;
      assert View() == At(g, places);
    }

    /** The saved records are what goes to the data base, one call each. */
    method HandleRetiredPlayers() returns (saved: seq<PlayerRecordItem>, ok: bool)
      requires Valid()
      modifies Repr
      ensures Valid() && Repr == old(Repr)
      ensures Retirement(View(), saved, ok) == HandleRetired(config, old(View()))
    {
      var expired := FindExpiredPlayers();
      saved := [];
      if expired == [] {
        return saved, true;
      }
      for k := 0 to |expired|
        invariant |saved| == k
        invariant forall j :: 0 <= j < k ==> saved[j] == RecordOf(expired[j].View())
      {
        var dog := expired[k].dog;
        saved := saved + [PlayerRecordItem(expired[k].name, dog.score, dog.playTime)];
      }
      assert saved == RecordsOf(ViewsOf(expired));
      ok := DeleteExpiredPlayers(expired);
      if ok {
        DeleteEmptySessions();
      }
    }
  }
}
