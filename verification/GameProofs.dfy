/** Snapshots, retirement and player identity over the whole game. */
module GameProofs {
  import opened DataTypes
  import opened MapModel
  import opened Dogs
  import opened LootGenerators
  import opened SessionModel
  import opened GameModel

  // ---------------------------------------------------------------- snapshot and restore

  predicate NamesUnique(players: seq<PlayerState>) {
    forall i, j :: 0 <= i < j < |players| ==> players[i].name != players[j].name
  }

  predicate DirectionsKnown(players: seq<PlayerState>) {
    forall i :: 0 <= i < |players| ==> players[i].dog.dir in {"U", "D", "L", "R", ""}
  }

  /** What the restored value of one player is, given that the name is new. */
  function RestoredPlayer(c: Config, m: Map, p: PlayerState): PlayerView {
    var dir := DirectionFromString(p.dog.dir);
    PlayerView(p.id, p.name, p.token,
               InitDog(FreshDog(CapacityOn(m, c.defaultBagCapacity)), p.dog, if dir.Some? then dir.value else STOP))
  }

  /** A restored player is its record again; only what the record leaves out is reset. */
  lemma RestoredPlayerState(c: Config, m: Map, p: PlayerState)
    requires p.dog.dir in {"U", "D", "L", "R", ""}
    ensures PlayerStateOf(RestoredPlayer(c, m, p)) == p
  {
    DirectionRoundTrip(STOP, p.dog.dir);
    var d := RestoredPlayer(c, m, p).dog;
    assert d.bag == BagFrom(p.dog.bag);
    forall k | 0 <= k < |p.dog.bag| ensures BagItems(d.bag)[k] == p.dog.bag[k] {
      var item := p.dog.bag[k];
      assert item == GatheredLootItem(item.id, item.kind);
    }
    assert BagItems(d.bag) == p.dog.bag;
  }

  function RecordNames(players: seq<PlayerState>): set<string> {
    set k | 0 <= k < |players| :: players[k].name
  }

  function PlayerNames(players: seq<PlayerView>): set<string> {
    set k | 0 <= k < |players| :: players[k].name
  }

  /** r is start with the recorded players joined, one for each different name. */
  ghost predicate Restores(start: SessionView, r: SessionView, records: seq<PlayerState>) {
    && r == start.(players := r.players, playerId := |r.players|)
    && PlayerNames(r.players) == RecordNames(records)
    && |r.players| <= |records|
    && (|r.players| == |records| <==> NamesUnique(records))
    && (NamesUnique(records) ==> StatesOf(r.players) == records)
  }

  lemma NamesGrow(records: seq<PlayerState>, p: PlayerState)
    ensures RecordNames(records + [p]) == RecordNames(records) + {p.name}
    ensures NamesUnique(records + [p]) <==> NamesUnique(records) && p.name !in RecordNames(records)
    ensures DirectionsKnown(records + [p]) <==> DirectionsKnown(records) && p.dog.dir in {"U", "D", "L", "R", ""}
  {
    var all := records + [p];
    assert all[|records|] == p;
    assert forall k :: 0 <= k < |records| ==> all[k] == records[k];
    forall name | name in RecordNames(records) ensures name in RecordNames(all) {
      var k :| 0 <= k < |records| && records[k].name == name;
      assert all[k].name == name;
    }
  }

  lemma NameFound(players: seq<PlayerView>, name: string)
    ensures FindName(players, name) < |players| <==> name in PlayerNames(players)
  {}

  lemma AddPlayerName(players: seq<PlayerView>, p: PlayerView)
    ensures PlayerNames(players + [p]) == PlayerNames(players) + {p.name}
  {
    var all := players + [p];
    assert all[|players|] == p;
    forall name | name in PlayerNames(players) ensures name in PlayerNames(all) {
      var k :| 0 <= k < |players| && players[k].name == name;
      assert all[k].name == name;
    }
  }

  lemma KeepPlayerNames(players: seq<PlayerView>, j: nat, p: PlayerView)
    requires j < |players| && players[j].name == p.name
    ensures PlayerNames(players[j := p]) == PlayerNames(players)
  {
    forall name | name in PlayerNames(players) ensures name in PlayerNames(players[j := p]) {
      var k :| 0 <= k < |players| && players[k].name == name;
      assert players[j := p][k].name == name;
    }
  }

  lemma RestoreNext(c: Config, m: Map, start: SessionView, before: SessionView,
                    records: seq<PlayerState>, p: PlayerState)
    requires Restores(start, before, records) && p.dog.dir in {"U", "D", "L", "R", ""}
    ensures RestorePlayer(c, m, before, p).Some?
    ensures Restores(start, RestorePlayer(c, m, before, p).value, records + [p])
  {
    DirectionRoundTrip(STOP, p.dog.dir);
    NamesGrow(records, p);
    NameFound(before.players, p.name);
    var r := RestorePlayer(c, m, before, p).value;
    hide PlayerNames, RecordNames, NamesUnique, InitDog;
    if p.name in PlayerNames(before.players) {
      KeepPlayerNames(before.players, FindName(before.players, p.name), r.players[FindName(before.players, p.name)]);
    } else {
      RestoreNewPlayer(c, m, before, p);
      AddPlayerName(before.players, RestoredPlayer(c, m, p));
      RestoredPlayerState(c, m, p);
      assert StatesOf(r.players) == StatesOf(before.players) + [p];
    }
  }

  lemma RestoreNewPlayer(c: Config, m: Map, s: SessionView, p: PlayerState)
    requires DirectionFromString(p.dog.dir).Some? && FindName(s.players, p.name) == |s.players|
    ensures RestorePlayer(c, m, s, p) ==
            Some(s.(players := s.players + [RestoredPlayer(c, m, p)], playerId := s.playerId + 1))
  {
    var joined := Joined(s, m, p.name, p.token, c.defaultBagCapacity).0;
    assert joined.players[|s.players| := RestoredPlayer(c, m, p)] == s.players + [RestoredPlayer(c, m, p)];
  }

  /** With a known map and known directions restoring succeeds, and with nothing less; the
      list of players it gives has full length exactly when no name occurs twice, and is
      then the recorded one. */
  lemma {:induction false} RestorePlayersResult(c: Config, s: SessionView, records: seq<PlayerState>)
    requires s.players == [] && s.playerId == 0
    ensures RestorePlayers(c, s, records).Some? <==> DirectionsKnown(records) && (records == [] || s.mapId in c.maps)
    ensures RestorePlayers(c, s, records).Some? ==> Restores(s, RestorePlayers(c, s, records).value, records)
  {
    if records != [] {
      var n := |records| - 1;
      var init, p := records[..n], records[n];
      assert records == init + [p];
      hide Restores, InitDog, Joined, NamesUnique, RecordNames;
      RestorePlayersResult(c, s, init);
      NamesGrow(init, p);
      hide DirectionsKnown;
      DirectionRoundTrip(STOP, p.dog.dir);
      if RestorePlayers(c, s, init).Some? && s.mapId in c.maps && p.dog.dir in {"U", "D", "L", "R", ""} {
        RestoreNext(c, c.maps[s.mapId], s, RestorePlayers(c, s, init).value, init, p);
      }
    } else {
      assert StatesOf(s.players) == records;
    }
  }

  predicate Restorable(c: Config, info: SessionInfo) {
    DirectionsKnown(info.players) && (info.players == [] || info.mapId in c.maps)
  }

  lemma RestoreSessionResult(c: Config, info: SessionInfo)
    ensures RestoreSession(c, info).Some? <==> Restorable(c, info)
    ensures Restorable(c, info) ==>
              var s := RestoreSession(c, info).value;
              && s.lootId == 0 && s.playerId == |s.players|
              && s.mapId == info.mapId && s.loots == info.loots
              && (StateOfSession(s) == info <==> NamesUnique(info.players))
  {
    RestorePlayersResult(c, EmptySession(c, info.mapId).(loots := info.loots), info.players);
  }

  lemma RestoreLast(c: Config, state: seq<SessionInfo>)
    requires state != []
    ensures var before, s := RestoreGame(c, state[..|state| - 1]), RestoreSession(c, state[|state| - 1]);
            RestoreGame(c, state) == if before.1 && s.Some? then (before.0 + [s.value], true) else (before.0, false)
  {}

  /** Restoring succeeds exactly on snapshots with known directions and known maps. */
  lemma {:induction false} RestoreSucceedsIff(c: Config, state: seq<SessionInfo>)
    ensures RestoreGame(c, state).1 <==> forall k :: 0 <= k < |state| ==> Restorable(c, state[k])
    ensures RestoreGame(c, state).1 ==>
              && |RestoreGame(c, state).0| == |state|
              && forall k :: 0 <= k < |state| ==> RestoreSession(c, state[k]) == Some(RestoreGame(c, state).0[k])
  {
    if state != [] {
      var n := |state| - 1;
      hide Restorable, RestoreSession, StateOfSession, NamesUnique, RestoreGame;
      RestoreLast(c, state);
      assert state == state[..n] + [state[n]];
      RestoreSucceedsIff(c, state[..n]);
      RestoreSessionResult(c, state[n]);
      assert forall k :: 0 <= k < n ==> state[..n][k] == state[k];
    }
  }

  /** Snapshot and restore round trip: whenever restoring succeeds, a new snapshot equals
      the old one, field by field and in order, if and only if no session of it has two
      players of the same name. */
  lemma SnapshotRoundTrip(c: Config, state: seq<SessionInfo>)
    requires RestoreGame(c, state).1
    ensures StateOfGame(RestoreGame(c, state).0) == state <==>
            forall k :: 0 <= k < |state| ==> NamesUnique(state[k].players)
  {
    RestoreSucceedsIff(c, state);
    var sessions := RestoreGame(c, state).0;
    forall k | 0 <= k < |state|
      ensures StateOfSession(sessions[k]) == state[k] <==> NamesUnique(state[k].players)
    {
      RestoreSessionResult(c, state[k]);
    }
    if StateOfGame(sessions) == state {
      forall k | 0 <= k < |state| ensures NamesUnique(state[k].players) {
        assert StateOfGame(sessions)[k] == state[k];
      }
    }
  }

  /** Two recorded players of one name come back as one. */
  lemma SharedNameIsMerged()
    ensures var m := Map("m", [Road(Point(0.0, 0.0), Point(10.0, 0.0))], [], [], 1.0, 3);
            var c := Config(map["m" := m], 1, 1.0, 3, 60000.0);
            var dog := DogState(Point(0.0, 0.0), "U", 0, 0, 0, 0, []);
            var state := [SessionInfo("m", [PlayerState(0, "a", "s", dog), PlayerState(1, "a", "t", dog)], [])];
            RestoreGame(c, state).1 && StateOfGame(RestoreGame(c, state).0) != state
  {
    var m := Map("m", [Road(Point(0.0, 0.0), Point(10.0, 0.0))], [], [], 1.0, 3);
    var c := Config(map["m" := m], 1, 1.0, 3, 60000.0);
    var dog := DogState(Point(0.0, 0.0), "U", 0, 0, 0, 0, []);
    var state := [SessionInfo("m", [PlayerState(0, "a", "s", dog), PlayerState(1, "a", "t", dog)], [])];
    hide RestoreGame, StateOfGame;
    RestoreSucceedsIff(c, state);
    SnapshotRoundTrip(c, state);
    assert state[0].players[0].name == state[0].players[1].name;
  }

  // ---------------------------------------------------------------- retirement

  predicate TokensUnique(players: seq<PlayerView>) {
    forall i, j :: 0 <= i < j < |players| ==> players[i].token != players[j].token
  }

  /** No token occurs in two places of the game. */
  predicate GameTokensUnique(sessions: seq<SessionView>) {
    && (forall k :: 0 <= k < |sessions| ==> TokensUnique(sessions[k].players))
    && (forall k, l, i, j :: 0 <= k < l < |sessions| && 0 <= i < |sessions[k].players| && 0 <= j < |sessions[l].players| ==>
          sessions[k].players[i].token != sessions[l].players[j].token)
  }

  lemma TokenFoundAt(players: seq<PlayerView>, k: nat)
    requires TokensUnique(players) && k < |players|
    ensures FindToken(players, players[k].token) == k
  {
    var j := FindToken(players, players[k].token);
    assert players[j].token == players[k].token;
  }

  function WithPlayers(sessions: seq<SessionView>, players: seq<PlayerView>): seq<SessionView>
    requires sessions != []
  {
    sessions[0 := sessions[0].(players := players)]
  }

  lemma TokensUniqueWithout(players: seq<PlayerView>, k: nat)
    requires TokensUnique(players) && k < |players|
    ensures TokensUnique(players[..k] + players[k + 1..])
  {
    var r := players[..k] + players[k + 1..];
    assert forall i :: 0 <= i < |r| ==> r[i] == players[if i < k then i else i + 1];
  }

  lemma DeleteOne(sessions: seq<SessionView>, kept: seq<PlayerView>, p: PlayerView,
                  tail: seq<PlayerView>, expired: seq<PlayerView>)
    requires sessions != [] && sessions[0].players == kept + [p] + tail && TokensUnique(kept + [p] + tail)
    requires expired != [] && expired[0] == p
    ensures TokensUnique(kept + tail)
    ensures DeleteExpired(sessions, expired) == DeleteExpired(WithPlayers(sessions, kept + tail), expired[1..])
  {
    var all, k := kept + [p] + tail, |kept|;
    TokenFoundAt(all, k);
    TokensUniqueWithout(all, k);
    assert all[..k] == kept && all[k + 1..] == tail;
    assert WithoutPlayer(sessions[0], k) == sessions[0].(players := kept + tail);
  }

  /** Deleting the expired players of the first session one by one, with those before
      already dealt with, leaves exactly the others in order. */
  lemma {:induction false} DeleteFirstSession(c: Config, sessions: seq<SessionView>, kept: seq<PlayerView>,
                                              rest: seq<PlayerView>, more: seq<PlayerView>)
    requires sessions != [] && sessions[0].players == kept + rest && TokensUnique(kept + rest)
    ensures DeleteExpired(sessions, ExpiredOf(c, rest) + more)
         == DeleteExpired(WithPlayers(sessions, kept + RemainingOf(c, rest)), more)
    decreases |rest|
  {
    hide DeleteExpired, TokensUnique;
    if rest == [] {
      assert ExpiredOf(c, rest) + more == more;
      assert kept + RemainingOf(c, rest) == kept + rest;
      assert WithPlayers(sessions, kept + rest) == sessions;
    } else {
      var p, tail := rest[0], rest[1..];
      assert kept + rest == kept + [p] + tail;
      if Expired(c, p) {
        var expired := ExpiredOf(c, rest) + more;
        assert expired[0] == p && expired[1..] == ExpiredOf(c, tail) + more;
        DeleteOne(sessions, kept, p, tail, expired);
        var next := WithPlayers(sessions, kept + tail);
        DeleteFirstSession(c, next, kept, tail, more);
        assert RemainingOf(c, rest) == RemainingOf(c, tail);
        assert WithPlayers(next, kept + RemainingOf(c, tail)) == WithPlayers(sessions, kept + RemainingOf(c, tail));
      } else {
        DeleteFirstSession(c, sessions, kept + [p], tail, more);
        assert kept + [p] + RemainingOf(c, tail) == kept + RemainingOf(c, rest);
        assert ExpiredOf(c, rest) == ExpiredOf(c, tail);
      }
    }
  }

  lemma {:induction false} ExpiredAreThere(c: Config, players: seq<PlayerView>, p: PlayerView)
    requires p in ExpiredOf(c, players)
    ensures p in players && Expired(c, p)
  {
    if players[0] != p || !Expired(c, p) {
      ExpiredAreThere(c, players[1..], p);
    }
  }

  lemma {:induction false} FoundExpiredAreThere(c: Config, sessions: seq<SessionView>, p: PlayerView)
    requires p in FindExpired(c, sessions)
    ensures exists k, i :: 0 <= k < |sessions| && 0 <= i < |sessions[k].players| && sessions[k].players[i] == p
  {
    if p in ExpiredOf(c, sessions[0].players) {
      ExpiredAreThere(c, sessions[0].players, p);
      var i :| 0 <= i < |sessions[0].players| && sessions[0].players[i] == p;
    } else {
      FoundExpiredAreThere(c, sessions[1..], p);
      var k, i :| 0 <= k < |sessions[1..]| && 0 <= i < |sessions[1..][k].players| && sessions[1..][k].players[i] == p;
      assert sessions[k + 1].players[i] == p;
    }
  }

  lemma {:induction false} RemainingAreThere(c: Config, players: seq<PlayerView>, p: PlayerView)
    requires p in RemainingOf(c, players)
    ensures p in players && !Expired(c, p)
  {
    if players[0] != p || Expired(c, p) {
      RemainingAreThere(c, players[1..], p);
    }
  }

  /** Deleting all expired players empties the first session of them, and ends at the first
      one of another session. */
  lemma DeletedFromFirst(c: Config, sessions: seq<SessionView>)
    requires GameTokensUnique(sessions) && sessions != []
    ensures DeleteExpired(sessions, FindExpired(c, sessions)) ==
            (WithPlayers(sessions, RemainingOf(c, sessions[0].players)), FindExpired(c, sessions[1..]) == [])
  {
    var first, others := sessions[0].players, FindExpired(c, sessions[1..]);
    var swept := WithPlayers(sessions, RemainingOf(c, first));
    assert [] + first == first && [] + RemainingOf(c, first) == RemainingOf(c, first);
    assert TokensUnique(first);
    DeleteFirstSession(c, sessions, [], first, others);
    assert FindExpired(c, sessions) == ExpiredOf(c, first) + others;
    if others != [] {
      NotInFirstSession(c, sessions, others[0]);
      hide GameTokensUnique, TokensUnique, FindExpired, RemainingOf;
      assert FindToken(swept[0].players, others[0].token) == |swept[0].players|;
    }
  }

  lemma NobodyExpired(c: Config, sessions: seq<SessionView>)
    requires sessions != [] && FindExpired(c, sessions) == []
    ensures FindExpired(c, sessions[1..]) == []
  {
    assert ExpiredOf(c, sessions[0].players) == [];
  }

  /** Retirement as a partition. With unique tokens it goes through exactly when nobody has
      expired outside the first session. All expired players are recorded once and in order
      either way, and the first session keeps exactly the others, in order; but empty sessions
      are removed only if it went through, and only if somebody had expired at all. */
  lemma RetirementPartition(c: Config, sessions: seq<SessionView>)
    requires GameTokensUnique(sessions) && sessions != []
    ensures var r, expired := HandleRetired(c, sessions), FindExpired(c, sessions);
            var swept := WithPlayers(sessions, RemainingOf(c, sessions[0].players));
            && (r.ok <==> FindExpired(c, sessions[1..]) == [])
            && r.saved == RecordsOf(expired)
            && r.sessions == (if expired == [] then sessions else if r.ok then NonEmpty(swept) else swept)
  {
    hide GameTokensUnique, FindExpired, DeleteExpired, WithPlayers, NonEmpty;
    if FindExpired(c, sessions) == [] {
      NobodyExpired(c, sessions);
    } else {
      DeletedFromFirst(c, sessions);
    }
  }

  /** The token of a player of another session leads nowhere in the first one. */
  lemma NotInFirstSession(c: Config, sessions: seq<SessionView>, p: PlayerView)
    requires GameTokensUnique(sessions) && sessions != [] && p in FindExpired(c, sessions[1..])
    ensures var remaining := RemainingOf(c, sessions[0].players);
            FindToken(remaining, p.token) == |remaining|
  {
    FoundExpiredAreThere(c, sessions[1..], p);
    var k, i :| 0 <= k < |sessions[1..]| && 0 <= i < |sessions[1..][k].players| && sessions[1..][k].players[i] == p;
    assert sessions[k + 1].players[i] == p;
    var first := sessions[0].players;
    assert forall l :: 0 <= l < |first| ==> first[l].token != p.token;
    forall q | q in RemainingOf(c, first) ensures q.token != p.token {
      RemainingAreThere(c, first, q);
    }
  }

  /** An expired player of the second session is recorded and then stays where it is. */
  lemma ExpiredElsewhere()
    ensures var c := Config(map[], 1, 1.0, 3, 1.0);
            var p := PlayerView(0, "a", "t", FreshDog(3).(idleTime := 1));
            var gen := GenView(1, 1.0, 0);
            var sessions := [FreshSession("m", gen), FreshSession("n", gen).(players := [p], playerId := 1)];
            HandleRetired(c, sessions) == Retirement(sessions, [PlayerRecordItem("a", 0, 0)], false)
  {
    var c := Config(map[], 1, 1.0, 3, 1.0);
    var p := PlayerView(0, "a", "t", FreshDog(3).(idleTime := 1));
    var gen := GenView(1, 1.0, 0);
    var sessions := [FreshSession("m", gen), FreshSession("n", gen).(players := [p], playerId := 1)];
    assert ExpiredOf(c, [p]) == [p];
    assert sessions[1..] == [sessions[1]] && sessions[1..][1..] == [];
    assert FindExpired(c, sessions[1..]) == [p];
    assert FindExpired(c, sessions) == [p];
    assert FindToken(sessions[0].players, "t") == 0;
  }
}
