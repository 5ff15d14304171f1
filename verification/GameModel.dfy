/** What the operations of the whole game do, as functions on its list of sessions. */
module GameModel {
  import opened DataTypes
  import opened MapModel
  import opened Dogs
  import opened LootGenerators
  import opened SessionModel

  /** The loaded maps and the fixed parameters of a game; times are in milliseconds. */
  datatype Config = Config(maps: map<string, Map>, basePeriod: int, probability: real,
                           defaultBagCapacity: int, retirementTime: real)

  // ---------------------------------------------------------------- lookups

  function FindSession(sessions: seq<SessionView>, mapId: string): (k: nat)
    ensures k <= |sessions|
    ensures k < |sessions| ==> sessions[k].mapId == mapId
    ensures forall j :: 0 <= j < k ==> sessions[j].mapId != mapId
  {
    FindIf(sessions, (s: SessionView) => s.mapId == mapId)
  }

  function FindSessionWithToken(sessions: seq<SessionView>, token: string): (k: nat)
    ensures k <= |sessions|
    ensures k < |sessions| ==> HasToken(sessions[k], token)
    ensures forall j :: 0 <= j < k ==> !HasToken(sessions[j], token)
  {
    FindIf(sessions, (s: SessionView) => HasToken(s, token))
  }

  /** The player a token leads to, through the search for a session and then in it. */
  function Resolve(sessions: seq<SessionView>, token: string): Option<(nat, nat)> {
    var k := FindSessionWithToken(sessions, token);
    if k < |sessions| then Some((k, FindToken(sessions[k].players, token))) else None
  }

  // ---------------------------------------------------------------- joining

  datatype JoinOutcome = Joins(token: string, id: int) | EmptyName | MapNotFound

  function EmptySession(c: Config, mapId: string): SessionView {
    FreshSession(mapId, GenView(c.basePeriod, c.probability, 0))
  }

  /** The sessions with one for the map, made now if there was none. */
  function WithSession(c: Config, sessions: seq<SessionView>, mapId: string): (r: seq<SessionView>)
    ensures FindSession(sessions, mapId) < |r| && r[FindSession(sessions, mapId)].mapId == mapId
  {
    if FindSession(sessions, mapId) < |sessions| then sessions else sessions + [EmptySession(c, mapId)]
  }

  function JoinedGame(c: Config, sessions: seq<SessionView>, mapId: string, name: string, token: string)
    : (seq<SessionView>, JoinOutcome)
  {
    if name == "" then (sessions, EmptyName)
    else if mapId !in c.maps then (sessions, MapNotFound)
    else
      var k, all := FindSession(sessions, mapId), WithSession(c, sessions, mapId);
      var (s, j) := Joined(all[k], c.maps[mapId], name, token, c.defaultBagCapacity);
      (all[k := s], Joins(s.players[j].token, s.players[j].id))
  }

  // ---------------------------------------------------------------- new loot

  /** What one call needs for each session: a chance and enough random draws. */
  predicate LuckFits(c: Config, sessions: seq<SessionView>, chances: seq<real>, draws: seq<seq<Draw>>) {
    && |chances| == |draws| == |sessions|
    && forall k :: 0 <= k < |sessions| && sessions[k].mapId in c.maps ==>
         DrawsFit(c.maps[sessions[k].mapId], sessions[k], draws[k])
  }

  /** The first n sessions have generated loot, unless one failed: it ends the call. */
  function LootGeneratedInFirst(c: Config, sessions: seq<SessionView>, n: nat, timeDelta: int,
                                chances: seq<real>, draws: seq<seq<Draw>>): (r: (seq<SessionView>, Outcome))
    requires LuckFits(c, sessions, chances, draws) && n <= |sessions|
    ensures |r.0| == |sessions| && forall k :: n <= k < |sessions| ==> r.0[k] == sessions[k]
    ensures n == 0 ==> r == (sessions, Done)
  {
    if n == 0 then (sessions, Done)
    else
      var k := n - 1;
      var (before, outcome) := LootGeneratedInFirst(c, sessions, k, timeDelta, chances, draws);
      if outcome != Done then (before, outcome)
      else if sessions[k].mapId !in c.maps then (before, MapUnknown)
      else
        var (s, outcome') := LootGenerated(sessions[k], c.maps[sessions[k].mapId], timeDelta, chances[k], draws[k]);
        (before[k := s], outcome')
  }

  /** One more session has its turn. */
  lemma LootGeneratedStep(c: Config, sessions: seq<SessionView>, i: nat, timeDelta: int,
                          chances: seq<real>, draws: seq<seq<Draw>>)
    requires LuckFits(c, sessions, chances, draws) && i < |sessions|
    ensures LootGeneratedInFirst(c, sessions, i, timeDelta, chances, draws).1 == Done ==>
              var before := LootGeneratedInFirst(c, sessions, i, timeDelta, chances, draws).0;
              LootGeneratedInFirst(c, sessions, i + 1, timeDelta, chances, draws) ==
                if sessions[i].mapId !in c.maps then (before, MapUnknown)
                else
                  var m := c.maps[sessions[i].mapId];
                  var (s, outcome) := LootGenerated(sessions[i], m, timeDelta, chances[i], draws[i]);
                  (before[i := s], outcome)
  {}

  /** A failure ends the call: the sessions after it are not reached. */
  lemma {:induction false} FailureEndsCall(c: Config, sessions: seq<SessionView>, i: nat, n: nat, timeDelta: int,
                                           chances: seq<real>, draws: seq<seq<Draw>>)
    requires LuckFits(c, sessions, chances, draws) && i <= n <= |sessions|
    requires LootGeneratedInFirst(c, sessions, i, timeDelta, chances, draws).1 != Done
    ensures LootGeneratedInFirst(c, sessions, n, timeDelta, chances, draws)
         == LootGeneratedInFirst(c, sessions, i, timeDelta, chances, draws)
  {
    if i < n {
      FailureEndsCall(c, sessions, i, n - 1, timeDelta, chances, draws);
    }
  }

  /** The sessions before the i-th one have got what was due to them, and those after it nothing;
      the i-th one, if there is any, is where the call failed, and got nothing either. */
  ghost predicate GeneratedUpTo(c: Config, sessions: seq<SessionView>, n: nat, chances: seq<real>,
                                sessions': seq<SessionView>, outcome: Outcome, i: nat)
    requires |chances| == |sessions| && n <= |sessions|
  {
    && i <= n && |sessions'| == |sessions| && (outcome == Done <==> i == n)
    && (forall k :: 0 <= k < i ==>
          && sessions[k].mapId in c.maps
          && DueAppearedIn(c.maps[sessions[k].mapId], sessions[k], sessions'[k], Done, chances[k]))
    && (forall k :: i < k < |sessions| ==> sessions'[k] == sessions[k])
    && (i < n ==> if outcome == MapUnknown then sessions[i].mapId !in c.maps && sessions'[i] == sessions[i]
                  else && sessions[i].mapId in c.maps
                       && DueAppearedIn(c.maps[sessions[i].mapId], sessions[i], sessions'[i], outcome, chances[i]))
    && (i == n < |sessions| ==> sessions'[i] == sessions[i])
  }

  ghost predicate DueAppearedIn(m: Map, s: SessionView, s': SessionView, outcome: Outcome, chance: real) {
    exists due: nat :: Nearest(due, Expected(|s.loots|, |s.players|, chance)) && DueAppeared(m, s, s', outcome, due)
  }

  /** In one call every session up to the first failure gets the loot that is due to it. */
  lemma {:induction false} GameGeneratesDue(c: Config, sessions: seq<SessionView>, n: nat, timeDelta: int,
                                            chances: seq<real>, draws: seq<seq<Draw>>) returns (i: nat)
    requires LuckFits(c, sessions, chances, draws) && n <= |sessions|
    ensures var (sessions', outcome) := LootGeneratedInFirst(c, sessions, n, timeDelta, chances, draws);
            GeneratedUpTo(c, sessions, n, chances, sessions', outcome, i)
  {
    if n == 0 {
      i := 0;
    } else {
      var k := n - 1;
      hide LootGenerated, DrawsFit, GeneratedUpTo;
      i := GameGeneratesDue(c, sessions, k, timeDelta, chances, draws);
      var (before, outcome) := LootGeneratedInFirst(c, sessions, k, timeDelta, chances, draws);
      UpToSame(c, sessions, k, chances, before, outcome, i);
      if outcome == Done && sessions[k].mapId in c.maps {
        SessionGeneratesDue(c.maps[sessions[k].mapId], sessions[k], timeDelta, chances[k], draws[k]);
        var (s, outcome') := LootGenerated(sessions[k], c.maps[sessions[k].mapId], timeDelta, chances[k], draws[k]);
        i := if outcome' == Done then n else k;
        UpToGrows(c, sessions, k, chances, before, s, outcome');
      }
    }
  }

  /** A call that has failed, or fails now for want of a map, gives the next session nothing. */
  lemma UpToSame(c: Config, sessions: seq<SessionView>, k: nat, chances: seq<real>,
                 before: seq<SessionView>, outcome: Outcome, i: nat)
    requires |chances| == |sessions| && k < |sessions| && GeneratedUpTo(c, sessions, k, chances, before, outcome, i)
    ensures outcome == Done ==> i == k
    ensures outcome != Done ==> GeneratedUpTo(c, sessions, k + 1, chances, before, outcome, i)
    ensures outcome == Done && sessions[k].mapId !in c.maps ==>
              GeneratedUpTo(c, sessions, k + 1, chances, before, MapUnknown, k)
  {
    hide DueAppearedIn;
  }

  lemma UpToGrows(c: Config, sessions: seq<SessionView>, k: nat, chances: seq<real>,
                  before: seq<SessionView>, s: SessionView, outcome: Outcome)
    requires |chances| == |sessions| && k < |sessions| && GeneratedUpTo(c, sessions, k, chances, before, Done, k)
    requires sessions[k].mapId in c.maps && outcome != MapUnknown
    requires DueAppearedIn(c.maps[sessions[k].mapId], sessions[k], s, outcome, chances[k])
    ensures GeneratedUpTo(c, sessions, k + 1, chances, before[k := s], outcome, if outcome == Done then k + 1 else k)
  {
    hide DueAppearedIn;
  }

  ghost predicate GetsWhatIsDue(c: Config, sessions: seq<SessionView>, chances: seq<real>,
                                sessions': seq<SessionView>, outcome: Outcome)
    requires |chances| == |sessions|
  {
    exists i :: GeneratedUpTo(c, sessions, |sessions|, chances, sessions', outcome, i)
  }

  lemma CallGivesWhatIsDue(c: Config, sessions: seq<SessionView>, timeDelta: int,
                           chances: seq<real>, draws: seq<seq<Draw>>)
    requires LuckFits(c, sessions, chances, draws)
    ensures var (sessions', outcome) := LootGeneratedInFirst(c, sessions, |sessions|, timeDelta, chances, draws);
            GetsWhatIsDue(c, sessions, chances, sessions', outcome)
  {
    var i := GameGeneratesDue(c, sessions, |sessions|, timeDelta, chances, draws);
  }

  lemma SessionGeneratesDue(m: Map, s: SessionView, timeDelta: int, chance: real, draws: seq<Draw>)
    requires DrawsFit(m, s, draws)
    ensures var (s', outcome) := LootGenerated(s, m, timeDelta, chance, draws);
            DueAppearedIn(m, s, s', outcome, chance) && outcome != MapUnknown
  {
    var due := GeneratesWhatIsDue(m, s, timeDelta, chance, draws);
  }

  predicate ProperGens(sessions: seq<SessionView>) {
    forall k :: 0 <= k < |sessions| ==> ProperGen(sessions[k].generator)
  }

  function ChancesOf(sessions: seq<SessionView>, timeDelta: int, power: (real, real) -> real, randoms: seq<real>)
    : (r: seq<real>)
    requires ProperGens(sessions) && |randoms| == |sessions|
    ensures |r| == |sessions|
    ensures forall k :: 0 <= k < |r| ==> r[k] == Chance(sessions[k].generator, timeDelta, power, randoms[k])
  {
    seq(|sessions|, k requires 0 <= k < |sessions| =>
      Chance(sessions[k].generator, timeDelta, power, randoms[k]))
  }

  // ---------------------------------------------------------------- snapshots

  function StateOfGame(sessions: seq<SessionView>): (r: seq<SessionInfo>)
    ensures |r| == |sessions| && forall k :: 0 <= k < |r| ==> r[k] == StateOfSession(sessions[k])
  {
    seq(|sessions|, k requires 0 <= k < |sessions| => StateOfSession(sessions[k]))
  }

  function BagFrom(items: seq<GatheredLootItem>): (r: seq<LootInfo>)
    ensures |r| == |items|
    ensures forall k :: 0 <= k < |r| ==> r[k] == LootInfo(items[k].id, items[k].kind, 0.0, 0.0)
  {
    seq(|items|, k requires 0 <= k < |items| => LootInfo(items[k].id, items[k].kind, 0.0, 0.0))
  }

  /** Sets a dog from its record field by field; the bag is appended to. */
  function InitDog(d: DogView, state: DogState, dir: DogDirection): DogView {
    d.(direction := dir, motion := d.motion.(position := state.pos, road := state.curRoad),
       score := state.score, idleTime := state.idleTime, playTime := state.playTime,
       bag := d.bag + BagFrom(state.bag))
  }

  /** None when the direction of the record is unknown. */
  function RestorePlayer(c: Config, m: Map, s: SessionView, p: PlayerState): Option<SessionView> {
    match DirectionFromString(p.dog.dir)
    case None => None
    case Some(dir) =>
      var (s', j) := Joined(s, m, p.name, p.token, c.defaultBagCapacity);
      var q := s'.players[j];
      Some(s'.(players := s'.players[j := q.(id := p.id, dog := InitDog(q.dog, p.dog, dir))]))
  }

  function RestorePlayers(c: Config, s: SessionView, players: seq<PlayerState>): Option<SessionView> {
    if players == [] then Some(s)
    else
      var n := |players| - 1;
      match RestorePlayers(c, s, players[..n])
      case None => None
      case Some(before) =>
        if s.mapId in c.maps then RestorePlayer(c, c.maps[s.mapId], before, players[n]) else None
  }

  function RestoreSession(c: Config, info: SessionInfo): Option<SessionView> {
    RestorePlayers(c, EmptySession(c, info.mapId).(loots := info.loots), info.players)
  }

  /** The sessions restored before the first failure, and whether there was none. */
  function RestoreGame(c: Config, state: seq<SessionInfo>): (seq<SessionView>, bool) {
    if state == [] then ([], true)
    else
      var n := |state| - 1;
      var (before, ok) := RestoreGame(c, state[..n]);
      if !ok then (before, false)
      else match RestoreSession(c, state[n])
        case None => (before, false)
        case Some(s) => (before + [s], true)
  }

  /** Nothing is restored after the first failure. */
  lemma {:induction false} FailureEndsRestore(c: Config, state: seq<SessionInfo>, n: nat)
    requires n <= |state| && !RestoreGame(c, state[..n]).1
    ensures RestoreGame(c, state) == RestoreGame(c, state[..n])
    decreases |state|
  {
    if n < |state| {
      assert state[..|state| - 1][..n] == state[..n];
      FailureEndsRestore(c, state[..|state| - 1], n);
    } else {
      assert state[..n] == state;
    }
  }

  lemma {:induction false} FailureEndsPlayers(c: Config, s: SessionView, players: seq<PlayerState>, n: nat)
    requires n <= |players| && RestorePlayers(c, s, players[..n]).None?
    ensures RestorePlayers(c, s, players).None?
    decreases |players|
  {
    if n < |players| {
      assert players[..|players| - 1][..n] == players[..n];
      FailureEndsPlayers(c, s, players[..|players| - 1], n);
    } else {
      assert players[..n] == players;
    }
  }

  // ---------------------------------------------------------------- retirement

  predicate Expired(c: Config, p: PlayerView) {
    p.dog.idleTime as real >= c.retirementTime
  }

  function ExpiredOf(c: Config, players: seq<PlayerView>): seq<PlayerView> {
    if players == [] then []
    else (if Expired(c, players[0]) then [players[0]] else []) + ExpiredOf(c, players[1..])
  }

  function RemainingOf(c: Config, players: seq<PlayerView>): seq<PlayerView> {
    if players == [] then []
    else (if Expired(c, players[0]) then [] else [players[0]]) + RemainingOf(c, players[1..])
  }

  function FindExpired(c: Config, sessions: seq<SessionView>): seq<PlayerView> {
    if sessions == [] then []
    else ExpiredOf(c, sessions[0].players) + FindExpired(c, sessions[1..])
  }

  function RecordOf(p: PlayerView): PlayerRecordItem {
    PlayerRecordItem(p.name, p.dog.score, p.dog.playTime)
  }

  function RecordsOf(players: seq<PlayerView>): (r: seq<PlayerRecordItem>)
    ensures |r| == |players| && forall k :: 0 <= k < |r| ==> r[k] == RecordOf(players[k])
  {
    seq(|players|, k requires 0 <= k < |players| => RecordOf(players[k]))
  }

  /** Deletes the expired players one by one, looking each up by token in the first session
      only; false when a lookup throws, which leaves the rest undeleted. */
  function DeleteExpired(sessions: seq<SessionView>, expired: seq<PlayerView>): (r: (seq<SessionView>, bool))
    ensures |r.0| == |sessions|
    decreases |expired|
  {
    if expired == [] || sessions == [] then (sessions, true)
    else
      var k := FindToken(sessions[0].players, expired[0].token);
      if k == |sessions[0].players| then (sessions, false)
      else DeleteExpired(sessions[0 := WithoutPlayer(sessions[0], k)], expired[1..])
  }

  function NonEmpty(sessions: seq<SessionView>): seq<SessionView> {
    if sessions == [] then []
    else (if sessions[0].players == [] then [] else [sessions[0]]) + NonEmpty(sessions[1..])
  }

  // Each loop over a list, one step at a time.

  lemma ExpiredStep(c: Config, players: seq<PlayerView>, j: nat, before: seq<PlayerView>)
    requires j < |players|
    ensures before + ExpiredOf(c, players[j..])
         == (if Expired(c, players[j]) then before + [players[j]] else before) + ExpiredOf(c, players[j + 1..])
  {
    assert players[j..][1..] == players[j + 1..];
  }

  lemma FindExpiredStep(c: Config, sessions: seq<SessionView>, k: nat, before: seq<PlayerView>)
    requires k < |sessions|
    ensures before + FindExpired(c, sessions[k..])
         == before + ExpiredOf(c, sessions[k].players) + FindExpired(c, sessions[k + 1..])
  {
    assert sessions[k..][1..] == sessions[k + 1..];
  }

  lemma NonEmptyStep(sessions: seq<SessionView>, k: nat, before: seq<SessionView>)
    requires k < |sessions|
    ensures before + NonEmpty(sessions[k..])
         == (if sessions[k].players == [] then before else before + [sessions[k]]) + NonEmpty(sessions[k + 1..])
  {
    assert sessions[k..][1..] == sessions[k + 1..];
  }

  datatype Retirement = Retirement(sessions: seq<SessionView>, saved: seq<PlayerRecordItem>, ok: bool)

  function HandleRetired(c: Config, sessions: seq<SessionView>): Retirement {
    var expired := FindExpired(c, sessions);
    if expired == [] then Retirement(sessions, [], true)
    else
      var (remaining, ok) := DeleteExpired(sessions, expired);
      Retirement(if ok then NonEmpty(remaining) else remaining, RecordsOf(expired), ok)
  }
}
