/** Who retires and what is recorded of them, in terms of idle times alone. */
module RetirementProofs {
  import opened DataTypes
  import opened Dogs
  import opened SessionModel
  import opened GameModel
  import opened GameProofs

  // ---------------------------------------------------------------- selections

  /** r holds the elements of s that satisfy p, all of them, in order: those at the given places. */
  ghost predicate IsSelection<T>(s: seq<T>, p: T -> bool, places: seq<nat>, r: seq<T>) {
    ElementsAt(s, places, r) && Increasing(places) && PlacesOf(s, p, places)
  }

  predicate ElementsAt<T(==)>(s: seq<T>, places: seq<nat>, r: seq<T>) {
    |r| == |places| && forall j :: 0 <= j < |places| ==> places[j] < |s| && r[j] == s[places[j]]
  }

  predicate Increasing(places: seq<nat>) {
    forall j, l :: 0 <= j < l < |places| ==> places[j] < places[l]
  }

  ghost predicate PlacesOf<T>(s: seq<T>, p: T -> bool, places: seq<nat>) {
    forall i: nat :: i in places <==> i < |s| && p(s[i])
  }

  /** The places one further on, after the first one if it belongs to them. */
  function Shifted(places: seq<nat>, first: bool): (r: seq<nat>)
    ensures |r| == |places| + if first then 1 else 0
    ensures first ==> r[0] == 0
    ensures forall j :: 0 <= j < |places| ==> r[if first then j + 1 else j] == places[j] + 1
  {
    (if first then [0] else []) + seq(|places|, j requires 0 <= j < |places| => places[j] + 1)
  }

  lemma ShiftedMembers(places: seq<nat>, first: bool, i: nat)
    ensures i in Shifted(places, first) <==> if i == 0 then first else i - 1 in places
  {
    var all := Shifted(places, first);
    if i in all {
      var j :| 0 <= j < |all| && all[j] == i;
      assert i == 0 || all[j] == places[if first then j - 1 else j] + 1;
    }
    if i > 0 && i - 1 in places {
      var j :| 0 <= j < |places| && places[j] == i - 1;
      assert all[if first then j + 1 else j] == i;
    }
  }

  /** A selection from all but the first element becomes one from all. */
  lemma SelectionGrows<T>(s: seq<T>, p: T -> bool, places: seq<nat>, r: seq<T>)
    requires s != [] && IsSelection(s[1..], p, places, r)
    ensures IsSelection(s, p, Shifted(places, p(s[0])), (if p(s[0]) then [s[0]] else []) + r)
  {
    hide ElementsAt, Increasing, Shifted;
    ElementsShift(s, places, r, p(s[0]));
    IncreasingShift(places, p(s[0]));
    forall i: nat ensures i in Shifted(places, p(s[0])) <==> i < |s| && p(s[i]) {
      ShiftedMembers(places, p(s[0]), i);
      assert i > 0 ==> (i - 1 in places <==> i - 1 < |s[1..]| && p(s[1..][i - 1]));
    }
  }

  lemma ElementsShift<T>(s: seq<T>, places: seq<nat>, r: seq<T>, first: bool)
    requires s != [] && ElementsAt(s[1..], places, r)
    ensures ElementsAt(s, Shifted(places, first), (if first then [s[0]] else []) + r)
  {}

  lemma IncreasingShift(places: seq<nat>, first: bool)
    requires Increasing(places)
    ensures Increasing(Shifted(places, first))
  {}

  // ---------------------------------------------------------------- the lists of retirement

  lemma {:induction false} ExpiredAreIdle(c: Config, players: seq<PlayerView>) returns (places: seq<nat>)
    ensures IsSelection(players, (p: PlayerView) => p.dog.idleTime as real >= c.retirementTime, places,
                        ExpiredOf(c, players))
  {
    if players == [] {
      places := [];
    } else {
      var tail := ExpiredAreIdle(c, players[1..]);
      var idle := (p: PlayerView) => p.dog.idleTime as real >= c.retirementTime;
      SelectionGrows(players, idle, tail, ExpiredOf(c, players[1..]));
      places := Shifted(tail, idle(players[0]));
    }
  }

  lemma {:induction false} RemainingAreBusy(c: Config, players: seq<PlayerView>) returns (places: seq<nat>)
    ensures IsSelection(players, (p: PlayerView) => (p.dog.idleTime as real) < c.retirementTime, places,
                        RemainingOf(c, players))
  {
    if players == [] {
      places := [];
    } else {
      var tail := RemainingAreBusy(c, players[1..]);
      var busy := (p: PlayerView) => (p.dog.idleTime as real) < c.retirementTime;
      SelectionGrows(players, busy, tail, RemainingOf(c, players[1..]));
      places := Shifted(tail, busy(players[0]));
    }
  }

  lemma {:induction false} NonEmptyHavePlayers(sessions: seq<SessionView>) returns (places: seq<nat>)
    ensures IsSelection(sessions, (s: SessionView) => |s.players| > 0, places, NonEmpty(sessions))
  {
    if sessions == [] {
      places := [];
    } else {
      var tail := NonEmptyHavePlayers(sessions[1..]);
      var populated := (s: SessionView) => |s.players| > 0;
      SelectionGrows(sessions, populated, tail, NonEmpty(sessions[1..]));
      places := Shifted(tail, populated(sessions[0]));
    }
  }

  /** All players of the game, session by session. */
  function Everybody(sessions: seq<SessionView>): seq<PlayerView> {
    if sessions == [] then [] else sessions[0].players + Everybody(sessions[1..])
  }

  lemma {:induction false} ExpiredAppend(c: Config, a: seq<PlayerView>, b: seq<PlayerView>)
    ensures ExpiredOf(c, a + b) == ExpiredOf(c, a) + ExpiredOf(c, b)
  {
    if a == [] {
      assert a + b == b;
    } else {
      assert (a + b)[1..] == a[1..] + b;
      ExpiredAppend(c, a[1..], b);
    }
  }

  lemma {:induction false} FindExpiredInAll(c: Config, sessions: seq<SessionView>)
    ensures FindExpired(c, sessions) == ExpiredOf(c, Everybody(sessions))
  {
    if sessions != [] {
      FindExpiredInAll(c, sessions[1..]);
      ExpiredAppend(c, sessions[0].players, Everybody(sessions[1..]));
    }
  }

  /** The places, in the list of all players, of exactly those idle for the retirement time or
      longer, in order. */
  ghost predicate IdlePlaces(c: Config, everybody: seq<PlayerView>, places: seq<nat>) {
    && (forall j :: 0 <= j < |places| ==> places[j] < |everybody|)
    && (forall j, l :: 0 <= j < l < |places| ==> places[j] < places[l])
    && (forall i :: 0 <= i < |everybody| ==> (i in places <==> everybody[i].dog.idleTime as real >= c.retirementTime))
  }

  /** Retirement records name, score and play time of exactly the players idle for the
      retirement time or longer, each once and in order, wherever they are. */
  lemma IdleAreRecorded(c: Config, sessions: seq<SessionView>) returns (places: seq<nat>)
    ensures IdlePlaces(c, Everybody(sessions), places)
    ensures var saved, everybody := HandleRetired(c, sessions).saved, Everybody(sessions);
            && |saved| == |places|
            && forall j :: 0 <= j < |saved| ==>
                 var p := everybody[places[j]];
                 saved[j].name == p.name && saved[j].score == p.dog.score && saved[j].playTime == p.dog.playTime
  {
    FindExpiredInAll(c, sessions);
    places := ExpiredAreIdle(c, Everybody(sessions));
  }

  /** With unique tokens, who stays in the first session are exactly the players idle for less
      than the retirement time, in order; if retirement went through and anybody retired, no
      session is left without players, and otherwise every session is still there. */
  lemma BusyStay(c: Config, sessions: seq<SessionView>) returns (busy: seq<nat>, populated: seq<nat>)
    requires GameTokensUnique(sessions) && sessions != []
    ensures var r := HandleRetired(c, sessions);
            var remaining := RemainingOf(c, sessions[0].players);
            var swept := sessions[0 := sessions[0].(players := remaining)];
            && IsSelection(sessions[0].players, (p: PlayerView) => (p.dog.idleTime as real) < c.retirementTime, busy, remaining)
            && (r.ok && r.saved != [] ==> IsSelection(swept, (s: SessionView) => |s.players| > 0, populated, r.sessions))
            && (!r.ok ==> r.sessions == swept)
            && (r.saved == [] ==> r.sessions == sessions)
  {
    busy := RemainingAreBusy(c, sessions[0].players);
    populated := NonEmptyHavePlayers(WithPlayers(sessions, RemainingOf(c, sessions[0].players)));
    hide IsSelection, RemainingOf, FindExpired, GameTokensUnique, NonEmpty, HandleRetired;
    RetirementPartition(c, sessions);
    NobodyRecorded(c, sessions);
  }

  lemma NobodyRecorded(c: Config, sessions: seq<SessionView>)
    ensures |HandleRetired(c, sessions).saved| == |FindExpired(c, sessions)|
  {}
}
