/** Who is who, over every run of the game: names, ids, tokens and snapshots. */
module GameRuns {
  import opened DataTypes
  import opened MapModel
  import opened Dogs
  import opened LootGenerators
  import opened SessionModel
  import opened SessionRuns
  import opened GameModel
  import opened GameProofs

  datatype GameOp =
    | JoinGame(mapId: string, name: string, token: string)   // token is the one newly drawn
    | OnSession(k: nat, op: Op)                              // set a speed, generate loot, move

  ghost predicate GameEnabled(c: Config, g: seq<SessionView>, op: GameOp) {
    match op
    case JoinGame(_, _, _) => true
    case OnSession(k, op) =>
      && k < |g| && !op.Join?
      && g[k].mapId in c.maps && Enabled(c.maps[g[k].mapId], g[k], op)
  }

  ghost function GameStep(c: Config, g: seq<SessionView>, op: GameOp): seq<SessionView>
    requires GameEnabled(c, g, op)
  {
    match op
    case JoinGame(mapId, name, token) => JoinedGame(c, g, mapId, name, token).0
    case OnSession(k, op) => g[k := Step(c.maps[g[k].mapId], c.defaultBagCapacity, g[k], op)]
  }

  ghost predicate GameTransition(c: Config, g: seq<SessionView>, op: GameOp, g': seq<SessionView>) {
    GameEnabled(c, g, op) && g' == GameStep(c, g, op)
  }

  /** No token is drawn twice. */
  predicate TokensFresh(ops: seq<GameOp>) {
    forall i, j :: 0 <= i < j < |ops| && ops[i].JoinGame? && ops[j].JoinGame? ==> ops[i].token != ops[j].token
  }

  /** A run that starts from any game, with nobody drawing a token that is in use there. */
  ghost predicate IsGameRunFrom(c: Config, trace: seq<seq<SessionView>>, ops: seq<GameOp>, inUse: set<string>) {
    && |trace| == |ops| + 1
    && TokensKept(trace[0], inUse) && TokensFresh(ops) && TokensOf(ops) !! inUse
    && forall k :: 0 <= k < |ops| ==> GameTransition(c, trace[k], ops[k], trace[k + 1])
  }

  /** A run of a new game. */
  ghost predicate IsGameRun(c: Config, trace: seq<seq<SessionView>>, ops: seq<GameOp>) {
    IsGameRunFrom(c, trace, ops, {}) && trace[0] == []
  }

  // ---------------------------------------------------------------- the identity invariant

  predicate ProperPlayers(s: SessionView) {
    && s.playerId == |s.players|
    && (forall i :: 0 <= i < |s.players| ==> s.players[i].id == i)
    && (forall i, j :: 0 <= i < j < |s.players| ==> s.players[i].name != s.players[j].name)
  }

  predicate ProperSessions(c: Config, g: seq<SessionView>) {
    && (forall k :: 0 <= k < |g| ==> g[k].mapId in c.maps && ProperPlayers(g[k]))
    && (forall k, l :: 0 <= k < l < |g| ==> g[k].mapId != g[l].mapId)
  }

  predicate TokensAmong(g: seq<SessionView>, used: set<string>) {
    forall k, i :: 0 <= k < |g| && 0 <= i < |g[k].players| ==> g[k].players[i].token in used
  }

  /** No token occurs twice, and all of them are among those used so far. */
  predicate TokensKept(g: seq<SessionView>, used: set<string>) {
    GameTokensUnique(g) && TokensAmong(g, used)
  }

  ghost predicate IdentityInv(c: Config, g: seq<SessionView>, used: set<string>) {
    ProperSessions(c, g) && TokensKept(g, used)
  }

  predicate SamePlayer(p: PlayerView, q: PlayerView) {
    p.id == q.id && p.name == q.name && p.token == q.token
  }

  /** Every session and player of g is still in g', in the same position. */
  predicate Extends(g: seq<SessionView>, g': seq<SessionView>) {
    && |g| <= |g'|
    && forall k :: 0 <= k < |g| ==> SessionExtends(g[k], g'[k])
  }

  predicate SessionExtends(s: SessionView, s': SessionView) {
    && s.mapId == s'.mapId && |s.players| <= |s'.players|
    && forall i :: 0 <= i < |s.players| ==> SamePlayer(s.players[i], s'.players[i])
  }

  /** Setting speeds, generating loot and moving touch nobody's identity. */
  lemma SessionStepKeepsPlayers(m: Map, cap: int, s: SessionView, op: Op)
    requires Enabled(m, s, op) && !op.Join?
    ensures var s' := Step(m, cap, s, op);
            SessionExtends(s, s') && |s'.players| == |s.players| && s'.playerId == s.playerId
  {
    match op
    case Move(dt, picks) =>
      forall i | 0 <= i < |s.players| ensures SamePlayer(s.players[i], Step(m, cap, s, op).players[i]) {
        RoundTouchesPrefix(m, SweepOf(s), dt, picks, i);
      }
    case _ =>
  }

  lemma SessionStepKeepsTokens(g: seq<SessionView>, k: nat, s': SessionView, used: set<string>)
    requires TokensKept(g, used) && k < |g|
    requires SessionExtends(g[k], s') && |s'.players| == |g[k].players|
    ensures TokensKept(g[k := s'], used) && Extends(g, g[k := s'])
  {
    forall i | 0 <= i < |s'.players| ensures SamePlayer(g[k].players[i], s'.players[i]) {}
    assert TokensUnique(g[k].players);
  }

  lemma SessionStepKeepsProper(c: Config, g: seq<SessionView>, k: nat, s': SessionView)
    requires ProperSessions(c, g) && k < |g|
    requires SessionExtends(g[k], s') && |s'.players| == |g[k].players| && s'.playerId == g[k].playerId
    ensures ProperSessions(c, g[k := s'])
  {
    forall i | 0 <= i < |s'.players| ensures SamePlayer(g[k].players[i], s'.players[i]) {}
    assert ProperPlayers(g[k]);
  }

  // ---------------------------------------------------------------- joining

  lemma OpenKeepsTokens(c: Config, g: seq<SessionView>, mapId: string, used: set<string>)
    requires TokensKept(g, used)
    ensures TokensKept(WithSession(c, g, mapId), used) && Extends(g, WithSession(c, g, mapId))
  {
    var r, empty := WithSession(c, g, mapId), EmptySession(c, mapId);
    if r != g {
      assert forall k :: 0 <= k < |g| ==> r[k] == g[k];
      assert empty.players == [];
      hide EmptySession, WithSession;
      assert TokensUnique(empty.players);
    }
  }

  lemma OpenKeepsProper(c: Config, g: seq<SessionView>, mapId: string)
    requires ProperSessions(c, g) && mapId in c.maps
    ensures ProperSessions(c, WithSession(c, g, mapId))
  {
    var r, empty := WithSession(c, g, mapId), EmptySession(c, mapId);
    if r != g {
      assert forall k :: 0 <= k < |g| ==> r[k] == g[k];
      assert ProperPlayers(empty) && empty.mapId == mapId;
    }
  }

  function WithPlayer(s: SessionView, p: PlayerView): SessionView {
    s.(players := s.players + [p], playerId := s.playerId + 1)
  }

  lemma NewPlayerApart(s: SessionView, p: PlayerView)
    ensures SessionExtends(s, WithPlayer(s, p))
    ensures TokensUnique(s.players) && (forall i :: 0 <= i < |s.players| ==> s.players[i].token != p.token) ==>
              TokensUnique(WithPlayer(s, p).players)
    ensures ProperPlayers(s) && p.id == s.playerId && (forall i :: 0 <= i < |s.players| ==> s.players[i].name != p.name) ==>
              ProperPlayers(WithPlayer(s, p))
  {
    assert forall i :: 0 <= i < |s.players| ==> (s.players + [p])[i] == s.players[i];
  }

  lemma NewPlayerKeepsTokens(g: seq<SessionView>, k: nat, p: PlayerView, used: set<string>)
    requires TokensKept(g, used) && k < |g| && p.token !in used
    ensures TokensKept(g[k := WithPlayer(g[k], p)], used + {p.token}) && Extends(g, g[k := WithPlayer(g[k], p)])
  {
    NewPlayerApart(g[k], p);
    assert TokensUnique(g[k].players);
    hide ProperPlayers, TokensUnique;
    var g' := g[k := WithPlayer(g[k], p)];
    assert TokensAmong(g', used + {p.token}) && Extends(g, g') by {
      hide GameTokensUnique;
    }
    assert GameTokensUnique(g');
  }

  lemma NewPlayerKeepsProper(c: Config, g: seq<SessionView>, k: nat, p: PlayerView)
    requires ProperSessions(c, g) && k < |g| && p.id == g[k].playerId
    requires forall i :: 0 <= i < |g[k].players| ==> g[k].players[i].name != p.name
    ensures ProperSessions(c, g[k := WithPlayer(g[k], p)])
  {
    assert ProperPlayers(g[k]);
    NewPlayerApart(g[k], p);
    hide ProperPlayers;
  }

  /** A join either finds the name or appends one player, and says which in its answer. */
  lemma JoinAnswer(c: Config, g: seq<SessionView>, mapId: string, name: string, token: string)
    requires name != "" && mapId in c.maps
    ensures var (g', answer) := JoinedGame(c, g, mapId, name, token);
            var k := FindSession(g, mapId);
            && |g'| == |WithSession(c, g, mapId)| && k < |g'|
            && var i := FindName(WithSession(c, g, mapId)[k].players, name);
            && i < |g'[k].players|
            && answer == Joins(g'[k].players[i].token, g'[k].players[i].id)
            && g'[k].players[i].name == name && g'[k].mapId == mapId
  {}

  /** A join fails, without any effect, exactly for an empty name or an unknown map, looked at
      in this order. */
  lemma JoinFailsIff(c: Config, g: seq<SessionView>, mapId: string, name: string, token: string)
    ensures var (g', answer) := JoinedGame(c, g, mapId, name, token);
            && (answer == EmptyName <==> name == "")
            && (answer == MapNotFound <==> name != "" && mapId !in c.maps)
            && (answer.Joins? || g' == g)
  {}

  /** Who joins under a new name gets the token drawn and the next id, a bag of the size the map
      gives or else the default one, and stands at the origin on road 0 facing north with
      nothing; a map nobody was on gets a session with an empty floor, generating loot at the
      rate and with the probability of the game. */
  lemma NewcomerRecord(c: Config, g: seq<SessionView>, mapId: string, name: string, token: string)
    requires name != "" && mapId in c.maps
    requires forall k, i :: 0 <= k < |g| && g[k].mapId == mapId && 0 <= i < |g[k].players| ==> g[k].players[i].name != name
    ensures var (g', answer) := JoinedGame(c, g, mapId, name, token);
            var k := FindSession(g, mapId);
            && |g'| == (if k < |g| then |g| else |g| + 1)
            && (forall j :: 0 <= j < |g| && j != k ==> g'[j] == g[j])
            && var s := if k < |g| then g[k]
                        else SessionView(mapId, [], [], 0, 0, GenView(c.basePeriod, c.probability, 0), []);
            && g'[k] == s.(players := g'[k].players, playerId := s.playerId + 1)
            && |g'[k].players| == |s.players| + 1 && s.players <= g'[k].players
            && answer == Joins(token, s.playerId)
            && var p := g'[k].players[|s.players|];
            && PlayerStateOf(p) == PlayerState(s.playerId, name, token, DogState(Point(0.0, 0.0), "U", 0, 0, 0, 0, []))
            && p.dog.motion.speed == DogSpeed(0.0, 0.0) && p.dog.delivered == []
            && p.dog.bagCapacity == if c.maps[mapId].bagCapacity == 0 then c.defaultBagCapacity else c.maps[mapId].bagCapacity
  {
    NewDogRecord(c.maps[mapId], c.defaultBagCapacity);
    hide FreshDog, CapacityOn, StateOf;
    var all := WithSession(c, g, mapId);
    assert FindName(all[FindSession(g, mapId)].players, name) == |all[FindSession(g, mapId)].players|;
  }

  /** What a join does to a game in which the map has its session already. */
  lemma JoinedCases(c: Config, g: seq<SessionView>, mapId: string, name: string, token: string)
    returns (k: nat, p: Option<PlayerView>)
    requires name != "" && mapId in c.maps
    ensures var all, g' := WithSession(c, g, mapId), JoinedGame(c, g, mapId, name, token).0;
            && k < |all|
            && (p.None? ==> g' == all)
            && (p.Some? ==>
                  && g' == all[k := WithPlayer(all[k], p.value)]
                  && p.value.token == token && p.value.id == all[k].playerId
                  && forall i :: 0 <= i < |all[k].players| ==> all[k].players[i].name != p.value.name)
  {
    hide FreshDog;
    var all := WithSession(c, g, mapId);
    k := FindSession(g, mapId);
    assert all[k := all[k]] == all;
    p := if FindName(all[k].players, name) < |all[k].players| then None
         else Some(PlayerView(all[k].playerId, name, token, FreshDog(CapacityOn(c.maps[mapId], c.defaultBagCapacity))));
  }

  lemma JoinKeepsTokens(c: Config, g: seq<SessionView>, mapId: string, name: string, token: string, used: set<string>)
    requires TokensKept(g, used) && token !in used
    ensures var g' := JoinedGame(c, g, mapId, name, token).0;
            TokensKept(g', used + {token}) && Extends(g, g')
  {
    if name != "" && mapId in c.maps {
      var all := WithSession(c, g, mapId);
      OpenKeepsTokens(c, g, mapId, used);
      var k, p := JoinedCases(c, g, mapId, name, token);
      hide JoinedGame, WithSession, GameTokensUnique;
      if p.Some? {
        NewPlayerKeepsTokens(all, k, p.value, used);
        ExtendsTransitive(g, all, JoinedGame(c, g, mapId, name, token).0);
      }
    }
  }

  lemma JoinKeepsProper(c: Config, g: seq<SessionView>, mapId: string, name: string, token: string)
    requires ProperSessions(c, g)
    ensures ProperSessions(c, JoinedGame(c, g, mapId, name, token).0)
  {
    if name != "" && mapId in c.maps {
      OpenKeepsProper(c, g, mapId);
      var k, p := JoinedCases(c, g, mapId, name, token);
      hide JoinedGame, WithSession, ProperSessions;
      if p.Some? {
        NewPlayerKeepsProper(c, WithSession(c, g, mapId), k, p.value);
      }
    }
  }

  /** A join with a new token keeps who is who. */
  lemma JoinKeepsIdentity(c: Config, g: seq<SessionView>, mapId: string, name: string,
                          token: string, used: set<string>)
    requires IdentityInv(c, g, used) && token !in used
    ensures var g' := JoinedGame(c, g, mapId, name, token).0;
            IdentityInv(c, g', used + {token}) && Extends(g, g')
  {
    hide JoinedGame, ProperSessions, TokensKept;
    JoinKeepsTokens(c, g, mapId, name, token, used);
    JoinKeepsProper(c, g, mapId, name, token);
  }

  lemma ExtendsTransitive(a: seq<SessionView>, b: seq<SessionView>, d: seq<SessionView>)
    requires Extends(a, b) && Extends(b, d)
    ensures Extends(a, d)
  {
    forall k | 0 <= k < |a| ensures SessionExtends(a[k], d[k]) {
      assert SessionExtends(a[k], b[k]) && SessionExtends(b[k], d[k]);
      forall i | 0 <= i < |a[k].players| ensures SamePlayer(a[k].players[i], d[k].players[i]) {
        assert SamePlayer(a[k].players[i], b[k].players[i]) && SamePlayer(b[k].players[i], d[k].players[i]);
      }
    }
  }

  // ---------------------------------------------------------------- runs

  function TokensOf(ops: seq<GameOp>): set<string> {
    set k | 0 <= k < |ops| && ops[k].JoinGame? :: ops[k].token
  }

  lemma GameStepKeepsTokens(c: Config, g: seq<SessionView>, op: GameOp, used: set<string>)
    requires TokensKept(g, used) && GameEnabled(c, g, op)
    requires op.JoinGame? ==> op.token !in used
    ensures var g' := GameStep(c, g, op);
            && Extends(g, g')
            && TokensKept(g', used + TokenOf(op))
  {
    hide TokensKept, Extends;
    match op
    case JoinGame(mapId, name, token) => JoinKeepsTokens(c, g, mapId, name, token, used);
    case OnSession(k, op) =>
      var m := c.maps[g[k].mapId];
      SessionStepKeepsPlayers(m, c.defaultBagCapacity, g[k], op);
      SessionStepKeepsTokens(g, k, Step(m, c.defaultBagCapacity, g[k], op), used);
      assert used + {} == used;
  }

  lemma GameStepKeepsProper(c: Config, g: seq<SessionView>, op: GameOp)
    requires ProperSessions(c, g) && GameEnabled(c, g, op)
    ensures ProperSessions(c, GameStep(c, g, op))
  {
    hide ProperSessions;
    match op
    case JoinGame(mapId, name, token) => JoinKeepsProper(c, g, mapId, name, token);
    case OnSession(k, op) =>
      var m := c.maps[g[k].mapId];
      SessionStepKeepsPlayers(m, c.defaultBagCapacity, g[k], op);
      SessionStepKeepsProper(c, g, k, Step(m, c.defaultBagCapacity, g[k], op));
  }

  function TokenOf(op: GameOp): set<string> {
    if op.JoinGame? then {op.token} else {}
  }

  /** Over any run tokens stay unique, and everybody stays in place. */
  lemma {:induction false} TokensOverRuns(c: Config, trace: seq<seq<SessionView>>, ops: seq<GameOp>,
                                          inUse: set<string>, j: nat, k: nat)
    requires IsGameRunFrom(c, trace, ops, inUse) && j <= k <= |ops|
    ensures TokensKept(trace[k], inUse + TokensOf(ops[..k]))
    ensures Extends(trace[j], trace[k])
    decreases k
  {
    hide TokensKept, GameStep, GameEnabled, Extends, TokensOf, TokensFresh;
    if k == 0 {
      NoTokensYet(ops[..0]);
      assert inUse + {} == inUse;
      ExtendsItself(trace[0]);
    } else {
      TokensOverRuns(c, trace, ops, inUse, if j < k then j else k - 1, k - 1);
      var op := ops[k - 1];
      assert GameTransition(c, trace[k - 1], op, trace[k - 1 + 1]);
      TokensGrow(ops, k - 1);
      assert inUse + TokensOf(ops[..k]) == inUse + TokensOf(ops[..k - 1]) + TokenOf(op);
      GameStepKeepsTokens(c, trace[k - 1], op, inUse + TokensOf(ops[..k - 1]));
      if j < k {
        ExtendsTransitive(trace[j], trace[k - 1], trace[k]);
      } else {
        ExtendsItself(trace[k]);
      }
    }
  }

  lemma NoTokensYet(ops: seq<GameOp>)
    ensures ops == [] ==> TokensOf(ops) == {}
  {}

  lemma ExtendsItself(g: seq<SessionView>)
    ensures Extends(g, g)
  {}

  /** In every state of every run there is at most one session per map, names are unique and
      ids count up in join order within each session, and no token occurs twice. */
  lemma {:induction false} IdentityOverRuns(c: Config, trace: seq<seq<SessionView>>, ops: seq<GameOp>, k: nat)
    requires IsGameRun(c, trace, ops) && k <= |ops|
    ensures IdentityInv(c, trace[k], TokensOf(ops[..k]))
  {
    hide TokensKept, GameStep, GameEnabled, TokensOf, TokensFresh;
    TokensOverRuns(c, trace, ops, {}, k, k);
    assert {} + TokensOf(ops[..k]) == TokensOf(ops[..k]);
    if k > 0 {
      IdentityOverRuns(c, trace, ops, k - 1);
      assert GameTransition(c, trace[k - 1], ops[k - 1], trace[k - 1 + 1]);
      hide ProperSessions;
      GameStepKeepsProper(c, trace[k - 1], ops[k - 1]);
    }
  }

  lemma TokensGrow(ops: seq<GameOp>, k: nat)
    requires TokensFresh(ops) && k < |ops|
    ensures TokensOf(ops[..k + 1]) == TokensOf(ops[..k]) + TokenOf(ops[k])
    ensures ops[k].JoinGame? ==> ops[k].token !in TokensOf(ops[..k]) && ops[k].token in TokensOf(ops)
  {
    assert ops[..k + 1][k] == ops[k];
    forall t | t in TokensOf(ops[..k]) ensures t in TokensOf(ops[..k + 1]) {
      var j :| 0 <= j < k && ops[..k][j].JoinGame? && ops[..k][j].token == t;
      assert ops[..k + 1][j] == ops[j];
    }
  }

  /** The search by token finds the one place where the token is. */
  lemma ResolveFinds(g: seq<SessionView>, k: nat, i: nat)
    requires GameTokensUnique(g) && k < |g| && i < |g[k].players|
    ensures Resolve(g, g[k].players[i].token) == Some((k, i))
  {
    var token := g[k].players[i].token;
    TokenFoundAt(g[k].players, i);
    var l := FindSessionWithToken(g, token);
    assert HasToken(g[k], token);
    var j := FindToken(g[l].players, token);
    assert g[l].players[j].token == token;
  }

  /** Whenever a join answers with a token, that token leads, then and ever after, to a player
      with the answered id and the given name, on the given map; from whatever game the run
      started, for instance a restored one. */
  lemma TokenResolvesFrom(c: Config, trace: seq<seq<SessionView>>, ops: seq<GameOp>, inUse: set<string>, j: nat, k: nat)
    returns (a: nat, i: nat)
    requires IsGameRunFrom(c, trace, ops, inUse) && j < k <= |ops|
    requires ops[j].JoinGame? && ops[j].name != "" && ops[j].mapId in c.maps
    ensures var answer := JoinedGame(c, trace[j], ops[j].mapId, ops[j].name, ops[j].token).1;
            && answer.Joins?
            && Resolve(trace[k], answer.token) == Some((a, i))
            && a < |trace[k]| && i < |trace[k][a].players|
            && trace[k][a].mapId == ops[j].mapId
            && trace[k][a].players[i].name == ops[j].name
            && trace[k][a].players[i].id == answer.id
  {
    var op := ops[j];
    assert GameTransition(c, trace[j], op, trace[j + 1]);
    JoinAnswer(c, trace[j], op.mapId, op.name, op.token);
    a := FindSession(trace[j], op.mapId);
    i := FindName(WithSession(c, trace[j], op.mapId)[a].players, op.name);
    TokensOverRuns(c, trace, ops, inUse, j + 1, k);
    assert SessionExtends(trace[j + 1][a], trace[k][a]);
    assert SamePlayer(trace[j + 1][a].players[i], trace[k][a].players[i]);
    ResolveFinds(trace[k], a, i);
  }

  /** In a run of a new game the id is moreover the place of the player in its session. */
  lemma TokenAlwaysResolves(c: Config, trace: seq<seq<SessionView>>, ops: seq<GameOp>, j: nat, k: nat)
    requires IsGameRun(c, trace, ops) && j < k <= |ops|
    requires ops[j].JoinGame? && ops[j].name != "" && ops[j].mapId in c.maps
    ensures var answer := JoinedGame(c, trace[j], ops[j].mapId, ops[j].name, ops[j].token).1;
            && answer.Joins?
            && var r := Resolve(trace[k], answer.token);
            && r.Some?
            && var (a, i) := r.value;
            && a < |trace[k]| && i < |trace[k][a].players|
            && trace[k][a].mapId == ops[j].mapId
            && trace[k][a].players[i].name == ops[j].name
            && trace[k][a].players[i].id == answer.id == i
  {
    var a, i := TokenResolvesFrom(c, trace, ops, {}, j, k);
    IdentityOverRuns(c, trace, ops, k);
    assert ProperPlayers(trace[k][a]);
  }

  /** Whoever is in the game the run starts from is led to by the same token ever after. */
  lemma OldTokensResolve(c: Config, trace: seq<seq<SessionView>>, ops: seq<GameOp>, inUse: set<string>,
                         k: nat, a: nat, i: nat)
    requires IsGameRunFrom(c, trace, ops, inUse) && k <= |ops|
    requires a < |trace[0]| && i < |trace[0][a].players|
    ensures a < |trace[k]| && i < |trace[k][a].players|
    ensures Resolve(trace[k], trace[0][a].players[i].token) == Some((a, i))
    ensures SamePlayer(trace[0][a].players[i], trace[k][a].players[i])
  {
    TokensOverRuns(c, trace, ops, inUse, 0, k);
    assert SessionExtends(trace[0][a], trace[k][a]);
    ResolveFinds(trace[k], a, i);
  }

  /** A repeated join answers with the token and id the player already has and changes
      nothing in the game. */
  lemma RepeatedJoin(c: Config, trace: seq<seq<SessionView>>, ops: seq<GameOp>, k: nat,
                     a: nat, i: nat, token: string)
    requires IsGameRun(c, trace, ops) && k <= |ops|
    requires a < |trace[k]| && i < |trace[k][a].players| && trace[k][a].players[i].name != ""
    ensures var g, p := trace[k], trace[k][a].players[i];
            JoinedGame(c, g, g[a].mapId, p.name, token) == (g, Joins(p.token, p.id))
  {
    var g, p := trace[k], trace[k][a].players[i];
    IdentityOverRuns(c, trace, ops, k);
    assert ProperPlayers(g[a]);
    assert FindSession(g, g[a].mapId) == a by {
      assert g[FindSession(g, g[a].mapId)].mapId == g[a].mapId;
    }
    assert FindName(g[a].players, p.name) == i by {
      assert g[a].players[FindName(g[a].players, p.name)].name == p.name;
    }
    assert g[a := g[a]] == g;
  }

  /** Every state a run can reach gives a snapshot that restores, and whose restored game
      gives the same snapshot again. */
  lemma ReachableSnapshotRestores(c: Config, trace: seq<seq<SessionView>>, ops: seq<GameOp>, k: nat)
    requires IsGameRun(c, trace, ops) && k <= |ops|
    ensures var state := StateOfGame(trace[k]);
            RestoreGame(c, state).1 && StateOfGame(RestoreGame(c, state).0) == state
  {
    var g, state := trace[k], StateOfGame(trace[k]);
    IdentityOverRuns(c, trace, ops, k);
    forall a | 0 <= a < |g| ensures Restorable(c, state[a]) && NamesUnique(state[a].players) {
      assert ProperPlayers(g[a]);
      assert state[a] == StateOfSession(g[a]);
      forall i | 0 <= i < |g[a].players| ensures state[a].players[i].dog.dir in {"U", "D", "L", "R", ""} {
        assert state[a].players[i] == PlayerStateOf(g[a].players[i]);
      }
    }
    RestoreSucceedsIff(c, state);
    SnapshotRoundTrip(c, state);
  }

  // ---------------------------------------------------------------- loot in all sessions

  /** What RunKeeps states, for a session whose map has axis-parallel roads. */
  ghost predicate SessionKept(c: Config, s: SessionView) {
    && s.mapId in c.maps
    && (AlignedMap(c.maps[s.mapId]) ==> SessionInv(c.maps[s.mapId], s) && LootConserved(s))
  }

  ghost predicate AllKept(c: Config, g: seq<SessionView>) {
    forall k :: 0 <= k < |g| ==> SessionKept(c, g[k])
  }

  lemma OpenedKept(c: Config, mapId: string)
    requires mapId in c.maps
    ensures SessionKept(c, EmptySession(c, mapId))
  {
    assert SweepOf(EmptySession(c, mapId)) == Sweep([], []);
  }

  lemma SessionStepKept(c: Config, s: SessionView, op: Op)
    requires SessionKept(c, s) && Enabled(c.maps[s.mapId], s, op)
    ensures SessionKept(c, Step(c.maps[s.mapId], c.defaultBagCapacity, s, op))
  {
    hide SessionInv, LootConserved, AlignedMap;
    StepKeepsMap(c.maps[s.mapId], c.defaultBagCapacity, s, op);
    if AlignedMap(c.maps[s.mapId]) {
      StepKeeps(c.maps[s.mapId], c.defaultBagCapacity, s, op);
    }
  }

  lemma GameStepKeepsLoot(c: Config, g: seq<SessionView>, op: GameOp)
    requires AllKept(c, g) && GameEnabled(c, g, op)
    ensures AllKept(c, GameStep(c, g, op))
  {
    hide SessionKept, EmptySession, Joined;
    match op
    case JoinGame(mapId, name, token) =>
      if name != "" && mapId in c.maps {
        var k, all := FindSession(g, mapId), WithSession(c, g, mapId);
        OpenedKept(c, mapId);
        assert AllKept(c, all);
        SessionStepKept(c, all[k], Op.Join(name, token));
      }
    case OnSession(k, op) =>
      SessionStepKept(c, g[k], op);
  }

  lemma StepKeepsMap(m: Map, cap: int, s: SessionView, op: Op)
    requires Enabled(m, s, op)
    ensures Step(m, cap, s, op).mapId == s.mapId
  {}

  /** What RunKeeps states of one session holds of every session of the game with a suitable
      map, however the joins and the steps of all the sessions interleave. */
  lemma {:induction false} LootOverGameRuns(c: Config, trace: seq<seq<SessionView>>, ops: seq<GameOp>, k: nat)
    requires IsGameRun(c, trace, ops) && k <= |ops|
    ensures AllKept(c, trace[k])
  {
    if k > 0 {
      LootOverGameRuns(c, trace, ops, k - 1);
      assert GameTransition(c, trace[k - 1], ops[k - 1], trace[k - 1 + 1]);
      hide AllKept, GameStep, GameEnabled;
      GameStepKeepsLoot(c, trace[k - 1], ops[k - 1]);
    }
  }
}
