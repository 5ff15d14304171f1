/** What the operations of a game session do, as functions on its value. */
module SessionModel {
  import opened DataTypes
  import opened MapModel
  import opened CollisionDetector
  import opened Dogs
  import opened LootGenerators

  const BASE_WIDTH: real := 0.5
  const LOOT_WIDTH: real := 0.0

  /** spawned is the history of all loot ever generated in the session. */
  datatype SessionView = SessionView(mapId: string, players: seq<PlayerView>, loots: seq<LootInfo>,
                                     playerId: int, lootId: int, generator: GenView, spawned: seq<LootInfo>)

  function FreshSession(mapId: string, generator: GenView): SessionView {
    SessionView(mapId, [], [], 0, 0, generator, [])
  }

  // ---------------------------------------------------------------- players

  /** The index of the first player with the name, or the number of players. */
  function FindName(players: seq<PlayerView>, name: string): (k: nat)
    ensures k <= |players|
    ensures k < |players| ==> players[k].name == name
    ensures forall j :: 0 <= j < k ==> players[j].name != name
  {
    FindIf(players, (p: PlayerView) => p.name == name)
  }

  function FindToken(players: seq<PlayerView>, token: string): (k: nat)
    ensures k <= |players|
    ensures k < |players| ==> players[k].token == token
    ensures forall j :: 0 <= j < k ==> players[j].token != token
  {
    FindIf(players, (p: PlayerView) => p.token == token)
  }

  predicate HasToken(s: SessionView, token: string) {
    FindToken(s.players, token) < |s.players|
  }

  /** Joins a player unless the name is taken; the index of the player is the result. */
  function Joined(s: SessionView, m: Map, name: string, token: string, defaultBagCapacity: int): (SessionView, nat) {
    var k := FindName(s.players, name);
    if k < |s.players| then (s, k)
    else
      var p := PlayerView(s.playerId, name, token, FreshDog(CapacityOn(m, defaultBagCapacity)));
      (s.(players := s.players + [p], playerId := s.playerId + 1), k)
  }

  function WithoutPlayer(s: SessionView, k: nat): SessionView
    requires k < |s.players|
  {
    s.(players := s.players[..k] + s.players[k + 1..])
  }

  function StateOfSession(s: SessionView): SessionInfo {
    SessionInfo(s.mapId, StatesOf(s.players), s.loots)
  }

  function StatesOf(players: seq<PlayerView>): (r: seq<PlayerState>)
    ensures |r| == |players| && forall k :: 0 <= k < |r| ==> r[k] == PlayerStateOf(players[k])
  {
    seq(|players|, k requires 0 <= k < |players| => PlayerStateOf(players[k]))
  }

  // ---------------------------------------------------------------- new loot

  /** The random values behind one piece of loot: its kind, its road and where along it. */
  datatype Draw = Draw(kind: int, road: int, along: real)

  predicate ValidDraw(m: Map, d: Draw) {
    && 0 <= d.kind < |m.loots|
    && 0 <= d.road < |m.roads|
    && var r := m.roads[d.road];
    if r.IsHorizontal() then Min(r.start.x, r.end.x) <= d.along <= Max(r.start.x, r.end.x)
    else Min(r.start.y, r.end.y) <= d.along <= Max(r.start.y, r.end.y)
  }

  function LootPosition(r: Road, along: real): Point {
    if r.IsHorizontal() then Point(along, r.start.y) else Point(r.start.x, along)
  }

  function NewLoot(m: Map, id: int, d: Draw): LootInfo
    requires ValidDraw(m, d)
  {
    var p := LootPosition(m.roads[d.road], d.along);
    LootInfo(id, d.kind, p.x, p.y)
  }

  function NewLoots(m: Map, id: int, draws: seq<Draw>): (r: seq<LootInfo>)
    requires forall k :: 0 <= k < |draws| ==> ValidDraw(m, draws[k])
    ensures |r| == |draws|
    ensures forall k :: 0 <= k < |r| ==> r[k] == NewLoot(m, id + k, draws[k])
  {
    seq(|draws|, k requires 0 <= k < |draws| => NewLoot(m, id + k, draws[k]))
  }

  datatype Outcome = Done | LootNotSpecified | RoadNotSpecified | MapUnknown

  /** Enough draws, and valid ones if there is anything to draw from. */
  predicate DrawsFit(m: Map, s: SessionView, draws: seq<Draw>) {
    && |draws| >= |s.players|
    && (m.loots != [] && m.roads != [] ==> forall k :: 0 <= k < |draws| ==> ValidDraw(m, draws[k]))
  }

  function LootGenerated(s: SessionView, m: Map, timeDelta: int, chance: real, draws: seq<Draw>): (SessionView, Outcome)
    requires DrawsFit(m, s, draws)
  {
    var (g, n) := Generated(s.generator, timeDelta, |s.loots|, |s.players|, chance);
    var s' := s.(generator := g);
    if n > 0 && m.loots == [] then (s', LootNotSpecified)
    else if n > 0 && m.roads == [] then (s', RoadNotSpecified)
    else
      var added := if n == 0 then [] else NewLoots(m, s.lootId, draws[..n]);
      (s'.(loots := s.loots + added, lootId := s.lootId + n, spawned := s.spawned + added), Done)
  }

  /** The point of a road at the given coordinate along it. */
  predicate PlacedAlong(r: Road, along: real, p: Point) {
    if r.start.y == r.end.y then p == Point(along, r.start.y) else p == Point(r.start.x, along)
  }

  /** From s to s' as many pieces have appeared as were due; or none, with the reason, if there
      is nothing to draw from. */
  ghost predicate DueAppeared(m: Map, s: SessionView, s': SessionView, outcome: Outcome, due: nat) {
    && outcome == (if due == 0 then Done else if m.loots == [] then LootNotSpecified
                   else if m.roads == [] then RoadNotSpecified else Done)
    && s.loots <= s'.loots && |s'.loots| == |s.loots| + (if outcome == Done then due else 0)
    && s'.spawned == s.spawned + s'.loots[|s.loots|..] && s'.lootId == s.lootId + |s'.loots| - |s.loots|
    && s'.players == s.players && s'.mapId == s.mapId && s'.playerId == s.playerId
  }

  /** A session generates the number of pieces that is due, the integer nearest to the expected
      part of the shortage, each as its own draw says. */
  lemma GeneratesWhatIsDue(m: Map, s: SessionView, timeDelta: int, chance: real, draws: seq<Draw>)
    returns (due: nat)
    requires DrawsFit(m, s, draws)
    ensures Nearest(due, Expected(|s.loots|, |s.players|, chance))
    ensures chance >= 1.0 && |s.loots| <= |s.players| ==> |s.loots| + due == |s.players|
    ensures var (s', outcome) := LootGenerated(s, m, timeDelta, chance, draws);
            && DueAppeared(m, s, s', outcome, due)
            && s'.generator.timeWithoutLoot == (if due > 0 then 0 else s.generator.timeWithoutLoot + timeDelta)
            && forall k :: 0 <= k < |s'.loots| - |s.loots| ==>
                 var l, d := s'.loots[|s.loots| + k], draws[k];
                 && ValidDraw(m, d) && l.id == s.lootId + k && l.kind == d.kind
                 && PlacedAlong(m.roads[d.road], d.along, Point(l.x, l.y))
  {
    GeneratedBound(s.generator, timeDelta, |s.loots|, |s.players|, chance);
    due := Generated(s.generator, timeDelta, |s.loots|, |s.players|, chance).1;
    hide Generated;
    var s' := LootGenerated(s, m, timeDelta, chance, draws).0;
    if due > 0 && m.loots != [] && m.roads != [] {
      assert s'.loots[|s.loots|..] == NewLoots(m, s.lootId, draws[..due]);
    } else {
      assert s'.loots[|s.loots|..] == [] && s.spawned + [] == s.spawned;
    }
  }

  // ---------------------------------------------------------------- collecting

  function LootItem(loot: LootInfo): Item {
    Item(loot.id, Point(loot.x, loot.y), LOOT_WIDTH, ItemType.Loot)
  }

  function OfficeItem(o: Office): Item {
    Item(0, o.position, BASE_WIDTH, ItemType.Office)
  }

  /** All loot on the floor, then all offices of the map. */
  function ItemsOf(m: Map, loots: seq<LootInfo>): seq<Item> {
    seq(|loots|, k requires 0 <= k < |loots| => LootItem(loots[k])) +
    seq(|m.offices|, k requires 0 <= k < |m.offices| => OfficeItem(m.offices[k]))
  }

  function Pick(items: seq<Item>, order: seq<int>): seq<Item>
    requires forall k :: 0 <= k < |order| ==> 0 <= order[k] < |items|
  {
    seq(|order|, k requires 0 <= k < |order| => items[order[k]])
  }

  /** The items the gatherer collects, each once, by time of contact. */
  ghost predicate IsGathered(items: seq<Item>, g: Gatherer, gathered: seq<Item>) {
    exists order: seq<int> :: IsGatherOrder(items, g, order) && gathered == Pick(items, order)
  }

  function FindLoot(loots: seq<LootInfo>, id: int): (k: nat)
    ensures k <= |loots|
    ensures k < |loots| ==> loots[k].id == id
    ensures forall j :: 0 <= j < k ==> loots[j].id != id
  {
    FindIf(loots, (l: LootInfo) => l.id == id)
  }

  function RemoveAt(loots: seq<LootInfo>, k: nat): seq<LootInfo>
    requires k < |loots|
  {
    loots[..k] + loots[k + 1..]
  }

  predicate Kinds(m: Map, d: DogView, loots: seq<LootInfo>) {
    KindsKnown(m, d.bag) && KindsKnown(m, loots)
  }

  /** One item reached by the dog. */
  function CollectOne(m: Map, d: DogView, loots: seq<LootInfo>, item: Item): (r: (DogView, seq<LootInfo>))
    requires Kinds(m, d, loots)
    ensures Kinds(m, r.0, r.1)
  {
    if item.kind == ItemType.Office then (PassedToOffice(m, d), loots)
    else
      var k := FindLoot(loots, item.id);
      if k == |loots| then (d, loots)
      else
        var (d', taken) := LootAdded(d, loots[k]);
        (d', if taken then RemoveAt(loots, k) else loots)
  }

  function Collect(m: Map, d: DogView, loots: seq<LootInfo>, items: seq<Item>): (r: (DogView, seq<LootInfo>))
    requires Kinds(m, d, loots)
    ensures Kinds(m, r.0, r.1)
    decreases |items|
  {
    if items == [] then (d, loots)
    else
      var (d', loots') := CollectOne(m, d, loots, items[0]);
      Collect(m, d', loots', items[1..])
  }

  // ---------------------------------------------------------------- one round of moves

  datatype Sweep = Sweep(players: seq<PlayerView>, loots: seq<LootInfo>)

  predicate Ready(m: Map, w: Sweep) {
    && KindsKnown(m, w.loots)
    && forall k :: 0 <= k < |w.players| ==>
         ValidRoad(m.roads, w.players[k].dog.motion) && KindsKnown(m, w.players[k].dog.bag)
  }

  function WithDog(w: Sweep, k: nat, d: DogView): Sweep
    requires k < |w.players|
  {
    w.(players := w.players[k := w.players[k].(dog := d)])
  }

  /** The move of the k-th dog in a round, before it collects anything. */
  function MoveOf(m: Map, w: Sweep, k: nat, deltaTime: int): (DogView, Option<Gatherer>)
    requires Ready(m, w) && k < |w.players|
  {
    var d := w.players[k].dog;
    MovedDog(m.roads, d.(playTime := d.playTime + deltaTime), deltaTime)
  }

  /** The k-th dog moves; if it went anywhere it collects the items, else it idles. */
  function MoveOne(m: Map, w: Sweep, k: nat, deltaTime: int, items: seq<Item>): (r: Sweep)
    requires Ready(m, w) && k < |w.players|
    ensures Ready(m, r) && |r.players| == |w.players|
  {
    var (d, g) := MoveOf(m, w, k, deltaTime);
    MoveKeepsRoad(m, w, k, deltaTime);
    if g.None? then WithDog(w, k, d.(idleTime := d.idleTime + deltaTime))
    else
      var (d', loots') := Collect(m, d.(idleTime := 0), w.loots, items);
      CollectKeepsMotion(m, d.(idleTime := 0), w.loots, items);
      WithDog(w, k, d').(loots := loots')
  }

  lemma MoveKeepsRoad(m: Map, w: Sweep, k: nat, deltaTime: int)
    requires Ready(m, w) && k < |w.players|
    ensures ValidRoad(m.roads, MoveOf(m, w, k, deltaTime).0.motion)
    ensures MoveOf(m, w, k, deltaTime).0.bag == w.players[k].dog.bag
    ensures MoveOf(m, w, k, deltaTime).0.delivered == w.players[k].dog.delivered
  {
    AdvanceEndsOnRoad(m.roads, w.players[k].dog.motion, deltaTime);
  }

  lemma {:induction false} CollectKeepsMotion(m: Map, d: DogView, loots: seq<LootInfo>, items: seq<Item>)
    requires Kinds(m, d, loots)
    ensures Collect(m, d, loots, items).0.motion == d.motion
    ensures Collect(m, d, loots, items).0.direction == d.direction
    ensures Collect(m, d, loots, items).0.bagCapacity == d.bagCapacity
    ensures Collect(m, d, loots, items).0.idleTime == d.idleTime
    ensures Collect(m, d, loots, items).0.playTime == d.playTime
    decreases |items|
  {
    if items != [] {
      var (d', loots') := CollectOne(m, d, loots, items[0]);
      CollectKeepsMotion(m, d', loots', items[1..]);
    }
  }

  /** The first |picks| dogs have moved; picks[k] is what the k-th one was offered. */
  function MoveFirst(m: Map, w: Sweep, deltaTime: int, picks: seq<seq<Item>>): (r: Sweep)
    requires Ready(m, w) && |picks| <= |w.players|
    ensures Ready(m, r) && |r.players| == |w.players|
  {
    if picks == [] then w
    else
      var k := |picks| - 1;
      MoveOne(m, MoveFirst(m, w, deltaTime, picks[..k]), k, deltaTime, picks[k])
  }

  /** The gatherer of the k-th dog when its turn comes. */
  function GathererOf(m: Map, w: Sweep, deltaTime: int, picks: seq<seq<Item>>, k: nat): Option<Gatherer>
    requires Ready(m, w) && k < |picks| <= |w.players|
  {
    MoveOf(m, MoveFirst(m, w, deltaTime, picks[..k]), k, deltaTime).1
  }

  /** The k-th dog is offered exactly what it sweeps over on the floor it finds. */
  ghost predicate PickOk(m: Map, w: Sweep, deltaTime: int, picks: seq<seq<Item>>, k: nat)
    requires Ready(m, w) && k < |picks| <= |w.players|
  {
    var g := GathererOf(m, w, deltaTime, picks, k);
    g.Some? ==> IsGathered(ItemsOf(m, MoveFirst(m, w, deltaTime, picks[..k]).loots), g.value, picks[k])
  }

  /** A whole round: the dogs move in order, and the round ends with the first one that
      yields no gatherer, or with the last dog. */
  ghost predicate LegalRound(m: Map, w: Sweep, deltaTime: int, picks: seq<seq<Item>>)
    requires Ready(m, w)
  {
    && |picks| <= |w.players|
    && (forall k :: 0 <= k < |picks| ==> PickOk(m, w, deltaTime, picks, k))
    && (forall k :: 0 <= k < |picks| - 1 ==> GathererOf(m, w, deltaTime, picks, k).Some?)
    && (|picks| < |w.players| ==> |picks| > 0 && GathererOf(m, w, deltaTime, picks, |picks| - 1).None?)
  }

  function SweepOf(s: SessionView): Sweep {
    Sweep(s.players, s.loots)
  }

  function MovedSession(s: SessionView, m: Map, deltaTime: int, picks: seq<seq<Item>>): SessionView
    requires Ready(m, SweepOf(s)) && |picks| <= |s.players|
  {
    var w := MoveFirst(m, SweepOf(s), deltaTime, picks);
    s.(players := w.players, loots := w.loots)
  }
}
