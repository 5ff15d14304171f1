/** The session object: players, floor loot and their in-place updates. */
module GameSessions {
  import opened DataTypes
  import opened MapModel
  import opened CollisionDetector
  import opened Dogs
  import opened LootGenerators
  import opened SessionModel

  ghost function ViewsOf(players: seq<Player>): (r: seq<PlayerView>)
    reads players, set p | p in players :: p.dog
    ensures |r| == |players|
    ensures forall k :: 0 <= k < |players| ==> r[k] == players[k].View()
  {
    seq(|players|, k requires 0 <= k < |players| reads players, set p | p in players :: p.dog => players[k].View())
  }

  /** The position of a player object in the list, or the length of the list. */
  ghost function PlayerIndex(players: seq<Player>, player: Player): (k: nat)
    ensures k <= |players|
    ensures k < |players| ==> players[k] == player
    ensures player !in players[..k]
  {
    FindIf(players, p => p == player)
  }

  method MakePlayer(id: int, name: string, token: string, m: Map, defaultBagCapacity: int) returns (player: Player)
    ensures fresh(player) && fresh(player.dog) && player.dog.Valid() && player.dog.gameMap == m
    ensures player.View() == PlayerView(id, name, token, FreshDog(CapacityOn(m, defaultBagCapacity)))
  {
    var dog := new Dog(m, defaultBagCapacity);
    player := new Player(id, name, token, dog);
  }

  class GameSession {
    const mapId: string
    const lootGen: LootGenerator
    var players: seq<Player>
    var loots: seq<LootInfo>
    var playerId: int
    var lootId: int
    var gameMap: Option<Map>
    ghost var spawned: seq<LootInfo>
    ghost var Repr: set<object>

    /** No player and no dog occurs twice. */
    ghost predicate Valid()
      reads this, Repr
    {
      && this in Repr && lootGen in Repr
      && (forall k :: 0 <= k < |players| ==>
            && players[k] in Repr && players[k].dog in Repr
            && players[k].dog.Valid())
      && (forall j, k :: 0 <= j < k < |players| ==> players[j] != players[k] && players[j].dog != players[k].dog)
    }

    /** Every dog lives on the map of the session. */
    ghost predicate OneMap()
      reads this`players, this`gameMap
    {
      forall k :: 0 <= k < |players| ==> gameMap == Some(players[k].dog.gameMap)
    }

    ghost function View(): SessionView
      reads this, Repr
      requires Valid()
    {
      SessionView(mapId, ViewsOf(players), loots, playerId, lootId, lootGen.View(), spawned)
    }

    constructor (mapId: string, basePeriod: int, probability: real)
      ensures Valid() && fresh(Repr)
      ensures gameMap == None && this.mapId == mapId
      ensures View() == FreshSession(mapId, GenView(basePeriod, probability, 0))
    {
      this.mapId := mapId;
      lootGen := new LootGenerator(basePeriod, probability);
      players, loots, spawned := [], [], [];
      playerId, lootId := 0, 0;
      gameMap := None;
      Repr := {this, lootGen};
    }

    // -------------------------------------------------------------- players

    method IndexOfName(name: string) returns (k: nat)
      requires Valid()
      ensures k == FindName(View().players, name)
    {
      k := 0;
      while k < |players| && players[k].name != name
        invariant 0 <= k <= |players|
        invariant forall j :: 0 <= j < k ==> players[j].name != name
      {
        k := k + 1;
      }
    }

    /** The map given last becomes the map of the session, even if the name is taken. */
    method AddPlayer(name: string, playerMap: Map, token: string, defaultBagCapacity: int) returns (player: Player)
      requires Valid()
      modifies this
      ensures Valid() && fresh(Repr - old(Repr)) && old(Repr) <= Repr
      ensures gameMap == Some(playerMap)
      ensures OneMap() <==> forall k :: 0 <= k < |old(players)| ==> old(players)[k].dog.gameMap == playerMap
      ensures View() == Joined(old(View()), playerMap, name, token, defaultBagCapacity).0
      ensures var k := Joined(old(View()), playerMap, name, token, defaultBagCapacity).1;
              k < |players| && players[k] == player
      ensures player.name == name
      ensures player !in old(players) ==> player.id == old(playerId) && player.token == token
    {
      hide ViewsOf, FreshDog, CapacityOn, FindName, Valid, OneMap;
      ghost var before := players;
      SetMap(playerMap);
      var k := IndexOfName(name);
      if k < |players| {
        MapsAgree(before, playerMap);
        return players[k];
      }
      player := Enrol(name, playerMap, token, defaultBagCapacity);
      MapsAgree(before, playerMap);
    }

    method SetMap(playerMap: Map)
      requires Valid()
      modifies this`gameMap
      ensures Valid() && View() == old(View()) && gameMap == Some(playerMap)
    {
      gameMap := Some(playerMap);
    }

    lemma MapsAgree(before: seq<Player>, m: Map)
      requires gameMap == Some(m)
      requires players == before || exists p: Player :: players == before + [p] && p.dog.gameMap == m
      ensures OneMap() <==> forall k :: 0 <= k < |before| ==> before[k].dog.gameMap == m
    {
      assert forall k :: 0 <= k < |before| ==> players[k] == before[k];
    }

    method Enrol(name: string, playerMap: Map, token: string, defaultBagCapacity: int) returns (player: Player)
      requires Valid()
      modifies this`players, this`playerId, this`Repr
      ensures Valid() && Repr == old(Repr) + {player, player.dog} && fresh(player) && fresh(player.dog)
      ensures players == old(players) + [player] && player.dog.gameMap == playerMap
      ensures var s := old(View());
              var p := PlayerView(s.playerId, name, token, FreshDog(CapacityOn(playerMap, defaultBagCapacity)));
              View() == s.(players := s.players + [p], playerId := s.playerId + 1)
    {
      ghost var s := View();
      player := MakePlayer(playerId, name, token, playerMap, defaultBagCapacity);
      assert Valid() && View() == s;
      PushBack(player);
      playerId := playerId + 1;
    }

    method PushBack(player: Player)
      requires Valid()
      requires player !in Repr && player.dog !in Repr && player.dog.Valid()
      modifies this`players, this`Repr
      ensures Valid() && Repr == old(Repr) + {player, player.dog}
      ensures players == old(players) + [player]
      ensures View() == old(View()).(players := old(View()).players + [player.View()])
    {
      ghost var views := ViewsOf(players);
      players := players + [player];
      Repr := Repr + {player, player.dog};
      assert ViewsOf(players) == views + [player.View()];
    }

    method FindPlayerWithAuthToken(token: string) returns (player: Option<Player>)
      requires Valid()
      ensures var k := FindToken(View().players, token);
              player == if k < |players| then Some(players[k]) else None
    {
      for i := 0 to |players|
        invariant forall j :: 0 <= j < i ==> players[j].token != token
      {
        if players[i].token == token {
          return Some(players[i]);
        }
      }
      return None;
    }

    method HasPlayerWithAuthToken(token: string) returns (found: bool)
      requires Valid()
      ensures found <==> HasToken(View(), token)
    {
      var player := FindPlayerWithAuthToken(token);
      found := player.Some?;
    }

    method DeletePlayer(player: Player)
      requires Valid()
      modifies this`players
      ensures Valid() && Repr == old(Repr)
      ensures var k := PlayerIndex(old(players), player);
              if k < |old(players)| then
                players == old(players)[..k] + old(players)[k + 1..] && View() == WithoutPlayer(old(View()), k)
              else players == old(players)
    {
      var i := 0;
      while i < |players| && players[i] != player
        invariant 0 <= i <= |players|
        invariant player !in players[..i]
      {
        i := i + 1;
      }
      if i < |players| {
        Erase(i);
      }
    }

    method Erase(i: nat)
      requires Valid() && i < |players|
      modifies this`players
      ensures Valid() && Repr == old(Repr)
      ensures players == old(players)[..i] + old(players)[i + 1..]
      ensures View() == WithoutPlayer(old(View()), i)
    {
      ghost var views := ViewsOf(players);
      players := players[..i] + players[i + 1..];
      assert ViewsOf(players) == views[..i] + views[i + 1..];
    }

    method GetSessionState() returns (info: SessionInfo)
      requires Valid()
      ensures info == StateOfSession(View())
      ensures info.mapId == mapId && info.loots == loots && |info.players| == |players|
      ensures forall k :: 0 <= k < |players| ==>
                var p := info.players[k];
                && p.id == players[k].id && p.name == players[k].name && p.token == players[k].token
                && p.dog == StateOf(players[k].dog.View())
    {
      var states: seq<PlayerState> := [];
      for k := 0 to |players|
        invariant |states| == k
        invariant forall j :: 0 <= j < k ==> states[j] == PlayerStateOf(players[j].View())
      {
        var state := players[k].GetState();
        states := states + [state];
      }
      assert states == StatesOf(ViewsOf(players));
      info := SessionInfo(mapId, states, loots);
    }

    /** The size is read after the list has been moved away, so the counter stays. */
    method SetLootList(newLoots: seq<LootInfo>)
      requires Valid()
      modifies this`loots
      ensures Valid() && View() == old(View()).(loots := newLoots)
    {
      loots := newLoots;
    }

    // -------------------------------------------------------------- new loot

    method GenerateLootInfo(m: Map, draw: Draw) returns (loot: Option<LootInfo>, outcome: Outcome)
      requires m.loots != [] && m.roads != [] ==> ValidDraw(m, draw)
      modifies this`lootId
      ensures outcome == if m.loots == [] then LootNotSpecified else if m.roads == [] then RoadNotSpecified else Done
      ensures outcome == Done ==> loot == Some(NewLoot(m, old(lootId), draw)) && lootId == old(lootId) + 1
      ensures outcome == Done ==>
                && loot.value.id == old(lootId) && loot.value.kind == draw.kind
                && PlacedAlong(m.roads[draw.road], draw.along, Point(loot.value.x, loot.value.y))
      ensures outcome != Done ==> lootId == old(lootId)
    {
      if m.loots == [] {
        return None, LootNotSpecified;
      }
      if m.roads == [] {
        return None, RoadNotSpecified;
      }
      var road := m.roads[draw.road];
      var p := LootPosition(road, draw.along);
      loot := Some(LootInfo(lootId, draw.kind, p.x, p.y));
      lootId := lootId + 1;
      outcome := Done;
    }

    method GenerateLoot(timeDelta: int, m: Map, power: (real, real) -> real, random: real, draws: seq<Draw>)
      returns (outcome: Outcome)
      requires Valid() && ProperGen(View().generator)
      requires DrawsFit(m, View(), draws)
      modifies this`loots, this`lootId, this`spawned, lootGen
      ensures Valid()
      ensures var chance := Chance(old(View()).generator, timeDelta, power, random);
              && (View(), outcome) == LootGenerated(old(View()), m, timeDelta, chance, draws)
              && exists due: nat :: && Nearest(due, Expected(old(|loots|), |players|, chance))
                                    && DueAppeared(m, old(View()), View(), outcome, due)
    {
      ghost var due := GeneratesWhatIsDue(m, View(), timeDelta, Chance(View().generator, timeDelta, power, random), draws);
      ghost var views := ViewsOf(players);
      var n := lootGen.Generate(timeDelta, |loots|, |players|, power, random);
      assert ViewsOf(players) == views;
      outcome := AppendLoot(n, m, draws);
      assert ViewsOf(players) == views;
    }

    method AppendLoot(n: nat, m: Map, draws: seq<Draw>) returns (outcome: Outcome)
      requires n <= |draws|
      requires m.loots != [] && m.roads != [] ==> forall k :: 0 <= k < |draws| ==> ValidDraw(m, draws[k])
      modifies this`loots, this`lootId, this`spawned
      ensures outcome == if n == 0 then Done else if m.loots == [] then LootNotSpecified
                         else if m.roads == [] then RoadNotSpecified else Done
      ensures outcome == Done ==>
                var added := if n == 0 then [] else NewLoots(m, old(lootId), draws[..n]);
                loots == old(loots) + added && spawned == old(spawned) + added && lootId == old(lootId) + n
      ensures outcome != Done ==> loots == old(loots) && spawned == old(spawned) && lootId == old(lootId)
    {
      ghost var added: seq<LootInfo> := [];
      for i := 0 to n
        invariant i > 0 ==> m.loots != [] && m.roads != [] && added == NewLoots(m, old(lootId), draws[..i])
        invariant i == 0 ==> added == []
        invariant lootId == old(lootId) + i
        invariant loots == old(loots) + added && spawned == old(spawned) + added
      {
        var loot, failure := GenerateLootInfo(m, draws[i]);
        if failure != Done {
          return failure;
        }
        added := added + [loot.value];
        loots := loots + [loot.value];
        spawned := spawned + [loot.value];
      }
      outcome := Done;
    }

    // -------------------------------------------------------------- collecting

    method GetGatheredItems(gatherer: Gatherer, floor: seq<LootInfo>, m: Map) returns (result: seq<Item>)
      ensures IsGathered(ItemsOf(m, floor), gatherer, result)
    {
      var items: seq<Item> := [];
      for k := 0 to |floor|
        invariant items == seq(k, j requires 0 <= j < k => LootItem(floor[j]))
      {
        items := items + [Item(floor[k].id, Point(floor[k].x, floor[k].y), LOOT_WIDTH, ItemType.Loot)];
      }
      ghost var head := items;
      for k := 0 to |m.offices|
        invariant items == head + seq(k, j requires 0 <= j < k => OfficeItem(m.offices[j]))
      {
        items := items + [Item(0, m.offices[k].position, BASE_WIDTH, ItemType.Office)];
      }
      assert items == ItemsOf(m, floor);
      var events := FindGatherEvents(items, [gatherer]);
      EventsGiveOrder(items, gatherer, events);
      ghost var order := seq(|events|, k requires 0 <= k < |events| => events[k].itemId);
      result := [];
      for k := 0 to |events|
        invariant |result| == k
        invariant forall j :: 0 <= j < k ==> result[j] == items[order[j]]
      {
        assert 0 <= order[k] < |items|;
        result := result + [items[events[k].itemId]];
      }
      assert result == Pick(items, order);
    }

    method AddLootToDog(dog: Dog, items: seq<Item>)
      requires Kinds(dog.gameMap, dog.View(), loots)
      modifies this`loots, dog`score, dog`gatheredLoots, dog`delivered
      ensures (dog.View(), loots) == Collect(dog.gameMap, old(dog.View()), old(loots), items)
    {
      for i := 0 to |items|
        invariant Kinds(dog.gameMap, dog.View(), loots)
        invariant Collect(dog.gameMap, old(dog.View()), old(loots), items)
               == Collect(dog.gameMap, dog.View(), loots, items[i..])
      {
        var item := items[i];
        assert items[i..][0] == item && items[i..][1..] == items[i + 1..];
        if item.kind == ItemType.Office {
          dog.PassLootToOffice();
        } else {
          var k := IndexOfLoot(item.id);
          if k < |loots| {
            var taken := dog.AddLoot(loots[k]);
            if taken {
              loots := loots[..k] + loots[k + 1..];
            }
          }
        }
      }
    }

    method IndexOfLoot(id: int) returns (k: nat)
      ensures k == FindLoot(loots, id)
    {
      k := 0;
      while k < |loots| && loots[k].id != id
        invariant 0 <= k <= |loots|
        invariant forall j :: 0 <= j < k ==> loots[j].id != id
      {
        k := k + 1;
      }
    }

    // -------------------------------------------------------------- moving

    /** The map the players are on; only a session without players has none yet. */
    ghost function CurrentMap(): Map
      reads this
    {
      if gameMap.Some? then gameMap.value else Map("", [], [], [], 0.0, 0)
    }

    ghost predicate ReadyToMove()
      requires Valid()
      reads this, Repr
    {
      OneMap() && Ready(CurrentMap(), SweepOf(View()))
    }

    /** The turn of one dog: move, then idle or collect what it swept over. */
    method TakeTurn(dog: Dog, deltaTime: int) returns (went: bool, ghost items: seq<Item>)
      requires dog.Valid() && gameMap == Some(dog.gameMap)
      requires ValidRoad(dog.gameMap.roads, dog.View().motion) && Kinds(dog.gameMap, dog.View(), loots)
      modifies this`loots, dog
      ensures dog.Valid()
      ensures var d := old(dog.View());
              var (d', g) := MovedDog(dog.gameMap.roads, d.(playTime := d.playTime + deltaTime), deltaTime);
              && went == g.Some?
              && (!went ==> dog.View() == d'.(idleTime := d'.idleTime + deltaTime) && loots == old(loots))
              && (went ==> (dog.View(), loots) == Collect(dog.gameMap, d'.(idleTime := 0), old(loots), items))
              && (went ==> IsGathered(ItemsOf(dog.gameMap, old(loots)), g.value, items))
    {
      hide Advance, IsGathered, ItemsOf, Collect;
      items := [];
      dog.playTime := dog.playTime + deltaTime;
      var gatherer := dog.Move(deltaTime);
      if gatherer.None? {
        dog.idleTime := dog.idleTime + deltaTime;
        return false, [];
      }
      dog.idleTime := 0;
      var reached := GetGatheredItems(gatherer.value, loots, gameMap.value);
      AddLootToDog(dog, reached);
      items := reached;
      went := true;
    }

    method MoveDog(k: nat, deltaTime: int) returns (went: bool, ghost items: seq<Item>)
      requires Valid() && k < |players| && ReadyToMove()
      modifies this`loots, players[k].dog
      ensures Valid() && ReadyToMove()
      ensures var m, w := CurrentMap(), old(SweepOf(View()));
              && went == MoveOf(m, w, k, deltaTime).1.Some?
              && (went ==> IsGathered(ItemsOf(m, w.loots), MoveOf(m, w, k, deltaTime).1.value, items))
              && SweepOf(View()) == MoveOne(m, w, k, deltaTime, items)
      ensures View() == old(View()).(players := View().players, loots := loots)
    {
      hide Advance, MovedDog, IsGathered, ItemsOf, Collect;
      ghost var views, w := ViewsOf(players), SweepOf(View());
      went, items := TakeTurn(players[k].dog, deltaTime);
      assert ViewsOf(players) == views[k := views[k].(dog := players[k].dog.View())];
      ghost var w' := MoveOne(CurrentMap(), w, k, deltaTime, items);
      MoveKeepsRoad(CurrentMap(), w, k, deltaTime);
      assert Valid() && SweepOf(View()) == WithDog(w, k, players[k].dog.View()).(loots := loots);
      assert SweepOf(View()) == w';
      assert Ready(CurrentMap(), w');
    }

    /** One round: the loop returns at the first dog without a gatherer. */
    method MoveDogs(deltaTime: int) returns (ghost picks: seq<seq<Item>>)
      requires Valid() && ReadyToMove()
      modifies this`loots, set p | p in players :: p.dog
      ensures Valid() && ReadyToMove()
      ensures LegalRound(CurrentMap(), old(SweepOf(View())), deltaTime, picks)
      ensures View() == MovedSession(old(View()), CurrentMap(), deltaTime, picks)
    {
      hide MoveOne, MoveOf, PickOk, Ready, GathererOf, ViewsOf, AllWent, LegalRound, Valid;
      ghost var m, w := CurrentMap(), SweepOf(View());
      NobodyWentYet(m, w, deltaTime);
      picks := [];
      for i := 0 to |players|
        invariant Valid() && ReadyToMove()
        invariant |picks| == i
        invariant View() == MovedSession(old(View()), m, deltaTime, picks)
        invariant AllWent(m, w, deltaTime, picks)
      {
        ghost var before := picks;
        var went, items := MoveDog(i, deltaTime);
        picks := picks + [items];
        RoundGoesOn(m, w, deltaTime, before, items);
        if !went {
          return;
        }
      }
      AllWentIsRound(m, w, deltaTime, picks);
    }
  }

  /** Every dog that had its turn went somewhere and was offered what it swept over. */
  ghost predicate AllWent(m: Map, w: Sweep, deltaTime: int, picks: seq<seq<Item>>)
    requires Ready(m, w) && |picks| <= |w.players|
  {
    forall k :: 0 <= k < |picks| ==> PickOk(m, w, deltaTime, picks, k) && GathererOf(m, w, deltaTime, picks, k).Some?
  }

  lemma NobodyWentYet(m: Map, w: Sweep, deltaTime: int)
    requires Ready(m, w)
    ensures AllWent(m, w, deltaTime, []) && MoveFirst(m, w, deltaTime, []) == w
  {}

  /** One more turn: the round goes on if the dog went somewhere, and ends if it did not. */
  lemma RoundGoesOn(m: Map, w: Sweep, deltaTime: int, picks: seq<seq<Item>>, items: seq<Item>)
    requires Ready(m, w) && |picks| < |w.players| && AllWent(m, w, deltaTime, picks)
    requires var (d, g) := MoveOf(m, MoveFirst(m, w, deltaTime, picks), |picks|, deltaTime);
             g.Some? ==> IsGathered(ItemsOf(m, MoveFirst(m, w, deltaTime, picks).loots), g.value, items)
    ensures MoveFirst(m, w, deltaTime, picks + [items])
         == MoveOne(m, MoveFirst(m, w, deltaTime, picks), |picks|, deltaTime, items)
    ensures if MoveOf(m, MoveFirst(m, w, deltaTime, picks), |picks|, deltaTime).1.Some?
            then AllWent(m, w, deltaTime, picks + [items])
            else LegalRound(m, w, deltaTime, picks + [items])
  {
    hide MoveOne, MoveOf, PickOk, Ready, GathererOf, IsGathered, ItemsOf;
    PicksExtend(m, w, deltaTime, picks, items);
  }

  lemma AllWentIsRound(m: Map, w: Sweep, deltaTime: int, picks: seq<seq<Item>>)
    requires Ready(m, w) && |picks| == |w.players| && AllWent(m, w, deltaTime, picks)
    ensures LegalRound(m, w, deltaTime, picks)
  {
    hide PickOk, Ready, GathererOf;
  }

  /** Appending a pick changes nothing about the earlier ones. */
  lemma PicksExtend(m: Map, w: Sweep, deltaTime: int, picks: seq<seq<Item>>, items: seq<Item>)
    requires Ready(m, w) && |picks| < |w.players|
    ensures MoveFirst(m, w, deltaTime, picks + [items])
         == MoveOne(m, MoveFirst(m, w, deltaTime, picks), |picks|, deltaTime, items)
    ensures GathererOf(m, w, deltaTime, picks + [items], |picks|)
         == MoveOf(m, MoveFirst(m, w, deltaTime, picks), |picks|, deltaTime).1
    ensures PickOk(m, w, deltaTime, picks + [items], |picks|) <==>
            var (d, g) := MoveOf(m, MoveFirst(m, w, deltaTime, picks), |picks|, deltaTime);
            g.Some? ==> IsGathered(ItemsOf(m, MoveFirst(m, w, deltaTime, picks).loots), g.value, items)
    ensures forall k :: 0 <= k < |picks| ==>
              && GathererOf(m, w, deltaTime, picks + [items], k) == GathererOf(m, w, deltaTime, picks, k)
              && PickOk(m, w, deltaTime, picks + [items], k) == PickOk(m, w, deltaTime, picks, k)
  {
    var longer := picks + [items];
    assert longer[..|picks|] == picks;
    forall k | 0 <= k < |picks|
      ensures GathererOf(m, w, deltaTime, longer, k) == GathererOf(m, w, deltaTime, picks, k)
      ensures PickOk(m, w, deltaTime, longer, k) == PickOk(m, w, deltaTime, picks, k)
    {
      assert longer[..k] == picks[..k] && longer[k] == picks[k];
    }
  }
}
