/** A dog: its movement over the road network, its bag and its score. */
module Dogs {
  import opened DataTypes
  import opened MapModel
  import opened CollisionDetector

  const MILLISECONDS_IN_SECOND: real := 1000.0
  const GATHERER_WIDTH: real := 0.6
  // A smaller displacement than this on both axes counts as standing still.
  const EPSILON: real := 0.0001

  // ---------------------------------------------------------------- motion

  datatype Motion = Motion(road: int, position: Point, speed: DogSpeed)

  predicate ValidRoad(roads: seq<Road>, m: Motion) {
    0 <= m.road < |roads|
  }

  predicate OnRoad(roads: seq<Road>, m: Motion) {
    ValidRoad(roads, m) && BoundRect(roads[m.road]).PointInside(m.position)
  }

  predicate AxisParallel(speed: DogSpeed) {
    speed.vx == 0.0 || speed.vy == 0.0
  }

  function Travel(v: real, deltaTime: int): real {
    (deltaTime as real / MILLISECONDS_IN_SECOND) * v
  }

  function EvaluateNewPosition(m: Motion, deltaTime: int): Point {
    Point(m.position.x + Travel(m.speed.vx, deltaTime), m.position.y + Travel(m.speed.vy, deltaTime))
  }

  /** The first road, in index order from k on, that is adjacent to i and holds pos. */
  function FirstAdjacent(roads: seq<Road>, i: int, pos: Point, k: nat): (r: Option<int>)
    requires 0 <= i < |roads| && k <= |roads|
    ensures r.Some? ==>
              && k <= r.value < |roads|
              && r.value in Adjacency(roads, i) && BoundRect(roads[r.value]).PointInside(pos)
              && forall j :: k <= j < r.value && j in Adjacency(roads, i) ==> !BoundRect(roads[j]).PointInside(pos)
    ensures r.None? ==>
              forall j :: k <= j < |roads| && j in Adjacency(roads, i) ==> !BoundRect(roads[j]).PointInside(pos)
    decreases |roads| - k
  {
    if k == |roads| then None
    else if k in Adjacency(roads, i) && BoundRect(roads[k]).PointInside(pos) then Some(k)
    else FirstAdjacent(roads, i, pos, k + 1)
  }

  /** One position update: accept the target, change road, or clamp and stop. */
  function Advance(roads: seq<Road>, m: Motion, deltaTime: int): Motion
    requires ValidRoad(roads, m)
  {
    var rect := BoundRect(roads[m.road]);
    var newPos := EvaluateNewPosition(m, deltaTime);
    if rect.PointInside(newPos) then m.(position := newPos)
    else match FirstAdjacent(roads, m.road, newPos, 0)
      case Some(j) => m.(road := j, position := newPos)
      case None => Motion(m.road, ClampToRect(newPos, rect), DogSpeed(0.0, 0.0))
  }

  /** From any state the dog ends inside the rectangle of a road that exists. */
  lemma AdvanceEndsOnRoad(roads: seq<Road>, m: Motion, deltaTime: int)
    requires ValidRoad(roads, m)
    ensures OnRoad(roads, Advance(roads, m, deltaTime))
  {
    ClampIsNearest(EvaluateNewPosition(m, deltaTime), BoundRect(roads[m.road]), m.position);
  }

  /** The target is taken exactly, with the speed kept, if and only if it lies on the
      current road or on one adjacent to it. */
  lemma AdvanceAcceptsIff(roads: seq<Road>, m: Motion, deltaTime: int)
    requires ValidRoad(roads, m)
    ensures var m', p := Advance(roads, m, deltaTime), EvaluateNewPosition(m, deltaTime);
            (m'.position == p && m'.speed == m.speed) <==>
            exists j :: (j == m.road || j in Adjacency(roads, m.road)) && BoundRect(roads[j]).PointInside(p)
    ensures Advance(roads, m, deltaTime).position != EvaluateNewPosition(m, deltaTime) ==>
              && Advance(roads, m, deltaTime).speed == DogSpeed(0.0, 0.0)
              && Advance(roads, m, deltaTime).road == m.road
  {
    var p, rect := EvaluateNewPosition(m, deltaTime), BoundRect(roads[m.road]);
    ClampIsNearest(p, rect, p);
    if exists j :: (j == m.road || j in Adjacency(roads, m.road)) && BoundRect(roads[j]).PointInside(p) {
      var j :| (j == m.road || j in Adjacency(roads, m.road)) && BoundRect(roads[j]).PointInside(p);
      assert j == m.road || FirstAdjacent(roads, m.road, p, 0).Some?;
    }
  }

  /** On an integer grid without buried overlaps, a dog passes freely onto every road whose
      rectangle overlaps its own: it is never clamped at a crossing. */
  lemma CrossingNeverClamps(roads: seq<Road>, m: Motion, deltaTime: int, j: int)
    requires GridRoads(roads) && ValidRoad(roads, m) && 0 <= j < |roads|
    requires Overlapping(roads, m.road, j) && !BuriedOverlap(roads, m.road, j)
    requires BoundRect(roads[j]).PointInside(EvaluateNewPosition(m, deltaTime))
    ensures Advance(roads, m, deltaTime).position == EvaluateNewPosition(m, deltaTime)
    ensures Advance(roads, m, deltaTime).speed == m.speed
  {
    if j != m.road {
      AdjacentUnlessBuried(roads, m.road, j);
    }
    AdvanceAcceptsIff(roads, m, deltaTime);
  }

  /** With a buried overlap a dog is stopped in the middle of a straight street. */
  lemma BuriedOverlapClamps()
    ensures var roads := [Road(Point(0.0, 0.0), Point(10.0, 0.0)), Road(Point(5.0, 0.0), Point(15.0, 0.0))];
            var m := Motion(0, Point(9.0, 0.0), DogSpeed(4.0, 0.0));
            && GridRoads(roads) && BuriedOverlap(roads, 0, 1) && OnRoad(roads, m)
            && BoundRect(roads[1]).PointInside(m.position)
            && BoundRect(roads[1]).PointInside(EvaluateNewPosition(m, 1000))
            && Advance(roads, m, 1000) == Motion(0, Point(10.4, 0.0), DogSpeed(0.0, 0.0))
  {
    var roads := [Road(Point(0.0, 0.0), Point(10.0, 0.0)), Road(Point(5.0, 0.0), Point(15.0, 0.0))];
    var m := Motion(0, Point(9.0, 0.0), DogSpeed(4.0, 0.0));
    assert EvaluateNewPosition(m, 1000) == Point(13.0, 0.0);
    AdjacentUnlessBuried(roads, 0, 1);
    assert 0 !in Adjacency(roads, 0) && 1 !in Adjacency(roads, 0);
    assert FirstAdjacent(roads, 0, Point(13.0, 0.0), 0) == None;
  }

  /** A road adjacent to road i that does not meet it. */
  predicate AcrossGap(roads: seq<Road>, i: int, j: int)
    requires 0 <= i < |roads|
  {
    j in Adjacency(roads, i) && !Overlapping(roads, i, j)
  }

  /** An update leaves the ground of its road for one that does not meet it if and only if
      the target is off the road and the lowest-numbered adjacent road it lies on is one
      across a gap. AdjacentAcrossGap says which roads these are. */
  lemma LeapsIff(roads: seq<Road>, m: Motion, deltaTime: int)
    requires ValidRoad(roads, m)
    ensures var m', p := Advance(roads, m, deltaTime), EvaluateNewPosition(m, deltaTime);
            && ValidRoad(roads, m')
            && (!Overlapping(roads, m.road, m'.road) <==>
                && !BoundRect(roads[m.road]).PointInside(p)
                && exists j :: && AcrossGap(roads, m.road, j) && BoundRect(roads[j]).PointInside(p)
                               && forall i :: 0 <= i < j && i in Adjacency(roads, m.road) ==>
                                                !BoundRect(roads[i]).PointInside(p))
  {
    var p, next := EvaluateNewPosition(m, deltaTime), FirstAdjacent(roads, m.road, EvaluateNewPosition(m, deltaTime), 0);
    if j :| AcrossGap(roads, m.road, j) && BoundRect(roads[j]).PointInside(p)
            && forall i :: 0 <= i < j && i in Adjacency(roads, m.road) ==> !BoundRect(roads[i]).PointInside(p) {
      assert next == Some(j);
    }
  }

  /** A dog is carried from one road to another over ground that belongs to no road. */
  lemma LeapOverGap()
    ensures var roads := [Road(Point(0.0, 0.0), Point(10.0, 0.0)), Road(Point(20.0, -5.0), Point(20.0, 5.0))];
            var m := Motion(0, Point(9.0, 0.0), DogSpeed(11.0, 0.0));
            && GridRoads(roads) && !Overlapping(roads, 0, 1) && OnRoad(roads, m)
            && Advance(roads, m, 1000) == Motion(1, Point(20.0, 0.0), m.speed)
            && forall i :: 0 <= i < |roads| ==> !BoundRect(roads[i]).PointInside(Point(15.0, 0.0))
  {
    var roads := [Road(Point(0.0, 0.0), Point(10.0, 0.0)), Road(Point(20.0, -5.0), Point(20.0, 5.0))];
    var m := Motion(0, Point(9.0, 0.0), DogSpeed(11.0, 0.0));
    assert EvaluateNewPosition(m, 1000) == Point(20.0, 0.0);
    assert GridRoads(roads);
    assert 0 !in Adjacency(roads, 0) && 1 in Adjacency(roads, 0) by {
      assert Linked(roads[0], roads[1]);
    }
    assert FirstAdjacent(roads, 0, Point(20.0, 0.0), 0) == Some(1);
  }

  /** A dog that starts on its road ends on the straight way to its target: it is never
      moved sideways, backwards or past the target. */
  lemma AdvanceStaysOnPath(roads: seq<Road>, m: Motion, deltaTime: int)
    requires OnRoad(roads, m) && AxisParallel(m.speed)
    ensures var path := Road(m.position, EvaluateNewPosition(m, deltaTime));
            path.AxisAligned() && OnSegment(path, Advance(roads, m, deltaTime).position)
  {
    assert m.speed.vx == 0.0 ==> Travel(m.speed.vx, deltaTime) == 0.0;
    assert m.speed.vy == 0.0 ==> Travel(m.speed.vy, deltaTime) == 0.0;
  }

  // ---------------------------------------------------------------- time steps

  function Sum(dts: seq<nat>): nat {
    if dts == [] then 0 else dts[0] + Sum(dts[1..])
  }

  function AdvanceAll(roads: seq<Road>, m: Motion, dts: seq<nat>): (r: Motion)
    requires ValidRoad(roads, m)
    decreases |dts|
  {
    if dts == [] then m
    else
      AdvanceEndsOnRoad(roads, m, dts[0]);
      AdvanceAll(roads, Advance(roads, m, dts[0]), dts[1..])
  }

  lemma TravelAdds(v: real, t: nat, u: nat)
    ensures Travel(v, t + u) == Travel(v, t) + Travel(v, u)
    ensures v >= 0.0 ==> Travel(v, t) >= 0.0
    ensures v <= 0.0 ==> Travel(v, t) <= 0.0
  {
    var a, b := t as real / MILLISECONDS_IN_SECOND, u as real / MILLISECONDS_IN_SECOND;
    assert (t + u) as real / MILLISECONDS_IN_SECOND == a + b;
    assert (a + b) * v == a * v + b * v;
  }

  /** The road a dog on road i takes for the position p: its own, or the first adjacent one. */
  function RoadFor(roads: seq<Road>, i: int, p: Point): (r: Option<int>)
    requires 0 <= i < |roads|
    ensures r.Some? ==> 0 <= r.value < |roads| && BoundRect(roads[r.value]).PointInside(p)
  {
    if BoundRect(roads[i]).PointInside(p) then Some(i) else FirstAdjacent(roads, i, p, 0)
  }

  /** Judged before moving: the target after t is on the current road; or it is on another road,
      from which the target after t + u is found on the same road as from the current one;
      or both targets are off every road the dog can take. */
  predicate CutHarmless(roads: seq<Road>, m: Motion, t: nat, u: nat)
    requires ValidRoad(roads, m)
  {
    var last := RoadFor(roads, m.road, EvaluateNewPosition(m, t + u));
    match RoadFor(roads, m.road, EvaluateNewPosition(m, t))
    case Some(j) => j == m.road || (last.Some? && RoadFor(roads, j, EvaluateNewPosition(m, t + u)) == last)
    case None => last.None?
  }

  lemma TravelTwice(m: Motion, t: nat, u: nat)
    ensures forall road :: EvaluateNewPosition(Motion(road, EvaluateNewPosition(m, t), m.speed), u)
                        == EvaluateNewPosition(m, t + u)
    ensures forall road, p :: EvaluateNewPosition(Motion(road, p, DogSpeed(0.0, 0.0)), u) == p
  {
    TravelAdds(m.speed.vx, t, u);
    TravelAdds(m.speed.vy, t, u);
    assert Travel(0.0, u) == 0.0;
  }

  /** A target off the road stays off it in a longer tick, in which the dog, if it is stopped,
      is stopped at the same point. */
  lemma StoppedAlike(roads: seq<Road>, m: Motion, t: nat, u: nat)
    requires OnRoad(roads, m) && AxisParallel(m.speed)
    requires !BoundRect(roads[m.road]).PointInside(EvaluateNewPosition(m, t))
    ensures m.speed != DogSpeed(0.0, 0.0)
    ensures var rect := BoundRect(roads[m.road]);
            && !rect.PointInside(EvaluateNewPosition(m, t + u))
            && ClampToRect(EvaluateNewPosition(m, t), rect) == ClampToRect(EvaluateNewPosition(m, t + u), rect)
  {
    TravelAdds(m.speed.vx, t, u);
    TravelAdds(m.speed.vy, t, u);
    TravelAdds(m.speed.vx, u, t);
    TravelAdds(m.speed.vy, u, t);
    assert Travel(0.0, t) == 0.0 && Travel(0.0, t + u) == 0.0;
  }

  /** On any map, cutting a tick in two changes nothing if and only if the cut is harmless. */
  lemma TwoTicksIff(roads: seq<Road>, m: Motion, t: nat, u: nat)
    requires OnRoad(roads, m) && AxisParallel(m.speed)
    ensures ValidRoad(roads, Advance(roads, m, t))
    ensures Advance(roads, Advance(roads, m, t), u) == Advance(roads, m, t + u) <==> CutHarmless(roads, m, t, u)
  {
    var p, q := EvaluateNewPosition(m, t), EvaluateNewPosition(m, t + u);
    TravelTwice(m, t, u);
    AdvanceEndsOnRoad(roads, m, t);
    if RoadFor(roads, m.road, p) != Some(m.road) {
      StoppedAlike(roads, m, t, u);
    }
  }

  lemma TwoTicks(roads: seq<Road>, m: Motion, t: nat, u: nat)
    requires OnRoad(roads, m) && AxisParallel(m.speed)
    requires Adjacency(roads, m.road) == {}
    ensures ValidRoad(roads, Advance(roads, m, t))
    ensures Advance(roads, Advance(roads, m, t), u) == Advance(roads, m, t + u)
  {
    TwoTicksIff(roads, m, t, u);
    if !BoundRect(roads[m.road]).PointInside(EvaluateNewPosition(m, t)) {
      StoppedAlike(roads, m, t, u);
    }
  }

  /** One tick carries the dog across a gap that stops it when the tick is cut in two. */
  lemma CutStopsDog()
    ensures var roads := [Road(Point(0.0, 0.0), Point(10.0, 0.0)), Road(Point(20.0, -5.0), Point(20.0, 5.0))];
            var m := Motion(0, Point(9.0, 0.0), DogSpeed(11.0, 0.0));
            && GridRoads(roads) && OnRoad(roads, m)
            && Advance(roads, m, 1000).position == Point(20.0, 0.0)
            && ValidRoad(roads, Advance(roads, m, 500))
            && Advance(roads, Advance(roads, m, 500), 500).position == Point(10.4, 0.0)
  {
    LeapOverGap();
    var roads := [Road(Point(0.0, 0.0), Point(10.0, 0.0)), Road(Point(20.0, -5.0), Point(20.0, 5.0))];
    var m := Motion(0, Point(9.0, 0.0), DogSpeed(11.0, 0.0));
    assert EvaluateNewPosition(m, 500) == Point(14.5, 0.0);
    assert Advance(roads, m, 500) == Motion(0, Point(10.4, 0.0), DogSpeed(0.0, 0.0));
    TravelTwice(Advance(roads, m, 500), 0, 500);
  }

  /** On a road without adjacent roads the outcome does not depend on how the time is cut
      into ticks, whether or not the dog runs into the end of the road. */
  lemma {:induction false} TimeStepIndependence(roads: seq<Road>, m: Motion, dts: seq<nat>)
    requires OnRoad(roads, m) && AxisParallel(m.speed)
    requires Adjacency(roads, m.road) == {}
    ensures AdvanceAll(roads, m, dts) == Advance(roads, m, Sum(dts))
    decreases |dts|
  {
    if dts == [] {
      TravelAdds(m.speed.vx, 0, 0);
      TravelAdds(m.speed.vy, 0, 0);
    } else {
      var m1 := Advance(roads, m, dts[0]);
      AdvanceEndsOnRoad(roads, m, dts[0]);
      TimeStepIndependence(roads, m1, dts[1..]);
      TwoTicks(roads, m, dts[0], Sum(dts[1..]));
    }
  }

  // ---------------------------------------------------------------- the whole dog

  /** The value of a dog. delivered is the history of the loot it passed to offices. */
  datatype DogView = DogView(direction: DogDirection, motion: Motion, bag: seq<LootInfo>, delivered: seq<LootInfo>,
                             idleTime: int, playTime: int, score: int, bagCapacity: int)

  function FreshDog(bagCapacity: int): DogView {
    DogView(NORTH, Motion(0, Point(0.0, 0.0), DogSpeed(0.0, 0.0)), [], [], 0, 0, 0, bagCapacity)
  }

  function CapacityOn(m: Map, defaultBagCapacity: int): int {
    if m.bagCapacity != 0 then m.bagCapacity else defaultBagCapacity
  }

  function SpeedFor(d: DogDirection, speed: real): DogSpeed {
    match d
    case EAST => DogSpeed(speed, 0.0)
    case WEST => DogSpeed(-speed, 0.0)
    case SOUTH => DogSpeed(0.0, speed)
    case NORTH => DogSpeed(0.0, -speed)
    case STOP => DogSpeed(0.0, 0.0)
  }

  function Turned(d: DogView, dir: DogDirection, speed: real): DogView {
    d.(direction := if dir == STOP then d.direction else dir,
       motion := d.motion.(speed := SpeedFor(dir, speed)))
  }

  predicate Displaced(p: Point, q: Point) {
    Abs(p.x - q.x) > EPSILON || Abs(p.y - q.y) > EPSILON
  }

  /** Moves a dog unless its direction is STOP; a gatherer results if it really went somewhere. */
  function MovedDog(roads: seq<Road>, d: DogView, deltaTime: int): (r: (DogView, Option<Gatherer>))
    requires ValidRoad(roads, d.motion)
  {
    if d.direction == STOP then (d, None)
    else
      var d' := d.(motion := Advance(roads, d.motion, deltaTime));
      var start, end := d.motion.position, d'.motion.position;
      (d', if Displaced(start, end) then Some(Gatherer(start, end, GATHERER_WIDTH)) else None)
  }

  // Sizes are compared as unsigned 64-bit numbers, so a negative capacity is huge.
  function AsSize(n: int): (size: nat)
    ensures 0 <= n < 0x1_0000_0000_0000_0000 ==> size == n
    ensures -0x8000_0000 <= n < 0 ==> size >= 0xffff_ffff_8000_0000
  {
    n % 0x1_0000_0000_0000_0000
  }

  predicate BagFull(d: DogView) {
    |d.bag| >= AsSize(d.bagCapacity)
  }

  function LootAdded(d: DogView, loot: LootInfo): (DogView, bool) {
    if BagFull(d) then (d, false) else (d.(bag := d.bag + [loot]), true)
  }

  predicate KindsKnown(m: Map, loots: seq<LootInfo>) {
    forall k :: 0 <= k < |loots| ==> 0 <= loots[k].kind < |m.loots|
  }

  function ScoreOf(m: Map, loots: seq<LootInfo>): int
    requires KindsKnown(m, loots)
  {
    if loots == [] then 0
    else ScoreOf(m, loots[..|loots| - 1]) + m.loots[loots[|loots| - 1].kind].score
  }

  function PassedToOffice(m: Map, d: DogView): DogView
    requires KindsKnown(m, d.bag)
  {
    d.(score := d.score + ScoreOf(m, d.bag), delivered := d.delivered + d.bag, bag := [])
  }

  function BagItem(loot: LootInfo): GatheredLootItem {
    GatheredLootItem(loot.id, loot.kind)
  }

  function BagItems(loots: seq<LootInfo>): (r: seq<GatheredLootItem>)
    ensures |r| == |loots| && forall k :: 0 <= k < |r| ==> r[k] == GatheredLootItem(loots[k].id, loots[k].kind)
  {
    seq(|loots|, k requires 0 <= k < |loots| => BagItem(loots[k]))
  }

  function StateOf(d: DogView): DogState {
    DogState(d.motion.position, StringFromDirection(d.direction), d.score, d.idleTime, d.playTime,
             d.motion.road, BagItems(d.bag))
  }

  lemma {:induction false} ScoreAdds(m: Map, a: seq<LootInfo>, b: seq<LootInfo>)
    requires KindsKnown(m, a) && KindsKnown(m, b)
    ensures KindsKnown(m, a + b)
    ensures ScoreOf(m, a + b) == ScoreOf(m, a) + ScoreOf(m, b)
  {
    if b == [] {
      assert a + b == a;
    } else {
      var init := b[..|b| - 1];
      ScoreAdds(m, a, init);
      assert (a + b)[..|a + b| - 1] == a + init;
    }
  }

  // ---------------------------------------------------------------- what deliveries are worth

  function CountKind(loots: seq<LootInfo>, kind: int): nat {
    if loots == [] then 0
    else CountKind(loots[..|loots| - 1], kind) + if loots[|loots| - 1].kind == kind then 1 else 0
  }

  /** The number of pieces of each of the first n kinds of the map, times the value of the kind. */
  function WorthByKind(m: Map, loots: seq<LootInfo>, n: nat): int
    requires n <= |m.loots|
  {
    if n == 0 then 0 else WorthByKind(m, loots, n - 1) + CountKind(loots, n - 1) * m.loots[n - 1].score
  }

  function Worth(m: Map, loots: seq<LootInfo>): int {
    WorthByKind(m, loots, |m.loots|)
  }

  lemma {:induction false} NothingIsWorth(m: Map, n: nat)
    requires n <= |m.loots|
    ensures WorthByKind(m, [], n) == 0
  {
    if n > 0 {
      NothingIsWorth(m, n - 1);
    }
  }

  lemma {:induction false} OneMoreIsWorth(m: Map, loots: seq<LootInfo>, l: LootInfo, n: nat)
    requires n <= |m.loots| && 0 <= l.kind < |m.loots|
    ensures WorthByKind(m, loots + [l], n) == WorthByKind(m, loots, n) + if l.kind < n then m.loots[l.kind].score else 0
  {
    if n > 0 {
      OneMoreIsWorth(m, loots, l, n - 1);
      assert (loots + [l])[..|loots|] == loots;
      var count, score := CountKind(loots, n - 1), m.loots[n - 1].score;
      assert (count + 1) * score == count * score + score;
    }
  }

  /** What is added to the score, piece by piece, is the worth counted kind by kind. */
  lemma {:induction false} ScoreIsWorth(m: Map, loots: seq<LootInfo>)
    requires KindsKnown(m, loots)
    ensures ScoreOf(m, loots) == Worth(m, loots)
  {
    if loots == [] {
      NothingIsWorth(m, |m.loots|);
    } else {
      var init, l := loots[..|loots| - 1], loots[|loots| - 1];
      ScoreIsWorth(m, init);
      OneMoreIsWorth(m, init, l, |m.loots|);
      assert init + [l] == loots;
    }
  }

  lemma WorthAdds(m: Map, a: seq<LootInfo>, b: seq<LootInfo>)
    requires KindsKnown(m, a) && KindsKnown(m, b)
    ensures KindsKnown(m, a + b)
    ensures Worth(m, a + b) == Worth(m, a) + Worth(m, b)
  {
    ScoreAdds(m, a, b);
    ScoreIsWorth(m, a);
    ScoreIsWorth(m, b);
    ScoreIsWorth(m, a + b);
  }

  /** An office pays nothing for an empty bag, and for one more piece in the bag exactly the
      value the map gives to its kind. */
  lemma OfficePays(m: Map, d: DogView, l: LootInfo)
    requires KindsKnown(m, d.bag + [l])
    ensures KindsKnown(m, d.bag)
    ensures PassedToOffice(m, d.(bag := [])).score == d.score
    ensures PassedToOffice(m, d.(bag := d.bag + [l])).score == PassedToOffice(m, d).score + m.loots[l.kind].score
    ensures PassedToOffice(m, d).score == d.score + Worth(m, d.bag)
  {
    assert (d.bag + [l])[|d.bag|] == l;
    assert forall k :: 0 <= k < |d.bag| ==> (d.bag + [l])[k] == d.bag[k];
    assert (d.bag + [l])[..|d.bag|] == d.bag;
    ScoreIsWorth(m, d.bag);
  }

  // ---------------------------------------------------------------- turning and moving

  /** Setting the speed makes the dog travel along the axis of its direction, at the given
      rate, the y axis pointing south; STOP keeps the direction it faces. */
  lemma TurnedTravels(d: DogView, dir: DogDirection, speed: real, deltaTime: int)
    ensures var d' := Turned(d, dir, speed);
            var p, q := d.motion.position, EvaluateNewPosition(d'.motion, deltaTime);
            var way := deltaTime as real / 1000.0 * speed;
            && AxisParallel(d'.motion.speed)
            && d' == d.(direction := d'.direction, motion := d.motion.(speed := d'.motion.speed))
            && (dir == STOP ==> q == p && d'.direction == d.direction)
            && (dir != STOP ==> d'.direction == dir)
            && (dir == EAST ==> q == Point(p.x + way, p.y))
            && (dir == WEST ==> q == Point(p.x - way, p.y))
            && (dir == SOUTH ==> q == Point(p.x, p.y + way))
            && (dir == NORTH ==> q == Point(p.x, p.y - way))
  {
    var t := deltaTime as real / MILLISECONDS_IN_SECOND;
    assert t * (-speed) == -(t * speed);
    assert t * 0.0 == 0.0;
  }

  /** The letters of the move command: R and L along the x axis, D and U along the y axis, and
      the empty one to stand still. */
  lemma CommandTravels(d: DogView, command: string, speed: real, deltaTime: int)
    requires DirectionFromString(command).Some?
    ensures var d' := Turned(d, DirectionFromString(command).value, speed);
            var p, q := d.motion.position, EvaluateNewPosition(d'.motion, deltaTime);
            var way := deltaTime as real / 1000.0 * speed;
            && (command == "R" ==> q == Point(p.x + way, p.y))
            && (command == "L" ==> q == Point(p.x - way, p.y))
            && (command == "D" ==> q == Point(p.x, p.y + way))
            && (command == "U" ==> q == Point(p.x, p.y - way))
            && (command == "" ==> q == p)
            && StateOf(d').dir == if command == "" then StringFromDirection(d.direction) else command
  {
    DirectionRoundTrip(STOP, command);
    TurnedTravels(d, DirectionFromString(command).value, speed, deltaTime);
  }

  /** The gatherer of a move spans the displacement and is never degenerate, so sweeping
      it never divides by zero. */
  lemma GathererIsProper(roads: seq<Road>, d: DogView, deltaTime: int)
    requires ValidRoad(roads, d.motion)
    ensures var (d', g) := MovedDog(roads, d, deltaTime);
            var p, q := d.motion.position, d'.motion.position;
            && (g.Some? <==> Abs(p.x - q.x) > 0.0001 || Abs(p.y - q.y) > 0.0001)
            && (g.Some? ==> g.value == Gatherer(p, q, 0.6) && p != q && Moved(g.value, SWEEP_EPSILON))
            && d' == d.(motion := if d.direction == STOP then d.motion else Advance(roads, d.motion, deltaTime))
  {}

  // ---------------------------------------------------------------- runs of one dog

  datatype DogOp = Turn(dir: DogDirection, speed: real) | Move(deltaTime: int)

  function RunDog(roads: seq<Road>, d: DogView, ops: seq<DogOp>): (r: DogView)
    requires ValidRoad(roads, d.motion)
    ensures ValidRoad(roads, r.motion)
  {
    if ops == [] then d
    else
      var before := RunDog(roads, d, ops[..|ops| - 1]);
      match ops[|ops| - 1]
      case Turn(dir, speed) => Turned(before, dir, speed)
      case Move(dt) =>
        AdvanceEndsOnRoad(roads, before.motion, dt);
        MovedDog(roads, before, dt).0
  }

  /** The dog faces somewhere after the first k operations: from the start or by a turn. */
  predicate Faces(d: DogView, ops: seq<DogOp>, k: nat)
    requires k <= |ops|
  {
    d.direction != STOP || exists j :: 0 <= j < k && ops[j].Turn? && ops[j].dir != STOP
  }

  /** Over any run a dog is on its road exactly when it started there or has moved at least
      once while facing somewhere; its speed never leaves the axes. */
  lemma {:induction false} OnRoadOverRuns(roads: seq<Road>, d: DogView, ops: seq<DogOp>)
    requires ValidRoad(roads, d.motion) && AxisParallel(d.motion.speed)
    ensures var r := RunDog(roads, d, ops);
            && (r.direction != STOP <==> Faces(d, ops, |ops|))
            && AxisParallel(r.motion.speed)
            && (OnRoad(roads, r.motion) <==>
                OnRoad(roads, d.motion) || exists k :: 0 <= k < |ops| && ops[k].Move? && Faces(d, ops, k))
  {
    if ops != [] {
      var init, last := ops[..|ops| - 1], ops[|ops| - 1];
      OnRoadOverRuns(roads, d, init);
      forall k | 0 <= k < |ops| ensures Faces(d, ops, k) == Faces(d, init, k) {
        assert forall j :: 0 <= j < k ==> init[j] == ops[j];
      }
      assert (exists k :: 0 <= k < |ops| && ops[k].Move? && Faces(d, ops, k)) <==>
             (exists k :: 0 <= k < |init| && init[k].Move? && Faces(d, init, k)) ||
             (last.Move? && Faces(d, init, |init|)) by {
        assert forall k :: 0 <= k < |init| ==> init[k] == ops[k];
      }
      var before := RunDog(roads, d, init);
      if last.Move? {
        AdvanceEndsOnRoad(roads, before.motion, last.deltaTime);
      } else {
        TurnedTravels(before, last.dir, last.speed, 0);
      }
      assert Faces(d, ops, |ops|) <==> Faces(d, init, |init|) || (last.Turn? && last.dir != STOP) by {
        assert forall j :: 0 <= j < |init| ==> init[j] == ops[j];
      }
    }
  }

  /** A new dog is recorded as standing at the origin on road 0, facing north, with nothing. */
  lemma NewDogRecord(m: Map, defaultBagCapacity: int)
    ensures var d := FreshDog(CapacityOn(m, defaultBagCapacity));
            && StateOf(d) == DogState(Point(0.0, 0.0), "U", 0, 0, 0, 0, [])
            && d.motion.speed == DogSpeed(0.0, 0.0) && d.bag == [] && d.delivered == []
            && d.bagCapacity == if m.bagCapacity == 0 then defaultBagCapacity else m.bagCapacity
  {}

  /** A new dog is off its road wherever road 0 does not come within 0.4 of the origin. */
  lemma FreshDogOffRoad(bagCapacity: int)
    ensures var roads := [Road(Point(5.0, 5.0), Point(10.0, 5.0))];
            && GridRoads(roads) && ValidRoad(roads, FreshDog(bagCapacity).motion)
            && !OnRoad(roads, FreshDog(bagCapacity).motion)
  {}

  // ---------------------------------------------------------------- classes

  class Dog {
    const gameMap: Map
    const bagCapacity: int
    var adjacentRoads: seq<set<int>>
    var direction: DogDirection
    var position: Point
    var speed: DogSpeed
    var gatheredLoots: seq<LootInfo>
    ghost var delivered: seq<LootInfo>
    var idleTime: int
    var currentRoadIndex: int
    var score: int
    var playTime: int

    ghost predicate Valid()
      reads this
    {
      |adjacentRoads| == |gameMap.roads| &&
      forall i :: 0 <= i < |gameMap.roads| ==> adjacentRoads[i] == Adjacency(gameMap.roads, i)
    }

    ghost function View(): DogView
      reads this
    {
      DogView(direction, Motion(currentRoadIndex, position, speed), gatheredLoots, delivered,
              idleTime, playTime, score, bagCapacity)
    }

    constructor (gameMap: Map, defaultBagCapacity: int)
      ensures Valid() && this.gameMap == gameMap
      ensures View() == FreshDog(CapacityOn(gameMap, defaultBagCapacity))
      ensures direction == NORTH && position == Point(0.0, 0.0) && speed == DogSpeed(0.0, 0.0) && currentRoadIndex == 0
      ensures gatheredLoots == [] && score == idleTime == playTime == 0
      ensures bagCapacity == if gameMap.bagCapacity == 0 then defaultBagCapacity else gameMap.bagCapacity
    {
      this.gameMap := gameMap;
      direction := NORTH;
      position := Point(0.0, 0.0);
      speed := DogSpeed(0.0, 0.0);
      gatheredLoots, delivered := [], [];
      idleTime, currentRoadIndex, score, playTime := 0, 0, 0, 0;
      adjacentRoads := seq(|gameMap.roads|, _ => {});
      bagCapacity := if gameMap.bagCapacity != 0 then gameMap.bagCapacity else defaultBagCapacity;
      new;
      FindAdjacentRoads();
    }

    /** Every unordered pair is tested once, and both ends are entered. */
    method FindAdjacentRoads()
      requires |adjacentRoads| == |gameMap.roads|
      requires forall i :: 0 <= i < |adjacentRoads| ==> adjacentRoads[i] == {}
      modifies this`adjacentRoads
      ensures Valid()
    {
      var roads := gameMap.roads;
      var n := |roads|;
      for i := 0 to n
        invariant |adjacentRoads| == n
        invariant forall k :: 0 <= k < n ==>
                    adjacentRoads[k] == set j | j in Adjacency(roads, k) && (j < i || k < i)
      {
        for j := i + 1 to n
          invariant |adjacentRoads| == n
          invariant forall k :: 0 <= k < n ==>
                      adjacentRoads[k] == set l | l in Adjacency(roads, k) &&
                                          (l < i || k < i || (k == i && l < j) || (l == i && k < j))
        {
          if RoadsAdjacent(roads[i], roads[j]) || RoadsCrossed(roads[i], roads[j]) {
            adjacentRoads := adjacentRoads[i := adjacentRoads[i] + {j}];
            adjacentRoads := adjacentRoads[j := adjacentRoads[j] + {i}];
          }
        }
      }
    }

    method SetSpeed(dir: DogDirection, newSpeed: real)
      modifies this`direction, this`speed
      ensures View() == Turned(old(View()), dir, newSpeed)
      ensures direction == if dir == STOP then old(direction) else dir
      ensures speed == match dir
                       case EAST => DogSpeed(newSpeed, 0.0)
                       case WEST => DogSpeed(-newSpeed, 0.0)
                       case SOUTH => DogSpeed(0.0, newSpeed)
                       case NORTH => DogSpeed(0.0, -newSpeed)
                       case STOP => DogSpeed(0.0, 0.0)
    {
      if dir != STOP {
        direction := dir;
      }
      speed := SpeedFor(dir, newSpeed);
    }

    /** The adjacency set is searched in increasing order of road index. */
    method SearchPositionInsideAdjacentRoads(pos: Point) returns (r: Option<int>)
      requires Valid() && 0 <= currentRoadIndex < |gameMap.roads|
      ensures r == FirstAdjacent(gameMap.roads, currentRoadIndex, pos, 0)
    {
      r := None;
      for k := 0 to |gameMap.roads|
        invariant FirstAdjacent(gameMap.roads, currentRoadIndex, pos, 0)
               == FirstAdjacent(gameMap.roads, currentRoadIndex, pos, k)
      {
        if k in adjacentRoads[currentRoadIndex] && BoundRect(gameMap.roads[k]).PointInside(pos) {
          return Some(k);
        }
      }
    }

    method ChangePosition(deltaTime: int)
      requires Valid() && 0 <= currentRoadIndex < |gameMap.roads|
      modifies this`position, this`currentRoadIndex, this`speed
      ensures View() == old(View()).(motion := Advance(gameMap.roads, old(View()).motion, deltaTime))
    {
      var rect := BoundRect(gameMap.roads[currentRoadIndex]);
      var newPos := EvaluateNewPosition(Motion(currentRoadIndex, position, speed), deltaTime);
      if rect.PointInside(newPos) {
        position := newPos;
      } else {
        var adj := SearchPositionInsideAdjacentRoads(newPos);
        if adj.Some? {
          currentRoadIndex := adj.value;
          position := newPos;
        } else {
          position := CorrectDogPositionInsideRoad(newPos, rect);
          speed := DogSpeed(0.0, 0.0);
        }
      }
    }

    method Move(deltaTime: int) returns (gatherer: Option<Gatherer>)
      requires Valid() && 0 <= currentRoadIndex < |gameMap.roads|
      modifies this`position, this`currentRoadIndex, this`speed
      ensures (View(), gatherer) == MovedDog(gameMap.roads, old(View()), deltaTime)
      ensures gatherer.Some? <==> Abs(old(position).x - position.x) > 0.0001 || Abs(old(position).y - position.y) > 0.0001
      ensures gatherer.Some? ==> gatherer.value == Gatherer(old(position), position, 0.6)
    {
      if direction == STOP {
        return None;
      }
      var start := position;
      ChangePosition(deltaTime);
      var end := position;
      if Abs(start.x - end.x) > EPSILON || Abs(start.y - end.y) > EPSILON {
        return Some(Gatherer(start, end, GATHERER_WIDTH));
      }
      return None;
    }

    method AddLoot(loot: LootInfo) returns (taken: bool)
      modifies this`gatheredLoots
      ensures (View(), taken) == LootAdded(old(View()), loot)
      ensures 0 <= bagCapacity < 0x1_0000_0000_0000_0000 ==> (taken <==> |old(gatheredLoots)| < bagCapacity)
      ensures gatheredLoots == if taken then old(gatheredLoots) + [loot] else old(gatheredLoots)
    {
      if |gatheredLoots| >= AsSize(bagCapacity) {
        return false;
      }
      gatheredLoots := gatheredLoots + [loot];
      return true;
    }

    method PassLootToOffice()
      requires KindsKnown(gameMap, gatheredLoots)
      modifies this`score, this`gatheredLoots, this`delivered
      ensures View() == PassedToOffice(gameMap, old(View()))
      ensures score == old(score) + Worth(gameMap, old(gatheredLoots))
      ensures gatheredLoots == [] && delivered == old(delivered) + old(gatheredLoots)
    {
      for k := 0 to |gatheredLoots|
        invariant gatheredLoots == old(gatheredLoots) && delivered == old(delivered)
        invariant score == old(score) + ScoreOf(gameMap, gatheredLoots[..k])
      {
        score := score + gameMap.loots[gatheredLoots[k].kind].score;
        assert gatheredLoots[..k + 1][..k] == gatheredLoots[..k];
      }
      assert gatheredLoots[..|gatheredLoots|] == gatheredLoots;
      ScoreIsWorth(gameMap, gatheredLoots);
      delivered := delivered + gatheredLoots;
      gatheredLoots := [];
    }

    method GetState() returns (state: DogState)
      ensures state == StateOf(View())
      ensures state.pos == position && state.curRoad == currentRoadIndex && DirectionFromString(state.dir) == Some(direction)
      ensures state.score == score && state.idleTime == idleTime && state.playTime == playTime
      ensures |state.bag| == |gatheredLoots|
      ensures forall k :: 0 <= k < |state.bag| ==>
                state.bag[k].id == gatheredLoots[k].id && state.bag[k].kind == gatheredLoots[k].kind
    {
      var bag: seq<GatheredLootItem> := [];
      for k := 0 to |gatheredLoots|
        invariant |bag| == k
        invariant forall j :: 0 <= j < k ==> bag[j] == BagItem(gatheredLoots[j])
      {
        bag := bag + [GatheredLootItem(gatheredLoots[k].id, gatheredLoots[k].kind)];
      }
      assert bag == BagItems(gatheredLoots);
      DirectionRoundTrip(direction, "");
      state := DogState(position, StringFromDirection(direction), score, idleTime, playTime, currentRoadIndex, bag);
    }
  }

  datatype PlayerView = PlayerView(id: int, name: string, token: string, dog: DogView)

  class Player {
    var id: int
    var name: string
    var token: string
    const dog: Dog

    constructor (id: int, name: string, token: string, dog: Dog)
      ensures this.id == id && this.name == name && this.token == token && this.dog == dog
    {
      this.id, this.name, this.token, this.dog := id, name, token, dog;
    }

    ghost function View(): PlayerView
      reads this, dog
    {
      PlayerView(id, name, token, dog.View())
    }

    method GetState() returns (state: PlayerState)
      ensures state == PlayerStateOf(View())
    {
      var d := dog.GetState();
      state := PlayerState(id, name, token, d);
    }
  }

  function PlayerStateOf(p: PlayerView): PlayerState {
    PlayerState(p.id, p.name, p.token, StateOf(p.dog))
  }
}
