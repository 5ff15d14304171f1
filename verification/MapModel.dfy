/** Roads, their widened rectangles, and the network of roads a dog can change between. */
module MapModel {
  import opened DataTypes

  datatype RoadType = HORIZONTAL | VERTICAL

  datatype Road = Road(start: Point, end: Point) {
    predicate IsHorizontal() {
      start.y == end.y
    }

    predicate IsVertical() {
      start.x == end.x
    }

    predicate AxisAligned() {
      IsHorizontal() || IsVertical()
    }
  }

  /** A road is given by its start and one coordinate of its end. */
  function MakeRoad(roadType: RoadType, start: Point, end: real): (r: Road)
    ensures r.AxisAligned() && r.start == start
    ensures roadType.HORIZONTAL? ==> r.IsHorizontal() && r.end.x == end && r.end.y == start.y
    ensures roadType.VERTICAL? ==> r.IsVertical() && r.end.y == end && r.end.x == start.x
  {
    match roadType
    case HORIZONTAL => Road(start, Point(end, start.y))
    case VERTICAL => Road(start, Point(start.x, end))
  }

  datatype LootKind = LootKind(score: int)

  /** A map is complete once it has been loaded and never changes afterwards. */
  datatype Map = Map(id: string, roads: seq<Road>, offices: seq<Office>, loots: seq<LootKind>,
                     dogSpeed: real, bagCapacity: int)

  // Half of the width of a road.
  const DS: real := 0.4

  /** The rectangle a dog may stand in while it is on the road. */
  function BoundRect(road: Road): RoadBoundRect {
    RoadBoundRect(
      Point(Min(road.start.x, road.end.x) - DS, Min(road.start.y, road.end.y) - DS),
      Point(Max(road.start.x, road.end.x) + DS, Max(road.start.y, road.end.y) + DS))
  }

  /** A point of the segment between the two ends of the road. */
  predicate OnSegment(road: Road, q: Point) {
    && Min(road.start.x, road.end.x) <= q.x <= Max(road.start.x, road.end.x)
    && Min(road.start.y, road.end.y) <= q.y <= Max(road.start.y, road.end.y)
  }

  predicate Within(p: Point, q: Point, d: real) {
    Abs(p.x - q.x) <= d && Abs(p.y - q.y) <= d
  }

  /** The rectangle is the set of points at most 0.4 away, on each axis, from the segment. */
  lemma BoundRectIsWidenedSegment(road: Road, p: Point)
    ensures BoundRect(road).PointInside(p) <==> exists q :: OnSegment(road, q) && Within(p, q, 0.4)
  {
    var rect := BoundRect(road);
    if rect.PointInside(p) {
      var q := Point(
        Max(Min(road.start.x, road.end.x), Min(p.x, Max(road.start.x, road.end.x))),
        Max(Min(road.start.y, road.end.y), Min(p.y, Max(road.start.y, road.end.y))));
      assert OnSegment(road, q) && Within(p, q, 0.4);
    }
  }

  // ---------------------------------------------------------------- clamping

  function ClampToRect(p: Point, rect: RoadBoundRect): Point {
    Point(Clamp(p.x, rect.minPoint.x, rect.maxPoint.x), Clamp(p.y, rect.minPoint.y, rect.maxPoint.y))
  }

  predicate ProperRect(rect: RoadBoundRect) {
    rect.minPoint.x <= rect.maxPoint.x && rect.minPoint.y <= rect.maxPoint.y
  }

  method CorrectDogPositionInsideRoad(position: Point, rect: RoadBoundRect) returns (pos: Point)
    ensures pos == ClampToRect(position, rect)
  {
    pos := position;
    if pos.x < rect.minPoint.x {
      pos := pos.(x := rect.minPoint.x);
    }
    if pos.x > rect.maxPoint.x {
      pos := pos.(x := rect.maxPoint.x);
    }
    if pos.y < rect.minPoint.y {
      pos := pos.(y := rect.minPoint.y);
    }
    if pos.y > rect.maxPoint.y {
      pos := pos.(y := rect.maxPoint.y);
    }
  }

  /** Clamping gives the point of the rectangle nearest to p, on each axis separately. */
  lemma ClampIsNearest(p: Point, rect: RoadBoundRect, q: Point)
    requires ProperRect(rect)
    ensures rect.PointInside(ClampToRect(p, rect))
    ensures rect.PointInside(p) <==> ClampToRect(p, rect) == p
    ensures rect.PointInside(q) ==>
              && Abs(ClampToRect(p, rect).x - p.x) <= Abs(q.x - p.x)
              && Abs(ClampToRect(p, rect).y - p.y) <= Abs(q.y - p.y)
  {}

  // ---------------------------------------------------------------- which roads meet

  predicate Perpendicular(road1: Road, road2: Road) {
    (road1.IsHorizontal() && road2.IsVertical()) || (road1.IsVertical() && road2.IsHorizontal())
  }

  predicate RoadsCrossed(road1: Road, road2: Road) {
    if Perpendicular(road1, road2) then
      if road1.IsHorizontal() then
        !((road2.start.y < road1.start.y && road2.end.y < road1.start.y) ||
          (road2.start.y > road1.start.y && road2.end.y > road1.start.y))
      else
        !((road2.start.x < road1.start.x && road2.end.x < road1.start.x) ||
          (road2.start.x > road1.start.x && road2.end.x > road1.start.x))
    else false
  }

  predicate RoadsAdjacent(road1: Road, road2: Road) {
    && ((road1.IsHorizontal() && road2.IsHorizontal()) || (road1.IsVertical() && road2.IsVertical()))
    && (Near(road1.start, road2.start) || Near(road1.start, road2.end) ||
        Near(road1.end, road2.start) || Near(road1.end, road2.end))
  }

  /** The test of the double loop; it is made once per pair, lower index first. */
  predicate Linked(road1: Road, road2: Road) {
    RoadsAdjacent(road1, road2) || RoadsCrossed(road1, road2)
  }

  predicate IntegerPoint(p: Point) {
    p.x == p.x.Floor as real && p.y == p.y.Floor as real
  }

  /** Map files give road coordinates as integers. */
  predicate IntegerRoad(r: Road) {
    IntegerPoint(r.start) && IntegerPoint(r.end)
  }

  predicate RectsOverlap(a: RoadBoundRect, b: RoadBoundRect) {
    && a.minPoint.x <= b.maxPoint.x && b.minPoint.x <= a.maxPoint.x
    && a.minPoint.y <= b.maxPoint.y && b.minPoint.y <= a.maxPoint.y
  }

  lemma OverlapIsSharedPoint(a: RoadBoundRect, b: RoadBoundRect)
    requires ProperRect(a) && ProperRect(b)
    ensures RectsOverlap(a, b) <==> exists p :: a.PointInside(p) && b.PointInside(p)
  {
    if RectsOverlap(a, b) {
      var p := Point(Max(a.minPoint.x, b.minPoint.x), Max(a.minPoint.y, b.minPoint.y));
      assert a.PointInside(p) && b.PointInside(p);
    }
  }

  predicate SharesEnd(r1: Road, r2: Road) {
    r1.start == r2.start || r1.start == r2.end || r1.end == r2.start || r1.end == r2.end
  }

  /** Both roads run the same way and have a length, and they share no end. */
  predicate ParallelApart(r1: Road, r2: Road) {
    && !SharesEnd(r1, r2)
    && ((!r1.IsVertical() && !r2.IsVertical()) || (!r1.IsHorizontal() && !r2.IsHorizontal()))
  }

  /** On an integer grid a dog can stand on two roads at once exactly when the roads
      themselves share a point; that is when their rectangles overlap. */
  lemma OverlapOnGrid(r1: Road, r2: Road)
    requires r1.AxisAligned() && r2.AxisAligned() && IntegerRoad(r1) && IntegerRoad(r2)
    ensures (exists p :: BoundRect(r1).PointInside(p) && BoundRect(r2).PointInside(p)) <==>
            exists q :: OnSegment(r1, q) && OnSegment(r2, q)
    ensures RectsOverlap(BoundRect(r1), BoundRect(r2)) <==> exists q :: OnSegment(r1, q) && OnSegment(r2, q)
  {
    OverlapIsSharedPoint(BoundRect(r1), BoundRect(r2));
    if RectsOverlap(BoundRect(r1), BoundRect(r2)) {
      var q := Point(
        Max(Min(r1.start.x, r1.end.x), Min(r2.start.x, r2.end.x)),
        Max(Min(r1.start.y, r1.end.y), Min(r2.start.y, r2.end.y)));
      IntegerGap(Min(r1.start.x, r1.end.x), Max(r2.start.x, r2.end.x));
      IntegerGap(Min(r2.start.x, r2.end.x), Max(r1.start.x, r1.end.x));
      IntegerGap(Min(r1.start.y, r1.end.y), Max(r2.start.y, r2.end.y));
      IntegerGap(Min(r2.start.y, r2.end.y), Max(r1.start.y, r1.end.y));
      assert OnSegment(r1, q) && OnSegment(r2, q);
    }
  }

  lemma IntegerGap(a: real, b: real)
    requires a == a.Floor as real && b == b.Floor as real
    ensures a - DS <= b + DS ==> a <= b
  {
    if a - DS <= b + DS {
      assert a.Floor < b.Floor + 1;
    }
  }

  /** Of two roads whose rectangles overlap, the loop links exactly those that are not
      parallel without a common end; the order of the arguments does not matter. */
  lemma OverlappingRoadsLinked(r1: Road, r2: Road)
    requires r1.AxisAligned() && r2.AxisAligned() && IntegerRoad(r1) && IntegerRoad(r2)
    requires RectsOverlap(BoundRect(r1), BoundRect(r2))
    ensures Linked(r1, r2) <==> !ParallelApart(r1, r2)
    ensures Linked(r1, r2) <==> Linked(r2, r1)
  {
    OverlapOnGrid(r1, r2);
    var q :| OnSegment(r1, q) && OnSegment(r2, q);
    NearIntegerPoints(r1.start, r2.start);
    NearIntegerPoints(r1.start, r2.end);
    NearIntegerPoints(r1.end, r2.start);
    NearIntegerPoints(r1.end, r2.end);
  }

  /** Roads not at right angles are linked exactly when an end of one is within 0.00001 of an
      end of the other on both axes, on whatever coordinates. */
  lemma ParallelLinkedIff(r1: Road, r2: Road)
    requires r1.AxisAligned() && r2.AxisAligned() && !Perpendicular(r1, r2)
    ensures Linked(r1, r2) <==>
            exists p, q :: (p == r1.start || p == r1.end) && (q == r2.start || q == r2.end) && Within(p, q, 0.00001)
  {
    if Linked(r1, r2) {
      assert Within(r1.start, r2.start, 0.00001) || Within(r1.start, r2.end, 0.00001)
          || Within(r1.end, r2.start, 0.00001) || Within(r1.end, r2.end, 0.00001);
    }
  }

  /** q lies on the road or on its straight extension, however far. */
  predicate OnExtension(road: Road, q: Point) {
    if road.IsHorizontal() then q.y == road.start.y else q.x == road.start.x
  }

  ghost predicate CutByExtension(road1: Road, road2: Road) {
    Perpendicular(road1, road2) && exists q :: OnSegment(road2, q) && OnExtension(road1, q)
  }

  /** Of two roads that do not meet, the loop links exactly those at right angles where the
      extension of the first cuts the second. */
  lemma LinkedWithoutMeeting(r1: Road, r2: Road)
    requires r1.AxisAligned() && r2.AxisAligned() && IntegerRoad(r1) && IntegerRoad(r2)
    requires !RectsOverlap(BoundRect(r1), BoundRect(r2))
    ensures Linked(r1, r2) <==> CutByExtension(r1, r2)
  {
    NearIntegerPoints(r1.start, r2.start);
    NearIntegerPoints(r1.start, r2.end);
    NearIntegerPoints(r1.end, r2.start);
    NearIntegerPoints(r1.end, r2.end);
    assert !SharesEnd(r1, r2);
    if RoadsCrossed(r1, r2) {
      var q := if r1.IsHorizontal() then Point(r2.start.x, r1.start.y) else Point(r1.start.x, r2.start.y);
      assert OnExtension(r1, q);
      assert OnSegment(r2, q);
    }
  }

  lemma NearIntegerPoints(p: Point, q: Point)
    requires IntegerPoint(p) && IntegerPoint(q)
    ensures Near(p, q) <==> p == q
    ensures Near(q, p) <==> p == q
  {
    if Near(p, q) || Near(q, p) {
      assert p.x.Floor == q.x.Floor;
      assert p.y.Floor == q.y.Floor;
    }
  }

  // ---------------------------------------------------------------- the network

  predicate LinkedPair(roads: seq<Road>, i: int, j: int)
    requires 0 <= i < |roads| && 0 <= j < |roads|
  {
    i != j && (if i < j then Linked(roads[i], roads[j]) else Linked(roads[j], roads[i]))
  }

  /** The roads a dog on road i can change to. */
  function Adjacency(roads: seq<Road>, i: int): set<int>
    requires 0 <= i < |roads|
  {
    set j | 0 <= j < |roads| && LinkedPair(roads, i, j)
  }

  lemma AdjacencyIsSymmetric(roads: seq<Road>, i: int, j: int)
    requires 0 <= i < |roads| && 0 <= j < |roads|
    ensures j in Adjacency(roads, i) <==> i in Adjacency(roads, j)
    ensures i !in Adjacency(roads, i)
  {}

  predicate GridRoads(roads: seq<Road>) {
    forall i :: 0 <= i < |roads| ==> roads[i].AxisAligned() && IntegerRoad(roads[i])
  }

  predicate Overlapping(roads: seq<Road>, i: int, j: int)
    requires 0 <= i < |roads| && 0 <= j < |roads|
  {
    RectsOverlap(BoundRect(roads[i]), BoundRect(roads[j]))
  }

  /** Two collinear roads run into each other without meeting at an end of both. */
  predicate BuriedOverlap(roads: seq<Road>, i: int, j: int)
    requires 0 <= i < |roads| && 0 <= j < |roads|
  {
    i != j && Overlapping(roads, i, j) && ParallelApart(roads[i], roads[j])
  }

  /** On an integer grid, every overlapping road is adjacent in the network unless the
      overlap is buried. */
  lemma AdjacentUnlessBuried(roads: seq<Road>, i: int, j: int)
    requires GridRoads(roads) && 0 <= i < |roads| && 0 <= j < |roads| && i != j
    requires Overlapping(roads, i, j)
    ensures j in Adjacency(roads, i) <==> !BuriedOverlap(roads, i, j)
  {
    OverlappingRoadsLinked(roads[i], roads[j]);
    OverlappingRoadsLinked(roads[j], roads[i]);
  }

  /** Which grid maps have a complete network: exactly those without a buried overlap. */
  lemma NetworkComplete(roads: seq<Road>)
    requires GridRoads(roads)
    ensures (forall i, j :: 0 <= i < |roads| && 0 <= j < |roads| && i != j && Overlapping(roads, i, j) ==>
               j in Adjacency(roads, i))
       <==> (forall i, j :: 0 <= i < |roads| && 0 <= j < |roads| ==> !BuriedOverlap(roads, i, j))
  {
    forall i, j | 0 <= i < |roads| && 0 <= j < |roads| && i != j && Overlapping(roads, i, j)
      ensures j in Adjacency(roads, i) <==> !BuriedOverlap(roads, i, j)
    {
      AdjacentUnlessBuried(roads, i, j);
    }
  }

  /** The network also joins roads that never meet: on an integer grid, exactly those where
      the extension of the lower-numbered one cuts the other at a right angle. */
  lemma AdjacentAcrossGap(roads: seq<Road>, i: int, j: int)
    requires GridRoads(roads) && 0 <= i < |roads| && 0 <= j < |roads| && i != j
    requires !Overlapping(roads, i, j)
    ensures j in Adjacency(roads, i) <==>
            if i < j then CutByExtension(roads[i], roads[j]) else CutByExtension(roads[j], roads[i])
  {
    if i < j {
      LinkedWithoutMeeting(roads[i], roads[j]);
    } else {
      LinkedWithoutMeeting(roads[j], roads[i]);
    }
  }
}
