/** Continuous sweep of a gatherer along a segment past point items. */
module CollisionDetector {
  import opened DataTypes

  datatype CollectionResult = CollectionResult(sqDistance: real, projRatio: real) {
    predicate IsCollected(collectRadius: real) {
      0.0 <= projRatio <= 1.0 && sqDistance <= collectRadius * collectRadius
    }
  }

  datatype ItemType = Loot | Office

  datatype Item = Item(id: int, position: Point, width: real, kind: ItemType)

  datatype Gatherer = Gatherer(startPos: Point, endPos: Point, width: real)

  datatype GatheringEvent = GatheringEvent(itemId: int, gathererId: int, sqDistance: real, time: real)

  // ---------------------------------------------------------------- plane vectors

  function Inner(ux: real, uy: real, vx: real, vy: real): real {
    ux * vx + uy * vy
  }

  function Dist2(p: Point, q: Point): real {
    Inner(q.x - p.x, q.y - p.y, q.x - p.x, q.y - p.y)
  }

  function Dot(a: Point, b: Point, c: Point): real {
    Inner(c.x - a.x, c.y - a.y, b.x - a.x, b.y - a.y)
  }

  lemma Dist2Positive(p: Point, q: Point)
    ensures Dist2(p, q) >= 0.0
    ensures p != q ==> Dist2(p, q) > 0.0
  {
    NormPositive(q.x - p.x, q.y - p.y);
  }

  lemma ProductPositive(x: real, y: real) returns (q: real)
    requires x > 0.0 && y > 0.0
    ensures q == x * y
    ensures q > 0.0
  {
    q := x * y;
  }

  lemma SquarePositive(x: real) returns (q: real)
    ensures q == x * x
    ensures q >= 0.0
    ensures x != 0.0 ==> q > 0.0
  {
    if x > 0.0 {
      q := ProductPositive(x, x);
    } else if x < 0.0 {
      q := ProductPositive(-x, -x);
    } else {
      q := 0.0;
    }
  }

  lemma NormPositive(x: real, y: real)
    ensures Inner(x, y, x, y) >= 0.0
    ensures x != 0.0 || y != 0.0 ==> Inner(x, y, x, y) > 0.0
  {
    var xx := SquarePositive(x);
    var yy := SquarePositive(y);
    assert Inner(x, y, x, y) == xx + yy;
  }

  /** Moves from a to b and tries to pick up the point c. */
  function TryCollectPoint(a: Point, b: Point, c: Point): CollectionResult
    requires a != b
  {
    var uDotV := Dot(a, b, c);
    var uLen2 := Dist2(a, c);
    var vLen2 := Dist2(a, b);
    Dist2Positive(a, b);
    CollectionResult(uLen2 - (uDotV * uDotV) / vLen2, uDotV / vLen2)
  }

  // ---------------------------------------------------------------- geometry

  /** The point reached after the fraction t of the way from a to b. */
  function Along(a: Point, b: Point, t: real): Point {
    Point(a.x + t * (b.x - a.x), a.y + t * (b.y - a.y))
  }

  lemma Divide(d: real, v: real, p: real)
    requires v > 0.0
    requires p * v == d
    ensures d / v == p && (d * d) / v == p * d
  {
    assert d * d == (p * d) * v;
  }

  /** Any p solving the normal equation is the projection ratio; no division is left. */
  lemma Projection(a: Point, b: Point, c: Point, p: real)
    requires a != b
    requires p * Dist2(a, b) == Dot(a, b, c)
    ensures TryCollectPoint(a, b, c) == CollectionResult(Dist2(a, c) - p * Dot(a, b, c), p)
  {
    Dist2Positive(a, b);
    Divide(Dot(a, b, c), Dist2(a, b), p);
  }

  /** The projection ratio itself solves the normal equation. */
  lemma NormalEquation(a: Point, b: Point, c: Point)
    requires a != b
    ensures TryCollectPoint(a, b, c).projRatio * Dist2(a, b) == Dot(a, b, c)
  {
    Dist2Positive(a, b);
  }

  lemma InnerAlong(ux: real, uy: real, vx: real, vy: real, t: real, wx: real, wy: real,
                   uv: real, vv: real)
    requires wx == ux - t * vx && wy == uy - t * vy
    requires uv == Inner(ux, uy, vx, vy) && vv == Inner(vx, vy, vx, vy)
    ensures Inner(wx, wy, wx, wy) == Inner(ux, uy, ux, uy) - 2.0 * (t * uv) + t * (t * vv)
    ensures Inner(wx, wy, vx, vy) == uv - t * vv
  {
    Square(ux, vx, t);
    Square(uy, vy, t);
    assert t * (t * vv) == t * (t * (vx * vx)) + t * (t * (vy * vy));
  }

  lemma Square(u: real, v: real, t: real)
    ensures (u - t * v) * (u - t * v) == u * u - 2.0 * (t * (u * v)) + t * (t * (v * v))
    ensures (u - t * v) * v == u * v - t * (v * v)
  {}

  /** Squared distance and slope at the parameter t of the line through a and b. */
  lemma AlongLine(a: Point, b: Point, c: Point, t: real)
    ensures Dist2(Along(a, b, t), c) == Dist2(a, c) - 2.0 * (t * Dot(a, b, c)) + t * (t * Dist2(a, b))
    ensures Slope(a, b, c, t) == Dot(a, b, c) - t * Dist2(a, b)
  {
    hide Inner;
    var ux, uy, vx, vy := c.x - a.x, c.y - a.y, b.x - a.x, b.y - a.y;
    var q := Along(a, b, t);
    InnerAlong(ux, uy, vx, vy, t, c.x - q.x, c.y - q.y, Dot(a, b, c), Dist2(a, b));
  }

  /** Zero exactly when the segment from the point at t to c is perpendicular to the line. */
  function Slope(a: Point, b: Point, c: Point, t: real): real {
    var q := Along(a, b, t);
    Inner(c.x - q.x, c.y - q.y, b.x - a.x, b.y - a.y)
  }

  predicate IsFoot(a: Point, b: Point, c: Point, t: real) {
    Slope(a, b, c, t) == 0.0
  }

  /** The projection ratio is the one and only parameter of the perpendicular foot. */
  lemma FootIsUnique(a: Point, b: Point, c: Point, t: real)
    requires a != b
    ensures IsFoot(a, b, c, t) <==> t == TryCollectPoint(a, b, c).projRatio
  {
    hide Inner, Dist2, Dot, Slope, Along, TryCollectPoint;
    AlongLine(a, b, c, t);
    NormalEquation(a, b, c);
    Dist2Positive(a, b);
    var p := TryCollectPoint(a, b, c).projRatio;
    assert (p - t) * Dist2(a, b) == Slope(a, b, c, t);
  }

  /** sqDistance is the squared distance from c to the foot, so it is never negative,
      and no point of the whole line is nearer to c. */
  lemma SqDistanceIsNearest(a: Point, b: Point, c: Point, t: real)
    requires a != b
    ensures var r := TryCollectPoint(a, b, c);
            r.sqDistance == Dist2(Along(a, b, r.projRatio), c) >= 0.0
    ensures TryCollectPoint(a, b, c).sqDistance <= Dist2(Along(a, b, t), c)
  {
    hide *;
    var p := TryCollectPoint(a, b, c).projRatio;
    var d, v := Dot(a, b, c), Dist2(a, b);
    NormalEquation(a, b, c);
    Projection(a, b, c, p);
    AlongLine(a, b, c, p);
    AlongLine(a, b, c, t);
    Dist2Positive(a, b);
    Dist2Positive(Along(a, b, p), c);
    CompleteSquare(p, t, v, d);
  }

  lemma CompleteSquare(p: real, t: real, v: real, d: real)
    requires v > 0.0 && p * v == d
    ensures p * (p * v) == p * d
    ensures -2.0 * (t * d) + t * (t * v) >= -(p * d)
  {
    var q := SquarePositive(p - t);
    assert q * v >= 0.0;
    assert q * v == p * (p * v) - 2.0 * (t * (p * v)) + t * (t * v);
  }

  /** An item is collected exactly when the foot of its perpendicular lies on the
      segment and within the radius of the item. */
  lemma CollectedIffFootOnSegment(a: Point, b: Point, c: Point, radius: real)
    requires a != b && radius >= 0.0
    ensures TryCollectPoint(a, b, c).IsCollected(radius) <==>
            exists t :: IsFoot(a, b, c, t) && 0.0 <= t <= 1.0 && Dist2(Along(a, b, t), c) <= radius * radius
  {
    var p := TryCollectPoint(a, b, c).projRatio;
    FootIsUnique(a, b, c, p);
    SqDistanceIsNearest(a, b, c, p);
    forall t | IsFoot(a, b, c, t) ensures t == p {
      FootIsUnique(a, b, c, t);
    }
  }

  lemma CutPoint(a: Point, b: Point, s: real)
    requires a != b && 0.0 < s < 1.0
    ensures var m := Along(a, b, s);
            && a != m && m != b
            && m.x - a.x == s * (b.x - a.x) && m.y - a.y == s * (b.y - a.y)
            && b.x - m.x == (1.0 - s) * (b.x - a.x) && b.y - m.y == (1.0 - s) * (b.y - a.y)
  {
    var vx, vy := b.x - a.x, b.y - a.y;
    ScaleNonZero(s, vx);
    ScaleNonZero(s, vy);
    ScaleNonZero(1.0 - s, vx);
    ScaleNonZero(1.0 - s, vy);
    var m := Along(a, b, s);
    assert m.x - a.x == s * vx && m.y - a.y == s * vy;
    assert b.x - m.x == (1.0 - s) * vx && b.y - m.y == (1.0 - s) * vy;
  }

  lemma ScaleNonZero(s: real, x: real)
    requires s > 0.0
    ensures x != 0.0 ==> s * x != 0.0
  {}

  /** TryCollectPoint in terms of the three numbers it is computed from. */
  lemma FromNumbers(a: Point, b: Point, c: Point, d: real, v: real, p: real, x: real)
    requires a != b
    requires Dot(a, b, c) == d && Dist2(a, b) == v && p * v == d && p * d == x
    ensures TryCollectPoint(a, b, c) == CollectionResult(Dist2(a, c) - x, p)
  {
    Projection(a, b, c, p);
  }

  /** The first half of a sweep cut at s sees the same line as the whole sweep. */
  lemma FirstHalf(a: Point, b: Point, c: Point, s: real)
    requires a != b && 0.0 < s < 1.0
    ensures var m, r := Along(a, b, s), TryCollectPoint(a, b, c);
            a != m && TryCollectPoint(a, m, c) == CollectionResult(r.sqDistance, r.projRatio / s)
  {
    hide *;
    var m, p := Along(a, b, s), TryCollectPoint(a, b, c).projRatio;
    CutPoint(a, b, s);
    NormalEquation(a, b, c);
    var d, v := FirstHalfNumbers(a, b, c, s);
    var q, x := Shrink(p, s, v, d);
    FromNumbers(a, b, c, d, v, p, x);
    FromNumbers(a, m, c, s * d, s * (s * v), q, x);
  }

  lemma FirstHalfNumbers(a: Point, b: Point, c: Point, s: real) returns (d: real, v: real)
    requires a != b && 0.0 < s < 1.0
    ensures d == Dot(a, b, c) && v == Dist2(a, b)
    ensures var m := Along(a, b, s); Dot(a, m, c) == s * d && Dist2(a, m) == s * (s * v)
  {
    hide Inner, Along;
    d, v := Dot(a, b, c), Dist2(a, b);
    CutPoint(a, b, s);
    var m := Along(a, b, s);
    Scaled(c.x - a.x, c.y - a.y, b.x - a.x, b.y - a.y, s, m.x - a.x, m.y - a.y);
  }

  /** So does the second half. */
  lemma SecondHalf(a: Point, b: Point, c: Point, s: real)
    requires a != b && 0.0 < s < 1.0
    ensures var m, r := Along(a, b, s), TryCollectPoint(a, b, c);
            m != b && TryCollectPoint(m, b, c) == CollectionResult(r.sqDistance, (r.projRatio - s) / (1.0 - s))
  {
    hide *;
    var m, w, p := Along(a, b, s), 1.0 - s, TryCollectPoint(a, b, c).projRatio;
    CutPoint(a, b, s);
    NormalEquation(a, b, c);
    var d, v, d2, len := SecondHalfNumbers(a, b, c, s);
    var e, x, y := Remainder(p, s, v, d, d2, Dist2(a, c), len);
    var q, x' := Shrink(e, w, v, d2);
    FromNumbers(a, b, c, d, v, p, y);
    FromNumbers(m, b, c, w * d2, w * (w * v), q, x');
  }

  lemma SecondHalfNumbers(a: Point, b: Point, c: Point, s: real)
    returns (d: real, v: real, d2: real, len: real)
    requires a != b && 0.0 < s < 1.0
    ensures d == Dot(a, b, c) && v == Dist2(a, b) && d2 == d - s * v
    ensures len == Dist2(Along(a, b, s), c) == Dist2(a, c) - 2.0 * (s * d) + s * (s * v)
    ensures var m, w := Along(a, b, s), 1.0 - s; Dot(m, b, c) == w * d2 && Dist2(m, b) == w * (w * v)
  {
    var m, w := Along(a, b, s), 1.0 - s;
    hide Inner, Along;
    d, v, d2 := Dot(a, b, c), Dist2(a, b), Slope(a, b, c, s);
    len := Dist2(m, c);
    AlongLine(a, b, c, s);
    CutPoint(a, b, s);
    Scaled(c.x - m.x, c.y - m.y, b.x - a.x, b.y - a.y, w, b.x - m.x, b.y - m.y);
  }

  lemma Shrink(p: real, s: real, v: real, d: real) returns (q: real, x: real)
    requires s > 0.0 && p * v == d
    ensures q == p / s && x == p * d
    ensures q * (s * (s * v)) == s * d
    ensures q * (s * d) == x
  {
    q, x := p / s, p * d;
    assert q * s == p;
    assert q * (s * (s * v)) == s * ((q * s) * v);
    assert q * (s * d) == (q * s) * d;
  }

  lemma Scaled(ux: real, uy: real, vx: real, vy: real, s: real, wx: real, wy: real)
    requires wx == s * vx && wy == s * vy
    ensures Inner(ux, uy, wx, wy) == s * Inner(ux, uy, vx, vy)
    ensures Inner(wx, wy, wx, wy) == s * (s * Inner(vx, vy, vx, vy))
  {}

  /** What is left of the projection ratio and of the distance after the fraction s, as plain numbers. */
  lemma Remainder(p: real, s: real, v: real, d: real, d2: real, whole: real, left: real)
    returns (e: real, x: real, y: real)
    requires p * v == d && d2 == d - s * v
    requires left == whole - 2.0 * (s * d) + s * (s * v)
    ensures e == p - s && e * v == d2
    ensures x == e * d2 && y == p * d
    ensures left - x == whole - y
  {
    e, y := p - s, p * d;
    x := e * d2;
    assert x == y - p * (s * v) - s * d + s * (s * v);
    assert p * (s * v) == s * (p * v);
  }

  /** Cutting a sweep in two neither loses nor adds an item. */
  lemma SplitSweepCollectsSame(a: Point, b: Point, c: Point, s: real, radius: real)
    requires a != b && 0.0 < s < 1.0
    ensures var m := Along(a, b, s);
            && a != m && m != b
            && (TryCollectPoint(a, b, c).IsCollected(radius) <==>
                TryCollectPoint(a, m, c).IsCollected(radius) || TryCollectPoint(m, b, c).IsCollected(radius))
  {
    FirstHalf(a, b, c, s);
    SecondHalf(a, b, c, s);
    Rescale(TryCollectPoint(a, b, c).projRatio, s);
  }

  lemma Rescale(p: real, s: real)
    requires 0.0 < s < 1.0
    ensures 0.0 <= p / s <= 1.0 <==> 0.0 <= p <= s
    ensures 0.0 <= (p - s) / (1.0 - s) <= 1.0 <==> s <= p <= 1.0
    ensures s * (p / s) == p && s + (1.0 - s) * ((p - s) / (1.0 - s)) == p
  {
    DivideBounds(p, s);
    DivideBounds(p - s, 1.0 - s);
  }

  lemma DivideBounds(x: real, s: real)
    requires s > 0.0
    ensures s * (x / s) == x
    ensures 0.0 <= x / s <= 1.0 <==> 0.0 <= x <= s
  {
    var q := x / s;
    assert s * q == x;
    assert q < 0.0 ==> s * q < 0.0;
    assert q > 1.0 ==> s * q > s;
    assert 0.0 <= q ==> 0.0 <= s * q;
    assert q <= 1.0 ==> s * q <= s;
  }

  /** Times of the halves, mapped back to the whole sweep: every item of the first half
      comes no later than every item of the second half, and mapping back recovers
      the time of the uncut sweep. */
  lemma SplitSweepKeepsOrder(a: Point, b: Point, c1: Point, c2: Point, s: real, radius: real)
    requires a != b && 0.0 < s < 1.0
    requires a != Along(a, b, s) && Along(a, b, s) != b
    requires TryCollectPoint(a, Along(a, b, s), c1).IsCollected(radius)
    requires TryCollectPoint(Along(a, b, s), b, c2).IsCollected(radius)
    ensures var t1 := TryCollectPoint(a, Along(a, b, s), c1).projRatio;
            var t2 := TryCollectPoint(Along(a, b, s), b, c2).projRatio;
            && s * t1 == TryCollectPoint(a, b, c1).projRatio
            && s + (1.0 - s) * t2 == TryCollectPoint(a, b, c2).projRatio
            && s * t1 <= s <= s + (1.0 - s) * t2
  {
    hide TryCollectPoint, Along;
    FirstHalf(a, b, c1, s);
    SecondHalf(a, b, c2, s);
    Rescale(TryCollectPoint(a, b, c1).projRatio, s);
    Rescale(TryCollectPoint(a, b, c2).projRatio, s);
  }

  // ---------------------------------------------------------------- gather events

  // Smallest displacement on an axis for which a gatherer is swept at all.
  const SWEEP_EPSILON: real := 0.0000000001

  predicate Moved(g: Gatherer, eps: real) {
    Abs(g.startPos.x - g.endPos.x) > eps || Abs(g.startPos.y - g.endPos.y) > eps
  }

  /** The event of gatherer g reaching the item, if it collects it. */
  predicate IsEventOf(g: Gatherer, item: Item, e: GatheringEvent) {
    && Moved(g, SWEEP_EPSILON)
    && var r := TryCollectPoint(g.startPos, g.endPos, item.position);
    && r.IsCollected(g.width + item.width)
    && e.sqDistance == r.sqDistance
    && e.time == r.projRatio
  }

  predicate IsGatherEvent(items: seq<Item>, gatherers: seq<Gatherer>, e: GatheringEvent) {
    && 0 <= e.gathererId < |gatherers|
    && 0 <= e.itemId < |items|
    && IsEventOf(gatherers[e.gathererId], items[e.itemId], e)
  }

  ghost predicate SortedByTime(events: seq<GatheringEvent>) {
    forall i, j :: 0 <= i < j < |events| ==> events[i].time <= events[j].time
  }

  /** Events of the pairs visited before (gatherer i, item j) in the double loop. */
  ghost predicate VisitedEvent(items: seq<Item>, gatherers: seq<Gatherer>, i: int, j: int, e: GatheringEvent) {
    IsGatherEvent(items, gatherers, e) && (e.gathererId < i || (e.gathererId == i && e.itemId < j))
  }

  /** Exactly one event per pair that collects, in nondecreasing time order.
      The order of simultaneous events is left open, as it is by the library sort. */
  method FindGatherEvents(items: seq<Item>, gatherers: seq<Gatherer>) returns (events: seq<GatheringEvent>)
    ensures SortedByTime(events)
    ensures forall e :: multiset(events)[e] == if IsGatherEvent(items, gatherers, e) then 1 else 0
  {
    events := [];
    for i := 0 to |gatherers|
      invariant forall e :: multiset(events)[e] == if VisitedEvent(items, gatherers, i, 0, e) then 1 else 0
    {
      var gath := gatherers[i];
      if Abs(gath.startPos.x - gath.endPos.x) <= SWEEP_EPSILON && Abs(gath.startPos.y - gath.endPos.y) <= SWEEP_EPSILON {
        continue;
      }
      for j := 0 to |items|
        invariant forall e :: multiset(events)[e] == if VisitedEvent(items, gatherers, i, j, e) then 1 else 0
      {
        var item := items[j];
        var result := TryCollectPoint(gath.startPos, gath.endPos, item.position);
        if result.IsCollected(gath.width + item.width) {
          var evt := GatheringEvent(j, i, result.sqDistance, result.projRatio);
          events := events + [evt];
        }
      }
    }
    events := SortByTime(events);
  }

  method SortByTime(events: seq<GatheringEvent>) returns (sorted: seq<GatheringEvent>)
    ensures SortedByTime(sorted)
    ensures multiset(sorted) == multiset(events)
  {
    sorted := [];
    for i := 0 to |events|
      invariant SortedByTime(sorted)
      invariant multiset(sorted) == multiset(events[..i])
    {
      assert events[..i + 1] == events[..i] + [events[i]];
      sorted := Insert(sorted, events[i]);
    }
    assert events[..|events|] == events;
  }

  method Insert(sorted: seq<GatheringEvent>, e: GatheringEvent) returns (r: seq<GatheringEvent>)
    requires SortedByTime(sorted)
    ensures SortedByTime(r)
    ensures multiset(r) == multiset(sorted) + multiset{e}
  {
    hide InsertAt;
    var k := |sorted|;
    while k > 0 && sorted[k - 1].time > e.time
      invariant 0 <= k <= |sorted|
      invariant k < |sorted| ==> sorted[k].time > e.time
    {
      k := k - 1;
    }
    r := InsertAt(sorted, k, e);
    InsertAtSorted(sorted, k, e);
    InsertAtCounts(sorted, k, e);
  }

  function InsertAt(s: seq<GatheringEvent>, k: nat, e: GatheringEvent): seq<GatheringEvent>
    requires k <= |s|
  {
    s[..k] + [e] + s[k..]
  }

  lemma InsertAtCounts(s: seq<GatheringEvent>, k: nat, e: GatheringEvent)
    requires k <= |s|
    ensures multiset(InsertAt(s, k, e)) == multiset(s) + multiset{e}
  {
    assert s == s[..k] + s[k..];
  }

  lemma InsertAtSorted(s: seq<GatheringEvent>, k: nat, e: GatheringEvent)
    requires SortedByTime(s) && k <= |s|
    requires k > 0 ==> s[k - 1].time <= e.time
    requires k < |s| ==> e.time <= s[k].time
    ensures SortedByTime(InsertAt(s, k, e))
  {
    var r := InsertAt(s, k, e);
    forall i, j | 0 <= i < j < |r| ensures r[i].time <= r[j].time {
      if i < k {
        assert r[i] == s[i];
        assert i < k - 1 ==> s[i].time <= s[k - 1].time;
      } else if i > k {
        assert r[i] == s[i - 1];
      }
      if j < k {
        assert r[j] == s[j];
      } else if j > k {
        assert r[j] == s[j - 1];
        assert k < j - 1 ==> s[k].time <= s[j - 1].time;
      }
    }
  }

  // ---------------------------------------------------------------- one gatherer

  predicate Collects(g: Gatherer, item: Item) {
    Moved(g, SWEEP_EPSILON) &&
    TryCollectPoint(g.startPos, g.endPos, item.position).IsCollected(g.width + item.width)
  }

  function TimeOf(g: Gatherer, item: Item): real
    requires Collects(g, item)
  {
    TryCollectPoint(g.startPos, g.endPos, item.position).projRatio
  }

  ghost predicate OnlyCollected(items: seq<Item>, g: Gatherer, order: seq<int>) {
    forall k :: 0 <= k < |order| ==> 0 <= order[k] < |items| && Collects(g, items[order[k]])
  }

  ghost predicate AllCollected(items: seq<Item>, g: Gatherer, order: seq<int>) {
    forall j :: 0 <= j < |items| && Collects(g, items[j]) ==> j in order
  }

  ghost predicate InTimeOrder(items: seq<Item>, g: Gatherer, order: seq<int>)
    requires OnlyCollected(items, g, order)
  {
    forall k, l :: 0 <= k < l < |order| ==>
      order[k] != order[l] && TimeOf(g, items[order[k]]) <= TimeOf(g, items[order[l]])
  }

  /** The indices of exactly the collected items, each once, by time of contact. */
  ghost predicate IsGatherOrder(items: seq<Item>, g: Gatherer, order: seq<int>) {
    OnlyCollected(items, g, order) && AllCollected(items, g, order) && InTimeOrder(items, g, order)
  }

  lemma TwiceInMultiset<T>(s: seq<T>, k: int, l: int)
    requires 0 <= k < l < |s| && s[k] == s[l]
    ensures multiset(s)[s[k]] >= 2
  {
    assert s == s[..k] + [s[k]] + s[k + 1..l] + [s[l]] + s[l + 1..];
  }

  lemma EventOfEach(items: seq<Item>, gatherers: seq<Gatherer>, events: seq<GatheringEvent>, k: nat)
    requires forall e :: multiset(events)[e] == if IsGatherEvent(items, gatherers, e) then 1 else 0
    requires k < |events|
    ensures IsGatherEvent(items, gatherers, events[k])
    ensures forall l :: k < l < |events| ==> events[l] != events[k]
  {
    hide IsGatherEvent;
    assert events[k] in multiset(events);
    forall l | k < l < |events| ensures events[l] != events[k] {
      if events[l] == events[k] {
        TwiceInMultiset(events, k, l);
      }
    }
  }

  lemma EventOfCollected(items: seq<Item>, g: Gatherer, events: seq<GatheringEvent>, j: nat)
    returns (k: nat)
    requires forall e :: multiset(events)[e] == if IsGatherEvent(items, [g], e) then 1 else 0
    requires j < |items| && Collects(g, items[j])
    ensures k < |events| && events[k].itemId == j
  {
    var r := TryCollectPoint(g.startPos, g.endPos, items[j].position);
    var e := GatheringEvent(j, 0, r.sqDistance, r.projRatio);
    assert IsGatherEvent(items, [g], e);
    assert e in multiset(events);
    k :| 0 <= k < |events| && events[k] == e;
  }

  /** With a single gatherer, the item indices of the events form a gather order. */
  lemma EventsGiveOrder(items: seq<Item>, g: Gatherer, events: seq<GatheringEvent>)
    requires SortedByTime(events)
    requires forall e :: multiset(events)[e] == if IsGatherEvent(items, [g], e) then 1 else 0
    ensures IsGatherOrder(items, g, seq(|events|, k requires 0 <= k < |events| => events[k].itemId))
  {
    hide TryCollectPoint, CollectionResult.IsCollected, Moved;
    var order := seq(|events|, k requires 0 <= k < |events| => events[k].itemId);
    forall k | 0 <= k < |events|
      ensures IsGatherEvent(items, [g], events[k])
      ensures forall l :: k < l < |events| ==> events[l] != events[k]
    {
      EventOfEach(items, [g], events, k);
    }
    forall k, l | 0 <= k < l < |order| ensures order[k] != order[l] {
      assert events[l] != events[k];
    }
    forall j | 0 <= j < |items| && Collects(g, items[j]) ensures j in order {
      var k := EventOfCollected(items, g, events, j);
      assert order[k] == j;
    }
  }
}
