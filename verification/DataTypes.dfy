/** Plain values shared by every part of the game model. */
module DataTypes {

  datatype Option<+T> = None | Some(value: T)

  /** The index of the first element that satisfies p, or the length if none does. */
  function FindIf<T>(s: seq<T>, p: T -> bool): (k: nat)
    ensures k <= |s|
    ensures k < |s| ==> p(s[k])
    ensures forall j :: 0 <= j < k ==> !p(s[j])
  {
    if s == [] || p(s[0]) then 0 else 1 + FindIf(s[1..], p)
  }

  datatype Point = Point(x: real, y: real)

  datatype LootInfo = LootInfo(id: int, kind: int, x: real, y: real)

  datatype Office = Office(id: string, position: Point)

  datatype DogDirection = NORTH | SOUTH | WEST | EAST | STOP

  datatype DogSpeed = DogSpeed(vx: real, vy: real)

  datatype RoadBoundRect = RoadBoundRect(minPoint: Point, maxPoint: Point) {
    predicate PointInside(p: Point) {
      minPoint.x <= p.x <= maxPoint.x && minPoint.y <= p.y <= maxPoint.y
    }
  }

  // Snapshot records.
  datatype GatheredLootItem = GatheredLootItem(id: int, kind: int)

  datatype DogState = DogState(pos: Point, dir: string, score: int, idleTime: int,
                               playTime: int, curRoad: int, bag: seq<GatheredLootItem>)

  datatype PlayerState = PlayerState(id: int, name: string, token: string, dog: DogState)

  datatype SessionInfo = SessionInfo(mapId: string, players: seq<PlayerState>, loots: seq<LootInfo>)

  datatype PlayerRecordItem = PlayerRecordItem(name: string, score: int, playTime: int)

  // Tolerance of the point comparison.
  const DELTA: real := 0.00001

  function Abs(r: real): (a: real)
    ensures a >= 0.0 && (a == r || a == -r)
  {
    if r < 0.0 then -r else r
  }

  function Min(a: real, b: real): real {
    if a <= b then a else b
  }

  function Max(a: real, b: real): real {
    if a <= b then b else a
  }

  function Clamp(v: real, lo: real, hi: real): real {
    Min(Max(v, lo), hi)
  }

  /** Points compare equal when each coordinate differs by at most DELTA. */
  predicate Near(p: Point, q: Point) {
    Abs(p.x - q.x) <= DELTA && Abs(p.y - q.y) <= DELTA
  }

  function StringFromDirection(d: DogDirection): string {
    match d
    case NORTH => "U"
    case SOUTH => "D"
    case WEST => "L"
    case EAST => "R"
    case STOP => ""
  }

  /** None stands for the out-of-range exception of the table lookup. */
  function DirectionFromString(s: string): Option<DogDirection> {
    if s == "U" then Some(NORTH)
    else if s == "D" then Some(SOUTH)
    else if s == "L" then Some(WEST)
    else if s == "R" then Some(EAST)
    else if s == "" then Some(STOP)
    else None
  }

  /** The two tables are inverse to each other, on exactly the five known strings. */
  lemma DirectionRoundTrip(d: DogDirection, s: string)
    ensures DirectionFromString(StringFromDirection(d)) == Some(d)
    ensures DirectionFromString(s).Some? <==> s in {"U", "D", "L", "R", ""}
    ensures DirectionFromString(s).Some? ==> StringFromDirection(DirectionFromString(s).value) == s
  {
    assert "U"[0] == 'U' && "D"[0] == 'D' && "L"[0] == 'L' && "R"[0] == 'R';
  }
}
