# Dog game server: a verified model

The server simulates dogs that run along roads, pick up lost things and carry them to
offices, while players join and leave over HTTP; a pool hands out data base connections to
the threads that need them. This project models four parts of it and proves what they
keep over every run.

* **The connection pool** (`ConnectionPool.dfy`). The slot buffer is a class over an array.
  The protocol around it is a state machine whose steps are those of any number of threads:
  arriving, waiting, waking for a reason or for none, overtaking a waiter, returning a
  connection under the mutex, notifying after the mutex is released, moving a wrapper.
* **Movement** (`MapModel.dfy`, `Dog.dfy`). Roads, their rectangles widened by 0.4, the
  network of adjacent roads, and one position update: accept, change road, or clamp and stop.
* **Collecting and scoring** (`CollisionDetector.dfy`, `LootGenerator.dfy`,
  `SessionModel.dfy`, `GameSession.dfy`, `GreedyBag.dfy`, `SplitTicks.dfy`, `JointTicks.dfy`,
  `CornerTicks.dfy`, `SessionRuns.dfy`, `ScoreRuns.dfy`, `Harvest.dfy`). The swept-point test, the
  sorted events, the loop that fills the bag, ticks cut in two, every run of a session, and what a
  dog takes and delivers on its way in plain distances.
* **The whole game** (`GameModel.dfy`, `Game.dfy`, `GameProofs.dfy`, `GameRuns.dfy`,
  `RestoredRuns.dfy`, `RetirementProofs.dfy`, `Ticker.dfy`). Joining and tokens, snapshots and restoring, runs from a
  restored snapshot, retirement, tick accounting.

An object that the server updates in place is a class here. Each of its methods is proved
equal to a function on the value of the object (`View()`), with the failures of the original
among the results; the theorems are about those functions and about runs of them. Two ghost
histories are added to the state: `delivered` (what a dog passed to offices) and `spawned`
(what a session ever generated). Coordinates, speeds and probabilities are real numbers.

Where the code does not do what its documentation or its form suggests, the model follows
the code, and the theorems say exactly when the expected property holds:

* A round of moves **ends** at the first dog that yields no gatherer. A dog gets its turn if
  and only if every dog before it would go somewhere (`RoundReachesIff`, `RoundOutcome`); one
  dog at rest keeps a driving dog from moving (`DrivingDogLeftBehind`).
* Overwriting a live wrapper by move assignment loses its connection for good; without such
  a step no run loses any (`RunInv`, `UsedCountsWrappers`; `OverwriteLosesConnection`). A waiting
  thread can still be served if and only if not all connections are lost (`WaiterCanBeServedIff`).
* The crossing test looks at one axis only. The network is nevertheless complete on integer
  maps, except where parallel roads run into each other without a common end
  (`NetworkComplete`; `BuriedOverlapClamps`). It also joins roads that never meet, exactly
  those cut by the extension of a lower-numbered road at a right angle (`AdjacentAcrossGap`,
  `LeapsIff`), so that a dog can cross ground that belongs to no road (`LeapOverGap`).
* A tick cut in two moves the dog as the whole tick does if and only if the targets of both
  lie on roads it would take in either case (`TwoTicksIff`; `CutStopsDog`). Where it does, the
  cut does not show in bag, score and floor unless a loot and an office are both touched at the
  joint (`SplitTickSameOutcome`, `CutHiddenIff`; `TouchedAtJoint`, `TwoOfficesHideCut`).
* Restoring starts the loot counter at zero, because the size of the loot list is read after
  the list was moved away, and the player counter at the number of players restored. Over any
  run from there numbers stay unique if and only if no recorded one is in the range issued since (`RestoredLootNumbers`,
  `RestoredPlayerNumbers`; `LootNumberIssuedTwice`, `PlayerIdIssuedTwice`).
* Restoring gives the snapshot back if and only if no session has two players of one name,
  since joining merges them (`SnapshotRoundTrip`; `SharedNameIsMerged`).
* Retirement looks for every expired player in the first session only, and throws when one
  is elsewhere, after all have been recorded (`RetirementPartition`; `ExpiredElsewhere`).
* A new dog starts at (0, 0) on road 0 wherever that road is. A dog is on its road if and only
  if it started there or has moved while facing somewhere (`OnRoadOverRuns`; `FreshDogOffRoad`).

## Model

| member | source | states |
|---|---|---|
| DataTypes.DirectionRoundTrip | src/core/DataTypes.cpp:6-28 | the two direction tables are inverse to each other, and the string table knows exactly U, D, L, R and the empty string |
| DataTypes.FindIf | src/core/GameSession.cpp:38-43 | the search behind every lookup by name, token, number or map: the first element that fits, or none only if none does |
| ConnectionPool.TakePut | src/db/connection_engine.h:59-81 | taking then putting back, and putting back then taking, restore slots, counter and connection |
| ConnectionPool.Pool.constructor | src/db/connection_engine.h:52-57 | one slot per connection made, in order, all free |
| ConnectionPool.Pool.TakeConnection | src/db/connection_engine.h:66-68 | hands out the connection in the first full slot and empties that slot, so that the empty slots stay in front |
| ConnectionPool.Pool.ReturnConnection | src/db/connection_engine.h:72-78 | refills the last empty slot with the connection and nothing else |
| ConnectionPool.StartInv | src/db/connection_engine.h:52-57 | a new pool with nobody waiting satisfies the invariant: connections conserved, thread sets apart, no wake-up lost |
| ConnectionPool.ReturnFindsUsed | src/db/connection_engine.h:76-76 | as long as connections are conserved, returning a live wrapper finds the used count above zero |
| ConnectionPool.StepConserves | src/db/connection_engine.h:28-81 | every step of any thread keeps each connection's number of places (slots, live wrappers, lost); only overwriting a live wrapper adds to the lost ones |
| ConnectionPool.MoveHandsOver | src/db/connection_engine.h:27-28 | moving a wrapper hands its connection to the target, which is all the target then has, and leaves it with none; moving it onto itself changes nothing |
| ConnectionPool.StepKeepsThreadsApart | src/db/connection_engine.h:59-81 | no thread is in two of the states waiting, notified, spuriously awake, about to notify |
| ConnectionPool.StepKeepsWakeups | src/db/connection_engine.h:59-81 | every step keeps the bound: while a thread waits un-notified, free connections are at most the delivered plus the pending notifications |
| ConnectionPool.StepKeepsWaiting | src/db/connection_engine.h:59-69 | a thread begins to wait only by finding nothing free, stops only by waking to a free connection and leaving with the first one in a new wrapper, and sleeps again, with nothing changed, when it wakes to none |
| ConnectionPool.StepKeepsNotifications | src/db/connection_engine.h:71-81 | a notification is owed exactly from the return of a connection until that thread sends it, and counts as delivered exactly from then until the waiter it went to tests again; with a waiter there it goes to one |
| ConnectionPool.RunInv | src/db/connection_engine.h:28-81 | the invariant holds in every state of every run, and nothing has been lost if and only if no step overwrote a live wrapper |
| ConnectionPool.GuardsAlwaysHold | src/db/connection_engine.h:72-78 | in every reachable state the assertion on the used count holds whenever a wrapper is returned, and every enabled step can be taken |
| ConnectionPool.NoWakeupIsLost | src/db/connection_engine.h:59-81 | in every reachable state with a waiting thread, a free connection implies a notification delivered and not yet acted on, or one still to be sent |
| ConnectionPool.NobodyIsHeldUp | src/db/connection_engine.h:39-81 | in every reachable state every thread can go on: it is served on arrival exactly when something is free, also past waiters, tests again after any wake-up, returns any wrapper, sends its notification |
| ConnectionPool.WaitsUntilServed | src/db/connection_engine.h:59-69 | over every run a thread that began to wait still waits, or woke at some step to a free connection and left with it: the call never returns without one |
| ConnectionPool.OvertakenSleepsAgain | src/db/connection_engine.h:62-64 | a run of six steps: a notified thread is overtaken by an arriving one and sleeps again |
| ConnectionPool.WaiterCanBeServedIff | src/db/connection_engine.h:59-81 | from every reachable state a waiting thread can be served by some further steps, none of them a spurious wake-up, if and only if not every connection has been lost |
| ConnectionPool.ExclusiveOwnership | src/db/connection_engine.h:39-81 | over every run a connection made once is in exactly one place: never with two wrappers, never both in a slot and with a wrapper |
| ConnectionPool.UsedCountsWrappers | src/db/connection_engine.h:39-81 | over every run the slots below the used count are empty and the rest full, and live wrappers number exactly the used count if and only if none was overwritten |
| ConnectionPool.NobodyIsStranded | src/db/connection_engine.h:59-81 | when all wrappers are gone and all notifications acted on, a thread can still wait only if every connection was lost |
| ConnectionPool.OverwriteLosesConnection | src/db/connection_engine.h:28-28 | a run of three steps: two connections taken, one wrapper assigned to the other, and the second connection is lost |
| MapModel.MakeRoad | src/core/MapModel.cpp:5-20 | every constructed road is parallel to an axis and runs from its start to the given end coordinate |
| MapModel.BoundRectIsWidenedSegment | src/core/Dog.cpp:108-121 | the rectangle of a road is the set of points at most 0.4 away, on each axis, from the segment between its ends |
| MapModel.CorrectDogPositionInsideRoad | src/core/MapModel.cpp:30-46 | the step-by-step correction equals clamping each coordinate |
| MapModel.ClampIsNearest | src/core/MapModel.cpp:30-46 | the corrected position is inside, is the nearest inside point on each axis, and differs from the position exactly when that was outside |
| MapModel.OverlapIsSharedPoint | src/core/DataTypes.h:145-152 | two rectangles overlap if and only if some position is inside both |
| MapModel.OverlapOnGrid | src/core/Dog.cpp:108-121 | on integer coordinates a dog can stand on two roads at once if and only if the roads themselves share a point |
| MapModel.OverlappingRoadsLinked | src/core/MapModel.cpp:48-89 | of two integer roads with overlapping rectangles, the tests of the double loop link exactly those that are not parallel without a common end, whichever comes first |
| MapModel.ParallelLinkedIff | src/core/MapModel.cpp:74-89 | on any coordinates, roads not at right angles are linked exactly when an end of one is within 0.00001 of an end of the other on both axes |
| MapModel.AdjacencyIsSymmetric | src/core/Dog.cpp:60-79 | adjacency is symmetric, although the tests are not, and no road is adjacent to itself |
| MapModel.AdjacentUnlessBuried | src/core/Dog.cpp:60-79 | on integer maps an overlapping road is adjacent if and only if the overlap is not one of parallel roads without a common end |
| MapModel.NetworkComplete | src/core/Dog.cpp:60-79 | all overlapping roads of an integer map are adjacent if and only if the map has no such overlap of parallel roads |
| MapModel.LinkedWithoutMeeting | src/core/MapModel.cpp:48-89 | of two integer roads that do not meet, the tests link exactly those at right angles where the extension of the first cuts the second |
| MapModel.AdjacentAcrossGap | src/core/Dog.cpp:60-79 | two integer roads that do not meet are adjacent if and only if the extension of the lower-numbered one cuts the other at a right angle |
| Dogs.FirstAdjacent | src/core/Dog.cpp:123-133 | the road found is the one of lowest index that is adjacent and contains the position; none is found only if there is none |
| Dogs.AdvanceEndsOnRoad | src/core/Dog.cpp:143-167 | from any position, an update ends inside the rectangle of a road that exists |
| Dogs.AdvanceAcceptsIff | src/core/Dog.cpp:143-167 | the target is reached exactly, with the speed kept, if and only if it lies on the current or an adjacent road; otherwise the dog stops on its road |
| Dogs.CrossingNeverClamps | src/core/Dog.cpp:143-167 | on integer maps a target on any road overlapping the current one, other than by a buried overlap, is never clamped |
| Dogs.BuriedOverlapClamps | src/core/Dog.cpp:60-79 | two roads along one line, from 0 to 10 and from 5 to 15: a dog standing on both is stopped at 10.4 on its way to 13 |
| Dogs.LeapsIff | src/core/Dog.cpp:143-167 | an update changes to a road that does not meet the current one if and only if the target is off the road and the lowest-numbered adjacent road containing it is such a road |
| Dogs.LeapOverGap | src/core/MapModel.cpp:48-72 | roads from (0, 0) to (10, 0) and from (20, -5) to (20, 5): a dog at (9, 0) with speed 11 is carried to (20, 0) in one second, past ground of no road |
| Dogs.AdvanceStaysOnPath | src/core/Dog.cpp:135-167 | a dog starting on its road ends on the straight way to its target: never sideways, backwards or beyond |
| Dogs.TwoTicksIff | src/core/Dog.cpp:123-167 | on any map, two updates equal one of the summed time if and only if, judged beforehand, the first target is on the current road, or both targets lead to the same road whether or not the dog has changed road in between, or both are off every road |
| Dogs.CutStopsDog | src/core/Dog.cpp:143-167 | a dog that one second carries across a gap from 9 to 20 is stopped at 10.4 when the second is cut in half |
| Dogs.TwoTicks | src/core/Dog.cpp:143-167 | without adjacent roads, two updates always equal one of the summed time, also when the first runs into the end |
| Dogs.TimeStepIndependence | src/core/Dog.cpp:143-167 | without adjacent roads, position, road and speed after any ticks are those after one tick of their sum |
| Dogs.TurnedTravels | src/core/Dog.cpp:34-50 | after setting a speed the dog travels along the axis of its direction at that rate, y growing southward; STOP stands still and keeps the direction faced |
| Dogs.CommandTravels | src/core/DataTypes.cpp:6-28 | the letters R, L, D and U send the dog to larger x, smaller x, larger y and smaller y at the given speed in units per second, and are what its direction is recorded as; the empty command leaves it in place |
| Dogs.GathererIsProper | src/core/Dog.cpp:169-185 | a move yields a gatherer if and only if the dog was displaced by more than 0.0001 on an axis; it spans the displacement with width 0.6, so the sweep never divides by zero; a dog facing nowhere stays, any other makes one update |
| Dogs.OnRoadOverRuns | src/core/Dog.cpp:16-185 | over any turns and moves the dog is on its road if and only if it started there or has moved while facing somewhere; its speed stays parallel to an axis |
| Dogs.NewDogRecord | src/core/Dog.cpp:16-32 | a new dog is recorded at the origin on road 0, facing north, with no score, no times and an empty bag, and its capacity is the map's unless that is zero, else the default one |
| Dogs.AsSize | src/core/Dog.cpp:190-190 | compared as a size, a capacity from zero on counts as itself, and a negative one is beyond any bag |
| Dogs.FreshDogOffRoad | src/core/Dog.cpp:16-32 | on a map whose road 0 runs from (5, 5) to (10, 5) a new dog is off its road |
| Dogs.ScoreAdds | src/core/Dog.cpp:197-206 | the value of two bags emptied one after the other is the sum of their values |
| Dogs.ScoreIsWorth | src/core/Dog.cpp:201-202 | adding up the pieces of a bag gives, summed over the kinds of the map, the number of pieces of the kind times its value |
| Dogs.OfficePays | src/core/Dog.cpp:197-206 | an office pays nothing for an empty bag, and for one more piece exactly the value the map gives to its kind |
| Dogs.Dog.constructor | src/core/Dog.cpp:16-32 | faces north at (0, 0) on road 0 with an empty bag, the map's capacity or else the default one, and the complete adjacency sets |
| Dogs.Dog.FindAdjacentRoads | src/core/Dog.cpp:60-79 | the double loop fills each road's set with exactly the roads linked to it, in either index order |
| Dogs.Dog.SetSpeed | src/core/Dog.cpp:34-50 | changes speed and, unless STOP, direction, as TurnedTravels describes, and nothing else |
| Dogs.Dog.SearchPositionInsideAdjacentRoads | src/core/Dog.cpp:123-133 | finds the first adjacent road containing the position |
| Dogs.Dog.ChangePosition | src/core/Dog.cpp:143-167 | performs the update whose properties the Advance lemmas state, and leaves bag, clocks and score alone |
| Dogs.Dog.Move | src/core/Dog.cpp:169-185 | moves unless the direction is STOP, and returns a gatherer of width 0.6 from the old to the new position exactly when they differ by more than 0.0001 on an axis |
| Dogs.Dog.AddLoot | src/core/Dog.cpp:188-195 | appends the loot if and only if the bag holds less than the capacity, the capacity being compared as an unsigned 64-bit number |
| Dogs.Dog.PassLootToOffice | src/core/Dog.cpp:197-206 | the loop adds, for each kind of the map, the number of pieces in the bag times the value, and empties the bag into the delivered history |
| Dogs.Dog.GetState | src/core/Dog.cpp:208-217 | records position, direction, score, clocks, road and, in order, number and kind of everything in the bag |
| Dogs.Player.GetState | src/core/Dog.h:141-145 | records id, name and token with the state of the dog |
| CollisionDetector.Projection | src/core/CollisionDetector.cpp:6-23 | whatever number solves the normal equation is the projection ratio and gives the squared distance; no division is left |
| CollisionDetector.FootIsUnique | src/core/CollisionDetector.cpp:16-19 | the projection ratio is the one and only parameter at which the line to the item is perpendicular to the way |
| CollisionDetector.SqDistanceIsNearest | src/core/CollisionDetector.cpp:16-20 | the squared distance is that from the item to the foot, is never negative, and no point of the whole line is nearer |
| CollisionDetector.CollectedIffFootOnSegment | src/core/CollisionDetector.h:20-23 | for a radius of at least zero, an item is collected if and only if its foot lies on the way and within the radius |
| CollisionDetector.FirstHalf | src/core/CollisionDetector.cpp:6-23 | the first part of a cut way sees the same squared distance, and the ratio rescaled |
| CollisionDetector.SecondHalf | src/core/CollisionDetector.cpp:6-23 | so does the second part, with the ratio shifted and rescaled |
| CollisionDetector.SplitSweepCollectsSame | src/core/CollisionDetector.cpp:6-23 | cutting a way anywhere strictly inside collects exactly the same items, for every radius |
| CollisionDetector.SplitSweepKeepsOrder | src/core/CollisionDetector.cpp:6-23 | times mapped back from the parts are those of the whole way, and no item of the first part comes after one of the second |
| CollisionDetector.FindGatherEvents | src/core/CollisionDetector.cpp:25-60 | the result is in time order and holds exactly one event for each pair of a gatherer that moved and an item it collects, and no other |
| CollisionDetector.EventsGiveOrder | src/core/CollisionDetector.cpp:25-60 | with one gatherer the events list exactly the collected items, each once, by time of contact |
| LootGenerators.GeneratedCount | src/core/LootGenerator.cpp:10-12 | at least zero and never more than the shortage, for any chance at all |
| LootGenerators.LootGenerator.Generate | src/core/LootGenerator.cpp:5-17 | the step-by-step computation equals the one the lemmas speak of: the count is the integer nearest to the expected part of the shortage, and the accumulated time starts again exactly when it is not zero |
| LootGenerators.GeneratedBound | src/core/LootGenerator.cpp:5-17 | loot never comes to exceed looters, and the count is the integer nearest to the expected part of the shortage, halves upward: all of it at chance one and none at chance zero, for any power function and random source |
| LootGenerators.ChanceOverTime | src/core/LootGenerator.cpp:9-11 | for a power function that obeys the laws of powers: with the full random factor the chance over one base interval is the given probability, and the chances of getting nothing multiply over consecutive times; any other factor scales the chance |
| LootGenerators.SilentTimeCounts | src/core/LootGenerator.cpp:7-15 | after a call that generated nothing the next one draws with the chance of the summed time; after one that did, with that of its own time |
| LootGenerators.TimeSinceLastLoot | src/core/LootGenerator.cpp:7-15 | after any calls the accumulated time is the sum of the deltas since the last call that generated anything |
| SessionModel.CollectKeepsMotion | src/core/GameSession.cpp:182-201 | collecting touches neither motion, direction, capacity nor clocks of the dog |
| SessionModel.MoveKeepsRoad | src/core/GameSession.cpp:84-86 | moving leaves a valid road index and neither bag nor deliveries changed |
| SessionModel.GeneratesWhatIsDue | src/core/GameSession.cpp:99-153 | the floor grows by exactly the integer nearest to the expected part of the shortage, the whole of it at chance one, each piece numbered on, of the kind drawn and at the place drawn along its road; without kinds or roads by nothing, with the failure |
| GameSessions.GameSession.constructor | src/core/GameSession.cpp:12-16 | a new session has no players, no loot, both counters at zero and a fresh generator |
| GameSessions.GameSession.AddPlayer | src/core/GameSession.cpp:35-53 | returns the player of that name if there is one, else appends one with the next id, the given token and a new dog; the map given becomes the session's in either case |
| GameSessions.GameSession.HasPlayerWithAuthToken | src/core/GameSession.cpp:55-65 | true exactly when some player of the session has the token |
| GameSessions.GameSession.FindPlayerWithAuthToken | src/core/GameSession.cpp:67-77 | the object of the first player with the token; none where the original throws |
| GameSessions.GameSession.DeletePlayer | src/core/GameSession.cpp:203-211 | removes that very object and keeps the others in order; an absent one changes nothing |
| GameSessions.GameSession.GetSessionState | src/core/GameSession.cpp:18-27 | records map, floor loot and every player in order |
| GameSessions.GameSession.SetLootList | src/core/GameSession.h:40-44 | replaces the floor and leaves the loot counter where it was |
| GameSessions.GameSession.GenerateLootInfo | src/core/GameSession.cpp:110-153 | fails without loot kinds, then without roads; otherwise one loot with the next number at the drawn place, counter advanced by one |
| GameSessions.GameSession.GenerateLoot | src/core/GameSession.cpp:99-108 | appends as much loot as is due by the chance of the accumulated time, numbered on, or fails with the generator already advanced |
| GameSessions.GameSession.GetGatheredItems | src/core/GameSession.cpp:155-180 | exactly the floor loot and offices the gatherer collects, each once, by time of contact |
| GameSessions.GameSession.AddLootToDog | src/core/GameSession.cpp:182-201 | the loop with its in-place erasures does to dog and floor what the fold over the items does |
| GameSessions.GameSession.TakeTurn | src/core/GameSession.cpp:83-95 | play time grows; the dog moves; then it idles, or its idle time is reset and it collects exactly what it swept over |
| GameSessions.GameSession.MoveDog | src/core/GameSession.cpp:83-95 | the turn of one dog changes that dog and the floor and nothing else of the session |
| GameSessions.GameSession.MoveDogs | src/core/GameSession.cpp:79-97 | dogs take their turns in order up to and including the first one without a gatherer, each offered what it sweeps over on the floor left by those before |
| GreedyBag.RemoveFromKept | src/core/GameSession.cpp:190-198 | erasing the found loot from what is left is the same as leaving out one number more, with the order kept |
| GreedyBag.FirstHitsFacts | src/core/GameSession.cpp:184-200 | the list of first hits holds exactly the floor loot touched, each once |
| GreedyBag.GreedyBag | src/core/GameSession.cpp:182-201 | without an office in between the dog takes exactly the first loots it touches, as many as fit, in order of contact, and everything else stays on the floor in its order |
| GreedyBag.GreedyBetweenOffices | src/core/GameSession.cpp:182-201 | an office takes the whole bag and its value; up to the next office the dog takes the first loots touched, as many as a whole bag holds |
| GreedyBag.BagStaysWithinCapacity | src/core/GameSession.cpp:182-201 | no items can push a bag beyond its capacity if it was within before, a capacity from zero on being meant as it is |
| Harvest.CollectsIff | src/core/CollisionDetector.cpp:25-60 | a gatherer collects an item exactly when it moved by more than 0.0000000001 on an axis and the foot of the perpendicular lies on the way, no farther than the two widths together |
| Harvest.OfferedIff | src/core/GameSession.cpp:155-180 | a dog that goes somewhere is offered of the floor exactly the loot it passes within 0.6, of the map exactly the offices it passes within 1.1, and nothing else |
| Harvest.DeliversIff | src/core/GameSession.cpp:79-97 | in its turn a dog with anything in the bag delivers exactly if it passes an office within 1.1, and then all it had; else bag and score keep what they had |
| Harvest.NothingElseTaken | src/core/GameSession.cpp:79-97 | no loot leaves the floor in a turn that the dog does not pass within 0.6, and none comes to it |
| Harvest.TakesAllItPasses | src/core/GameSession.cpp:79-97 | away from offices a dog whose bag has room to the end has taken exactly the loot it passed within 0.6 |
| SplitTicks.OrdersJoin | src/core/GameSession.cpp:155-180 | what two halves of a sweep collect, the second over the floor left by the first and without what is touched again at the joint, is in one list what the whole sweep collects, in an order it may have |
| SplitTicks.TouchedAgain | src/core/GameSession.cpp:182-201 | what is touched again at the joint changes neither dog nor floor, unless both a loot and an office are touched there |
| SplitTicks.SplitTickSameOutcome | src/core/GameSession.cpp:79-97 | a tick cut in two, harmlessly for the motion, both parts taking the dog somewhere and not both a loot and an office at the joint: some offer of the whole tick gives the same position, speed, clocks, bag, score and floor |
| JointTicks.CutShows | src/core/GameSession.cpp:79-97 | with a full bag and one office on the way, at the joint together with a loot, the two ticks have an outcome that no offer of the whole tick gives |
| JointTicks.CutHiddenIff | src/core/GameSession.cpp:79-97 | for a full bag of positive capacity and a way with at most one office, at the joint if anywhere, every outcome of the two ticks is one of the whole tick if and only if the joint does not touch both a loot and the office |
| CornerTicks.TouchedAtJoint | src/core/GameSession.cpp:79-97 | a dog driving east with a full bag of one, loot and office both one second ahead: two ticks of a second may deliver the loot, no tick of two seconds does |
| CornerTicks.TwoOfficesHideCut | src/core/GameSession.cpp:79-97 | the same with a second office at that place: every outcome of the two ticks is one of the whole tick, although loot and offices are touched at the joint |
| SessionRuns.CollectConserves | src/core/GameSession.cpp:182-201 | collecting never makes, loses or changes any loot: floor, bag and deliveries together hold each piece as often as before |
| SessionRuns.RoundConserves | src/core/GameSession.cpp:79-97 | neither does a whole round, whatever the dogs are offered and wherever it ends |
| SessionRuns.GoesIff | src/core/Dog.cpp:169-185 | a gatherer results exactly when the update takes the dog more than 0.0001 away on an axis |
| SessionRuns.RoundReachesIff | src/core/GameSession.cpp:79-97 | a dog gets its turn in a round if and only if every dog before it would be taken more than 0.0001 away on an axis, judged from the state before the round |
| SessionRuns.RoundOutcome | src/core/GameSession.cpp:79-97 | a dog reached has advanced by one update, its play time grown, its idle time reset exactly if it went somewhere; every other dog is untouched, all in terms of the state before |
| SessionRuns.DrivingDogLeftBehind | src/core/GameSession.cpp:86-91 | two players, the first dog at rest: in every round the second dog, driving, stays as it is |
| SessionRuns.GenerateAppends | src/core/GameSession.cpp:99-153 | generated loot is numbered on from the counter, is of an existing kind, lies on a road of the map and is never more than the shortage |
| SessionRuns.AnythingOnMapCanBeDrawn | src/core/GameSession.cpp:110-153 | what some draw gives is exactly loot of a kind of the map at a point of one of its roads: every kind and every point, and no other |
| SessionRuns.ConservationFromAnywhere | src/core/GameSession.cpp:35-201 | over every run from any state, for instance a restored one, each piece of loot is in as many places as at the start, plus what was generated since, numbered on from the counter; a state ready to move stays ready |
| SessionRuns.RunKeeps | src/core/GameSession.cpp:35-201 | over every run of joins, speeds, generation and moves from a fresh session, on a map with roads, all parallel to an axis: loot conserved, floor within the number of players, and for every dog a valid road, a bag within capacity and a score equal to what it delivered |
| SessionRuns.LootConservation | src/core/GameSession.cpp:79-201 | over every such run the loot of each number issued is in exactly one place (floor, one bag or delivered once), unchanged since generated, and no other loot exists |
| SessionRuns.NoLootTwice | src/core/GameSession.cpp:182-201 | over every such run no loot number is held by two dogs, held while on the floor, or on the floor twice |
| SessionRuns.ScoresAndBounds | src/core/Dog.cpp:188-206 | over every run from a fresh session each score is, summed over the kinds of the map, the number of pieces that dog delivered times the value of the kind; every kind used as an index exists, bags are within their capacity and the floor within the number of players |
| ScoreRuns.ScoresFromAnywhere | src/core/Dog.cpp:197-206 | over every run from any session, for instance a restored one, each score has grown by exactly what that dog delivered since, counted by kinds of the map times their values, and the floor holds no more than at the start or than there are players |
| SessionRuns.RunIsReady | src/core/GameSession.cpp:79-97 | what moving needs of the state holds in every state of every such run |
| GameModel.FailureEndsCall | src/core/Game.cpp:108-117 | once a session fails to generate loot, the later ones are not reached |
| GameModel.GameGeneratesDue | src/core/Game.cpp:108-117 | in one call every session before the first failure gets what is due to it by its own chance, the failing one and all later ones get nothing |
| GameModel.FailureEndsRestore | src/core/Game.cpp:220-243 | after a failure no further session is restored, and those before stay |
| GameProofs.RestoredPlayerState | src/core/Game.cpp:207-218 | recording a dog set from a record gives the same record, field by field, bag in order |
| GameProofs.RestorePlayersResult | src/core/Game.cpp:229-239 | restoring players succeeds if and only if the directions and the map are known; the list is the recorded one exactly when no name occurs twice |
| GameProofs.RestoreSucceedsIff | src/core/Game.cpp:220-243 | restoring goes through if and only if every direction is known and every map with players exists |
| GameProofs.SnapshotRoundTrip | src/core/Game.cpp:166-243 | whenever restoring goes through, recording the result gives the snapshot back, in order and in every field, if and only if no session has a name twice |
| GameProofs.SharedNameIsMerged | src/core/Game.cpp:229-239 | a snapshot with one name twice in a session: restoring goes through and the next snapshot differs |
| RestoredRuns.RestoredNumbers | src/core/Game.cpp:207-243 | restoring brings back exactly the recorded loot numbers, on the floor and in bags |
| RestoredRuns.RestoredLootNumbers | src/core/GameSession.h:40-44 | over any run from a restored session, loot numbers on the floor, in bags and delivered stay distinct if and only if no recorded number, of floor or bag, is below the amount generated since |
| RestoredRuns.LootNumberIssuedTwice | src/core/GameSession.h:40-44 | one player carrying number 0 over an empty floor: the first loot generated, certain a millisecond after restoring, is number 0 again |
| RestoredRuns.RestoredPlayerNumbers | src/core/Game.cpp:229-238 | over any run from a restored session, every new player has an id of its own if and only if no restored id lies in the range of the new ones |
| RestoredRuns.PlayerIdIssuedTwice | src/core/Game.cpp:229-238 | one restored player with id 1: the next to join gets id 1 again |
| RestoredRuns.RestoredTokens | src/core/Game.cpp:220-243 | a snapshot without repeated names or tokens restores to a game whose tokens are unique and exactly among the recorded ones |
| RestoredRuns.RestoredTokenResolves | src/core/Game.cpp:42-243 | every recorded token leads to its player, with the recorded id and name, in every state of every run from the restored game in which no token in use is drawn again |
| GameProofs.DeleteFirstSession | src/core/Game.cpp:291-301 | deleting the expired players of the first session one by one leaves exactly the others, in order |
| GameProofs.RetirementPartition | src/core/Game.cpp:265-325 | all expired players are recorded once and in order and the first session keeps exactly the others; it goes through if and only if nobody expired elsewhere, and only then are empty sessions removed |
| RetirementProofs.IdleAreRecorded | src/core/Game.cpp:265-289 | name, score and play time of exactly the players idle for the retirement time or longer are recorded, each once and in order, in whatever session they are |
| RetirementProofs.BusyStay | src/core/Game.cpp:291-325 | the first session keeps exactly its players idle for less than the retirement time, in order; if retirement goes through and anybody retires, exactly the sessions with players stay, otherwise all |
| GameProofs.ExpiredElsewhere | src/core/Game.cpp:291-301 | two sessions, one player expired in the second: it is recorded, retirement fails, and it stays |
| GameRuns.SessionStepKeepsPlayers | src/core/GameSession.cpp:79-201 | speeds, generation and moves change nobody's id, name, token or place |
| GameRuns.JoinAnswer | src/core/Game.cpp:79-98 | the answer to a join is token and id of a player with the given name, on the given map |
| GameRuns.JoinFailsIff | src/core/Game.cpp:79-98 | a join fails, without effect, exactly for an empty name or else an unknown map |
| GameRuns.NewcomerRecord | src/core/Game.cpp:79-98 | who joins under a new name gets the token drawn and the session's next id, a dog as NewDogRecord describes, and on a map without a session a new one with an empty floor and the generator parameters of the game; nothing else changes |
| GameRuns.JoinKeepsIdentity | src/core/Game.cpp:79-98 | a join with a new token keeps one session per map, unique names, ids counting up in join order and unique tokens, and moves nobody |
| GameRuns.IdentityOverRuns | src/core/Game.cpp:79-148 | all of this holds in every state of every run in which no token is drawn twice |
| GameRuns.ResolveFinds | src/core/Game.cpp:42-52 | with unique tokens, searching session then player finds the one place where the token is |
| GameRuns.TokensOverRuns | src/core/Game.cpp:79-98 | over every run from any game with unique tokens, none of them drawn again, tokens stay unique and everybody stays in place |
| GameRuns.TokenResolvesFrom | src/core/Game.cpp:42-98 | in such a run a token answered to a join leads, then and in every later state, to the player with the answered id and the given name, on the given map |
| GameRuns.TokenAlwaysResolves | src/core/Game.cpp:42-98 | in a run of a new game, moreover, the id is the player's place in its session |
| GameRuns.RepeatedJoin | src/core/Game.cpp:79-98 | joining again under a name answers with the same token and id and changes nothing in the game |
| GameRuns.LootOverGameRuns | src/core/Game.cpp:79-117 | in every state of every run of the game, every session whose own map has roads, all parallel to an axis, keeps what RunKeeps states, whatever the other maps are and however joins and steps of all sessions interleave |
| GameRuns.ReachableSnapshotRestores | src/core/Game.cpp:166-243 | the snapshot of every reachable state restores and is then recorded identically |
| Games.Game.GetPlayerWithAuthToken | src/core/Game.cpp:42-52 | the player object at the place the two searches lead to, or none |
| Games.Game.FindSessionOf | src/core/Game.cpp:125-135 | the loop finds the first session of the map |
| Games.Game.FindSessionWithTokenOf | src/core/Game.cpp:138-148 | the loop finds the first session with the token |
| Games.Game.AddPlayer | src/core/Game.cpp:79-98 | fails on an empty name, then on an unknown map; otherwise joins the map's session, made on demand, and answers with token and id |
| Games.Game.MoveDogs | src/core/Game.cpp:100-106 | every session plays a round of its own; no session affects another |
| Games.Game.GenerateLoot | src/core/Game.cpp:108-117 | the sessions generate in turn, each what is due to it, and the first failure ends the call with the earlier ones done |
| Games.Game.CreateGameState | src/core/Game.cpp:166-177 | records every session in order |
| Games.Game.InitDogFrom | src/core/Game.cpp:207-218 | sets the recorded fields and appends the recorded bag; fails exactly on an unknown direction, with only the position set |
| Games.Game.RestoreSessions | src/core/Game.cpp:220-243 | replaces all sessions by the restored ones; on a failure those restored so far remain |
| Games.Game.FindExpiredPlayers | src/core/Game.cpp:265-276 | exactly the players idle for the retirement time or longer, in order of session and player |
| Games.Game.DeleteExpiredPlayers | src/core/Game.cpp:291-301 | looks each player up by token in the first session only and deletes what it finds; fails at the first that is not there, and does nothing without sessions |
| Games.Game.DeleteEmptySessions | src/core/Game.cpp:303-314 | removes exactly the sessions without players, order kept |
| Games.Game.HandleRetiredPlayers | src/core/Game.cpp:316-325 | records, deletes and cleans up as RetirementPartition describes, and does nothing when nobody expired |
| Tickers.Ticker.Start | src/network/ticker.h:22-29 | takes the reading as the last tick and marks the ticker started |
| Tickers.Ticker.OnTick | src/network/ticker.h:40-46 | hands out the whole milliseconds since the last tick, truncated toward zero, and takes the new reading |
| Tickers.TickDrift | src/network/ticker.h:22-46 | after n ticks at monotone readings the milliseconds handed out never exceed the time elapsed and fall short of it by less than n |

## Left out

- HTTP, JSON, logging, command line and authorization headers: library plumbing and string handling around the modelled operations.
- PostgreSQL and the pool singleton: a connection is an identity, and records to be saved are returned as a sequence.
- The archive text format of snapshots and the timing of saves: snapshots are values.
- Rounding and overflow: coordinates and probabilities are reals, counters and clocks unbounded integers; the one comparison that mixes signs, of bag size and capacity, is modelled in 64 bits.
- Random numbers and token text: draws, the random factor and each new token are parameters; runs assume that no token is drawn twice.
- GeneratedBound: the power function and the random factor are arbitrary but finite; not-a-number and infinities are not modelled.
- LootGenerators.ProperGen: the base interval is positive, as src/core/LootGenerator.h:14 documents; a zero interval divides by zero in the code.
- Building a map: a map is an immutable value, complete when a session starts, and the same one is found whenever its id is looked up.
- GameSessions.GameSession.MoveDogs: all dogs are on the map of the session, as they are in a game, where the map is always found by the id of the session.
- JointTicks.CutHiddenIff: beyond a full bag and ways with at most one office, at the joint, only one half is stated, SplitTickSameOutcome; the other half is false there, as TwoOfficesHideCut shows, and what decides is the whole rest of the way.
- Maps without roads: a dog on such a map indexes an empty vector in the code, so moving requires a road.
- FindGatherEvents: the order of simultaneous events is left open, as the library sort leaves it; sorting is an insertion sort.
- DeleteEmptySessions: collecting the empty sessions and erasing each from the list is one pass here.
- Spawning a dog at a start position: nothing calls it when a player joins.
- Retirement is not a step of the runs, having no caller, and restoring is only where a run may start from, as it happens once, before serving; what they do to a state is proved separately.
- The sequence generate-then-move of a tick (src/network/api_handler.cpp:384-388): both are steps of the runs, in any order and number.
- A tick handler that throws: OnTick then keeps its old reading in the code; here the handler is the caller that receives the delta.
- The strand, the timer and the mutex themselves: each critical section is one step, and the scheduler may take any enabled step next.
- Fairness: that a notified thread eventually runs is the scheduler's business; the pool theorems say what holds whenever it does.
- The direction failure of set_speed: its table has all five directions.
- The lookups by token that throw where GetPlayerWithAuthToken answers none: same search, different answer.
