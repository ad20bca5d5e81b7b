# Elevator control: request store, LOOK scheduler and motion state machine

This project models the `Elevator` class of a single-cabin elevator
controller. Passengers call the cabin from a floor. Once they are picked up,
they become in-cabin requests for their destination floor.

The controller has three parts:

- **The request store.** A map from floor to the FIFO list of requests
  filed at that floor, plus the set of target floors.
- **The LOOK ranking.** It orders the target floors into a schedule: first
  the floors ahead in the direction of travel, nearest first, then the others
  on the way back.
- **The motion state machine.** It moves the cabin one floor at a time once
  the per-floor travel time has passed. When the cabin reaches the first
  scheduled floor, it serves that floor: waiting passengers board, and their
  requests are re-filed at their destinations. The schedule is then rebuilt
  once, and the cabin turns toward the new first floor. With nothing
  scheduled, the cabin stops.

Files:

- `types.dfy` (module `ElevatorTypes`): directions, requests, and the random
  request constructor with its redraw loop.
- `look.dfy` (module `Look`):
  - a sort function standing for `std::sort`;
  - the reference order `InOrder` of a set of floors;
  - the LOOK schedule `LookSchedule`, with its properties.
- `store.dfy` (module `RequestStore`): the map-of-lists store as values, the
  filing of one request, and the re-filing done when a floor is served.
- `elevator.dfy` (module `Control`): the `Elevator` class. Its fields are
  updated in place by methods that mirror the C++ member functions, with
  `Valid()` as the object invariant.
- `scenarios.dfy` (module `Scenarios`): concrete runs.
  - A passenger's round trip, with the corrected members and as written.
  - The run in which the cabin, as the repository has it, leaves the building.

Time is an explicit argument `now`, in whole seconds. `speed` is the number
of whole seconds per floor.

When an arrival empties the schedule, the code computes the new direction
from the first element of that empty schedule (src/elevator.cpp:167). It
leaves `stopped` false, so the cabin stays marked as moving until the next
`update` finds nothing scheduled and stops it (src/elevator.cpp:35-37,
175-181). The `*AsWritten` members of `Control.Elevator` model this. The
corrected members (`Arrival`, `HandleRequests`, `Update`) stop the cabin as
soon as nothing is left, and they are what the full object invariant is
proved for. "Findings" shows why the difference matters.

## Model

| member | source | states |
|---|---|---|
| ElevatorTypes.NewRequest | src/elevator.h:23-30 | with each floor drawn as written, a constructed request is a call (not picked up) whose two floors differ and lie in 1..num_floors+1; the call floor is the first draw, the destination is the first redraw that differs from it; without such a redraw there is no request |
| ElevatorTypes.NewRequestValid | src/elevator.h:25-29 | a constructed request has both floors in the building exactly when neither floor came from the top rand() value |
| ElevatorTypes.DrawFloorAsWritten | src/util.h:19-23 | the floor draw as written lies in 1..num_floors+1, and it is num_floors+1 exactly for the top rand() value |
| ElevatorTypes.FloorDrawOverflow | src/elevator.h:25 | with 4 floors the top rand() value draws floor 5 |
| ElevatorTypes.DrawFloor | src/util.h:19-23 | the corrected floor draw always lies in 1..num_floors |
| Look.Sort | src/elevator.cpp:112-113 | the result is sorted in the requested direction and is a permutation of the input |
| Look.InOrderFacts | src/elevator.cpp:111-123 | the reference order of a set of floors lists each floor exactly once, strictly monotone |
| Look.SortIsInOrder | src/elevator.cpp:112-113 | sorting a duplicate-free list yields the reference order of its elements |
| Look.SplitByFloor | src/elevator.cpp:96-109 | of the two buckets, the one above the cabin is the part ahead when heading up and the return sweep when heading down; the lower bucket is the converse |
| Look.SortedSplitIsLook | src/elevator.cpp:111-123 | sorting the lower bucket downward and the upper upward, and putting first the bucket in the direction of travel, gives the LOOK schedule |
| Look.LookIsPermutation | src/elevator.cpp:96-123 | the schedule holds every target exactly once, and nothing else |
| Look.LookSweeps | src/elevator.cpp:98-123 | the schedule is the targets ahead, strictly monotone in the direction of travel, followed by the others strictly monotone the other way, so it reverses at most once |
| Look.LookHeadsNearest | src/elevator.cpp:98-123 | while some target lies ahead, the schedule starts with a target ahead that comes no later than it |
| Look.LookSingleton | src/elevator.cpp:96-123 | a single target gives a one-floor schedule |
| Look.LookEmpty | src/elevator.cpp:120-123 | no targets give an empty schedule |
| Look.LookExamples | src/elevator.cpp:98-123 | cabin at 3 with targets {2,5} gives [5,2] going up and [2,5] going down; a target at the cabin's floor joins the return sweep |
| RequestStore.Insert | src/elevator.cpp:16-26 | filing a request appends it to the list of its key (destination once picked up, call floor otherwise), adds that key, and leaves every other floor's list unchanged |
| RequestStore.InsertKeepsInvariant | src/elevator.cpp:17-18 | filing keeps every stored request valid and at its key, and keeps "floor is a target iff its list is non-empty" |
| RequestStore.CallsTo | src/elevator.cpp:154-161 | the re-filed riders bound for a floor are picked-up copies of calls from the served list headed there; there are none exactly when no call in the list is headed there |
| RequestStore.Rekey | src/elevator.cpp:154-161 | walking the served list in order, each call is re-filed as picked up at its destination, and picked-up requests are dropped (its properties are stated by RequestStore.RekeyAt) |
| RequestStore.RekeyAt | src/elevator.cpp:154-161 | after the boarding loop, each floor holds its old list followed by the riders bound for it, in list order, and is a key iff it was one or gained riders |
| RequestStore.Arrive | src/elevator.cpp:145-161 | the served floor's list is taken out of the store and its calls re-filed (its properties are stated by RequestStore.ArriveServes) |
| RequestStore.NoCallsBackTo | src/elevator.cpp:157-160 | no rider boarding at a floor is bound for that same floor |
| RequestStore.ArriveServes | src/elevator.cpp:144-161 | serving a floor removes it from the store and the targets, keeps the store invariant, and appends to every other floor exactly the riders bound for it; picked-up requests at the served floor are dropped |
| RequestStore.ArriveAtEmptyFloor | src/elevator.cpp:148-151 | serving a floor with no requests leaves the store unchanged |
| RequestStore.TargetsInBuilding | src/elevator.cpp:17-23 | every target floor lies inside the building |
| Control.SplitTargets | src/elevator.cpp:96-109 | each target goes to exactly one bucket: below the cabin to the first, above to the second, the cabin's own floor to the first going up and to the second going down; no bucket holds a floor twice |
| Control.Elevator.constructor | src/elevator.h:45-49 | a new cabin stands stopped on floor 1 facing up with its timer set, with an empty store and schedule, and satisfies the invariant |
| Control.Elevator.RankRequests | src/elevator.cpp:90-124 | the new schedule is the LOOK schedule of the targets for the cabin's floor and direction |
| Control.Elevator.AddRequest | src/elevator.cpp:11-27 | the store gains the request at its key and the targets gain the key; the schedule is rebuilt only when asked; the store invariant is kept, and a rerank keeps the whole object invariant |
| Control.Elevator.Advance | src/elevator.cpp:184-197 | a moving cabin whose travel time is up moves exactly one floor in its direction, restarts its timer, stops iff nothing is scheduled and reports true; otherwise nothing changes and it reports false |
| Control.Elevator.ServeFloor | src/elevator.cpp:144-161 | the store becomes the served store of the first scheduled floor, the targets its keys, and the schedule is untouched |
| Control.Elevator.ServeAndRank | src/elevator.cpp:142-164 | after serving, the cabin's floor is no longer a target, the schedule lists every remaining target once and is the LOOK schedule |
| Control.Elevator.Arrival | src/elevator.cpp:142-168 | arrival serves the floor, reranks once and turns DOWN iff the cabin is above the new first floor; an emptied schedule stops the cabin; the invariant holds afterwards |
| Control.Elevator.ArrivalAsWritten | src/elevator.cpp:142-168 | arrival as written: the same, except that an emptied schedule leaves the direction as it was and the cabin marked as moving |
| Control.Elevator.HandleRequests | src/elevator.cpp:130-169 | at most one floor of movement in the current direction, then arrival if the cabin stands on the first scheduled floor; otherwise the store, schedule and direction are unchanged; the cabin stays inside the building |
| Control.Elevator.HandleRequestsAsWritten | src/elevator.cpp:130-169 | the same with arrival as written |
| Control.Elevator.HandleIdle | src/elevator.cpp:175-182 | the cabin ends stopped |
| Control.Elevator.Update | src/elevator.cpp:32-52 | with nothing scheduled, the cabin stops and nothing else changes; otherwise a stopped cabin restarts its timer and heads UP iff it is below the first scheduled floor, and the requests are handled; the invariant, including "the cabin is inside the building", is preserved |
| Control.Elevator.UpdateAsWritten | src/elevator.cpp:32-52 | the same with handle_requests as written; only the store and schedule invariants are preserved |
| Scenarios.OneRide | src/elevator.cpp:142-161 | a lone call is filed at its floor, serving that floor re-files it at its destination, and serving the destination empties the store |
| Scenarios.RoundTrip | src/elevator.cpp:32-52 | with the corrected members, four floors at one second per floor, a call on 3 to 1: after updates at seconds 0, 2, 4, 6 and 8 the cabin is stopped on floor 1 with nothing left |
| Scenarios.RoundTripAsWritten | src/elevator.cpp:32-52 | the same run as written: after the update at second 8 the cabin is on floor 1 with nothing left but still marked as moving; the model leaves the direction at Down for the undefined read at line 167 |
| Scenarios.RoundTripSettlesAsWritten | src/elevator.cpp:35-37 | as written, the next update after that run finds nothing scheduled and stops the cabin on floor 1 |
| Scenarios.DeliverToTopAsWritten | src/elevator.cpp:164-167 | as written, delivering a passenger to the top floor leaves an empty schedule with the cabin moving up |
| Scenarios.RunawayAsWritten | src/elevator.cpp:164-167 | as written, a call from floor 1 arriving next makes the following update move the cabin to floor 5 of 4 |

## Left out

- `log_status` (src/elevator.cpp:57-84) and every call to it: console output only.
- `src/main.cpp`: argument parsing, the polling loop and random request injection are not part of this model.
- The clock (`time_now`, `duration` in src/util.h) is replaced by the argument `now` in whole seconds. The two reads of the clock inside `advance` are taken to return the same instant.
- `speed` is a whole number of seconds per floor, not a `double`.
- `current_request` (src/elevator.h:63) is never used by the class and is not modelled.
- The order in which `std::set` yields targets is left open; the buckets are sorted right afterwards, so the schedule does not depend on it.
- ElevatorTypes.NewRequest: the source's loop may redraw without bound; the model takes a finite supply of draws and returns no request if that supply runs out.
- Control.Elevator.AddRequest: requires the request to be valid (both floors in 1..numFloors and distinct). The repository's entry point (src/main.cpp:60-61) passes whatever the constructor draws, which by the first finding can be floor num_floors+1; filing such a request is not modelled.
- Scenarios.RoundTrip: runs the corrected members, so the cabin is stopped right after the update at second 8; the same run as written is `Scenarios.RoundTripAsWritten`, where the cabin stays marked as moving until the following update (`Scenarios.RoundTripSettlesAsWritten`).
- ElevatorTypes.DrawFloorAsWritten: computes the draw in exact rationals, not single-precision floats; it shows only the top rand() value overflowing, while float rounding lets somewhat more of the highest values do so.
- Control.Elevator.constructor: requires at least one floor, which the class needs for "the cabin is inside the building"; the repository's entry point demands more than one.
- The read of the first element of an empty schedule (src/elevator.cpp:167) is undefined behaviour in C++; the as-written members leave the direction unchanged at that point.

## Findings

| source | as written | input that shows it | evidently intended | confidence | as-written member | corrected member |
|---|---|---|---|---|---|---|
| src/util.h:19-23 | the random floor is 1 plus (rand() divided by RAND_MAX) times num_floors, truncated; the top rand() value gives num_floors + 1 | num_floors = 4 and rand() = RAND_MAX draw floor 5 | every drawn floor lies in 1..num_floors (divide by RAND_MAX + 1) | not executed | ElevatorTypes.FloorDrawOverflow | ElevatorTypes.DrawFloor |
| src/elevator.cpp:164-167 | after an arrival empties the schedule, the direction is computed from the first element of the empty schedule and the cabin stays marked as moving; a request added before the next update is ranked with the old direction and the cabin keeps going | 4 floors, speed 1 second per floor, one call 2 to 4; updates at seconds 0, 2, 4, 6; a call on floor 1; an update at second 8 puts the cabin on floor 5 | with nothing left the cabin stops, so the next request starts it afresh toward its floor | not executed | Scenarios.RunawayAsWritten | Control.Elevator.Update |
