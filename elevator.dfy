/**
 * The Elevator class: cabin state, request store and LOOK schedule, and the
 * operations that add requests, rank them, move the cabin floor by floor and
 * serve the floor it reaches. Time is the argument `now`, in whole seconds.
 */
module Control {
  import opened ElevatorTypes
  import opened Look
  import opened RequestStore

  /** The floor one step from `floor` in direction `dir`. */
  function Step(floor: int, dir: Direction): int {
    if dir == Up then floor + 1 else floor - 1
  }

  /** The direction a stopped cabin sets off in (update): UP iff it is below its first target. */
  function StartHeading(floor: int, target: int): Direction {
    if floor < target then Up else Down
  }

  /** The direction after serving a floor (handle_requests): DOWN iff it is above its next target. */
  function Reaim(floor: int, target: int): Direction {
    if floor > target then Down else Up
  }

  class Elevator {
    const numFloors: int
    /** Seconds the cabin needs per floor. */
    const speed: nat

    var floor: int
    var stopped: bool
    var direction: Direction
    /** The time of the last floor change or start of movement (time_since_movement_change). */
    var lastMove: int

    var requests: Store
    var requestTargets: set<int>
    var schedule: seq<int>

    /** A floor is a target iff it holds a non-empty list, and every request is filed under its key. */
    ghost predicate StoreValid()
      reads this
    {
      WellFormed(requests, numFloors) && Consistent(requests, requestTargets)
    }

    /** The schedule lists every target exactly once. */
    ghost predicate ScheduleValid()
      reads this
    {
      Distinct(schedule) && Elems(schedule) == requestTargets
    }

    /**
     * The object invariant: the store and schedule agree, the cabin is inside
     * the building, and a moving cabin is heading for its first scheduled floor.
     */
    ghost predicate Valid()
      reads this
    {
      && StoreValid()
      && ScheduleValid()
      && 1 <= floor <= numFloors
      && (!stopped ==> schedule != [] && Ahead(schedule[0], floor, direction))
    }

    /**
     * The state after the cabin has served the floor it stands on, from the
     * direction and store it had before: the floor's requests are re-filed,
     * the schedule is rebuilt once, and the cabin aims at its new first floor.
     * When nothing is left, `stopped` becomes `idleWhenDone`.
     */
    ghost predicate Served(dir0: Direction, reqs0: Store, idleWhenDone: bool)
      reads this
    {
      && requests == Arrive(reqs0, floor)
      && requestTargets == requests.Keys
      && schedule == LookSchedule(requestTargets, floor, dir0)
      && if schedule == [] then stopped == idleWhenDone && direction == dir0
         else !stopped && direction == Reaim(floor, schedule[0])
    }

    /**
     * The state handle_requests leaves behind, from the cabin's floor, direction,
     * timer, store and schedule when it began: at most one floor of movement,
     * then the first scheduled floor served if the cabin stands on it.
     */
    ghost predicate Handled(now: int, floor0: int, dir0: Direction, timer0: int, reqs0: Store,
                            targets0: set<int>, sched0: seq<int>, idleWhenDone: bool)
      reads this
      requires sched0 != []
    {
      var moved := now - timer0 > speed;
      && floor == (if moved then Step(floor0, dir0) else floor0)
      && lastMove == (if moved then now else timer0)
      && if floor == sched0[0] then Served(dir0, reqs0, idleWhenDone)
         else
           && requests == reqs0 && requestTargets == targets0 && schedule == sched0
           && !stopped && direction == dir0
    }

    /** A stopped cabin on floor 1 facing up, with no requests. */
    constructor (numFloors: int, speed: nat, now: int)
      requires 1 <= numFloors
      ensures Valid()
      ensures this.numFloors == numFloors && this.speed == speed
      ensures floor == 1 && stopped && direction == Up && lastMove == now
      ensures requests == map[] && requestTargets == {} && schedule == []
    {
      this.numFloors := numFloors;
      this.speed := speed;
      floor := 1;
      stopped := true;
      direction := Up;
      lastMove := now;
      requests := map[];
      requestTargets := {};
      schedule := [];
    }

    /**
     * rank_requests: split the targets around the cabin (a target on the
     * cabin's floor goes with the floors below when heading up, above when
     * heading down), sort each part away from the cabin, and put the part in
     * the direction of travel first.
     */
    method RankRequests()
      modifies this`schedule
      ensures schedule == LookSchedule(requestTargets, floor, direction)
    {
      var dir1, dir2 := SplitTargets(requestTargets, floor, direction);
      SortedSplitIsLook(dir1, dir2, requestTargets, floor, direction);
      dir1 := Sort(dir1, false);
      dir2 := Sort(dir2, true);
      if direction == Up {
        dir1, dir2 := dir2, dir1;
      }
      schedule := dir1 + dir2;
    }

    /**
     * add_request: file the request under its key (its destination once picked
     * up, its call floor otherwise), make that floor a target and, when
     * `rerank` holds, rebuild the schedule.
     */
    method AddRequest(request: Request, rerank: bool)
      requires StoreValid() && ValidRequest(request, numFloors)
      modifies this`requests, this`requestTargets, this`schedule
      ensures StoreValid()
      ensures requests == Insert(old(requests), request)
      ensures requestTargets == old(requestTargets) + {KeyOf(request)}
      ensures schedule == if rerank then LookSchedule(requestTargets, floor, direction) else old(schedule)
      ensures rerank && old(Valid()) ==> Valid()
    {
      ghost var wasValid := Valid();
      ghost var head := if schedule != [] then schedule[0] else floor;
      if wasValid && !stopped {
        assert schedule[0] in Elems(schedule);
      }
      InsertKeepsInvariant(requests, requestTargets, request, numFloors);
      if request.pickedUp {
        requests := requests[request.toFloor := ListAt(requests, request.toFloor) + [request]];
        requestTargets := requestTargets + {request.toFloor};
      } else {
        requests := requests[request.onFloor := ListAt(requests, request.onFloor) + [request]];
        requestTargets := requestTargets + {request.onFloor};
      }
      if rerank {
        RankRequests();
        LookIsPermutation(requestTargets, floor, direction);
        if wasValid && !stopped {
          LookHeadsNearest(requestTargets, floor, direction, head);
        }
      }
    }

    /**
     * advance: once more than `speed` seconds have passed since the last
     * change, a moving cabin goes one floor in its direction, restarts the
     * timer and stops iff nothing is scheduled. Otherwise nothing changes.
     */
    method Advance(now: int) returns (moved: bool)
      modifies this`floor, this`stopped, this`lastMove
      ensures moved == (!old(stopped) && now - old(lastMove) > speed)
      ensures floor == if moved then Step(old(floor), direction) else old(floor)
      ensures stopped == if moved then schedule == [] else old(stopped)
      ensures lastMove == if moved then now else old(lastMove)
    {
      if !stopped && now - lastMove > speed {
        floor := floor + (if direction == Up then 1 else -1);
        stopped := |schedule| == 0;
        lastMove := now;
        return true;
      }
      return false;
    }

    /**
     * The arrival part of handle_requests: take the first scheduled floor out
     * of the targets and the store, and re-add each call that was waiting there
     * as a picked-up request, without reranking.
     */
    method ServeFloor()
      requires StoreValid() && schedule != []
      modifies this`requests, this`requestTargets, this`schedule
      ensures StoreValid()
      ensures requests == Arrive(old(requests), old(schedule)[0])
      ensures requestTargets == requests.Keys
      ensures schedule == old(schedule)
    {
      var target := schedule[0];
      requestTargets := requestTargets - {target};
      var floorRequests := ListAt(requests, target);
      requests := requests - {target};
      ghost var base := requests;
      forall k | 0 <= k < |floorRequests| ensures ValidRequest(floorRequests[k], numFloors) {
        assert floorRequests[k] == old(requests)[target][k];
      }
      var i := 0;
      while i < |floorRequests|
        invariant 0 <= i <= |floorRequests|
        invariant requests == Rekey(base, floorRequests[..i])
        invariant StoreValid()
        invariant schedule == old(schedule)
      {
        var request := floorRequests[i];
        assert floorRequests[..i + 1][..i] == floorRequests[..i];
        if !request.pickedUp {
          AddRequest(PickUp(request), false);
        }
        i := i + 1;
      }
      assert floorRequests[..i] == floorRequests;
    }

    /** The arrival block of handle_requests up to the rerank: serve the floor the cabin stands on, then rank once. */
    method ServeAndRank()
      requires StoreValid() && schedule != [] && floor == schedule[0]
      modifies this`requests, this`requestTargets, this`schedule
      ensures StoreValid() && ScheduleValid()
      ensures floor !in requestTargets
      ensures requests == Arrive(old(requests), floor) && requestTargets == requests.Keys
      ensures schedule == LookSchedule(requestTargets, floor, direction)
    {
      ArriveServes(requests, requestTargets, floor, numFloors);
      ServeFloor();
      RankRequests();
      LookIsPermutation(requestTargets, floor, direction);
    }

    /**
     * The whole arrival block: serve and rerank, then aim at the new first
     * floor; when nothing is left the cabin goes idle at once.
     */
    method Arrival()
      requires StoreValid() && schedule != [] && floor == schedule[0] && 1 <= floor <= numFloors && !stopped
      modifies this`requests, this`requestTargets, this`schedule, this`direction, this`stopped
      ensures Valid()
      ensures Served(old(direction), old(requests), true)
    {
      ghost var dir0, reqs0 := direction, requests;
      ServeAndRank();
      if schedule == [] {
        stopped := true;
      } else {
        assert schedule[0] in Elems(schedule);
        direction := Reaim(floor, schedule[0]);
      }
      assert Served(dir0, reqs0, true);
    }

    /**
     * The arrival block exactly as the repository has it: when the rebuilt
     * schedule is empty it reads its first element (left without effect here),
     * and the cabin stays marked as moving.
     */
    method ArrivalAsWritten()
      requires StoreValid() && schedule != [] && floor == schedule[0] && !stopped
      modifies this`requests, this`requestTargets, this`schedule, this`direction
      ensures StoreValid() && ScheduleValid()
      ensures Served(old(direction), old(requests), false)
    {
      ghost var dir0, reqs0 := direction, requests;
      ServeAndRank();
      if schedule != [] {
        direction := Reaim(floor, schedule[0]);
      }
      assert Served(dir0, reqs0, false);
    }

    /** handle_requests: advance one floor when due, then serve the first scheduled floor if the cabin is on it. */
    method HandleRequests(now: int)
      requires StoreValid() && ScheduleValid() && schedule != [] && !stopped
      requires 1 <= floor <= numFloors
      requires Ahead(schedule[0], floor, direction) || (floor == schedule[0] && now - lastMove <= speed)
      modifies this
      ensures Valid()
      ensures Handled(now, old(floor), old(direction), old(lastMove), old(requests), old(requestTargets), old(schedule), true)
    {
      ghost var floor0, dir0, timer0, reqs0, targets0, sched0 := floor, direction, lastMove, requests, requestTargets, schedule;
      TargetsInBuilding(requests, requestTargets, numFloors);
      assert schedule[0] in Elems(schedule);
      var moved := Advance(now);
      if floor == schedule[0] {
        Arrival();
      }
      assert Handled(now, floor0, dir0, timer0, reqs0, targets0, sched0, true);
    }

    /** handle_requests as the repository has it. */
    method HandleRequestsAsWritten(now: int)
      requires StoreValid() && ScheduleValid() && schedule != [] && !stopped
      modifies this
      ensures StoreValid() && ScheduleValid()
      ensures Handled(now, old(floor), old(direction), old(lastMove), old(requests), old(requestTargets), old(schedule), false)
    {
      ghost var floor0, dir0, timer0, reqs0, targets0, sched0 := floor, direction, lastMove, requests, requestTargets, schedule;
      var moved := Advance(now);
      if floor == schedule[0] {
        ArrivalAsWritten();
      }
      assert Handled(now, floor0, dir0, timer0, reqs0, targets0, sched0, false);
    }

    /** handle_idle: stop the cabin; nothing else changes. */
    method HandleIdle()
      modifies this`stopped
      ensures stopped
    {
      if !stopped {
        stopped := true;
      }
    }

    /**
     * update: with nothing scheduled the cabin just stops; otherwise a stopped
     * cabin first restarts its timer and heads for its first target, and then
     * the requests are handled.
     */
    method Update(now: int)
      requires Valid()
      modifies this
      ensures Valid()
      ensures old(schedule) == [] ==>
        && stopped && floor == old(floor) && direction == old(direction) && lastMove == old(lastMove)
        && requests == old(requests) && requestTargets == old(requestTargets) && schedule == old(schedule)
      ensures old(schedule) != [] ==>
        Handled(now, old(floor),
                if old(stopped) then StartHeading(old(floor), old(schedule)[0]) else old(direction),
                if old(stopped) then now else old(lastMove),
                old(requests), old(requestTargets), old(schedule), true)
    {
      if |schedule| == 0 {
        HandleIdle();
      } else {
        if stopped {
          lastMove := now;
          stopped := false;
          direction := StartHeading(floor, schedule[0]);
        }
        HandleRequests(now);
      }
    }

    /** update as the repository has it, calling handle_requests as written. */
    method UpdateAsWritten(now: int)
      requires StoreValid() && ScheduleValid()
      modifies this
      ensures StoreValid() && ScheduleValid()
      ensures old(schedule) == [] ==>
        && stopped && floor == old(floor) && direction == old(direction) && lastMove == old(lastMove)
        && requests == old(requests) && requestTargets == old(requestTargets) && schedule == old(schedule)
      ensures old(schedule) != [] ==>
        Handled(now, old(floor),
                if old(stopped) then StartHeading(old(floor), old(schedule)[0]) else old(direction),
                if old(stopped) then now else old(lastMove),
                old(requests), old(requestTargets), old(schedule), false)
    {
      if |schedule| == 0 {
        HandleIdle();
      } else {
        if stopped {
          lastMove := now;
          stopped := false;
          direction := StartHeading(floor, schedule[0]);
        }
        HandleRequestsAsWritten(now);
      }
    }
  }

  /**
   * The first loop of rank_requests: each target goes on `dir1` when below the
   * cabin's floor and on `dir2` when above; a target on the cabin's floor goes
   * on `dir1` when heading up and on `dir2` when heading down.
   */
  method SplitTargets(targets: set<int>, floor: int, dir: Direction) returns (dir1: seq<int>, dir2: seq<int>)
    ensures Distinct(dir1) && Distinct(dir2)
    ensures forall x :: x in dir1 <==> x in targets && !AboveOrTurn(x, floor, dir)
    ensures forall x :: x in dir2 <==> x in targets && AboveOrTurn(x, floor, dir)
  {
    dir1, dir2 := [], [];
    var rest := targets;
    ghost var done: set<int> := {};
    while rest != {}
      invariant done + rest == targets && done * rest == {}
      invariant Distinct(dir1) && Distinct(dir2)
      invariant forall x :: x in dir1 <==> x in done && !AboveOrTurn(x, floor, dir)
      invariant forall x :: x in dir2 <==> x in done && AboveOrTurn(x, floor, dir)
      decreases rest
    {
      assert (forall y :: y !in rest) ==> rest == {};
      var f :| f in rest;
      if f < floor {
        dir1 := Push(dir1, f);
      } else if f > floor {
        dir2 := Push(dir2, f);
      } else if dir == Up {
        dir1 := Push(dir1, f);
      } else {
        dir2 := Push(dir2, f);
      }
      rest := rest - {f};
      done := done + {f};
    }
  }

  /** push_back onto a list that does not yet hold `x`. */
  function Push(s: seq<int>, x: int): (r: seq<int>)
    requires x !in s
    ensures forall y :: y in r <==> y in s || y == x
    ensures Distinct(s) ==> Distinct(r)
  {
    assert multiset(s + [x]) == multiset(s) + multiset{x};
    s + [x]
  }
}
