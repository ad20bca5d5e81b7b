/**
 * Concrete runs of the Elevator class: a passenger's round trip, and the run
 * in which the cabin, as the repository has it, leaves the building.
 */
module Scenarios {
  import opened ElevatorTypes
  import opened Look
  import opened RequestStore
  import opened Control

  lemma FileAlone(r: Request)
    ensures Insert(map[], r) == map[KeyOf(r) := [r]]
  {
    assert ListAt(map[], KeyOf(r)) + [r] == [r];
  }

  /** Serving the only floor of a store holding one request. */
  lemma ServeAlone(r: Request)
    ensures Arrive(map[KeyOf(r) := [r]], KeyOf(r)) == if r.pickedUp then map[] else map[r.toFloor := [PickUp(r)]]
  {
    var m := map[KeyOf(r) := [r]];
    assert m - {KeyOf(r)} == map[];
    assert [r][..0] == [];
    assert ListAt(m, KeyOf(r)) == [r];
    if !r.pickedUp {
      assert Rekey(map[], [r]) == Insert(map[], PickUp(r));
      FileAlone(PickUp(r));
    } else {
      assert Rekey(map[], [r]) == map[];
    }
  }

  /**
   * The store through one ride: filing the call, serving its floor (the call
   * becomes a request for its destination) and serving the destination.
   */
  lemma OneRide(call: Request)
    requires !call.pickedUp
    ensures Insert(map[], call) == map[call.onFloor := [call]]
    ensures Arrive(map[call.onFloor := [call]], call.onFloor) == map[call.toFloor := [PickUp(call)]]
    ensures Arrive(map[call.toFloor := [PickUp(call)]], call.toFloor) == map[]
  {
    FileAlone(call);
    ServeAlone(call);
    ServeAlone(PickUp(call));
  }

  /**
   * A four-floor building at one second per floor (a floor change needs more
   * than one elapsed second): a call on floor 3 to floor 1. With the corrected
   * arrival the cabin rises to 3, turns, brings the passenger down to 1 and
   * stops there at once with nothing left to do.
   */
  method RoundTrip() returns (e: Elevator)
    ensures e.floor == 1 && e.stopped && e.direction == Down
    ensures e.requests == map[] && e.requestTargets == {} && e.schedule == []
  {
    e := new Elevator(4, 1, 0);
    var call := Request(3, 1, false);
    OneRide(call);
    LookSingleton(3, 1, Up);
    e.AddRequest(call, true);
    assert e.requests == map[3 := [call]];
    assert e.requestTargets == {3};
    assert e.schedule == [3];

    e.Update(0);   // sets off upwards, too early to move
    assert e.floor == 1 && e.direction == Up && e.lastMove == 0;
    e.Update(2);
    assert e.floor == 2 && e.lastMove == 2;

    var rider := PickUp(call);
    LookSingleton(1, 3, Up);
    assert map[1 := [rider]].Keys == {1};
    e.Update(4);   // reaches floor 3: the passenger boards, the cabin turns
    assert e.floor == 3 && e.requests == map[1 := [rider]] && e.schedule == [1];
    assert e.direction == Down;

    e.Update(6);
    assert e.floor == 2;

    LookEmpty(1, Down);
    assert e.schedule[0] == 1;
    e.Update(8);   // reaches floor 1: the passenger leaves, the cabin goes idle
  }

  /**
   * The same round trip as the repository has it: once the passenger is
   * delivered at second 8 the schedule is empty, but the cabin is still marked
   * as moving down.
   */
  method RoundTripAsWritten() returns (e: Elevator)
    ensures fresh(e)
    ensures e.StoreValid() && e.ScheduleValid()
    ensures e.floor == 1 && !e.stopped && e.direction == Down && e.lastMove == 8
    ensures e.requests == map[] && e.requestTargets == {} && e.schedule == []
  {
    e := new Elevator(4, 1, 0);
    var call := Request(3, 1, false);
    OneRide(call);
    LookSingleton(3, 1, Up);
    e.AddRequest(call, true);
    assert e.requests == map[3 := [call]];
    assert e.requestTargets == {3};
    assert e.schedule == [3];

    e.UpdateAsWritten(0);
    assert e.floor == 1 && e.direction == Up && e.lastMove == 0 && e.schedule[0] == 3;
    e.UpdateAsWritten(2);
    assert e.floor == 2 && e.lastMove == 2 && e.schedule[0] == 3;

    var rider := PickUp(call);
    LookSingleton(1, 3, Up);
    assert map[1 := [rider]].Keys == {1};
    e.UpdateAsWritten(4);   // reaches floor 3: the passenger boards, the cabin turns
    assert e.floor == 3 && e.requests == map[1 := [rider]] && e.schedule == [1];
    assert e.direction == Down;

    e.UpdateAsWritten(6);
    assert e.floor == 2 && e.schedule[0] == 1;

    LookEmpty(1, Down);
    e.UpdateAsWritten(8);   // reaches floor 1 and empties the schedule
  }

  /** Continuing that run: only the next update, finding nothing scheduled, stops the cabin. */
  method RoundTripSettlesAsWritten() returns (e: Elevator)
    ensures e.floor == 1 && e.stopped && e.direction == Down
    ensures e.requests == map[] && e.requestTargets == {} && e.schedule == []
  {
    e := RoundTripAsWritten();
    e.UpdateAsWritten(9);
  }

  /**
   * The same building as the repository has it: a call on floor 2 to the top
   * floor. Once the passenger is delivered the schedule is empty, yet the cabin
   * is still marked as moving upwards.
   */
  method DeliverToTopAsWritten() returns (e: Elevator)
    ensures fresh(e)
    ensures e.StoreValid() && e.ScheduleValid()
    ensures e.numFloors == 4 && e.speed == 1
    ensures e.floor == 4 && !e.stopped && e.direction == Up && e.lastMove == 6
    ensures e.requests == map[] && e.requestTargets == {} && e.schedule == []
  {
    e := new Elevator(4, 1, 0);
    var call := Request(2, 4, false);
    OneRide(call);
    LookSingleton(2, 1, Up);
    e.AddRequest(call, true);
    assert e.requests == map[2 := [call]];

    assert e.requestTargets == {2};
    assert e.schedule == [2];
    e.UpdateAsWritten(0);
    assert e.floor == 1 && e.direction == Up && e.lastMove == 0 && e.schedule[0] == 2;
    var rider := PickUp(call);
    LookSingleton(4, 2, Up);
    assert map[4 := [rider]].Keys == {4};
    e.UpdateAsWritten(2);   // reaches floor 2: the passenger boards
    assert e.floor == 2 && e.requests == map[4 := [rider]] && e.schedule == [4];
    assert e.direction == Up;

    e.UpdateAsWritten(4);
    assert e.floor == 3 && e.schedule[0] == 4;
    LookEmpty(4, Up);
    e.UpdateAsWritten(6);   // reaches floor 4 and empties the schedule
  }

  /**
   * Continuing that run: a call from floor 1 arrives before the next update.
   * It is ranked with the stale upward direction, and the next update moves
   * the cabin to floor 5 of a four-floor building.
   */
  method RunawayAsWritten() returns (e: Elevator)
    ensures e.floor == 5 && e.numFloors == 4
    ensures !e.stopped && e.direction == Up && e.schedule == [1]
  {
    e := DeliverToTopAsWritten();
    var late := Request(1, 2, false);
    FileAlone(late);
    LookSingleton(1, 4, Up);
    e.AddRequest(late, true);
    assert e.requestTargets == {1} && e.schedule == [1];
    e.UpdateAsWritten(8);   // still heading up: past the top floor
  }
}
