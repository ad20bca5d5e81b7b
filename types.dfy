/**
 * The value types of the elevator: the travel direction, a passenger request
 * and the construction of a random request (ElevatorRequest's constructor).
 */
module ElevatorTypes {

  datatype Option<T> = None | Some(value: T)

  datatype Direction = Up | Down

  /**
   * A passenger request. A call (pickedUp false) is waiting at onFloor; once the
   * passenger is in the cabin (pickedUp true) the request is headed for toFloor.
   */
  datatype Request = Request(onFloor: int, toFloor: int, pickedUp: bool)

  /** A request the store accepts: both floors in the building, and distinct. */
  predicate ValidRequest(r: Request, numFloors: int) {
    && 1 <= r.onFloor <= numFloors
    && 1 <= r.toFloor <= numFloors
    && r.onFloor != r.toFloor
  }

  /** The largest value rand() returns (glibc's RAND_MAX). */
  const RandMax: int := 2147483647

  /**
   * `(int)randrange(1, numFloors + 1)` for a raw rand() value `draw`, as the
   * repository computes it: 1 + (draw / RAND_MAX) * numFloors, truncated.
   * The single largest draw lands one floor above the building.
   */
  function DrawFloorAsWritten(draw: int, numFloors: int): (f: int)
    requires 0 <= draw <= RandMax && 1 <= numFloors
    ensures 1 <= f <= numFloors + 1
    ensures f == numFloors + 1 <==> draw == RandMax
  {
    ProductBounds(draw, numFloors);
    1 + (draw * numFloors) / RandMax
  }

  /** The top draw produces a floor number the building does not have. */
  lemma FloorDrawOverflow()
    ensures DrawFloorAsWritten(RandMax, 4) == 5
  {
  }

  /** The intended floor draw: scaling by RAND_MAX + 1 keeps every draw in [1, numFloors]. */
  function DrawFloor(draw: int, numFloors: int): (f: int)
    requires 0 <= draw <= RandMax && 1 <= numFloors
    ensures 1 <= f <= numFloors
  {
    ProductBounds(draw, numFloors);
    1 + (draw * numFloors) / (RandMax + 1)
  }

  lemma ProductBounds(draw: int, n: int)
    requires 0 <= draw <= RandMax && 1 <= n
    ensures 0 <= draw * n <= RandMax * n
    ensures draw < RandMax ==> draw * n <= RandMax * n - n
  {
  }

  /**
   * ElevatorRequest's constructor: draw onFloor, then redraw toFloor until it
   * differs from onFloor (the do-while loop), each floor drawn as the
   * repository draws it, so each may be one above the building. The random
   * source is the draw `onDraw` and the sequence `toDraws` of later rand()
   * values; None means the supply ran out before a different floor came up.
   */
  method NewRequest(numFloors: int, onDraw: int, toDraws: seq<int>) returns (r: Option<Request>)
    requires 1 <= numFloors
    requires 0 <= onDraw <= RandMax
    requires forall j :: 0 <= j < |toDraws| ==> 0 <= toDraws[j] <= RandMax
    ensures r.None? <==>
      forall j :: 0 <= j < |toDraws| ==> DrawFloorAsWritten(toDraws[j], numFloors) == DrawFloorAsWritten(onDraw, numFloors)
    ensures r.Some? ==>
      && r.value.onFloor == DrawFloorAsWritten(onDraw, numFloors)
      && !r.value.pickedUp
      && 1 <= r.value.onFloor <= numFloors + 1 && 1 <= r.value.toFloor <= numFloors + 1
      && r.value.onFloor != r.value.toFloor
      && exists k :: 0 <= k < |toDraws| && r.value.toFloor == DrawFloorAsWritten(toDraws[k], numFloors)
                     && forall j :: 0 <= j < k ==> DrawFloorAsWritten(toDraws[j], numFloors) == r.value.onFloor
  {
    var onFloor := DrawFloorAsWritten(onDraw, numFloors);
    var toFloor := onFloor;
    var i := 0;
    // toFloor starts equal to onFloor, so the body runs at least once, as a do-while does
    while toFloor == onFloor && i < |toDraws|
      invariant 0 <= i <= |toDraws|
      invariant 1 <= toFloor <= numFloors + 1
      invariant forall j :: 0 <= j < i - 1 ==> DrawFloorAsWritten(toDraws[j], numFloors) == onFloor
      invariant toFloor == onFloor ==> forall j :: 0 <= j < i ==> DrawFloorAsWritten(toDraws[j], numFloors) == onFloor
      invariant toFloor != onFloor ==> 0 < i && toFloor == DrawFloorAsWritten(toDraws[i - 1], numFloors)
    {
      toFloor := DrawFloorAsWritten(toDraws[i], numFloors);
      i := i + 1;
    }
    if toFloor == onFloor {
      r := None;
    } else {
      r := Some(Request(onFloor, toFloor, false));
      assert forall j :: 0 <= j < i - 1 ==> DrawFloorAsWritten(toDraws[j], numFloors) == r.value.onFloor;
    }
  }

  /**
   * A constructed request is one the store accepts exactly when neither of
   * its two floors came from the top rand() value.
   */
  lemma NewRequestValid(numFloors: int, onDraw: int, toDraw: int)
    requires 1 <= numFloors
    requires 0 <= onDraw <= RandMax && 0 <= toDraw <= RandMax
    requires DrawFloorAsWritten(onDraw, numFloors) != DrawFloorAsWritten(toDraw, numFloors)
    ensures ValidRequest(Request(DrawFloorAsWritten(onDraw, numFloors), DrawFloorAsWritten(toDraw, numFloors), false), numFloors)
            <==> onDraw != RandMax && toDraw != RandMax
  {
  }
}
