/**
 * The request store: a map from floor to the FIFO list of requests active at
 * that floor (`requests`), beside the set of floors with at least one request
 * (`request_targets`). These functions give the store's contents after each
 * operation; the Elevator class keeps its fields equal to them.
 */
module RequestStore {
  import opened ElevatorTypes

  type Store = map<int, seq<Request>>

  /** The floor a request is filed under: its destination once picked up, else its call floor. */
  function KeyOf(r: Request): int {
    if r.pickedUp then r.toFloor else r.onFloor
  }

  /** The list at floor `f`, empty when there is none (std::map's operator[]). */
  function ListAt(m: Store, f: int): seq<Request> {
    if f in m then m[f] else []
  }

  function PickUp(r: Request): Request {
    r.(pickedUp := true)
  }

  /** Every stored request is valid and filed under its own key. */
  ghost predicate WellFormed(m: Store, numFloors: int) {
    forall f, i :: f in m && 0 <= i < |m[f]| ==> ValidRequest(m[f][i], numFloors) && KeyOf(m[f][i]) == f
  }

  /** The target set is exactly the floors whose request list is present, and no list is empty. */
  ghost predicate Consistent(m: Store, targets: set<int>) {
    m.Keys == targets && forall f :: f in m ==> m[f] != []
  }

  /** add_request's store update: append `r` to the list at its key, leave every other floor alone. */
  function Insert(m: Store, r: Request): (m': Store)
    ensures m'.Keys == m.Keys + {KeyOf(r)}
    ensures forall f :: ListAt(m', f) == if f == KeyOf(r) then ListAt(m, f) + [r] else ListAt(m, f)
  {
    m[KeyOf(r) := ListAt(m, KeyOf(r)) + [r]]
  }

  /** add_request keeps the store invariant and adds the request's key to the targets. */
  lemma InsertKeepsInvariant(m: Store, targets: set<int>, r: Request, numFloors: int)
    requires WellFormed(m, numFloors) && Consistent(m, targets) && ValidRequest(r, numFloors)
    ensures WellFormed(Insert(m, r), numFloors)
    ensures Consistent(Insert(m, r), targets + {KeyOf(r)})
  {
    var m' := Insert(m, r);
    forall f, i | f in m' && 0 <= i < |m'[f]|
      ensures ValidRequest(m'[f][i], numFloors) && KeyOf(m'[f][i]) == f
    {
      assert m'[f] == ListAt(m', f);
      if f == KeyOf(r) && i == |ListAt(m, f)| {
        assert m'[f][i] == r;
      } else {
        assert m'[f][i] == m[f][i];
      }
    }
  }

  /** The picked-up copies of the calls in `rs` headed for floor `g`, in order. */
  function CallsTo(rs: seq<Request>, g: int): (c: seq<Request>)
    ensures forall i :: 0 <= i < |c| ==>
      c[i].pickedUp && c[i].toFloor == g && c[i].(pickedUp := false) in rs
    ensures c == [] <==> forall i :: 0 <= i < |rs| ==> rs[i].pickedUp || rs[i].toFloor != g
    decreases |rs|
  {
    if rs == [] then []
    else
      var init, last := rs[..|rs| - 1], rs[|rs| - 1];
      assert rs == init + [last];
      CallsTo(init, g) + (if !last.pickedUp && last.toFloor == g then [PickUp(last)] else [])
  }

  /**
   * The arrival loop of handle_requests: walk `rs` in order and re-add every
   * call in it as picked up; requests already picked up are dropped.
   */
  function Rekey(m: Store, rs: seq<Request>): Store
    decreases |rs|
  {
    if rs == [] then m
    else
      var init, last := rs[..|rs| - 1], rs[|rs| - 1];
      var m0 := Rekey(m, init);
      if last.pickedUp then m0 else Insert(m0, PickUp(last))
  }

  /** After the loop, floor `g` holds its old list followed by the calls from `rs` bound for `g`. */
  lemma {:induction false} RekeyAt(m: Store, rs: seq<Request>, g: int)
    ensures ListAt(Rekey(m, rs), g) == ListAt(m, g) + CallsTo(rs, g)
    ensures g in Rekey(m, rs) <==> g in m || CallsTo(rs, g) != []
    decreases |rs|
  {
    if rs != [] {
      var init, last := rs[..|rs| - 1], rs[|rs| - 1];
      var m0 := Rekey(m, init);
      RekeyAt(m, init, g);
      var tail := if !last.pickedUp && last.toFloor == g then [PickUp(last)] else [];
      assert CallsTo(rs, g) == CallsTo(init, g) + tail;
      if !last.pickedUp {
        assert Rekey(m, rs) == Insert(m0, PickUp(last));
        assert KeyOf(PickUp(last)) == last.toFloor;
      } else {
        assert Rekey(m, rs) == m0;
        assert tail == [];
      }
    }
  }

  /** The store after the cabin serves floor `f`: that floor's list is taken out and its calls re-added. */
  function Arrive(m: Store, f: int): Store {
    Rekey(m - {f}, ListAt(m, f))
  }

  /** No call filed at `f` is bound for `f`, since a request's two floors differ. */
  lemma NoCallsBackTo(m: Store, f: int, numFloors: int)
    requires WellFormed(m, numFloors)
    ensures CallsTo(ListAt(m, f), f) == []
  {
    var rs := ListAt(m, f);
    forall i | 0 <= i < |rs| ensures rs[i].pickedUp || rs[i].toFloor != f {
      assert ValidRequest(m[f][i], numFloors) && KeyOf(m[f][i]) == f;
    }
  }

  /**
   * Serving floor `f` removes it from the store for good, keeps the store
   * invariant, and appends to each other floor exactly the calls from `f`
   * bound for it.
   */
  lemma ArriveServes(m: Store, targets: set<int>, f: int, numFloors: int)
    requires WellFormed(m, numFloors) && Consistent(m, targets)
    ensures var m' := Arrive(m, f);
      && f !in m'
      && WellFormed(m', numFloors)
      && Consistent(m', m'.Keys)
      && (forall g :: g in m' <==> (g in targets && g != f) || CallsTo(ListAt(m, f), g) != [])
      && (forall g :: g != f ==> ListAt(m', g) == ListAt(m, g) + CallsTo(ListAt(m, f), g))
  {
    var rs := ListAt(m, f);
    var m' := Arrive(m, f);
    forall g ensures ListAt(m', g) == ListAt(m - {f}, g) + CallsTo(rs, g)
      && (g in m' <==> g in m - {f} || CallsTo(rs, g) != [])
    {
      RekeyAt(m - {f}, rs, g);
    }
    NoCallsBackTo(m, f, numFloors);
    forall g | g != f ensures ListAt(m - {f}, g) == ListAt(m, g) {
    }
    forall g, i | g in m' && 0 <= i < |m'[g]|
      ensures ValidRequest(m'[g][i], numFloors) && KeyOf(m'[g][i]) == g
    {
      ArrivedEntry(m, f, numFloors, m', g, i);
    }
    forall g | g in m' ensures m'[g] != [] {
      assert m'[g] == ListAt(m, g) + CallsTo(rs, g);
      assert g in m ==> m[g] != [];
    }
  }

  lemma ArrivedEntry(m: Store, f: int, numFloors: int, m': Store, g: int, i: int)
    requires WellFormed(m, numFloors)
    requires g != f && g in m'
    requires m'[g] == ListAt(m, g) + CallsTo(ListAt(m, f), g)
    requires 0 <= i < |m'[g]|
    ensures ValidRequest(m'[g][i], numFloors) && KeyOf(m'[g][i]) == g
  {
    var rs := ListAt(m, f);
    var kept, added := ListAt(m, g), CallsTo(rs, g);
    if i < |kept| {
      assert m'[g][i] == m[g][i];
    } else {
      var c := added[i - |kept|];
      assert m'[g][i] == c;
      var call := c.(pickedUp := false);
      assert call in rs;
      var j :| 0 <= j < |rs| && rs[j] == call;
      assert ValidRequest(m[f][j], numFloors);
    }
  }

  /** Arriving at a floor with no requests leaves the store as it was. */
  lemma ArriveAtEmptyFloor(m: Store, f: int)
    requires f !in m
    ensures Arrive(m, f) == m
  {
    assert m - {f} == m;
  }

  /** Every target lies inside the building. */
  lemma TargetsInBuilding(m: Store, targets: set<int>, numFloors: int)
    requires WellFormed(m, numFloors) && Consistent(m, targets)
    ensures forall f :: f in targets ==> 1 <= f <= numFloors
  {
    forall f | f in targets ensures 1 <= f <= numFloors {
      assert ValidRequest(m[f][0], numFloors) && KeyOf(m[f][0]) == f;
    }
  }
}
