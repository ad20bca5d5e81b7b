/**
 * The LOOK ranking of target floors. `Sort` stands for the std::sort calls of
 * rank_requests; `InOrder` and `LookSchedule` are the reference definitions the
 * ranking is proved against.
 */
module Look {
  import opened ElevatorTypes

  /** `a` is visited before `b` by a sweep that runs upwards when `up` holds. */
  predicate Precedes(a: int, b: int, up: bool) {
    if up then a < b else a > b
  }

  /** No element of `s` precedes an earlier one: `s` is sorted in sweep order (ties allowed). */
  ghost predicate Sorted(s: seq<int>, up: bool) {
    forall i, j :: 0 <= i < j < |s| ==> !Precedes(s[j], s[i], up)
  }

  /** `s` is strictly monotone in sweep order. */
  ghost predicate Strict(s: seq<int>, up: bool) {
    forall i, j :: 0 <= i < j < |s| ==> Precedes(s[i], s[j], up)
  }

  /** No floor occurs twice in `s`. */
  ghost predicate Distinct(s: seq<int>) {
    forall x :: multiset(s)[x] <= 1
  }

  ghost function Elems(s: seq<int>): set<int> {
    set x | x in s
  }

  // ---------------------------------------------------------------------------
  // std::sort (ascending for `up`, std::greater otherwise)

  function InsertSorted(x: int, s: seq<int>, up: bool): (r: seq<int>)
    requires Sorted(s, up)
    ensures Sorted(r, up)
    ensures multiset(r) == multiset(s) + multiset{x}
  {
    if s == [] || !Precedes(s[0], x, up) then
      SortedCons(x, s, up);
      [x] + s
    else
      var rest := InsertSorted(x, s[1..], up);
      assert s == [s[0]] + s[1..];
      forall y | y in rest ensures !Precedes(y, s[0], up) {
        assert y in multiset(rest);
      }
      SortedCons(s[0], rest, up);
      [s[0]] + rest
  }

  /** Putting in front an element that no element of `s` precedes keeps `s` sorted. */
  lemma SortedCons(x: int, s: seq<int>, up: bool)
    requires Sorted(s, up)
    requires forall y :: y in s ==> !Precedes(y, x, up)
    ensures Sorted([x] + s, up)
  {
    var r := [x] + s;
    forall i, j | 0 <= i < j < |r| ensures !Precedes(r[j], r[i], up) {
      if i == 0 {
        assert r[j] == s[j - 1];
        assert r[j] in s;
      } else {
        assert r[i] == s[i - 1] && r[j] == s[j - 1];
      }
    }
  }

  /** The sorted permutation of `s`. */
  function Sort(s: seq<int>, up: bool): (r: seq<int>)
    ensures Sorted(r, up)
    ensures multiset(r) == multiset(s)
  {
    if s == [] then []
    else
      assert s == [s[0]] + s[1..];
      InsertSorted(s[0], Sort(s[1..], up), up)
  }

  lemma SortedDistinctIsStrict(s: seq<int>, up: bool)
    requires Sorted(s, up) && Distinct(s)
    ensures Strict(s, up)
  {
    forall i, j | 0 <= i < j < |s|
      ensures Precedes(s[i], s[j], up)
    {
      var p, q := s[..j], s[j..];
      assert s == p + q;
      assert multiset(s) == multiset(p) + multiset(q);
      assert q[0] == s[j] && p[i] == s[i];
      assert multiset(q)[s[j]] >= 1;
      assert multiset(p)[s[i]] >= 1;
      assert multiset(s)[s[i]] <= 1;
      assert s[i] != s[j];
    }
  }

  lemma {:induction false} StrictIsDistinct(s: seq<int>, up: bool)
    requires Strict(s, up)
    ensures Distinct(s)
    decreases |s|
  {
    if s != [] {
      StrictIsDistinct(s[1..], up);
      assert s == [s[0]] + s[1..];
      assert s[0] !in s[1..];
    }
  }

  // ---------------------------------------------------------------------------
  // Sets of floors in sweep order

  /** `m` is the element of `S` that every other element of `S` follows. */
  ghost predicate IsExtreme(m: int, S: set<int>, up: bool) {
    m in S && forall x :: x in S && x != m ==> Precedes(m, x, up)
  }

  /** Every non-empty set of floors has an extreme element. */
  lemma {:induction false} ExtremeExists(S: set<int>, up: bool)
    requires S != {}
    ensures exists m :: IsExtreme(m, S, up)
    decreases S
  {
    assert (forall y :: y !in S) ==> S == {};
    var x :| x in S;
    if S == {x} {
      assert IsExtreme(x, S, up);
    } else {
      ExtremeExists(S - {x}, up);
      var m :| IsExtreme(m, S - {x}, up);
      assert forall y :: y in S ==> y == x || y in S - {x};
      if Precedes(x, m, up) {
        assert IsExtreme(x, S, up);
      } else {
        assert IsExtreme(m, S, up);
      }
    }
  }

  ghost function Extreme(S: set<int>, up: bool): (m: int)
    requires S != {}
  {
    ExtremeExists(S, up);
    var m :| IsExtreme(m, S, up);
    m
  }

  /** The floors of `S`, each once, in sweep order (InOrderFacts proves this). */
  ghost function InOrder(S: set<int>, up: bool): seq<int>
    decreases S
  {
    if S == {} then []
    else
      var m := Extreme(S, up);
      [m] + InOrder(S - {m}, up)
  }

  /** InOrder lists exactly the floors of `S`, once each, strictly in sweep order. */
  lemma {:induction false} InOrderFacts(S: set<int>, up: bool)
    ensures Strict(InOrder(S, up), up)
    ensures Elems(InOrder(S, up)) == S
    ensures |InOrder(S, up)| == |S|
    decreases S
  {
    if S != {} {
      var m := Extreme(S, up);
      var rest := InOrder(S - {m}, up);
      InOrderFacts(S - {m}, up);
      StrictCons(m, rest, up);
      ElemsCons(m, rest);
    }
  }

  lemma StrictCons(x: int, s: seq<int>, up: bool)
    requires Strict(s, up)
    requires forall y :: y in s ==> Precedes(x, y, up)
    ensures Strict([x] + s, up)
  {
    var r := [x] + s;
    forall i, j | 0 <= i < j < |r| ensures Precedes(r[i], r[j], up) {
      assert r[j] == s[j - 1];
      if i == 0 {
        assert r[j] in s;
      } else {
        assert r[i] == s[i - 1];
      }
    }
  }

  lemma ElemsCons(x: int, s: seq<int>)
    ensures Elems([x] + s) == {x} + Elems(s)
  {
    var r := [x] + s;
    forall y ensures y in Elems(r) <==> y == x || y in Elems(s) {
      if y in Elems(r) {
        var k :| 0 <= k < |r| && r[k] == y;
        if k > 0 { assert s[k - 1] == y; }
      }
      if y in Elems(s) {
        var k :| 0 <= k < |s| && s[k] == y;
        assert r[k + 1] == y;
      }
    }
  }

  lemma InOrderSingleton(x: int, up: bool)
    ensures InOrder({x}, up) == [x]
  {
    assert {x} - {Extreme({x}, up)} == {};
  }

  /** The first element of a strictly monotone sequence is the extreme of its elements. */
  lemma StrictHeadIsExtreme(s: seq<int>, up: bool)
    requires Strict(s, up) && s != []
    ensures s[0] in Elems(s) && Extreme(Elems(s), up) == s[0]
  {
    assert s[0] in Elems(s);
    var m := Extreme(Elems(s), up);
    var k :| 0 <= k < |s| && s[k] == m;
    assert k == 0 || Precedes(s[0], m, up);
  }

  /** A strictly monotone sequence is the one InOrder gives for its elements. */
  lemma {:induction false} StrictIsInOrder(s: seq<int>, up: bool)
    requires Strict(s, up)
    ensures s == InOrder(Elems(s), up)
    decreases |s|
  {
    if s != [] {
      StrictHeadIsExtreme(s, up);
      var t := s[1..];
      assert s == [s[0]] + t;
      ElemsCons(s[0], t);
      forall k | 0 <= k < |t| ensures t[k] != s[0] {
        assert t[k] == s[k + 1];
      }
      assert Elems(t) == Elems(s) - {s[0]};
      StrictIsInOrder(t, up);
    }
  }

  /** Sorting a duplicate-free sequence yields its elements in sweep order. */
  lemma SortIsInOrder(s: seq<int>, up: bool)
    requires Distinct(s)
    ensures Sort(s, up) == InOrder(Elems(s), up)
  {
    var r := Sort(s, up);
    assert Distinct(r);
    SortedDistinctIsStrict(r, up);
    assert Elems(r) == Elems(s) by {
      forall x ensures x in r <==> x in s {
        assert x in r <==> x in multiset(r);
      }
    }
    StrictIsInOrder(r, up);
  }

  // ---------------------------------------------------------------------------
  // The LOOK schedule

  /** Floor `f` lies strictly ahead of a cabin at `floor` travelling in `dir`. */
  predicate Ahead(f: int, floor: int, dir: Direction) {
    if dir == Up then f > floor else f < floor
  }

  ghost function AheadOf(targets: set<int>, floor: int, dir: Direction): set<int> {
    set f | f in targets && Ahead(f, floor, dir)
  }

  /** The remaining targets, including the cabin's own floor. */
  ghost function BehindOf(targets: set<int>, floor: int, dir: Direction): set<int> {
    set f | f in targets && !Ahead(f, floor, dir)
  }

  /**
   * rank_requests' split: a target goes on the upper list when it is above the
   * cabin, or on the cabin's own floor while heading down; otherwise on the lower.
   */
  predicate AboveOrTurn(f: int, floor: int, dir: Direction) {
    f > floor || (f == floor && dir == Down)
  }

  /** The upper list is the part ahead when heading up, and the return sweep when heading down. */
  lemma SplitByFloor(lower: seq<int>, upper: seq<int>, targets: set<int>, floor: int, dir: Direction)
    requires forall x :: x in lower <==> x in targets && !AboveOrTurn(x, floor, dir)
    requires forall x :: x in upper <==> x in targets && AboveOrTurn(x, floor, dir)
    ensures Elems(upper) == if dir == Up then AheadOf(targets, floor, dir) else BehindOf(targets, floor, dir)
    ensures Elems(lower) == if dir == Up then BehindOf(targets, floor, dir) else AheadOf(targets, floor, dir)
  {
    var A, B := AheadOf(targets, floor, dir), BehindOf(targets, floor, dir);
    if dir == Up {
      forall x ensures x in Elems(upper) <==> x in A {
      }
      forall x ensures x in Elems(lower) <==> x in B {
      }
    } else {
      forall x ensures x in Elems(upper) <==> x in B {
      }
      forall x ensures x in Elems(lower) <==> x in A {
      }
    }
  }

  /**
   * The LOOK visiting order: the targets ahead in the direction of travel,
   * nearest first, then the others on the return sweep, nearest first.
   */
  ghost function LookSchedule(targets: set<int>, floor: int, dir: Direction): seq<int> {
    InOrder(AheadOf(targets, floor, dir), dir == Up) + InOrder(BehindOf(targets, floor, dir), dir == Down)
  }

  /**
   * rank_requests' result: sorting the lower list downward and the upper list
   * upward, and putting the one in the direction of travel first, gives the
   * LOOK schedule.
   */
  lemma SortedSplitIsLook(lower: seq<int>, upper: seq<int>, targets: set<int>, floor: int, dir: Direction)
    requires Distinct(lower) && Distinct(upper)
    requires forall x :: x in lower <==> x in targets && !AboveOrTurn(x, floor, dir)
    requires forall x :: x in upper <==> x in targets && AboveOrTurn(x, floor, dir)
    ensures LookSchedule(targets, floor, dir) ==
      if dir == Up then Sort(upper, true) + Sort(lower, false)
      else Sort(lower, false) + Sort(upper, true)
  {
    SplitByFloor(lower, upper, targets, floor, dir);
    SortIsInOrder(lower, false);
    SortIsInOrder(upper, true);
  }

  lemma AheadBehindSplit(targets: set<int>, floor: int, dir: Direction)
    ensures AheadOf(targets, floor, dir) + BehindOf(targets, floor, dir) == targets
    ensures AheadOf(targets, floor, dir) * BehindOf(targets, floor, dir) == {}
  {
  }

  lemma DistinctConcat(a: seq<int>, b: seq<int>)
    requires Distinct(a) && Distinct(b)
    requires forall x :: x in a ==> x !in b
    ensures Distinct(a + b)
  {
    assert multiset(a + b) == multiset(a) + multiset(b);
    forall x ensures multiset(a + b)[x] <= 1 {
      assert multiset(a)[x] <= 1 && multiset(b)[x] <= 1;
      if x in a {
        assert multiset(b)[x] == 0;
      }
    }
  }

  lemma ElemsConcat(a: seq<int>, b: seq<int>)
    ensures Elems(a + b) == Elems(a) + Elems(b)
  {
    forall y ensures y in Elems(a + b) <==> y in Elems(a) || y in Elems(b) {
      assert y in a + b <==> y in a || y in b;
    }
  }

  /** The schedule holds every target exactly once. */
  lemma LookIsPermutation(targets: set<int>, floor: int, dir: Direction)
    ensures Distinct(LookSchedule(targets, floor, dir))
    ensures Elems(LookSchedule(targets, floor, dir)) == targets
    ensures |LookSchedule(targets, floor, dir)| == |targets|
  {
    var A, B := AheadOf(targets, floor, dir), BehindOf(targets, floor, dir);
    var a, b := InOrder(A, dir == Up), InOrder(B, dir == Down);
    InOrderFacts(A, dir == Up);
    InOrderFacts(B, dir == Down);
    AheadBehindSplit(targets, floor, dir);
    StrictIsDistinct(a, dir == Up);
    StrictIsDistinct(b, dir == Down);
    forall x | x in a ensures x !in b {
      assert x in Elems(a);
    }
    DistinctConcat(a, b);
    ElemsConcat(a, b);
    assert |A + B| == |A| + |B|;
  }

  /**
   * The schedule is two strictly monotone sweeps: first every target ahead in
   * the direction of travel, then every other target in the opposite direction,
   * so it reverses at most once.
   */
  lemma LookSweeps(targets: set<int>, floor: int, dir: Direction)
    ensures var s, k := LookSchedule(targets, floor, dir), |AheadOf(targets, floor, dir)|;
      && k <= |s|
      && Strict(s[..k], dir == Up)
      && Strict(s[k..], dir == Down)
      && (forall i :: 0 <= i < k ==> s[i] in targets && Ahead(s[i], floor, dir))
      && (forall i :: k <= i < |s| ==> s[i] in targets && !Ahead(s[i], floor, dir))
  {
    var A, B := AheadOf(targets, floor, dir), BehindOf(targets, floor, dir);
    var a, b := InOrder(A, dir == Up), InOrder(B, dir == Down);
    InOrderFacts(A, dir == Up);
    InOrderFacts(B, dir == Down);
    var s := a + b;
    assert LookSchedule(targets, floor, dir) == s;
    var k := |a|;
    assert k == |A|;
    assert s[..k] == a && s[k..] == b;
    assert Strict(s[..k], dir == Up) && Strict(s[k..], dir == Down);
    forall i | 0 <= i < k ensures s[i] in targets && Ahead(s[i], floor, dir) {
      assert s[i] == a[i] && a[i] in Elems(a);
    }
    forall i | k <= i < |s| ensures s[i] in targets && !Ahead(s[i], floor, dir) {
      assert s[i] == b[i - k] && b[i - k] in Elems(b);
    }
  }

  /**
   * While some target lies ahead, the schedule starts with the nearest target
   * ahead: LOOK never turns round before the last request in its direction.
   */
  lemma LookHeadsNearest(targets: set<int>, floor: int, dir: Direction, f: int)
    requires f in targets && Ahead(f, floor, dir)
    ensures var s := LookSchedule(targets, floor, dir);
      && s != []
      && Ahead(s[0], floor, dir)
      && (s[0] == f || Precedes(s[0], f, dir == Up))
  {
    var a := InOrder(AheadOf(targets, floor, dir), dir == Up);
    InOrderFacts(AheadOf(targets, floor, dir), dir == Up);
    assert f in Elems(a);
    var j :| 0 <= j < |a| && a[j] == f;
    assert a[0] in Elems(a);
    assert (LookSchedule(targets, floor, dir))[0] == a[0];
  }

  lemma LookSingleton(f: int, floor: int, dir: Direction)
    ensures LookSchedule({f}, floor, dir) == [f]
  {
    InOrderSingleton(f, true);
    InOrderSingleton(f, false);
    if Ahead(f, floor, dir) {
      assert AheadOf({f}, floor, dir) == {f};
      assert BehindOf({f}, floor, dir) == {};
    } else {
      assert AheadOf({f}, floor, dir) == {};
      assert BehindOf({f}, floor, dir) == {f};
    }
  }

  lemma LookEmpty(floor: int, dir: Direction)
    ensures LookSchedule({}, floor, dir) == []
  {
    assert AheadOf({}, floor, dir) == {};
    assert BehindOf({}, floor, dir) == {};
  }

  /**
   * Worked cases: calls at 2 and 5 with the cabin at 3 give [5, 2] going up
   * and [2, 5] going down; a target at the cabin's own floor joins the
   * return sweep.
   */
  lemma LookExamples()
    ensures LookSchedule({2, 5}, 3, Up) == [5, 2]
    ensures LookSchedule({2, 5}, 3, Down) == [2, 5]
    ensures LookSchedule({3, 5}, 3, Up) == [5, 3]
    ensures LookSchedule({1, 3}, 3, Down) == [1, 3]
  {
    TwoFloors(2, 5, 3, Up);
    TwoFloors(2, 5, 3, Down);
    TwoFloors(3, 5, 3, Up);
    TwoFloors(1, 3, 3, Down);
  }

  lemma TwoFloors(lo: int, hi: int, floor: int, dir: Direction)
    requires lo < hi
    requires dir == Up ==> lo <= floor < hi
    requires dir == Down ==> lo < floor <= hi
    ensures LookSchedule({lo, hi}, floor, dir) == if dir == Up then [hi, lo] else [lo, hi]
  {
    InOrderSingleton(lo, true);
    InOrderSingleton(lo, false);
    InOrderSingleton(hi, true);
    InOrderSingleton(hi, false);
    if dir == Up {
      assert AheadOf({lo, hi}, floor, dir) == {hi};
      assert BehindOf({lo, hi}, floor, dir) == {lo};
    } else {
      assert AheadOf({lo, hi}, floor, dir) == {lo};
      assert BehindOf({lo, hi}, floor, dir) == {hi};
    }
  }
}
