/**
  RoundToNearest: the label set is sorted by distance to the value with a
  stable sort (Enumerable.OrderBy) and the first element is taken.
 */
module Quantizer {

  /** The label set, in the order the source enumerates it. */
  const Targets: seq<real> := [0.25, 0.5, 0.75, 1.0]

  predicate IsLabel(x: real) {
    x in Targets
  }

  function Abs(x: real): real {
    if x < 0.0 then -x else x
  }

  ghost predicate SortedBy<T>(s: seq<T>, key: T -> real) {
    forall i, j :: 0 <= i < j < |s| ==> key(s[i]) <= key(s[j])
  }

  /** Inserts x before the first element whose key is not smaller than x's. */
  function InsertBy<T>(x: T, s: seq<T>, key: T -> real): (r: seq<T>)
    ensures |r| == |s| + 1
  {
    if s == [] then [x]
    else if key(x) <= key(s[0]) then [x] + s
    else [s[0]] + InsertBy(x, s[1..], key)
  }

  /** Inserting adds exactly x. */
  lemma {:induction false} InsertByCount<T>(x: T, s: seq<T>, key: T -> real)
    ensures multiset(InsertBy(x, s, key)) == multiset(s) + multiset{x}
  {
    if s != [] && key(x) > key(s[0]) {
      assert s == [s[0]] + s[1..];
      InsertByCount(x, s[1..], key);
    }
  }

  /** The head after inserting: x when it does not sort after the old head. */
  lemma InsertByHead<T>(x: T, s: seq<T>, key: T -> real)
    ensures InsertBy(x, s, key)[0] == if s == [] || key(x) <= key(s[0]) then x else s[0]
  {
  }

  /** Inserting into a sorted sequence keeps it sorted. */
  lemma {:induction false} InsertBySorted<T>(x: T, s: seq<T>, key: T -> real)
    requires SortedBy(s, key)
    ensures SortedBy(InsertBy(x, s, key), key)
  {
    if s != [] && key(x) > key(s[0]) {
      var r := InsertBy(x, s, key);
      var tail := InsertBy(x, s[1..], key);
      InsertBySorted(x, s[1..], key);
      InsertByHead(x, s[1..], key);
      assert r == [s[0]] + tail;
      forall i, j | 0 <= i < j < |r|
        ensures key(r[i]) <= key(r[j])
      {
        if i > 0 {
          assert r[i] == tail[i - 1] && r[j] == tail[j - 1];
        } else {
          assert r[j] == tail[j - 1];
          assert key(s[0]) <= key(tail[0]);
        }
      }
    }
  }

  /**
    A stable sort by key: an element is placed in front of every later element
    with an equal key, as OrderBy does.
   */
  function OrderBy<T>(s: seq<T>, key: T -> real): (r: seq<T>)
    ensures |r| == |s|
  {
    if s == [] then []
    else InsertBy(s[0], OrderBy(s[1..], key), key)
  }

  lemma {:induction false} OrderBySorts<T>(s: seq<T>, key: T -> real)
    ensures multiset(OrderBy(s, key)) == multiset(s)
    ensures SortedBy(OrderBy(s, key), key)
  {
    if s != [] {
      assert s == [s[0]] + s[1..];
      OrderBySorts(s[1..], key);
      InsertByCount(s[0], OrderBy(s[1..], key), key);
      InsertBySorted(s[0], OrderBy(s[1..], key), key);
    }
  }

  /** Reference definition: the earliest index whose key is minimal. */
  function EarliestMin<T>(s: seq<T>, key: T -> real): (k: nat)
    requires |s| > 0
    ensures k < |s|
    ensures forall i :: 0 <= i < |s| ==> key(s[k]) <= key(s[i])
    ensures forall i :: 0 <= i < k ==> key(s[i]) > key(s[k])
  {
    if |s| == 1 then 0
    else
      var m := 1 + EarliestMin(s[1..], key);
      assert forall i :: 1 <= i < |s| ==> s[i] == s[1..][i - 1];
      if key(s[0]) <= key(s[m]) then 0 else m
  }

  /** The first element after a stable sort is the earliest element of minimal key. */
  lemma {:induction false} OrderByFirst<T>(s: seq<T>, key: T -> real)
    requires |s| > 0
    ensures OrderBy(s, key)[0] == s[EarliestMin(s, key)]
  {
    if |s| > 1 {
      OrderByFirst(s[1..], key);
    }
    InsertByHead(s[0], OrderBy(s[1..], key), key);
  }

  /** The sort key of RoundToNearest: the distance of a label to the value. */
  function DistanceTo(value: real): real -> real {
    t => Abs(value - t)
  }

  /** RoundToNearest(value): targets.OrderBy(t => |value - t|).First(). */
  function RoundToNearest(value: real): (r: real)
    ensures IsLabel(r)
  {
    var sorted := OrderBy(Targets, DistanceTo(value));
    OrderBySorts(Targets, DistanceTo(value));
    assert sorted[0] in multiset(sorted);
    sorted[0]
  }

  /**
    The label returned is nearest to the value, and every smaller label (that
    is, every label enumerated before it) is strictly farther away: exact ties
    go to the earliest label.
   */
  lemma RoundToNearestIsNearest(value: real)
    ensures forall i :: 0 <= i < |Targets| ==>
      Abs(value - RoundToNearest(value)) <= Abs(value - Targets[i])
    ensures forall i :: 0 <= i < |Targets| && Targets[i] < RoundToNearest(value) ==>
      Abs(value - Targets[i]) > Abs(value - RoundToNearest(value))
  {
    RoundToNearestIndex(value);
    EarliestMinIsNearestEarliest(value);
  }

  /**
    The label at the earliest index of minimal distance is nearest, and every
    label before it in the list (that is, every smaller label) is strictly farther.
   */
  lemma EarliestMinIsNearestEarliest(value: real)
    ensures NearestEarliest(value, Targets[EarliestMin(Targets, DistanceTo(value))])
  {
    var k := EarliestMin(Targets, DistanceTo(value));
    forall i | 0 <= i < |Targets|
      ensures Abs(value - Targets[k]) <= Abs(value - Targets[i])
      ensures i < k ==> Abs(value - Targets[i]) > Abs(value - Targets[k])
    {
      assert DistanceTo(value)(Targets[k]) <= DistanceTo(value)(Targets[i]);
      if i < k {
        assert DistanceTo(value)(Targets[i]) > DistanceTo(value)(Targets[k]);
      }
    }
    assert forall i :: 0 <= i < |Targets| && Targets[i] < Targets[k] ==> i < k;
  }

  /** The result sits at the index EarliestMin picks out. */
  lemma RoundToNearestIndex(value: real)
    ensures RoundToNearest(value) == Targets[EarliestMin(Targets, DistanceTo(value))]
  {
    OrderByFirst(Targets, DistanceTo(value));
  }

  /** Nearest, with every smaller label strictly farther: the two properties RoundToNearest has. */
  ghost predicate NearestEarliest(value: real, x: real) {
    && IsLabel(x)
    && (forall i :: 0 <= i < |Targets| ==> Abs(value - x) <= Abs(value - Targets[i]))
    && (forall i :: 0 <= i < |Targets| && Targets[i] < x ==> Abs(value - Targets[i]) > Abs(value - x))
  }

  /** At most one label is nearest-and-earliest. */
  lemma NearestEarliestUnique(value: real, x: real, y: real)
    requires NearestEarliest(value, x) && NearestEarliest(value, y)
    ensures x == y
  {
  }

  /** The nearest-and-earliest label, read off the midpoints 0.375, 0.625 and 0.875. */
  lemma NearestEarliestThresholds(value: real, x: real)
    requires NearestEarliest(value, x)
    ensures x == if value <= 0.375 then 0.25
      else if value <= 0.625 then 0.5
      else if value <= 0.875 then 0.75
      else 1.0
  {
    assert Abs(value - x) <= Abs(value - Targets[0]) && Abs(value - x) <= Abs(value - Targets[1]);
    assert Abs(value - x) <= Abs(value - Targets[2]) && Abs(value - x) <= Abs(value - Targets[3]);
    if x >= Targets[1] {
      assert Abs(value - Targets[0]) > Abs(value - x);
    }
    if x >= Targets[2] {
      assert Abs(value - Targets[1]) > Abs(value - x);
    }
    if x >= Targets[3] {
      assert Abs(value - Targets[2]) > Abs(value - x);
    }
  }

  /** The two properties above determine the label: any label that has both is the result. */
  lemma NearestLabelIsUnique(value: real, x: real)
    requires NearestEarliest(value, x)
    ensures x == RoundToNearest(value)
  {
    RoundToNearestIsNearest(value);
    NearestEarliestUnique(value, x, RoundToNearest(value));
  }

  /** Closed form: the decision points are the midpoints 0.375, 0.625 and 0.875, each won by the smaller label. */
  lemma RoundToNearestThresholds(value: real)
    ensures RoundToNearest(value) ==
      if value <= 0.375 then 0.25
      else if value <= 0.625 then 0.5
      else if value <= 0.875 then 0.75
      else 1.0
  {
    RoundToNearestIsNearest(value);
    NearestEarliestThresholds(value, RoundToNearest(value));
  }

  /** 0.625 is an exact tie between 0.5 and 0.75 and goes to 0.5; 0.63 is nearer to 0.75. */
  lemma RoundToNearestExamples()
    ensures RoundToNearest(0.26) == 0.25
    ensures RoundToNearest(0.625) == 0.5
    ensures RoundToNearest(0.63) == 0.75
    ensures RoundToNearest(-3.0) == 0.25 && RoundToNearest(7.0) == 1.0
  {
    RoundToNearestThresholds(0.26);
    RoundToNearestThresholds(0.625);
    RoundToNearestThresholds(0.63);
    RoundToNearestThresholds(-3.0);
    RoundToNearestThresholds(7.0);
  }
}
