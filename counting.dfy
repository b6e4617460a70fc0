/**
 * Counting over sequences, in the way the forecast aggregation counts with
 * Python dictionaries: `Distinct` is the key order of a dict filled in
 * sequence order (insertion order), `Tally` is a `defaultdict(int)` counter,
 * and `MostFrequent` is `max(counter, key=counter.get)`, which walks the keys
 * in insertion order and only replaces its candidate on a strictly greater
 * count.
 */
module Counting {

  /** Number of occurrences of `x` in `xs`. */
  function Count<T(==)>(xs: seq<T>, x: T): (n: nat)
    ensures n <= |xs|
    ensures n > 0 <==> x in xs
  {
    if xs == [] then 0
    else
      var p := xs[..|xs| - 1];
      assert xs == p + [xs[|xs| - 1]];
      Count(p, x) + (if xs[|xs| - 1] == x then 1 else 0)
  }

  predicate NoDuplicates<T(==)>(xs: seq<T>)
  {
    forall i, j :: 0 <= i < j < |xs| ==> xs[i] != xs[j]
  }

  /** Position of the first occurrence of `x` in `xs`. */
  function FirstIndex<T(==)>(xs: seq<T>, x: T): (i: nat)
    requires x in xs
    ensures i < |xs| && xs[i] == x
    ensures forall k :: 0 <= k < i ==> xs[k] != x
  {
    if xs[0] == x then 0 else 1 + FirstIndex(xs[1..], x)
  }

  /** The distinct elements of `xs`, in order of first occurrence (the keys of a dict filled from `xs`). */
  function Distinct<T(==)>(xs: seq<T>): (r: seq<T>)
    ensures NoDuplicates(r)
    ensures forall x | x in r :: x in xs
    ensures forall x | x in xs :: x in r
    ensures |r| <= |xs|
  {
    if xs == [] then []
    else
      var p := Distinct(xs[..|xs| - 1]);
      var x := xs[|xs| - 1];
      assert xs == xs[..|xs| - 1] + [x];
      if x in p then p else p + [x]
  }

  /** A first occurrence inside a prefix is a first occurrence in the whole sequence. */
  lemma FirstIndexOfPrefix<T>(xs: seq<T>, ys: seq<T>, x: T)
    requires x in xs
    ensures FirstIndex(xs + ys, x) == FirstIndex(xs, x)
  {
    var i, j := FirstIndex(xs + ys, x), FirstIndex(xs, x);
    assert (xs + ys)[j] == x;
    assert i < |xs| ==> xs[i] == x;
  }

  /** `Distinct` keeps the order in which elements first occur. */
  lemma {:induction false} DistinctKeepsFirstOccurrenceOrder<T>(xs: seq<T>, i: nat, j: nat)
    requires i < j < |Distinct(xs)|
    ensures FirstIndex(xs, Distinct(xs)[i]) < FirstIndex(xs, Distinct(xs)[j])
  {
    var p, x := xs[..|xs| - 1], xs[|xs| - 1];
    var d, dp := Distinct(xs), Distinct(p);
    assert xs == p + [x];
    FirstIndexOfPrefix(p, [x], d[i]);
    if j < |dp| {
      assert d[i] == dp[i] && d[j] == dp[j];
      FirstIndexOfPrefix(p, [x], d[j]);
      DistinctKeepsFirstOccurrenceOrder(p, i, j);
    } else {
      assert d[j] == x && x !in p;
      assert FirstIndex(xs, x) == |p|;
    }
  }

  /** A `defaultdict(int)` counter filled with the elements of `xs` in order. */
  function Tally<T(==)>(xs: seq<T>): (m: map<T, nat>)
    ensures forall x | x in m :: x in xs
    ensures forall x | x in xs :: x in m
    ensures forall x | x in m :: m[x] == Count(xs, x)
  {
    if xs == [] then map[]
    else
      var m := Tally(xs[..|xs| - 1]);
      var x := xs[|xs| - 1];
      assert xs == xs[..|xs| - 1] + [x];
      m[x := (if x in m then m[x] else 0) + 1]
  }

  /** Appending one element either repeats a known key or adds it at the end. */
  lemma DistinctSnoc<T>(xs: seq<T>, x: T)
    ensures Distinct(xs + [x]) == if x in xs then Distinct(xs) else Distinct(xs) + [x]
  {
    assert (xs + [x])[..|xs|] == xs;
  }

  /** Appending one element increments its count, starting from zero. */
  lemma TallySnoc<T>(xs: seq<T>, x: T)
    ensures Tally(xs + [x]) == Tally(xs)[x := (if x in Tally(xs) then Tally(xs)[x] else 0) + 1]
  {
    assert (xs + [x])[..|xs|] == xs;
  }

  /**
   * `max(keys, key=counts.get)`: the first key, in the order given, whose
   * count is not exceeded by any other key's.
   */
  function MostFrequent<T(==)>(keys: seq<T>, counts: map<T, nat>): (r: T)
    requires keys != []
    requires forall k :: 0 <= k < |keys| ==> keys[k] in counts
    ensures r in keys && r in counts
    ensures forall k :: 0 <= k < |keys| ==> counts[keys[k]] <= counts[r]
    ensures forall k :: 0 <= k < FirstIndex(keys, r) ==> counts[keys[k]] < counts[r]
  {
    if |keys| == 1 then keys[0]
    else
      var prefix := keys[..|keys| - 1];
      var best := MostFrequent(prefix, counts);
      var x := keys[|keys| - 1];
      assert keys == prefix + [x];
      FirstIndexOfPrefix(prefix, [x], best);
      if counts[x] > counts[best] then x else best
  }

  /**
   * `m` is the mode of `xs` with ties going to the element seen first: no
   * element occurs more often, and every element first seen before `m`
   * occurs strictly less often.
   */
  ghost predicate IsFirstMode<T>(xs: seq<T>, m: T)
  {
    && m in xs
    && (forall x | x in xs :: Count(xs, x) <= Count(xs, m))
    && (forall x | x in xs && FirstIndex(xs, x) < FirstIndex(xs, m) :: Count(xs, x) < Count(xs, m))
  }

  /** At most one element is the first-seen mode. */
  lemma FirstModeIsUnique<T>(xs: seq<T>, m1: T, m2: T)
    requires IsFirstMode(xs, m1) && IsFirstMode(xs, m2)
    ensures m1 == m2
  {
    var i1, i2 := FirstIndex(xs, m1), FirstIndex(xs, m2);
    assert Count(xs, m2) <= Count(xs, m1) && Count(xs, m1) <= Count(xs, m2);
    assert i1 < i2 ==> Count(xs, m1) < Count(xs, m2);
    assert i2 < i1 ==> Count(xs, m2) < Count(xs, m1);
    assert xs[i1] == m1 && xs[i2] == m2;
  }

  /** The mode candidate chosen from the distinct elements beats or ties every element of `xs`. */
  lemma MostFrequentBeats<T>(xs: seq<T>, x: T)
    requires x in xs
    ensures Count(xs, x) <= Count(xs, MostFrequent(Distinct(xs), Tally(xs)))
    ensures FirstIndex(xs, x) < FirstIndex(xs, MostFrequent(Distinct(xs), Tally(xs))) ==>
              Count(xs, x) < Count(xs, MostFrequent(Distinct(xs), Tally(xs)))
  {
    var d, t := Distinct(xs), Tally(xs);
    var m := MostFrequent(d, t);
    var i := FirstIndex(d, m);
    var a := FirstIndex(d, x);
    assert t[x] == Count(xs, x) && t[m] == Count(xs, m);
    assert t[d[a]] <= t[m];
    if i < a {
      DistinctKeepsFirstOccurrenceOrder(xs, i, a);
    }
    assert FirstIndex(xs, x) < FirstIndex(xs, m) ==> a < i;
  }

  /** Counting into a dict and taking `max` by count yields the first-seen mode. */
  lemma MostFrequentOfTallyIsFirstMode<T>(xs: seq<T>)
    requires xs != []
    ensures IsFirstMode(xs, MostFrequent(Distinct(xs), Tally(xs)))
  {
    var d, t := Distinct(xs), Tally(xs);
    assert xs[0] in d;
    var m := MostFrequent(d, t);
    assert m in xs;
    forall x | x in xs
      ensures Count(xs, x) <= Count(xs, m)
      ensures FirstIndex(xs, x) < FirstIndex(xs, m) ==> Count(xs, x) < Count(xs, m)
    {
      MostFrequentBeats(xs, x);
    }
  }
}
