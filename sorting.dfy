/**
 * Ascending sort of numbers, as the median needs it: an insertion sort
 * written as a function, with the facts that make "the middle of the sorted
 * values" well defined (a sorted permutation is unique).
 */
module Sorting {

  predicate Sorted(s: seq<real>) {
    forall i, j | 0 <= i < j < |s| :: s[i] <= s[j]
  }

  /** Inserts `x` into the sorted `s`, before the first element not below it. */
  function Insert(x: real, s: seq<real>): (r: seq<real>)
    requires Sorted(s)
    ensures Sorted(r)
    ensures multiset(r) == multiset(s) + multiset{x}
  {
    if s == [] || x <= s[0] then
      PrependSorted(x, s);
      [x] + s
    else
      var rest := Insert(x, s[1..]);
      assert s == [s[0]] + s[1..];
      BoundedBelow(s[0], rest, s[1..], x);
      PrependSorted(s[0], rest);
      [s[0]] + rest
  }

  /** Putting a lower bound of a sorted sequence in front keeps it sorted. */
  lemma PrependSorted(lo: real, r: seq<real>)
    requires Sorted(r)
    requires forall j | 0 <= j < |r| :: lo <= r[j]
    ensures Sorted([lo] + r)
  {
  }

  /** A lower bound of `t` and of `x` bounds every element of a sequence holding them. */
  lemma BoundedBelow(lo: real, r: seq<real>, t: seq<real>, x: real)
    requires multiset(r) == multiset(t) + multiset{x}
    requires lo <= x && forall k | 0 <= k < |t| :: lo <= t[k]
    ensures forall j | 0 <= j < |r| :: lo <= r[j]
  {
    forall j | 0 <= j < |r|
      ensures lo <= r[j]
    {
      assert r[j] in multiset(r);
      if r[j] != x {
        assert r[j] in multiset(t);
        assert r[j] in t;
      }
    }
  }

  /** The values of `s` in ascending order. */
  function Sort(s: seq<real>): (r: seq<real>)
    ensures Sorted(r)
    ensures multiset(r) == multiset(s)
  {
    if s == [] then []
    else
      assert s == [s[0]] + s[1..];
      Insert(s[0], Sort(s[1..]))
  }

  /** Every element of a sorted sequence is at least its first element. */
  lemma SortedHeadIsLeast(s: seq<real>, x: real)
    requires Sorted(s) && x in multiset(s)
    ensures s[0] <= x
  {
    var i :| 0 <= i < |s| && s[i] == x;
  }

  /** Two sorted sequences holding the same values are equal. */
  lemma {:induction false} SortedUnique(a: seq<real>, b: seq<real>)
    requires Sorted(a) && Sorted(b)
    requires multiset(a) == multiset(b)
    ensures a == b
  {
    if a != [] {
      assert a[0] in multiset(a);
      assert |b| == |a|;
      assert b[0] in multiset(b);
      SortedHeadIsLeast(b, a[0]);
      SortedHeadIsLeast(a, b[0]);
      assert a[0] == b[0];
      assert a == [a[0]] + a[1..];
      assert b == [b[0]] + b[1..];
      assert multiset(a[1..]) == multiset(a) - multiset{a[0]};
      assert multiset(b[1..]) == multiset(b) - multiset{b[0]};
      SortedUnique(a[1..], b[1..]);
    } else {
      assert |b| == 0;
    }
  }

  /** Sorting depends only on the values, not on their order. */
  lemma SortPermutation(a: seq<real>, b: seq<real>)
    requires multiset(a) == multiset(b)
    ensures Sort(a) == Sort(b)
  {
    SortedUnique(Sort(a), Sort(b));
  }
}
