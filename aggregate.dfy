/**
 * Aggregator: `find_total`, `calculate_mean` and `calculate_median` over a
 * 1-D list. Entries that fail `valid_number` are dropped before anything is
 * added, counted or ordered; the valid ones are coerced to their values.
 */
module Aggregator {
  import opened Cells
  import opened NumberValidator
  import opened Sorting

  /** The coerced values of the cells that pass `valid_number`, in input order. */
  function ValidValues(cells: seq<Cell>): (r: seq<real>)
    ensures |r| <= |cells|
  {
    if cells == [] then []
    else
      var rest := ValidValues(cells[1..]);
      match ToNumber(cells[0])
      case Some(v) =>
        assert forall k | 0 < k < 1 + |rest| :: ([v] + rest)[k] == rest[k - 1];
        [v] + rest
      case None => rest
  }

  function Sum(xs: seq<real>): real {
    if xs == [] then 0.0 else xs[0] + Sum(xs[1..])
  }

  /** The two sides of a pivot value. */
  datatype Side = AtMost | AtLeast

  predicate OnSide(x: real, side: Side, pivot: real) {
    match side
    case AtMost => x <= pivot
    case AtLeast => x >= pivot
  }

  /** How many of `xs` lie on the given side of `pivot`. */
  function CountOnSide(xs: seq<real>, side: Side, pivot: real): (n: nat)
    ensures n <= |xs|
  {
    if xs == [] then 0
    else (if OnSide(xs[0], side, pivot) then 1 else 0) + CountOnSide(xs[1..], side, pivot)
  }

  /** `find_total`: the sum of the valid entries of a 1-D list; `None` for any other shape. */
  function FindTotal(d: Data): (r: Option<real>)
    ensures r.Some? <==> d.Flat?
  {
    match d
    case Flat(cells) => Some(Sum(ValidValues(cells)))
    case _ => None
  }

  /**
   * `calculate_mean`: the sum of the valid entries divided by how many are
   * valid; `None` for anything but a 1-D list with a valid entry.
   */
  function CalculateMean(d: Data): (r: Option<real>)
    ensures r.Some? <==> d.Flat? && |ValidValues(d.cells)| > 0
  {
    match d
    case Flat(cells) =>
      var xs := ValidValues(cells);
      if xs == [] then None else Some(Sum(xs) / |xs| as real)
    case _ => None
  }

  /** The middle element, or the average of the two middle elements. */
  function Middle(s: seq<real>): (m: real)
    requires |s| > 0
    ensures Sorted(s) ==> s[0] <= m <= s[|s| - 1]
  {
    var n := |s|;
    if n % 2 == 1 then s[n / 2] else (s[n / 2 - 1] + s[n / 2]) / 2.0
  }

  /**
   * `calculate_median`: the middle of the valid entries once sorted ascending;
   * `None` for anything but a 1-D list with a valid entry.
   */
  function CalculateMedian(d: Data): (r: Option<real>)
    ensures r.Some? <==> d.Flat? && |ValidValues(d.cells)| > 0
  {
    match d
    case Flat(cells) =>
      var xs := ValidValues(cells);
      if xs == [] then None else Some(Middle(Sort(xs)))
    case _ => None
  }

  // ---------------------------------------------------------------------
  // The valid subset

  /** Filtering distributes over concatenation: order is kept, nothing is mixed. */
  lemma {:induction false} ValidValuesAppend(a: seq<Cell>, b: seq<Cell>)
    ensures ValidValues(a + b) == ValidValues(a) + ValidValues(b)
  {
    if a == [] {
      assert a + b == b;
    } else {
      assert (a + b)[1..] == a[1..] + b;
      ValidValuesAppend(a[1..], b);
    }
  }

  /** One cell contributes its value when valid and nothing otherwise. */
  lemma ValidValuesOfCell(c: Cell)
    ensures ValidValues([c]) == if ValidNumber(c) then [ToNumber(c).value] else []
  {
    assert [c][1..] == [];
  }

  /** An invalid entry is skipped: removing it changes nothing. */
  lemma SkipInvalid(a: seq<Cell>, c: Cell, b: seq<Cell>)
    requires !ValidNumber(c)
    ensures ValidValues(a + [c] + b) == ValidValues(a + b)
  {
    ValidValuesAppend(a + [c], b);
    ValidValuesAppend(a, [c]);
    ValidValuesOfCell(c);
    ValidValuesAppend(a, b);
  }

  /** When every entry is valid, the values are the entries' values, one for one. */
  lemma {:induction false} ValidValuesAllValid(cells: seq<Cell>)
    requires forall i | 0 <= i < |cells| :: ValidNumber(cells[i])
    ensures |ValidValues(cells)| == |cells|
    ensures forall i | 0 <= i < |cells| :: ValidValues(cells)[i] == ToNumber(cells[i]).value
  {
    if cells != [] {
      ValidValuesAllValid(cells[1..]);
      var v := ToNumber(cells[0]).value;
      assert ValidValues(cells) == [v] + ValidValues(cells[1..]);
      forall i | 0 < i < |cells|
        ensures ValidValues(cells)[i] == ToNumber(cells[i]).value
      {
        assert cells[1..][i - 1] == cells[i];
      }
    }
  }

  /** Reordering the entries reorders the valid values and nothing more. */
  lemma {:induction false} ValidValuesPermutation(a: seq<Cell>, b: seq<Cell>)
    requires multiset(a) == multiset(b)
    ensures multiset(ValidValues(a)) == multiset(ValidValues(b))
    decreases |a|
  {
    if a == [] {
      assert |b| == 0;
    } else {
      var i, rest := RemoveFirst(a, b);
      ValidValuesPermutation(a[1..], rest);
      ValidValuesAppend([a[0]], a[1..]);
      ValidValuesAppend(b[..i] + [b[i]], b[i + 1..]);
      ValidValuesAppend(b[..i], [b[i]]);
      ValidValuesAppend(b[..i], b[i + 1..]);
    }
  }

  /**
   * Given two permutations of each other, finds the first element of `a` in
   * `b` and what is left of `b` without it.
   */
  lemma RemoveFirst<T>(a: seq<T>, b: seq<T>) returns (i: nat, rest: seq<T>)
    requires a != [] && multiset(a) == multiset(b)
    ensures i < |b| && b[i] == a[0]
    ensures b == b[..i] + [b[i]] + b[i + 1..]
    ensures rest == b[..i] + b[i + 1..]
    ensures multiset(a[1..]) == multiset(rest)
    ensures |rest| < |b|
  {
    assert a[0] in multiset(b);
    i :| 0 <= i < |b| && b[i] == a[0];
    rest := b[..i] + b[i + 1..];
    assert b == b[..i] + [b[i]] + b[i + 1..];
    assert a == [a[0]] + a[1..];
    assert multiset(a[1..]) == multiset(a) - multiset{a[0]};
    assert multiset(b) == multiset(b[..i]) + multiset{b[i]} + multiset(b[i + 1..]);
  }

  // ---------------------------------------------------------------------
  // Sums

  lemma {:induction false} SumAppend(a: seq<real>, b: seq<real>)
    ensures Sum(a + b) == Sum(a) + Sum(b)
  {
    if a == [] {
      assert a + b == b;
    } else {
      assert (a + b)[1..] == a[1..] + b;
      SumAppend(a[1..], b);
    }
  }

  /** A sum does not depend on the order of its terms. */
  lemma {:induction false} SumPermutation(a: seq<real>, b: seq<real>)
    requires multiset(a) == multiset(b)
    ensures Sum(a) == Sum(b)
    decreases |a|
  {
    if a == [] {
      assert |b| == 0;
    } else {
      var i, rest := RemoveFirst(a, b);
      SumPermutation(a[1..], rest);
      SumAppend(b[..i] + [b[i]], b[i + 1..]);
      SumAppend(b[..i], [b[i]]);
      SumAppend(b[..i], b[i + 1..]);
    }
  }

  /** Terms between `lo` and `hi` sum to between `n * lo` and `n * hi`. */
  lemma {:induction false} SumBounds(xs: seq<real>, lo: real, hi: real)
    requires forall k | 0 <= k < |xs| :: lo <= xs[k] <= hi
    ensures |xs| as real * lo <= Sum(xs) <= |xs| as real * hi
  {
    if xs != [] {
      SumBounds(xs[1..], lo, hi);
    }
  }

  // ---------------------------------------------------------------------
  // find_total

  /** The total of two lists laid end to end is the sum of their totals. */
  lemma TotalOfConcat(a: seq<Cell>, b: seq<Cell>)
    ensures FindTotal(Flat(a + b)) == Some(FindTotal(Flat(a)).value + FindTotal(Flat(b)).value)
  {
    ValidValuesAppend(a, b);
    SumAppend(ValidValues(a), ValidValues(b));
  }

  /** One entry adds its coerced value when valid and nothing when not. */
  lemma TotalOfCell(c: Cell)
    ensures FindTotal(Flat([c])) == Some(if ValidNumber(c) then ToNumber(c).value else 0.0)
  {
    ValidValuesOfCell(c);
    if ValidNumber(c) {
      assert Sum([ToNumber(c).value]) == ToNumber(c).value + Sum([]);
    }
  }

  /** An invalid entry does not change the total. */
  lemma TotalSkipsInvalid(a: seq<Cell>, c: Cell, b: seq<Cell>)
    requires !ValidNumber(c)
    ensures FindTotal(Flat(a + [c] + b)) == FindTotal(Flat(a + b))
  {
    SkipInvalid(a, c, b);
  }

  /** The total does not depend on the order of the entries. */
  lemma TotalPermutation(a: seq<Cell>, b: seq<Cell>)
    requires multiset(a) == multiset(b)
    ensures FindTotal(Flat(a)) == FindTotal(Flat(b))
  {
    ValidValuesPermutation(a, b);
    var xs, ys := ValidValues(a), ValidValues(b);
    SumPermutation(xs, ys);
  }

  // ---------------------------------------------------------------------
  // calculate_mean

  /**
   * The mean is the total of `find_total` divided by the number of valid
   * entries: the divisor counts valid entries only, not the list's length.
   */
  lemma MeanIsTotalOverCount(cells: seq<Cell>)
    ensures |ValidValues(cells)| > 0 ==>
      CalculateMean(Flat(cells)) == Some(FindTotal(Flat(cells)).value / |ValidValues(cells)| as real)
  {
  }

  /** A quotient by `n` of something between `n * lo` and `n * hi` lies between `lo` and `hi`. */
  lemma QuotientBounds(sum: real, n: real, lo: real, hi: real)
    requires n > 0.0 && n * lo <= sum <= n * hi
    ensures lo <= sum / n <= hi
  {
    var q := sum / n;
    assert q * n == sum;
    assert (q - lo) * n >= 0.0;
    assert (hi - q) * n >= 0.0;
  }

  /** The mean lies within any bounds of the valid values. */
  lemma MeanBounds(cells: seq<Cell>, lo: real, hi: real)
    requires CalculateMean(Flat(cells)).Some?
    requires forall k | 0 <= k < |ValidValues(cells)| :: lo <= ValidValues(cells)[k] <= hi
    ensures lo <= CalculateMean(Flat(cells)).value <= hi
  {
    AverageBounds(ValidValues(cells), lo, hi);
  }

  /** The average of values between `lo` and `hi` lies between them too. */
  lemma AverageBounds(xs: seq<real>, lo: real, hi: real)
    requires |xs| > 0
    requires forall k | 0 <= k < |xs| :: lo <= xs[k] <= hi
    ensures lo <= Sum(xs) / |xs| as real <= hi
  {
    SumBounds(xs, lo, hi);
    QuotientBounds(Sum(xs), |xs| as real, lo, hi);
  }

  /** An invalid entry changes neither the mean nor whether there is one. */
  lemma MeanSkipsInvalid(a: seq<Cell>, c: Cell, b: seq<Cell>)
    requires !ValidNumber(c)
    ensures CalculateMean(Flat(a + [c] + b)) == CalculateMean(Flat(a + b))
  {
    SkipInvalid(a, c, b);
  }

  /** The mean does not depend on the order of the entries. */
  lemma MeanPermutation(a: seq<Cell>, b: seq<Cell>)
    requires multiset(a) == multiset(b)
    ensures CalculateMean(Flat(a)) == CalculateMean(Flat(b))
  {
    ValidValuesPermutation(a, b);
    var xs, ys := ValidValues(a), ValidValues(b);
    assert |xs| == |multiset(xs)| == |multiset(ys)| == |ys|;
    SumPermutation(xs, ys);
  }

  // ---------------------------------------------------------------------
  // calculate_median

  /** The median does not depend on the order of the entries: it sorts first. */
  lemma MedianPermutation(a: seq<Cell>, b: seq<Cell>)
    requires multiset(a) == multiset(b)
    ensures CalculateMedian(Flat(a)) == CalculateMedian(Flat(b))
  {
    ValidValuesPermutation(a, b);
    var xs, ys := ValidValues(a), ValidValues(b);
    assert |xs| == |multiset(xs)| == |multiset(ys)| == |ys|;
    SortPermutation(xs, ys);
  }

  /** An invalid entry takes no position in the order. */
  lemma MedianSkipsInvalid(a: seq<Cell>, c: Cell, b: seq<Cell>)
    requires !ValidNumber(c)
    ensures CalculateMedian(Flat(a + [c] + b)) == CalculateMedian(Flat(a + b))
  {
    SkipInvalid(a, c, b);
  }

  /** Counting is blind to order. */
  lemma {:induction false} CountOnSidePermutation(a: seq<real>, b: seq<real>, side: Side, pivot: real)
    requires multiset(a) == multiset(b)
    ensures CountOnSide(a, side, pivot) == CountOnSide(b, side, pivot)
    decreases |a|
  {
    if a == [] {
      assert |b| == 0;
    } else {
      var i, rest := RemoveFirst(a, b);
      CountOnSidePermutation(a[1..], rest, side, pivot);
      CountOnSideAppend(b[..i] + [b[i]], b[i + 1..], side, pivot);
      CountOnSideAppend(b[..i], [b[i]], side, pivot);
      CountOnSideAppend(b[..i], b[i + 1..], side, pivot);
    }
  }

  lemma {:induction false} CountOnSideAppend(a: seq<real>, b: seq<real>, side: Side, pivot: real)
    ensures CountOnSide(a + b, side, pivot) == CountOnSide(a, side, pivot) + CountOnSide(b, side, pivot)
  {
    if a == [] {
      assert a + b == b;
    } else {
      assert (a + b)[1..] == a[1..] + b;
      CountOnSideAppend(a[1..], b, side, pivot);
    }
  }

  /** A run of positions `lo..hi` whose elements lie on `side` is all counted. */
  lemma {:induction false} CountOnSideRun(s: seq<real>, side: Side, pivot: real, lo: nat, hi: nat)
    requires lo <= hi <= |s|
    requires forall i | lo <= i < hi :: OnSide(s[i], side, pivot)
    ensures CountOnSide(s, side, pivot) >= hi - lo
  {
    if lo > 0 {
      CountOnSideRun(s[1..], side, pivot, lo - 1, hi - 1);
    } else if hi > 0 {
      assert OnSide(s[0], side, pivot);
      CountOnSideRun(s[1..], side, pivot, 0, hi - 1);
    }
  }

  /** In a sorted sequence, at least half the elements lie on each side of the middle. */
  lemma SortedHalves(s: seq<real>)
    requires Sorted(s) && |s| > 0
    ensures 2 * CountOnSide(s, AtMost, Middle(s)) >= |s|
    ensures 2 * CountOnSide(s, AtLeast, Middle(s)) >= |s|
  {
    var n, m := |s|, Middle(s);
    var h := n / 2;
    var below := if n % 2 == 1 then h + 1 else h;
    assert s[h] >= m;
    assert n % 2 == 0 ==> s[h - 1] <= m;
    assert h >= 1 ==> s[h - 1] <= m;
    forall i | 0 <= i < below
      ensures OnSide(s[i], AtMost, m)
    {
      assert s[i] <= (if n % 2 == 1 then s[h] else s[h - 1]);
    }
    forall i | h <= i < n
      ensures OnSide(s[i], AtLeast, m)
    {
      assert s[h] <= s[i];
    }
    CountOnSideRun(s, AtMost, m, 0, below);
    CountOnSideRun(s, AtLeast, m, h, n);
  }

  /**
   * The median splits the valid values in halves: at least half of them are
   * at most the median, and at least half are at least the median.
   */
  lemma MedianHalves(cells: seq<Cell>)
    requires CalculateMedian(Flat(cells)).Some?
    ensures var m := CalculateMedian(Flat(cells)).value;
      var xs := ValidValues(cells);
      && 2 * CountOnSide(xs, AtMost, m) >= |xs|
      && 2 * CountOnSide(xs, AtLeast, m) >= |xs|
  {
    var xs := ValidValues(cells);
    var s := Sort(xs);
    assert |xs| == |multiset(xs)| == |multiset(s)| == |s|;
    SortedHalves(s);
    CountOnSidePermutation(s, xs, AtMost, Middle(s));
    CountOnSidePermutation(s, xs, AtLeast, Middle(s));
  }

  /**
   * The median is the middle of any ascending arrangement of the valid
   * values: the sorted order is unique, so the sort used need not be known.
   */
  lemma MedianOfSorted(cells: seq<Cell>, sorted: seq<real>, m: real)
    requires Sorted(sorted) && |sorted| > 0 && Middle(sorted) == m
    requires multiset(ValidValues(cells)) == multiset(sorted)
    ensures CalculateMedian(Flat(cells)) == Some(m)
  {
    var xs := ValidValues(cells);
    assert |xs| == |multiset(xs)| == |multiset(sorted)| == |sorted|;
    SortedUnique(Sort(xs), sorted);
  }
}
