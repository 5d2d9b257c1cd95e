/** builder.py's `generate_event_combinations`: every non-empty selection
    of the events, in the order `itertools.combinations` yields them, the
    shorter selections first. */
module Combinations {
  import opened Sequences


  /** The binomial coefficient by Pascal's rule. */
  function Binomial(n: nat, k: nat): nat {
    if k == 0 then 1
    else if n == 0 then 0
    else Binomial(n - 1, k - 1) + Binomial(n - 1, k)
  }

  function Pow2(n: nat): nat {
    if n == 0 then 1 else 2 * Pow2(n - 1)
  }

  /** x placed in front of each selection. */
  function PrependAll<T>(x: T, cs: seq<seq<T>>): (r: seq<seq<T>>)
    ensures |r| == |cs|
    ensures forall j :: 0 <= j < |r| ==> r[j] == [x] + cs[j]
  {
    seq(|cs|, j requires 0 <= j < |cs| => [x] + cs[j])
  }

  /** `itertools.combinations(s, k)`: the selections of k elements of s in
      lexicographic order of their positions; each keeps the order of s. */
  function Combinations<T(==)>(s: seq<T>, k: nat): (r: seq<seq<T>>)
    ensures forall j :: 0 <= j < |r| ==> |r[j]| == k && IsSubsequence(r[j], s)
    ensures |r| == Binomial(|s|, k)
  {
    if k == 0 then [[]]
    else if s == [] then []
    else
      var with := PrependAll(s[0], Combinations(s[1..], k - 1));
      var without := Combinations(s[1..], k);
      WithFirstAreSubsequences(s, Combinations(s[1..], k - 1));
      WithoutFirstAreSubsequences(s, without);
      with + without
  }

  /** Selections from the tail with the head put in front are selections
      from the whole. */
  lemma WithFirstAreSubsequences<T>(s: seq<T>, cs: seq<seq<T>>)
    requires s != []
    requires forall j :: 0 <= j < |cs| ==> IsSubsequence(cs[j], s[1..])
    ensures forall j :: 0 <= j < |cs| ==> IsSubsequence(PrependAll(s[0], cs)[j], s)
  {
    var with := PrependAll(s[0], cs);
    forall j | 0 <= j < |cs|
      ensures IsSubsequence(with[j], s)
    {
      assert with[j][1..] == cs[j];
    }
  }

  /** Selections from the tail are selections from the whole. */
  lemma WithoutFirstAreSubsequences<T>(s: seq<T>, cs: seq<seq<T>>)
    requires s != []
    requires forall j :: 0 <= j < |cs| ==> IsSubsequence(cs[j], s[1..])
    ensures forall j :: 0 <= j < |cs| ==> IsSubsequence(cs[j], s)
  {
    forall j | 0 <= j < |cs|
      ensures IsSubsequence(cs[j], s)
    {
      var x := cs[j];
      if x != [] {
        assert IsSubsequence(x, s[1..]);
      }
    }
  }

  /** The selections of sizes 1 to m, the smaller sizes first. */
  function CombinationsUpTo<T(==)>(s: seq<T>, m: nat): seq<seq<T>> {
    if m == 0 then [] else CombinationsUpTo(s, m - 1) + Combinations(s, m)
  }

  /** `generate_event_combinations`. */
  method GenerateEventCombinations<T(==)>(eventList: seq<T>) returns (combos: seq<seq<T>>)
    ensures combos == CombinationsUpTo(eventList, |eventList|)
    ensures |combos| == Pow2(|eventList|) - 1
    ensures forall j :: 0 <= j < |combos| ==>
              1 <= |combos[j]| <= |eventList| && IsSubsequence(combos[j], eventList)
    ensures forall i, j :: 0 <= i < j < |combos| ==> |combos[i]| <= |combos[j]|
    ensures forall idx :: IncreasingBelow(idx, |eventList|) && 1 <= |idx| ==> Pick(eventList, idx) in combos
    ensures Distinct(eventList) ==> Distinct(combos)
  {
    combos := [];
    for i := 1 to |eventList| + 1
      invariant combos == CombinationsUpTo(eventList, i - 1)
    {
      var els := Combinations(eventList, i);
      combos := combos + els;
    }
    CombinationsUpToCount(eventList, |eventList|);
    BinomialRowSum(|eventList|);
    CombinationsUpToShape(eventList, |eventList|);
    CombinationsUpToSorted(eventList, |eventList|);
    forall idx | IncreasingBelow(idx, |eventList|) && 1 <= |idx|
      ensures Pick(eventList, idx) in combos
    {
      IncreasingBelowLength(idx, |eventList|);
      CombinationsUpToComplete(eventList, |eventList|, idx);
    }
    if Distinct(eventList) {
      CombinationsUpToDistinct(eventList, |eventList|);
    }
  }

  /** How many selections of sizes 0 to m there are of n elements. */
  function BinomialSum(n: nat, m: nat): nat {
    if m == 0 then 1 else BinomialSum(n, m - 1) + Binomial(n, m)
  }

  lemma {:induction false} CombinationsUpToCount<T>(s: seq<T>, m: nat)
    ensures |CombinationsUpTo(s, m)| == BinomialSum(|s|, m) - 1
  {
    if m > 0 {
      CombinationsUpToCount(s, m - 1);
    }
  }

  /** Every selection in CombinationsUpTo(s, m) has 1 to m elements of s in
      order. */
  lemma {:induction false} CombinationsUpToShape<T>(s: seq<T>, m: nat)
    ensures forall j :: 0 <= j < |CombinationsUpTo(s, m)| ==>
              1 <= |CombinationsUpTo(s, m)[j]| <= m && IsSubsequence(CombinationsUpTo(s, m)[j], s)
  {
    if m > 0 {
      CombinationsUpToShape(s, m - 1);
      AppendShape(CombinationsUpTo(s, m - 1), Combinations(s, m), s, m);
    }
  }

  /** Selections of 1 to m - 1 elements followed by selections of m
      elements are selections of 1 to m elements. */
  lemma AppendShape<T>(prev: seq<seq<T>>, last: seq<seq<T>>, s: seq<T>, m: nat)
    requires forall j :: 0 <= j < |prev| ==> 1 <= |prev[j]| <= m - 1 && IsSubsequence(prev[j], s)
    requires forall j :: 0 <= j < |last| ==> |last[j]| == m && IsSubsequence(last[j], s)
    requires m > 0
    ensures forall j :: 0 <= j < |prev + last| ==> 1 <= |(prev + last)[j]| <= m && IsSubsequence((prev + last)[j], s)
  {
    var r := prev + last;
    forall j | 0 <= j < |r|
      ensures 1 <= |r[j]| <= m && IsSubsequence(r[j], s)
    {
      if j < |prev| {
        assert r[j] == prev[j];
      } else {
        assert r[j] == last[j - |prev|];
      }
    }
  }

  /** Along cs the sizes never decrease. */
  predicate SizesNondecreasing<T>(cs: seq<seq<T>>) {
    forall i, j :: 0 <= i < j < |cs| ==> |cs[i]| <= |cs[j]|
  }

  /** In CombinationsUpTo(s, m) the sizes never decrease along the list. */
  lemma {:induction false} CombinationsUpToSorted<T>(s: seq<T>, m: nat)
    ensures SizesNondecreasing(CombinationsUpTo(s, m))
  {
    if m > 0 {
      CombinationsUpToSorted(s, m - 1);
      CombinationsUpToShape(s, m - 1);
      AppendSorted(CombinationsUpTo(s, m - 1), Combinations(s, m), m);
    }
  }

  /** Selections of at most m - 1 elements, sizes sorted, followed by
      selections of m elements keep the sizes sorted. */
  lemma AppendSorted<T>(prev: seq<seq<T>>, last: seq<seq<T>>, m: nat)
    requires SizesNondecreasing(prev)
    requires forall j :: 0 <= j < |prev| ==> |prev[j]| <= m - 1
    requires forall j :: 0 <= j < |last| ==> |last[j]| == m
    ensures SizesNondecreasing(prev + last)
  {
    var r := prev + last;
    forall i, j | 0 <= i < j < |r|
      ensures |r[i]| <= |r[j]|
    {
      if j < |prev| {
        assert r[i] == prev[i] && r[j] == prev[j];
      } else if i < |prev| {
        assert r[i] == prev[i] && r[j] == last[j - |prev|];
      } else {
        assert r[i] == last[i - |prev|] && r[j] == last[j - |prev|];
      }
    }
  }

  /** There are no selections of more elements than there are. */
  lemma {:induction false} BinomialAbove(n: nat, k: nat)
    requires k > n
    ensures Binomial(n, k) == 0
  {
    if n > 0 {
      BinomialAbove(n - 1, k - 1);
      BinomialAbove(n - 1, k);
    }
  }

  /** Pascal's rule summed over the sizes 0 to m. */
  lemma {:induction false} PascalSum(n: nat, m: nat)
    requires n >= 1 && m >= 1
    ensures BinomialSum(n, m) == BinomialSum(n - 1, m) + BinomialSum(n - 1, m - 1)
  {
    assert Binomial(n, m) == Binomial(n - 1, m - 1) + Binomial(n - 1, m);
    if m > 1 {
      PascalSum(n, m - 1);
      assert BinomialSum(n - 1, m - 1) == BinomialSum(n - 1, m - 2) + Binomial(n - 1, m - 1);
    }
  }

  /** The sizes 0 to n together: 2^n selections. */
  lemma {:induction false} BinomialRowSum(n: nat)
    ensures BinomialSum(n, n) == Pow2(n)
  {
    if n > 0 {
      BinomialRowSum(n - 1);
      PascalSum(n, n);
      BinomialAbove(n - 1, n);
    }
  }

  // ------------------------------------------ every selection, once each

  /** idx lists positions below n in strictly increasing order: one way of
      choosing |idx| of n elements. */
  predicate IncreasingBelow(idx: seq<nat>, n: nat) {
    && (forall j :: 0 <= j < |idx| ==> idx[j] < n)
    && (forall i, j :: 0 <= i < j < |idx| ==> idx[i] < idx[j])
  }

  /** The elements of s at the positions idx. */
  function Pick<T>(s: seq<T>, idx: seq<nat>): (r: seq<T>)
    requires forall j :: 0 <= j < |idx| ==> idx[j] < |s|
    ensures |r| == |idx|
    ensures forall j :: 0 <= j < |idx| ==> r[j] == s[idx[j]]
  {
    seq(|idx|, j requires 0 <= j < |idx| => s[idx[j]])
  }

  /** No more increasing positions below n than n. */
  lemma {:induction false} IncreasingBelowLength(idx: seq<nat>, n: nat)
    requires IncreasingBelow(idx, n)
    ensures |idx| <= n
  {
    if |idx| > 0 {
      var last := idx[|idx| - 1];
      var prefix := idx[..|idx| - 1];
      assert IncreasingBelow(prefix, last);
      IncreasingBelowLength(prefix, last);
    }
  }

  /** Every choice of k positions of s, taken in order, is a selection that
      `itertools.combinations(s, k)` yields. */
  lemma {:induction false} CombinationsComplete<T>(s: seq<T>, idx: seq<nat>)
    requires IncreasingBelow(idx, |s|)
    ensures Pick(s, idx) in Combinations(s, |idx|)
  {
    var k := |idx|;
    if k == 0 {
      assert Pick(s, idx) == [];
    } else {
      var cs := Combinations(s[1..], k - 1);
      assert Combinations(s, k) == PrependAll(s[0], cs) + Combinations(s[1..], k);
      if idx[0] == 0 {
        DropFirstStep(s, idx);
        CombinationsComplete(s[1..], DropFirst(idx));
        var i :| 0 <= i < |cs| && cs[i] == Pick(s[1..], DropFirst(idx));
        assert Pick(s, idx) == PrependAll(s[0], cs)[i];
      } else {
        ShiftDownStep(s, idx);
        CombinationsComplete(s[1..], ShiftDown(idx));
      }
    }
  }

  /** The positions after the first, each one lower. */
  function DropFirst(idx: seq<nat>): seq<nat>
    requires |idx| > 0 && forall j :: 1 <= j < |idx| ==> idx[j] >= 1
  {
    seq(|idx| - 1, j requires 0 <= j < |idx| - 1 => idx[j + 1] - 1)
  }

  /** Every position one lower. */
  function ShiftDown(idx: seq<nat>): seq<nat>
    requires forall j :: 0 <= j < |idx| ==> idx[j] >= 1
  {
    seq(|idx|, j requires 0 <= j < |idx| => idx[j] - 1)
  }

  /** A choice that takes the head is the head before a choice from the
      tail. */
  lemma DropFirstStep<T>(s: seq<T>, idx: seq<nat>)
    requires IncreasingBelow(idx, |s|) && |idx| > 0 && idx[0] == 0
    ensures IncreasingBelow(DropFirst(idx), |s| - 1)
    ensures Pick(s, idx) == [s[0]] + Pick(s[1..], DropFirst(idx))
  {
  }

  /** A choice that skips the head is a choice from the tail. */
  lemma ShiftDownStep<T>(s: seq<T>, idx: seq<nat>)
    requires IncreasingBelow(idx, |s|) && |idx| > 0 && idx[0] > 0
    ensures IncreasingBelow(ShiftDown(idx), |s| - 1)
    ensures Pick(s, idx) == Pick(s[1..], ShiftDown(idx))
  {
  }

  /** Of a list with no element twice, no selection is yielded twice. */
  lemma {:induction false} CombinationsDistinct<T>(s: seq<T>, k: nat)
    requires Distinct(s)
    ensures Distinct(Combinations(s, k))
  {
    if k > 0 && s != [] {
      var rest := s[1..];
      assert Distinct(rest) by {
        forall i, j | 0 <= i < j < |rest|
          ensures rest[i] != rest[j]
        {
          assert rest[i] == s[i + 1] && rest[j] == s[j + 1];
        }
      }
      assert s[0] !in rest by {
        forall j | 0 <= j < |rest|
          ensures rest[j] != s[0]
        {
          assert rest[j] == s[j + 1];
        }
      }
      CombinationsDistinct(rest, k - 1);
      CombinationsDistinct(rest, k);
      HeadSplitsDistinct(s[0], rest, Combinations(rest, k - 1), Combinations(rest, k));
    }
  }

  /** The selections with the head and those without it share none. */
  lemma HeadSplitsDistinct<T>(x: T, rest: seq<T>, cs: seq<seq<T>>, without: seq<seq<T>>)
    requires x !in rest && Distinct(cs) && Distinct(without)
    requires forall j :: 0 <= j < |without| ==> IsSubsequence(without[j], rest)
    ensures Distinct(PrependAll(x, cs) + without)
  {
    var with := PrependAll(x, cs);
    var r := with + without;
    forall i, j | 0 <= i < j < |r|
      ensures r[i] != r[j]
    {
      if j < |with| {
        assert r[i][1..] == cs[i] && r[j][1..] == cs[j];
      } else if i < |with| {
        var y := without[j - |with|];
        assert r[j] == y && r[i][0] == x;
        SubsequenceMembers(y, rest);
      } else {
        assert r[i] == without[i - |with|] && r[j] == without[j - |with|];
      }
    }
  }

  /** Every choice of 1 to m positions of s, taken in order, is listed by
      CombinationsUpTo(s, m). */
  lemma CombinationsUpToComplete<T>(s: seq<T>, m: nat, idx: seq<nat>)
    requires IncreasingBelow(idx, |s|) && 1 <= |idx| <= m
    ensures Pick(s, idx) in CombinationsUpTo(s, m)
  {
    var k := |idx|;
    var x := Pick(s, idx);
    assert x in CombinationsUpTo(s, k) by {
      CombinationsComplete(s, idx);
      InAppend(x, CombinationsUpTo(s, k - 1), Combinations(s, k));
    }
    UpToPrefix(s, k, m);
    InPrefix(x, CombinationsUpTo(s, k), CombinationsUpTo(s, m));
  }

  /** The selections of sizes 1 to k come first among those of sizes 1 to m. */
  lemma {:induction false} UpToPrefix<T>(s: seq<T>, k: nat, m: nat)
    requires k <= m
    ensures CombinationsUpTo(s, k) <= CombinationsUpTo(s, m)
  {
    if k < m {
      UpToPrefix(s, k, m - 1);
      PrefixOfAppend(CombinationsUpTo(s, k), CombinationsUpTo(s, m - 1), Combinations(s, m));
    }
  }

  /** Of a list with no element twice, CombinationsUpTo lists no selection
      twice. */
  lemma {:induction false} CombinationsUpToDistinct<T>(s: seq<T>, m: nat)
    requires Distinct(s)
    ensures Distinct(CombinationsUpTo(s, m))
  {
    if m > 0 {
      CombinationsUpToDistinct(s, m - 1);
      CombinationsUpToShape(s, m - 1);
      CombinationsDistinct(s, m);
      SizesSplitDistinct(CombinationsUpTo(s, m - 1), Combinations(s, m), m);
    }
  }

  /** Selections of fewer than m elements and selections of m elements
      share none. */
  lemma SizesSplitDistinct<T>(prev: seq<seq<T>>, last: seq<seq<T>>, m: nat)
    requires Distinct(prev) && Distinct(last)
    requires forall j :: 0 <= j < |prev| ==> |prev[j]| < m
    requires forall j :: 0 <= j < |last| ==> |last[j]| == m
    ensures Distinct(prev + last)
  {
    var r := prev + last;
    forall i, j | 0 <= i < j < |r|
      ensures r[i] != r[j]
    {
      if j < |prev| {
        assert r[i] == prev[i] && r[j] == prev[j];
      } else if i < |prev| {
        assert r[i] == prev[i] && r[j] == last[j - |prev|];
      } else {
        assert r[i] == last[i - |prev|] && r[j] == last[j - |prev|];
      }
    }
  }
}
