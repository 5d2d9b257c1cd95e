/** Sequence helpers shared by the two searches: the copy-and-remove step
    they take for each candidate, and what it means for a list to hold no
    element twice. */
module Sequences {

  /** `list.copy()` then `remove` of the element at index i. The catalogue's
      activities are distinct objects and Python's `remove` finds the first
      identical one, which is the one at index i. */
  function RemoveAt<T>(s: seq<T>, i: nat): (r: seq<T>)
    requires i < |s|
    ensures |r| == |s| - 1
    ensures multiset(r) + multiset{s[i]} == multiset(s)
    ensures forall x :: x in r ==> x in s
  {
    assert s == s[..i] + [s[i]] + s[i + 1..];
    s[..i] + s[i + 1..]
  }

  /** x is s with some elements left out, the rest in their order. */
  predicate IsSubsequence<T(==)>(x: seq<T>, s: seq<T>)
    decreases |s|
  {
    if x == [] then true
    else if s == [] then false
    else (x[0] == s[0] && IsSubsequence(x[1..], s[1..])) || IsSubsequence(x, s[1..])
  }

  /** Every element of a subsequence of t is an element of t. */
  lemma {:induction false} SubsequenceMembers<T>(x: seq<T>, t: seq<T>)
    requires IsSubsequence(x, t)
    ensures forall y :: y in x ==> y in t
    decreases |t|
  {
    if x != [] {
      if x[0] == t[0] && IsSubsequence(x[1..], t[1..]) {
        SubsequenceMembers(x[1..], t[1..]);
        assert forall y :: y in x ==> y == x[0] || y in x[1..];
        assert forall y :: y in t[1..] ==> y in t;
      } else {
        SubsequenceMembers(x, t[1..]);
        assert forall y :: y in t[1..] ==> y in t;
      }
    }
  }

  /** An element of either part is an element of the whole. */
  lemma InAppend<T>(x: T, a: seq<T>, b: seq<T>)
    requires x in a || x in b
    ensures x in a + b
  {
    if x in b {
      var i :| 0 <= i < |b| && b[i] == x;
      assert (a + b)[|a| + i] == x;
    }
  }

  /** An element of a prefix is an element of the whole. */
  lemma InPrefix<T>(x: T, p: seq<T>, w: seq<T>)
    requires p <= w && x in p
    ensures x in w
  {
    var i :| 0 <= i < |p| && p[i] == x;
    assert w[i] == x;
  }

  /** A prefix of b is a prefix of b + d. */
  lemma PrefixOfAppend<T>(a: seq<T>, b: seq<T>, d: seq<T>)
    requires a <= b
    ensures a <= b + d
  {
    assert (b + d)[..|a|] == b[..|a|];
  }

  lemma AppendAssoc<T>(a: seq<T>, b: seq<T>, c: seq<T>)
    ensures (a + b) + c == a + (b + c)
  {
  }

  /** No element is listed twice. */
  predicate Distinct<T(==)>(s: seq<T>) {
    forall i, j :: 0 <= i < j < |s| ==> s[i] != s[j]
  }

  lemma {:induction false} DistinctCount<T>(s: seq<T>, x: T)
    requires Distinct(s)
    ensures multiset(s)[x] <= 1
  {
    if s != [] {
      assert s == [s[0]] + s[1..];
      assert Distinct(s[1..]);
      DistinctCount(s[1..], x);
      if x == s[0] {
        assert x !in s[1..];
      }
    }
  }

  lemma DuplicateCount<T>(s: seq<T>, i: nat, j: nat)
    requires i < j < |s|
    ensures s[i] == s[j] ==> multiset(s)[s[i]] >= 2
  {
    assert s == s[..i] + [s[i]] + s[i + 1..j] + [s[j]] + s[j + 1..];
  }
}
