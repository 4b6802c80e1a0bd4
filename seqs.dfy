/**
 * The array operations the dashboard builds on: `filter`, `reduce` to a sum,
 * and `Array.from(new Set(...))`, with the facts about them that the
 * query pipeline, the analytics and the controller need.
 */
module Seqs {

  /** `r` is an order-preserving subsequence of `s`. */
  predicate IsSubsequence<T(==)>(r: seq<T>, s: seq<T>)
    decreases |s|
  {
    if r == [] then true
    else if s == [] then false
    else (r[0] == s[0] && IsSubsequence(r[1..], s[1..])) || IsSubsequence(r, s[1..])
  }

  /** `s.map(f)`. */
  function Map<T, U>(f: T -> U, s: seq<T>): (r: seq<U>)
    ensures |r| == |s| && forall i :: 0 <= i < |s| ==> r[i] == f(s[i])
  {
    if s == [] then [] else [f(s[0])] + Map(f, s[1..])
  }

  /** `s.filter(keep)`. */
  function Filter<T(!new)>(s: seq<T>, keep: T -> bool): (r: seq<T>)
    ensures |r| <= |s|
    ensures forall i :: 0 <= i < |r| ==> keep(r[i])
  {
    if s == [] then []
    else
      var rest := Filter(s[1..], keep);
      if keep(s[0]) then [s[0]] + rest else rest
  }

  /** A filter keeps every occurrence of a passing value and drops every other value. */
  lemma {:induction false} FilterMultiset<T(!new)>(s: seq<T>, keep: T -> bool)
    ensures forall x :: multiset(Filter(s, keep))[x] == if keep(x) then multiset(s)[x] else 0
  {
    if s != [] {
      FilterMultiset(s[1..], keep);
      assert s == [s[0]] + s[1..];
    }
  }

  lemma {:induction false} FilterIsSubsequence<T(!new)>(s: seq<T>, keep: T -> bool)
    ensures IsSubsequence(Filter(s, keep), s)
  {
    if s != [] {
      FilterIsSubsequence(s[1..], keep);
      var rest := Filter(s[1..], keep);
      if !keep(s[0]) {
        SubsequenceOfTail(rest, s);
      }
    }
  }

  /** Dropping the head of `s` keeps every subsequence of its tail a subsequence. */
  lemma SubsequenceOfTail<T>(r: seq<T>, s: seq<T>)
    requires s != [] && IsSubsequence(r, s[1..])
    ensures IsSubsequence(r, s)
  {
  }

  /** Filtering keeps everything exactly when every element passes. */
  lemma {:induction false} FilterKeepsAll<T(!new)>(s: seq<T>, keep: T -> bool)
    ensures Filter(s, keep) == s <==> forall i :: 0 <= i < |s| ==> keep(s[i])
  {
    if s != [] {
      FilterKeepsAll(s[1..], keep);
      if !keep(s[0]) {
        assert |Filter(s, keep)| <= |s[1..]|;
      }
    }
  }

  lemma {:induction false} FilterConcat<T(!new)>(a: seq<T>, b: seq<T>, keep: T -> bool)
    ensures Filter(a + b, keep) == Filter(a, keep) + Filter(b, keep)
  {
    if a != [] {
      assert (a + b)[1..] == a[1..] + b;
      FilterConcat(a[1..], b, keep);
    } else {
      assert a + b == b;
    }
  }

  /** Two filters whose conditions never hold together and one of which always holds split `s` between them. */
  lemma {:induction false} FilterComplementLength<T(!new)>(s: seq<T>, keep: T -> bool, drop: T -> bool)
    requires forall x :: drop(x) == !keep(x)
    ensures |Filter(s, keep)| + |Filter(s, drop)| == |s|
  {
    if s != [] {
      FilterComplementLength(s[1..], keep, drop);
    }
  }

  /** The positions of `s` whose element passes `keep`. */
  function Positions<T>(s: seq<T>, keep: T -> bool): set<nat> {
    set i: nat | i < |s| && keep(s[i])
  }

  lemma PositionsSnoc<T>(s: seq<T>, x: T, keep: T -> bool)
    ensures Positions(s + [x], keep) == Positions(s, keep) + (if keep(x) then {|s|} else {})
  {
    var a, b := Positions(s + [x], keep), Positions(s, keep) + (if keep(x) then {|s|} else {});
    forall i | i in a ensures i in b {
      if i < |s| { assert (s + [x])[i] == s[i]; }
    }
    forall i | i in b ensures i in a {
      if i < |s| { assert (s + [x])[i] == s[i]; }
    }
  }

  /** The length of a filter counts the positions whose element passes. */
  lemma {:induction false} FilterLengthCountsIndices<T(!new)>(s: seq<T>, keep: T -> bool)
    ensures |Filter(s, keep)| == |Positions(s, keep)|
  {
    if s != [] {
      var s', x := s[..|s| - 1], s[|s| - 1];
      assert s == s' + [x];
      FilterLengthCountsIndices(s', keep);
      FilterConcat(s', [x], keep);
      PositionsSnoc(s', x, keep);
      assert |s'| !in Positions(s', keep);
    } else {
      assert Positions(s, keep) == {};
    }
  }

  /** Filtering a suffix one element longer puts that element in front when it passes. */
  lemma FilterStep<T(!new)>(s: seq<T>, k: nat, keep: T -> bool)
    requires k < |s|
    ensures Filter(s[k..], keep) == (if keep(s[k]) then [s[k]] else []) + Filter(s[k + 1..], keep)
  {
    assert s[k..][1..] == s[k + 1..];
  }

  /** Two conditions that agree everywhere filter alike. */
  lemma {:induction false} FilterSameCondition<T(!new)>(s: seq<T>, keep: T -> bool, keep': T -> bool)
    requires forall x :: keep(x) == keep'(x)
    ensures Filter(s, keep) == Filter(s, keep')
  {
    if s != [] {
      FilterSameCondition(s[1..], keep, keep');
    }
  }

  /** `s.reduce((sum, x) => sum + f(x), 0)` over integers: left to right. */
  function SumInt<T>(s: seq<T>, f: T -> int): int {
    if s == [] then 0 else SumInt(s[..|s| - 1], f) + f(s[|s| - 1])
  }

  /** `s.reduce((sum, x) => sum + f(x), 0)` over (exact) numbers: left to right. */
  function SumReal<T>(s: seq<T>, f: T -> real): real {
    if s == [] then 0.0 else SumReal(s[..|s| - 1], f) + f(s[|s| - 1])
  }

  /** Summing a prefix one element longer adds that element's term. */
  lemma SumIntSnoc<T>(s: seq<T>, k: nat, f: T -> int)
    requires k < |s|
    ensures SumInt(s[..k + 1], f) == SumInt(s[..k], f) + f(s[k])
  {
    assert s[..k + 1][..k] == s[..k];
  }

  lemma {:induction false} SumIntConcat<T>(a: seq<T>, b: seq<T>, f: T -> int)
    ensures SumInt(a + b, f) == SumInt(a, f) + SumInt(b, f)
  {
    if b == [] {
      assert a + b == a;
    } else {
      assert (a + b)[..|a + b| - 1] == a + b[..|b| - 1];
      SumIntConcat(a, b[..|b| - 1], f);
    }
  }

  lemma {:induction false} SumRealConcat<T>(a: seq<T>, b: seq<T>, f: T -> real)
    ensures SumReal(a + b, f) == SumReal(a, f) + SumReal(b, f)
  {
    if b == [] {
      assert a + b == a;
    } else {
      assert (a + b)[..|a + b| - 1] == a + b[..|b| - 1];
      SumRealConcat(a, b[..|b| - 1], f);
    }
  }

  /** Where some element `x` sits in `b`, `b` is the part before it, `x`, and the part after. */
  lemma Pick<T>(b: seq<T>, x: T) returns (i: nat)
    requires x in multiset(b)
    ensures i < |b| && b[i] == x
    ensures b == b[..i] + [x] + b[i + 1..]
    ensures multiset(b[..i] + b[i + 1..]) == multiset(b) - multiset{x}
  {
    assert x in b;
    i :| 0 <= i < |b| && b[i] == x;
    assert b == b[..i] + [x] + b[i + 1..];
  }

  /** A sum does not depend on the order of its terms. */
  lemma {:induction false} SumIntPermutation<T>(a: seq<T>, b: seq<T>, f: T -> int)
    requires multiset(a) == multiset(b)
    ensures SumInt(a, f) == SumInt(b, f)
    decreases |a|
  {
    if a != [] {
      var a', x := a[..|a| - 1], a[|a| - 1];
      assert a == a' + [x];
      var i := Pick(b, x);
      var b' := b[..i] + b[i + 1..];
      SumIntPermutation(a', b', f);
      SumIntConcat(b[..i] + [x], b[i + 1..], f);
      SumIntConcat(b[..i], b[i + 1..], f);
      assert (b[..i] + [x])[..|b[..i] + [x]| - 1] == b[..i];
    } else {
      assert b == [];
    }
  }

  lemma {:induction false} SumRealPermutation<T>(a: seq<T>, b: seq<T>, f: T -> real)
    requires multiset(a) == multiset(b)
    ensures SumReal(a, f) == SumReal(b, f)
    decreases |a|
  {
    if a != [] {
      var a', x := a[..|a| - 1], a[|a| - 1];
      assert a == a' + [x];
      var i := Pick(b, x);
      var b' := b[..i] + b[i + 1..];
      SumRealPermutation(a', b', f);
      SumRealConcat(b[..i] + [x], b[i + 1..], f);
      SumRealConcat(b[..i], b[i + 1..], f);
      assert (b[..i] + [x])[..|b[..i] + [x]| - 1] == b[..i];
    } else {
      assert b == [];
    }
  }

  /** Splitting `s` by a condition and its negation splits its sum. */
  lemma {:induction false} SumIntPartition<T(!new)>(s: seq<T>, keep: T -> bool, drop: T -> bool, f: T -> int)
    requires forall x :: drop(x) == !keep(x)
    ensures SumInt(s, f) == SumInt(Filter(s, keep), f) + SumInt(Filter(s, drop), f)
  {
    if s != [] {
      var s', x := s[..|s| - 1], s[|s| - 1];
      assert s == s' + [x];
      SumIntPartition(s', keep, drop, f);
      FilterConcat(s', [x], keep);
      FilterConcat(s', [x], drop);
      SumIntConcat(Filter(s', keep), Filter([x], keep), f);
      SumIntConcat(Filter(s', drop), Filter([x], drop), f);
    }
  }

  lemma {:induction false} SumRealPartition<T(!new)>(s: seq<T>, keep: T -> bool, drop: T -> bool, f: T -> real)
    requires forall x :: drop(x) == !keep(x)
    ensures SumReal(s, f) == SumReal(Filter(s, keep), f) + SumReal(Filter(s, drop), f)
  {
    if s != [] {
      var s', x := s[..|s| - 1], s[|s| - 1];
      assert s == s' + [x];
      SumRealPartition(s', keep, drop, f);
      FilterConcat(s', [x], keep);
      FilterConcat(s', [x], drop);
      SumRealConcat(Filter(s', keep), Filter([x], keep), f);
      SumRealConcat(Filter(s', drop), Filter([x], drop), f);
    }
  }

  /** No value occurs twice in `s`. */
  predicate NoDuplicates<T(==)>(s: seq<T>) {
    forall i, j :: 0 <= i < j < |s| ==> s[i] != s[j]
  }

  /**
   * `Array.from(new Set(s))`: each distinct value once, in the order of its
   * first occurrence.
   */
  function Distinct<T(==,!new)>(s: seq<T>): (r: seq<T>)
    ensures forall x :: multiset(r)[x] == if x in s then 1 else 0
  {
    if s == [] then []
    else
      var d := Distinct(s[..|s| - 1]);
      var x := s[|s| - 1];
      assert s == s[..|s| - 1] + [x];
      if x in d then d else d + [x]
  }

  /** A value that occurs at two different positions occurs twice. */
  lemma TwiceAtTwoPositions<T>(s: seq<T>, i: nat, j: nat)
    requires i < j < |s| && s[i] == s[j]
    ensures multiset(s)[s[i]] >= 2
  {
    assert s == s[..j] + [s[j]] + s[j + 1..];
    assert s[i] in s[..j];
  }

  /** A sequence in which every value occurs at most once has no duplicates. */
  lemma AtMostOnceNoDuplicates<T>(s: seq<T>)
    requires forall x :: multiset(s)[x] <= 1
    ensures NoDuplicates(s)
  {
    forall i, j | 0 <= i < j < |s| ensures s[i] != s[j] {
      if s[i] == s[j] {
        TwiceAtTwoPositions(s, i, j);
      }
    }
  }
}
