/**
 * Generic sequence operations shared by the list-processing passes: order-preserving
 * filtering, occurrence counting and integer sums.
 */
module Seqs {

  /** The elements of `s` that satisfy `p`, in their original order. */
  function Filter<T>(s: seq<T>, p: T -> bool): (r: seq<T>)
    ensures |r| <= |s|
    ensures forall i :: 0 <= i < |r| ==> p(r[i])
    decreases |s|
  {
    if |s| == 0 then []
    else if p(s[|s| - 1]) then Filter(s[..|s| - 1], p) + [s[|s| - 1]]
    else Filter(s[..|s| - 1], p)
  }

  /** An element is kept exactly when it occurs in `s` and passes `p`. */
  lemma {:induction false} FilterMembers<T>(s: seq<T>, p: T -> bool, x: T)
    ensures x in Filter(s, p) <==> x in s && p(x)
    decreases |s|
  {
    if |s| > 0 {
      FilterMembers(s[..|s| - 1], p, x);
      assert s == s[..|s| - 1] + [s[|s| - 1]];
    }
  }

  lemma {:induction false} FilterConcat<T>(a: seq<T>, b: seq<T>, p: T -> bool)
    ensures Filter(a + b, p) == Filter(a, p) + Filter(b, p)
    decreases |b|
  {
    if |b| == 0 {
      assert a + b == a;
    } else {
      assert (a + b)[..|a + b| - 1] == a + b[..|b| - 1];
      FilterConcat(a, b[..|b| - 1], p);
    }
  }

  /** Filtering one more element at the end. */
  lemma {:induction false} FilterLength<T>(s: seq<T>, p: T -> bool)
    ensures |Filter(s, p)| <= |s|
    decreases |s|
  {
    if |s| > 0 {
      FilterLength(s[..|s| - 1], p);
    }
  }

  lemma FilterSnoc<T>(s: seq<T>, x: T, p: T -> bool)
    ensures Filter(s + [x], p) == Filter(s, p) + (if p(x) then [x] else [])
  {
    assert (s + [x])[..|s|] == s;
  }

  /** Filtering keeps everything when every element passes. */
  lemma {:induction false} FilterAll<T>(s: seq<T>, p: T -> bool)
    requires forall i :: 0 <= i < |s| ==> p(s[i])
    ensures Filter(s, p) == s
    decreases |s|
  {
    if |s| > 0 {
      FilterAll(s[..|s| - 1], p);
    }
  }

  /** Dropping one element that fails `p` does not change the filtered sequence. */
  lemma FilterDropRejected<T>(s: seq<T>, i: int, p: T -> bool)
    requires 0 <= i < |s| && !p(s[i])
    ensures Filter(s[..i] + s[i + 1..], p) == Filter(s, p)
  {
    var pre, x, post := s[..i], [s[i]], s[i + 1..];
    assert s[i..] == x + post;
    assert s == pre + s[i..];
    assert Filter(x, p) == [] by {
      assert x[..0] == [];
    }
    calc {
      Filter(s, p);
      { FilterConcat(pre, x + post, p); }
      Filter(pre, p) + Filter(x + post, p);
      { FilterConcat(x, post, p); }
      Filter(pre, p) + Filter(post, p);
      { FilterConcat(pre, post, p); }
      Filter(pre + post, p);
    }
  }

  /** Writing back the element a position already holds changes nothing. */
  lemma UpdateSame<T>(s: seq<T>, i: int)
    requires 0 <= i < |s|
    ensures s[i := s[i]] == s
  {
  }

  /** A prefix one element longer. */
  lemma TakeSnoc<T>(s: seq<T>, i: int)
    requires 0 <= i < |s|
    ensures s[..i + 1] == s[..i] + [s[i]]
  {
  }

  /** The indices 0 .. n-1 in order. */
  function Range(n: nat): (r: seq<int>)
    ensures |r| == n && forall i :: 0 <= i < n ==> r[i] == i
  {
    if n == 0 then [] else Range(n - 1) + [n - 1]
  }

  /** The number of occurrences of `x` in `s`. */
  function Count<T(==)>(s: seq<T>, x: T): (r: nat)
    ensures r == multiset(s)[x]
    decreases |s|
  {
    if |s| == 0 then 0
    else
      assert s == s[..|s| - 1] + [s[|s| - 1]];
      Count(s[..|s| - 1], x) + (if s[|s| - 1] == x then 1 else 0)
  }

  function Sum(s: seq<int>): int
    decreases |s|
  {
    if |s| == 0 then 0 else Sum(s[..|s| - 1]) + s[|s| - 1]
  }

  lemma {:induction false} SumConcat(a: seq<int>, b: seq<int>)
    ensures Sum(a + b) == Sum(a) + Sum(b)
    decreases |b|
  {
    if |b| > 0 {
      assert (a + b)[..|a + b| - 1] == a + b[..|b| - 1];
      SumConcat(a, b[..|b| - 1]);
    } else {
      assert a + b == a;
    }
  }

  /** The value a counting map holds for `k`: an absent key reads as 0. */
  function Get<K>(m: map<K, int>, k: K): int {
    if k in m then m[k] else 0
  }

  /**
   * Tallies the elements of `s` into a map, one increment per occurrence, as a
   * counter fed element by element does.
   */
  method Tally<T(==)>(s: seq<T>) returns (m: map<T, int>)
    ensures forall x :: Get(m, x) == Count(s, x)
    ensures forall x :: x in m <==> x in s
  {
    m := map[];
    var i := 0;
    while i < |s|
      invariant 0 <= i <= |s|
      invariant forall x :: Get(m, x) == Count(s[..i], x)
      invariant forall x :: x in m <==> x in s[..i]
    {
      assert s[..i + 1][..i] == s[..i];
      m := m[s[i] := Get(m, s[i]) + 1];
      i := i + 1;
    }
    assert s[..i] == s;
  }
}
