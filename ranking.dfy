/**
 * Ranking keys by a score: the first position of a maximum, and a stable sort
 * of keys into non-increasing score order (the repository's sort of a map's
 * keys by their values).
 */
module Ranking {

  /** The first index holding the largest value of a non-empty sequence. */
  function FirstMax(p: seq<real>): (r: nat)
    requires |p| > 0
    ensures r < |p|
    ensures forall j :: 0 <= j < |p| ==> p[j] <= p[r]
    ensures forall j :: 0 <= j < r ==> p[j] < p[r]
  {
    if |p| == 1 then 0
    else
      var k := FirstMax(p[..|p| - 1]);
      if p[|p| - 1] > p[k] then |p| - 1 else k
  }

  /** Only one index is a first maximum. */
  lemma FirstMaxUnique(p: seq<real>, b: int)
    requires 0 <= b < |p|
    requires forall j :: 0 <= j < |p| ==> p[j] <= p[b]
    requires forall j :: 0 <= j < b ==> p[j] < p[b]
    ensures b == FirstMax(p)
  {
  }

  /** Every key indexes the score table. */
  predicate ValidKeys(keys: seq<int>, vals: seq<real>) {
    forall i :: 0 <= i < |keys| ==> 0 <= keys[i] < |vals|
  }

  /** Keys in non-increasing score order. */
  predicate SortedByValue(keys: seq<int>, vals: seq<real>)
    requires ValidKeys(keys, vals)
  {
    forall i, j :: 0 <= i < j < |keys| ==> vals[keys[i]] >= vals[keys[j]]
  }

  /** Puts `k` after every key scoring at least as much, and before the others. */
  function InsertByValue(k: int, sorted: seq<int>, vals: seq<real>): (r: seq<int>)
    requires 0 <= k < |vals| && ValidKeys(sorted, vals)
    ensures ValidKeys(r, vals)
    ensures multiset(r) == multiset(sorted) + multiset{k}
  {
    if |sorted| == 0 then [k]
    else if vals[sorted[0]] < vals[k] then [k] + sorted
    else
      assert sorted == [sorted[0]] + sorted[1..];
      [sorted[0]] + InsertByValue(k, sorted[1..], vals)
  }

  lemma {:induction false} InsertKeepsSorted(k: int, sorted: seq<int>, vals: seq<real>)
    requires 0 <= k < |vals| && ValidKeys(sorted, vals) && SortedByValue(sorted, vals)
    ensures SortedByValue(InsertByValue(k, sorted, vals), vals)
    decreases |sorted|
  {
    if |sorted| > 0 && vals[sorted[0]] >= vals[k] {
      InsertKeepsSorted(k, sorted[1..], vals);
      var rest := InsertByValue(k, sorted[1..], vals);
      assert multiset(rest) == multiset(sorted[1..]) + multiset{k};
      forall j | 0 <= j < |rest| ensures vals[sorted[0]] >= vals[rest[j]] {
        assert rest[j] in multiset(rest);
        if rest[j] != k {
          assert rest[j] in multiset(sorted[1..]);
          var m :| 0 <= m < |sorted[1..]| && sorted[1..][m] == rest[j];
          assert sorted[m + 1] == rest[j];
        }
      }
    }
  }

  /** The keys, reordered by non-increasing score; keys of equal score keep their order. */
  function SortKeysByValues(keys: seq<int>, vals: seq<real>): (r: seq<int>)
    requires ValidKeys(keys, vals)
    ensures ValidKeys(r, vals)
    ensures multiset(r) == multiset(keys)
  {
    if |keys| == 0 then []
    else
      assert keys == keys[..|keys| - 1] + [keys[|keys| - 1]];
      InsertByValue(keys[|keys| - 1], SortKeysByValues(keys[..|keys| - 1], vals), vals)
  }

  lemma {:induction false} SortKeysSorted(keys: seq<int>, vals: seq<real>)
    requires ValidKeys(keys, vals)
    ensures SortedByValue(SortKeysByValues(keys, vals), vals)
    decreases |keys|
  {
    if |keys| > 0 {
      SortKeysSorted(keys[..|keys| - 1], vals);
      InsertKeepsSorted(keys[|keys| - 1], SortKeysByValues(keys[..|keys| - 1], vals), vals);
    }
  }

  /** The sorted keys are exactly the input keys. */
  lemma SortKeysMembers(keys: seq<int>, vals: seq<real>, x: int)
    requires ValidKeys(keys, vals)
    ensures x in SortKeysByValues(keys, vals) <==> x in keys
  {
    var r := SortKeysByValues(keys, vals);
    assert x in r <==> x in multiset(r);
    assert x in keys <==> x in multiset(keys);
  }

  /** The first `n` elements (none when `n` is not positive, all when `n` is large). */
  function Take<T>(s: seq<T>, n: int): (r: seq<T>)
    ensures |r| <= |s| && (n >= 0 ==> |r| <= n)
    ensures r == s[..|r|]
    ensures 0 <= n <= |s| ==> |r| == n
  {
    if n <= 0 then [] else if n < |s| then s[..n] else s
  }

  /**
   * Cutting a sorted list keeps keys scoring at least as much as any key cut
   * off, and cuts a key off only when the full `n` were kept.
   */
  lemma TakeOutranksRest(sorted: seq<int>, vals: seq<real>, n: int, x: int, y: int)
    requires ValidKeys(sorted, vals) && SortedByValue(sorted, vals)
    requires y in sorted && y !in Take(sorted, n)
    ensures |Take(sorted, n)| == (if n < 0 then 0 else n)
    ensures x in Take(sorted, n) ==> vals[x] >= vals[y]
  {
    var top := Take(sorted, n);
    var b :| 0 <= b < |sorted| && sorted[b] == y;
    assert b >= |top|;
    if x in top {
      var a :| 0 <= a < |top| && top[a] == x;
      assert sorted[a] == x;
    }
  }
}
