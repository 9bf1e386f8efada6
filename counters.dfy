/**
 * Integer-keyed counters, as the sampler uses `ClassicCounter<Integer>`: a map
 * from key to count, where an absent key counts 0, together with the cached
 * total of all counts. The sampler only ever adds whole numbers, so counts are
 * integers.
 */
module Counters {
  import opened Seqs

  datatype Counter = Counter(counts: map<int, int>, total: int)

  const EmptyCounter := Counter(map[], 0)

  /** `getCount`: the count of `k`, 0 when absent. */
  function GetCount(c: Counter, k: int): int {
    if k in c.counts then c.counts[k] else 0
  }

  /** `incrementCount(k, amount)`: sets the count of `k` to its old count plus `amount`, and the total with it. */
  function IncrementCount(c: Counter, k: int, amount: int): (r: Counter)
    ensures k in r.counts && GetCount(r, k) == GetCount(c, k) + amount
    ensures forall j :: j != k ==> GetCount(r, j) == GetCount(c, j)
    ensures r.total == c.total + amount
  {
    Counter(c.counts[k := GetCount(c, k) + amount], c.total + amount)
  }

  /** `remove(k)`: drops the key and takes its count off the total. */
  function Remove(c: Counter, k: int): (r: Counter)
    ensures k !in r.counts && GetCount(r, k) == 0
    ensures forall j :: j != k ==> GetCount(r, j) == GetCount(c, j)
    ensures r.total == c.total - GetCount(c, k)
  {
    Counter(c.counts - {k}, c.total - GetCount(c, k))
  }

  /**
   * One decrement of `k`; with `prune`, the key is removed when its count
   * reaches zero (the counts are whole numbers, so "close to zero" is zero).
   */
  function DecrementCount(c: Counter, k: int, prune: bool): (r: Counter)
    ensures GetCount(r, k) == GetCount(c, k) - 1
    ensures forall j :: j != k ==> GetCount(r, j) == GetCount(c, j)
    ensures r.total == c.total - 1
    ensures prune ==> (k in r.counts <==> GetCount(c, k) != 1)
    ensures !prune ==> k in r.counts
    ensures forall j :: j != k ==> (j in r.counts <==> j in c.counts)
  {
    var d := IncrementCount(c, k, -1);
    if prune && GetCount(d, k) == 0 then Remove(d, k) else d
  }

  /** The keys of `ks` decremented one at a time, in order. */
  function DecrementAll(c: Counter, ks: seq<int>, prune: bool): Counter
    decreases |ks|
  {
    if |ks| == 0 then c else DecrementCount(DecrementAll(c, ks[..|ks| - 1], prune), ks[|ks| - 1], prune)
  }

  /** The keys of `ks` incremented one at a time, in order. */
  function IncrementAll(c: Counter, ks: seq<int>): Counter
    decreases |ks|
  {
    if |ks| == 0 then c else IncrementCount(IncrementAll(c, ks[..|ks| - 1]), ks[|ks| - 1], 1)
  }

  /** Incrementing one more key, at the end of the list. */
  lemma IncrementAllSnoc(c: Counter, ks: seq<int>, k: int)
    ensures IncrementAll(c, ks + [k]) == IncrementCount(IncrementAll(c, ks), k, 1)
  {
    assert (ks + [k])[..|ks|] == ks;
  }

  /** Decrementing one more key, at the end of the list. */
  lemma DecrementAllSnoc(c: Counter, ks: seq<int>, k: int, prune: bool)
    ensures DecrementAll(c, ks + [k], prune) == DecrementCount(DecrementAll(c, ks, prune), k, prune)
  {
    assert (ks + [k])[..|ks|] == ks;
  }

  /** Decrementing a list of keys takes each key's multiplicity off its count and the length off the total. */
  lemma {:induction false} DecrementAllCounts(c: Counter, ks: seq<int>, prune: bool)
    ensures forall j :: GetCount(DecrementAll(c, ks, prune), j) == GetCount(c, j) - Count(ks, j)
    ensures DecrementAll(c, ks, prune).total == c.total - |ks|
    ensures forall j :: j !in ks ==> (j in DecrementAll(c, ks, prune).counts <==> j in c.counts)
    decreases |ks|
  {
    if |ks| > 0 {
      var front := ks[..|ks| - 1];
      DecrementAllCounts(c, front, prune);
    }
  }

  /** Incrementing a list of keys adds each key's multiplicity to its count and the length to the total. */
  lemma {:induction false} IncrementAllCounts(c: Counter, ks: seq<int>)
    ensures forall j :: GetCount(IncrementAll(c, ks), j) == GetCount(c, j) + Count(ks, j)
    ensures IncrementAll(c, ks).total == c.total + |ks|
    ensures forall j :: j in IncrementAll(c, ks).counts <==> j in c.counts || j in ks
    decreases |ks|
  {
    if |ks| > 0 {
      var front := ks[..|ks| - 1];
      IncrementAllCounts(c, front);
    }
  }

  /**
   * Incrementing the keys a decrement took off gives back every count and the
   * total; when every key was present to begin with, the very same counter.
   */
  lemma DecrementThenIncrement(c: Counter, ks: seq<int>, prune: bool)
    ensures forall j :: GetCount(IncrementAll(DecrementAll(c, ks, prune), ks), j) == GetCount(c, j)
    ensures IncrementAll(DecrementAll(c, ks, prune), ks).total == c.total
    ensures (forall j :: j in ks ==> j in c.counts) ==> IncrementAll(DecrementAll(c, ks, prune), ks) == c
  {
    var d := DecrementAll(c, ks, prune);
    var r := IncrementAll(d, ks);
    DecrementAllCounts(c, ks, prune);
    IncrementAllCounts(d, ks);
    if forall j :: j in ks ==> j in c.counts {
      forall j ensures j in r.counts <==> j in c.counts {
        if j !in ks {
          assert j in r.counts <==> j in d.counts;
        }
      }
      assert r.counts.Keys == c.counts.Keys;
      forall j | j in c.counts ensures r.counts[j] == c.counts[j] {
        assert GetCount(r, j) == GetCount(c, j);
      }
      assert r.counts == c.counts;
    }
  }

  // ---------------------------------------------------------------------------
  // Totals

  /** The sum of all counts. */
  ghost function MapSum(m: map<int, int>): int
    decreases |m.Keys|
  {
    if m.Keys == {} then 0
    else
      NonEmptyHasKey(m.Keys);
      var k :| k in m.Keys;
      m[k] + MapSum(m - {k})
  }

  lemma NonEmptyHasKey(keys: set<int>)
    requires keys != {}
    ensures exists k :: k in keys
  {
    if forall k :: k !in keys {
      assert false;
    }
  }

  lemma {:induction false} MapSumRemove(m: map<int, int>, k: int)
    requires k in m
    ensures MapSum(m) == m[k] + MapSum(m - {k})
    decreases |m.Keys|
  {
    var j :| j in m && MapSum(m) == m[j] + MapSum(m - {j});
    if j != k {
      MapSumRemove(m - {j}, k);
      MapSumRemove(m - {k}, j);
      assert m - {j} - {k} == m - {k} - {j};
    }
  }

  /** Setting one count changes the sum by the difference. */
  lemma MapSumUpdate(m: map<int, int>, k: int, v: int)
    ensures MapSum(m[k := v]) == MapSum(m) - (if k in m then m[k] else 0) + v
  {
    MapSumRemove(m[k := v], k);
    assert m[k := v] - {k} == m - {k};
    if k in m {
      MapSumRemove(m, k);
    } else {
      assert m - {k} == m;
    }
  }

  /** The cached total is the sum of the counts, as `ClassicCounter` keeps it. */
  ghost predicate Consistent(c: Counter) {
    c.total == MapSum(c.counts)
  }

  lemma ConsistentEmpty()
    ensures Consistent(EmptyCounter)
  {
  }

  lemma IncrementConsistent(c: Counter, k: int, amount: int)
    requires Consistent(c)
    ensures Consistent(IncrementCount(c, k, amount))
  {
    MapSumUpdate(c.counts, k, GetCount(c, k) + amount);
  }

  lemma RemoveConsistent(c: Counter, k: int)
    requires Consistent(c)
    ensures Consistent(Remove(c, k))
  {
    if k in c.counts {
      MapSumRemove(c.counts, k);
    } else {
      assert c.counts - {k} == c.counts;
    }
  }

  lemma DecrementConsistent(c: Counter, k: int, prune: bool)
    requires Consistent(c)
    ensures Consistent(DecrementCount(c, k, prune))
  {
    IncrementConsistent(c, k, -1);
    RemoveConsistent(IncrementCount(c, k, -1), k);
  }

  lemma {:induction false} DecrementAllConsistent(c: Counter, ks: seq<int>, prune: bool)
    requires Consistent(c)
    ensures Consistent(DecrementAll(c, ks, prune))
    decreases |ks|
  {
    if |ks| > 0 {
      DecrementAllConsistent(c, ks[..|ks| - 1], prune);
      DecrementConsistent(DecrementAll(c, ks[..|ks| - 1], prune), ks[|ks| - 1], prune);
    }
  }

  lemma {:induction false} IncrementAllConsistent(c: Counter, ks: seq<int>)
    requires Consistent(c)
    ensures Consistent(IncrementAll(c, ks))
    decreases |ks|
  {
    if |ks| > 0 {
      IncrementAllConsistent(c, ks[..|ks| - 1]);
      IncrementConsistent(IncrementAll(c, ks[..|ks| - 1]), ks[|ks| - 1], 1);
    }
  }

  /** The counts of the keys below `n`. */
  function RangeSum(c: Counter, n: int): int
    decreases n
  {
    if n <= 0 then 0 else RangeSum(c, n - 1) + GetCount(c, n - 1)
  }

  /** Every key lies in `[0, n)`. */
  predicate KeysBelow(c: Counter, n: int) {
    forall k :: k in c.counts ==> 0 <= k < n
  }

  lemma {:induction false} RangeSumAgree(c: Counter, d: Counter, n: int)
    requires forall k :: 0 <= k < n ==> GetCount(c, k) == GetCount(d, k)
    ensures RangeSum(c, n) == RangeSum(d, n)
    decreases n
  {
    if n > 0 {
      RangeSumAgree(c, d, n - 1);
    }
  }

  /** With every key in `[0, n)`, summing the counts over `[0, n)` gives the sum of all counts. */
  lemma {:induction false} RangeSumIsMapSum(c: Counter, n: int)
    requires KeysBelow(c, n)
    ensures RangeSum(c, n) == MapSum(c.counts)
    decreases n
  {
    if n <= 0 {
      assert c.counts == map[] by {
        forall k | k in c.counts ensures false { }
      }
    } else {
      var d := Remove(c, n - 1);
      RangeSumAgree(c, d, n - 1);
      RangeSumIsMapSum(d, n - 1);
      if n - 1 in c.counts {
        MapSumRemove(c.counts, n - 1);
      } else {
        assert c.counts - {n - 1} == c.counts;
      }
    }
  }
}
