/**
 * The sampler's count state and its saved best copy (`EntityModelInstance`).
 * The seven containers the sampler updates while it samples, and that a
 * snapshot copies, are grouped in one `Tables` value: the topic assignments,
 * the global and per-document topic counts and the four per-topic counter
 * arrays. Every container of a snapshot is newly allocated, so later changes
 * to the sampler's tables cannot reach it.
 */
module Snapshots {
  import opened Wrappers
  import opened Counters

  /**
   * `zs[doc]` holds one topic per entity; `topicCountsByDoc[doc]` one count per
   * topic. A row is a value: it is only ever replaced as a whole.
   */
  datatype Tables = Tables(zs: array<seq<int>>, topicCounts: array<int>, topicCountsByDoc: array<seq<int>>,
                           wCounts: array<Counter>, verbCounts: array<Counter>,
                           depCounts: array<Counter>, featCounts: array<Counter>)

  /** The containers of a set of tables. */
  ghost function Repr(t: Tables): set<object> {
    {t.zs as object, t.topicCounts as object, t.topicCountsByDoc as object,
     t.wCounts as object, t.verbCounts as object, t.depCounts as object, t.featCounts as object}
  }

  /** No two of the containers are the same array. */
  predicate Separate(t: Tables) {
    t.zs != t.topicCountsByDoc &&
    t.wCounts != t.verbCounts && t.wCounts != t.depCounts && t.wCounts != t.featCounts &&
    t.verbCounts != t.depCounts && t.verbCounts != t.featCounts && t.depCounts != t.featCounts
  }

  /**
   * No container of `s` is one of `t`'s, so updating either set of tables
   * leaves the other alone (containers of different element types are
   * distinct anyway).
   */
  predicate Apart(s: Tables, t: Tables) {
    s.zs != t.zs && s.zs != t.topicCountsByDoc && s.topicCountsByDoc != t.zs &&
    s.topicCountsByDoc != t.topicCountsByDoc && s.topicCounts != t.topicCounts &&
    s.wCounts != t.wCounts && s.wCounts != t.verbCounts && s.wCounts != t.depCounts && s.wCounts != t.featCounts &&
    s.verbCounts != t.wCounts && s.verbCounts != t.verbCounts && s.verbCounts != t.depCounts && s.verbCounts != t.featCounts &&
    s.depCounts != t.wCounts && s.depCounts != t.verbCounts && s.depCounts != t.depCounts && s.depCounts != t.featCounts &&
    s.featCounts != t.wCounts && s.featCounts != t.verbCounts && s.featCounts != t.depCounts && s.featCounts != t.featCounts
  }

  /** The contents of the seven containers. */
  datatype TableValues = TableValues(zs: seq<seq<int>>, topicCounts: seq<int>, topicCountsByDoc: seq<seq<int>>,
                                     wCounts: seq<Counter>, verbCounts: seq<Counter>,
                                     depCounts: seq<Counter>, featCounts: seq<Counter>)

  ghost function Values(t: Tables): TableValues
    reads Repr(t)
  {
    TableValues(t.zs[..], t.topicCounts[..], t.topicCountsByDoc[..],
                t.wCounts[..], t.verbCounts[..], t.depCounts[..], t.featCounts[..])
  }

  /** The counter a key-by-key copy of `c` builds: the same counts, and their sum as its total. */
  ghost function CloneOf(c: Counter): Counter {
    Counter(c.counts, MapSum(c.counts))
  }

  /** A copy keeps every count and key, and its total is always the sum of its counts. */
  lemma CloneOfCounts(c: Counter, k: int)
    ensures GetCount(CloneOf(c), k) == GetCount(c, k)
    ensures k in CloneOf(c).counts <==> k in c.counts
    ensures Consistent(CloneOf(c))
  {
  }

  /** Copying a counter whose total is the sum of its counts gives the very same counter. */
  lemma CloneOfConsistent(c: Counter)
    requires Consistent(c)
    ensures CloneOf(c) == c
  {
  }

  /** `copy` holds, position by position, the copies of the counters of `source`. */
  ghost predicate ClonesOf(copy: seq<Counter>, source: seq<Counter>) {
    |copy| == |source| && forall i :: 0 <= i < |copy| ==> copy[i] == CloneOf(source[i])
  }

  /** Copies of consistent counters are the counters themselves. */
  lemma ClonesOfConsistent(copy: seq<Counter>, source: seq<Counter>)
    requires ClonesOf(copy, source)
    requires forall i :: 0 <= i < |source| ==> Consistent(source[i])
    ensures copy == source
  {
    forall i | 0 <= i < |copy| ensures copy[i] == source[i] {
      CloneOfConsistent(source[i]);
    }
  }

  /** `copy` holds the topic assignments and topic counts of `v` and copies of its counters. */
  ghost predicate CopyOf(copy: TableValues, v: TableValues) {
    copy.zs == v.zs && copy.topicCounts == v.topicCounts && copy.topicCountsByDoc == v.topicCountsByDoc &&
    ClonesOf(copy.wCounts, v.wCounts) && ClonesOf(copy.verbCounts, v.verbCounts) &&
    ClonesOf(copy.depCounts, v.depCounts) && ClonesOf(copy.featCounts, v.featCounts)
  }

  /** `Arrays.copyOf` of a whole array. */
  method CopyArray<T(0)>(a: array<T>) returns (b: array<T>)
    ensures fresh(b) && b[..] == a[..]
  {
    b := new T[a.Length];
    for xx := 0 to a.Length
      invariant b[..xx] == a[..xx]
    {
      b[xx] := a[xx];
    }
  }

  /** `cc` holds exactly the keys of `c` outside `keys`, with their counts, and their sum as its total. */
  ghost predicate PartialCopy(cc: Counter, c: Counter, keys: set<int>) {
    keys <= c.counts.Keys && cc.counts.Keys == c.counts.Keys - keys &&
    (forall j :: j in cc.counts ==> cc.counts[j] == c.counts[j]) &&
    cc.total == MapSum(cc.counts)
  }

  /** Copying one more key of `c` keeps the copy partial, one key further on. */
  lemma CloneStep(c: Counter, cc: Counter, keys: set<int>, k: int)
    requires PartialCopy(cc, c, keys) && k in keys
    ensures PartialCopy(IncrementCount(cc, k, GetCount(c, k)), c, keys - {k})
  {
    MapSumUpdate(cc.counts, k, c.counts[k]);
    assert IncrementCount(cc, k, GetCount(c, k)).counts == cc.counts[k := c.counts[k]];
  }

  /** A copy with no keys left to copy is complete. */
  lemma CloneDone(c: Counter, cc: Counter)
    requires PartialCopy(cc, c, {})
    ensures cc.counts == c.counts && cc.total == MapSum(c.counts)
  {
    assert cc.counts.Keys == c.counts.Keys - {} == c.counts.Keys;
    forall j | j in c.counts ensures j in cc.counts && cc.counts[j] == c.counts[j] { }
  }

  /** A new counter filled with `c`'s keys one at a time, each incremented by its count. */
  method CloneOne(c: Counter) returns (cc: Counter)
    ensures cc.counts == c.counts && cc.total == MapSum(c.counts)
  {
    cc := EmptyCounter;
    var keys := c.counts.Keys;
    while keys != {}
      invariant PartialCopy(cc, c, keys)
      decreases |keys|
    {
      NonEmptyHasKey(keys);
      var k :| k in keys;
      CloneStep(c, cc, keys, k);
      cc := IncrementCount(cc, k, GetCount(c, k));
      keys := keys - {k};
    }
    CloneDone(c, cc);
  }

  /**
   * `cloneCounter`: a new array of new counters, each with the keys and
   * counts of the source's counter at the same position.
   */
  method CloneCounter(counter: array<Counter>) returns (nc: array<Counter>)
    ensures fresh(nc) && ClonesOf(nc[..], counter[..])
  {
    nc := new Counter[counter.Length];
    for xx := 0 to counter.Length
      invariant forall i :: 0 <= i < xx ==> nc[i] == CloneOf(counter[i])
    {
      var cc := CloneOne(counter[xx]);
      nc[xx] := cc;
    }
  }

  /** New containers holding copies of the contents of `t`. */
  method CopyTables(t: Tables) returns (s: Tables)
    ensures fresh(Repr(s)) && Separate(s)
    ensures CopyOf(Values(s), Values(t))
  {
    var z := CopyArray(t.zs);
    var tc := CopyArray(t.topicCounts);
    var tcd := CopyArray(t.topicCountsByDoc);
    var w := CloneCounter(t.wCounts);
    var v := CloneCounter(t.verbCounts);
    var d := CloneCounter(t.depCounts);
    var f := CloneCounter(t.featCounts);
    s := Tables(z, tc, tcd, w, v, d, f);
  }

  class ModelInstance {
    var likelihood: real
    var samplingStep: int
    /** The stored containers; `None` until `storeAll` first runs. */
    var saved: Option<Tables>

    /** A new snapshot holds nothing yet. */
    constructor()
      ensures saved.None? && likelihood == 0.0 && samplingStep == 0
    {
      likelihood := 0.0;
      samplingStep := 0;
      saved := None;
    }

    /**
     * `storeAll`: every one of the seven containers is replaced by a newly
     * allocated copy of the corresponding argument, so nothing of an earlier
     * snapshot survives and nothing is shared with the arguments.
     */
    method StoreAll(t: Tables)
      modifies this
      ensures saved.Some? && fresh(Repr(saved.value)) && Separate(saved.value)
      ensures CopyOf(Values(saved.value), Values(t))
      ensures likelihood == old(likelihood) && samplingStep == old(samplingStep)
    {
      var s := CopyTables(t);
      saved := Some(s);
    }
  }
}
