/**
 * One sweep of the sampling loop of `runSampler`, as values: every entity,
 * document by document and in order, unlabelled and relabelled with the topic
 * drawn for it, and a run of such sweeps over consecutive iterations.
 *
 * What a sweep leaves: every entity assigned the topic drawn for it; topic
 * counts that still agree with the assignments; dependency, verb and feature
 * tables holding the counts and totals of the corpus tally under the new
 * assignments. The word tables do not: initialization counts an entity's core
 * token once per mention, while `unlabel` and `relabel` move a single count.
 */
module Sweeps {
  import opened Seqs
  import opened Counters
  import opened SamplerData
  import opened Snapshots
  import opened GibbsSampler

  /** Every entity has a first mention, which `unlabel` and `relabel` read. */
  predicate AllHaveMentions(data: seq<seq<EntityData>>) {
    forall d, e :: 0 <= d < |data| && 0 <= e < |data[d]| ==> |data[d][e].words| > 0
  }

  /** Every topic drawn at every iteration is one of the `n` topics. */
  ghost predicate AllDrawsBelow(draw: (int, int, int) -> int, n: int) {
    forall i, d, e :: 0 <= draw(i, d, e) < n
  }

  /** The topics drawn at iteration `iter`, one row per document. */
  function DrawsAt(draw: (int, int, int) -> int, iter: int, data: seq<seq<EntityData>>): (zs: seq<seq<int>>)
    ensures SameShape(data, zs)
    ensures forall d, e :: 0 <= d < |data| && 0 <= e < |data[d]| ==> zs[d][e] == draw(iter, d, e)
  {
    seq(|data|, d requires 0 <= d < |data| => seq(|data[d]|, e => draw(iter, d, e)))
  }

  lemma DrawsAtBelow(draw: (int, int, int) -> int, iter: int, data: seq<seq<EntityData>>, n: int)
    requires forall d, e :: 0 <= draw(iter, d, e) < n
    ensures TopicsBelow(DrawsAt(draw, iter, data), n)
  {
    var zs := DrawsAt(draw, iter, data);
    forall d | 0 <= d < |zs| ensures Below(zs[d], n) {
      forall e | 0 <= e < |zs[d]| ensures 0 <= zs[d][e] < n {
        assert zs[d][e] == draw(iter, d, e);
      }
    }
  }

  // ---------------------------------------------------------------------------
  // Sweeps

  /**
   * Resampling one entity: `unlabel(d, e)` then `relabel(d, e, z)`. Every
   * sweep resamples only entities that are there with topics in range
   * (`SweepDocStep`); outside that the state is left as it is.
   */
  function ResampleValues(v: TableValues, data: seq<seq<EntityData>>, d: int, e: int, z: int, cfg: Config): TableValues {
    if HasEntity(v, data, d, e) && 0 <= z < |v.topicCounts| then
      UnlabelKeepsShape(v, data, d, e, cfg);
      RelabelValues(UnlabelValues(v, data, d, e, cfg), data, d, e, z, cfg)
    else v
  }

  /** Resampling an entity with a topic in range keeps the state shaped and gives the entity that topic. */
  lemma ResampleKeepsShape(v: TableValues, data: seq<seq<EntityData>>, d: int, e: int, z: int, cfg: Config)
    requires HasEntity(v, data, d, e) && 0 <= z < |v.topicCounts|
    ensures var r := ResampleValues(v, data, d, e, z, cfg);
            Shaped(r, data) && |r.topicCounts| == |v.topicCounts| && r.zs == v.zs[d := v.zs[d][e := z]]
  {
    UnlabelKeepsShape(v, data, d, e, cfg);
    var u := UnlabelValues(v, data, d, e, cfg);
    var r := RelabelValues(u, data, d, e, z, cfg);
    forall dd | 0 <= dd < |data| ensures Below(r.zs[dd], |r.topicCounts|) {
    }
  }

  /** What a sweep of document `d` with the drawn topics `zrow` needs. */
  predicate DocSweepable(v: TableValues, data: seq<seq<EntityData>>, d: int, zrow: seq<int>) {
    Shaped(v, data) && AllHaveMentions(data) && 0 <= d < |data| && |zrow| == |data[d]| && Below(zrow, |v.topicCounts|)
  }

  /** What a sweep of the corpus with the drawn topics `zs` needs. */
  predicate Sweepable(v: TableValues, data: seq<seq<EntityData>>, zs: seq<seq<int>>) {
    Shaped(v, data) && AllHaveMentions(data) && SameShape(data, zs) && TopicsBelow(zs, |v.topicCounts|)
  }

  /** Entities `0 .. m-1` of document `d` resampled in order, entity `e` with the topic `zrow[e]`. */
  ghost function SweepDoc(v: TableValues, data: seq<seq<EntityData>>, d: int, zrow: seq<int>, m: int, cfg: Config): TableValues
    requires 0 <= m <= |zrow|
    decreases m
  {
    if m == 0 then v
    else ResampleValues(SweepDoc(v, data, d, zrow, m - 1, cfg), data, d, m - 1, zrow[m - 1], cfg)
  }

  /** Documents `0 .. k-1` swept in order, document `d` with its row `zs[d]` of drawn topics. */
  ghost function SweepDocs(v: TableValues, data: seq<seq<EntityData>>, zs: seq<seq<int>>, k: int, cfg: Config): TableValues
    requires 0 <= k <= |zs|
    decreases k
  {
    if k == 0 then v
    else SweepDoc(SweepDocs(v, data, zs, k - 1, cfg), data, k - 1, zs[k - 1], |zs[k - 1]|, cfg)
  }

  /** A sweep of the whole corpus, entity `(d, e)` resampled with the drawn topic `zs[d][e]`. */
  ghost function SweepValues(v: TableValues, data: seq<seq<EntityData>>, zs: seq<seq<int>>, cfg: Config): TableValues {
    SweepDocs(v, data, zs, |zs|, cfg)
  }

  /** The sweeps of iterations `0 .. k-1`, one after the other, with the topics `draw` gives. */
  ghost function SweepRun(v: TableValues, data: seq<seq<EntityData>>, k: nat, draw: (int, int, int) -> int, cfg: Config): TableValues
    decreases k
  {
    if k == 0 then v
    else SweepValues(SweepRun(v, data, k - 1, draw, cfg), data, DrawsAt(draw, k - 1, data), cfg)
  }

  /** Sweeping the first `m` entities of a document keeps the state shaped. */
  lemma {:induction false} SweepDocKeepsShape(v: TableValues, data: seq<seq<EntityData>>, d: int, zrow: seq<int>, m: int, cfg: Config)
    requires DocSweepable(v, data, d, zrow) && 0 <= m <= |zrow|
    ensures var r := SweepDoc(v, data, d, zrow, m, cfg);
            Shaped(r, data) && |r.topicCounts| == |v.topicCounts|
    decreases m
  {
    hide ResampleValues;
    if m > 0 {
      SweepDocKeepsShape(v, data, d, zrow, m - 1, cfg);
      ResampleKeepsShape(SweepDoc(v, data, d, zrow, m - 1, cfg), data, d, m - 1, zrow[m - 1], cfg);
    }
  }

  /** The last step of a document sweep: entity `m - 1`, which is there, resampled after the first `m - 1`. */
  lemma SweepDocStep(v: TableValues, data: seq<seq<EntityData>>, d: int, zrow: seq<int>, m: int, cfg: Config)
    requires DocSweepable(v, data, d, zrow) && 0 < m <= |zrow|
    ensures var u := SweepDoc(v, data, d, zrow, m - 1, cfg);
            HasEntity(u, data, d, m - 1) && 0 <= zrow[m - 1] < |u.topicCounts| &&
            SweepDoc(v, data, d, zrow, m, cfg) == ResampleValues(u, data, d, m - 1, zrow[m - 1], cfg)
  {
    hide ResampleValues;
    SweepDocKeepsShape(v, data, d, zrow, m - 1, cfg);
  }

  /** Sweeping the first `k` documents keeps the state shaped. */
  lemma {:induction false} SweepDocsKeepShape(v: TableValues, data: seq<seq<EntityData>>, zs: seq<seq<int>>, k: int, cfg: Config)
    requires Sweepable(v, data, zs) && 0 <= k <= |zs|
    ensures var r := SweepDocs(v, data, zs, k, cfg);
            Shaped(r, data) && |r.topicCounts| == |v.topicCounts|
    decreases k
  {
    hide ResampleValues;
    if k > 0 {
      SweepDocsKeepShape(v, data, zs, k - 1, cfg);
      SweepDocKeepsShape(SweepDocs(v, data, zs, k - 1, cfg), data, k - 1, zs[k - 1], |zs[k - 1]|, cfg);
    }
  }

  /** The last step of a corpus sweep: document `k - 1` swept after the first `k - 1`. */
  lemma SweepDocsStep(v: TableValues, data: seq<seq<EntityData>>, zs: seq<seq<int>>, k: int, cfg: Config)
    requires Sweepable(v, data, zs) && 0 < k <= |zs|
    ensures var u := SweepDocs(v, data, zs, k - 1, cfg);
            DocSweepable(u, data, k - 1, zs[k - 1]) && |u.topicCounts| == |v.topicCounts| &&
            SweepDocs(v, data, zs, k, cfg) == SweepDoc(u, data, k - 1, zs[k - 1], |zs[k - 1]|, cfg)
  {
    hide ResampleValues;
    SweepDocsKeepShape(v, data, zs, k - 1, cfg);
  }

  /** A sweep keeps the state shaped. */
  lemma SweepKeepsShape(v: TableValues, data: seq<seq<EntityData>>, zs: seq<seq<int>>, cfg: Config)
    requires Sweepable(v, data, zs)
    ensures var r := SweepValues(v, data, zs, cfg);
            Shaped(r, data) && |r.topicCounts| == |v.topicCounts|
  {
    hide ResampleValues;
    SweepDocsKeepShape(v, data, zs, |zs|, cfg);
  }

  /** A run of sweeps keeps the state shaped. */
  lemma {:induction false} SweepRunKeepsShape(v: TableValues, data: seq<seq<EntityData>>, k: nat, draw: (int, int, int) -> int, cfg: Config)
    requires Shaped(v, data) && AllHaveMentions(data) && AllDrawsBelow(draw, |v.topicCounts|)
    ensures var r := SweepRun(v, data, k, draw, cfg);
            Shaped(r, data) && |r.topicCounts| == |v.topicCounts|
    decreases k
  {
    hide ResampleValues;
    hide SweepDoc;
    hide SweepDocs;
    if k > 0 {
      SweepRunKeepsShape(v, data, k - 1, draw, cfg);
      DrawsAtBelow(draw, k - 1, data, |v.topicCounts|);
      SweepKeepsShape(SweepRun(v, data, k - 1, draw, cfg), data, DrawsAt(draw, k - 1, data), cfg);
    }
  }

  /** The last sweep of a run: iteration `k - 1` swept after the first `k - 1`. */
  lemma SweepRunStep(v: TableValues, data: seq<seq<EntityData>>, k: nat, draw: (int, int, int) -> int, cfg: Config)
    requires Shaped(v, data) && AllHaveMentions(data) && AllDrawsBelow(draw, |v.topicCounts|) && k > 0
    ensures var u := SweepRun(v, data, k - 1, draw, cfg);
            Sweepable(u, data, DrawsAt(draw, k - 1, data)) && |u.topicCounts| == |v.topicCounts| &&
            SweepRun(v, data, k, draw, cfg) == SweepValues(u, data, DrawsAt(draw, k - 1, data), cfg)
  {
    hide ResampleValues;
    hide SweepDoc;
    hide SweepDocs;
    SweepRunKeepsShape(v, data, k - 1, draw, cfg);
    DrawsAtBelow(draw, k - 1, data, |v.topicCounts|);
  }

  // ---------------------------------------------------------------------------
  // The new assignments

  /** One more entity of row `d` takes its drawn topic. */
  lemma RowTakesDraw(zs0: seq<seq<int>>, d: int, zrow: seq<int>, e: int, a: seq<seq<int>>, b: seq<seq<int>>)
    requires 0 <= d < |zs0| && |zs0[d]| == |zrow| && 0 <= e < |zrow|
    requires a == zs0[d := zrow[..e] + zs0[d][e..]] && b == a[d := a[d][e := zrow[e]]]
    ensures b == zs0[d := zrow[..e + 1] + zs0[d][e + 1..]]
  {
    assert (zrow[..e] + zs0[d][e..])[e := zrow[e]] == zrow[..e + 1] + zs0[d][e + 1..];
  }

  /** One more row takes its drawn topics. */
  lemma RowsTakeDraws(zs0: seq<seq<int>>, zs: seq<seq<int>>, j: int, a: seq<seq<int>>, b: seq<seq<int>>)
    requires |zs0| == |zs| && 0 <= j < |zs|
    requires a == zs[..j] + zs0[j..] && b == a[j := zs[j]]
    ensures b == zs[..j + 1] + zs0[j + 1..]
  {
    assert (zs[..j] + zs0[j..])[j := zs[j]] == zs[..j + 1] + zs0[j + 1..];
  }

  /** Sweeping the first `m` entities of document `d` gives them their drawn topics and leaves every other entity. */
  lemma {:induction false} SweepDocAssigns(v: TableValues, data: seq<seq<EntityData>>, d: int, zrow: seq<int>, m: int, cfg: Config)
    requires DocSweepable(v, data, d, zrow) && 0 <= m <= |zrow|
    ensures SweepDoc(v, data, d, zrow, m, cfg).zs == v.zs[d := zrow[..m] + v.zs[d][m..]]
    decreases m
  {
    hide ResampleValues;
    if m == 0 {
      assert zrow[..0] + v.zs[d][0..] == v.zs[d];
    } else {
      var u := SweepDoc(v, data, d, zrow, m - 1, cfg);
      SweepDocAssigns(v, data, d, zrow, m - 1, cfg);
      SweepDocStep(v, data, d, zrow, m, cfg);
      ResampleKeepsShape(u, data, d, m - 1, zrow[m - 1], cfg);
      RowTakesDraw(v.zs, d, zrow, m - 1, u.zs, SweepDoc(v, data, d, zrow, m, cfg).zs);
    }
  }

  /** Sweeping the first `k` documents gives their entities their drawn topics and leaves the other documents. */
  lemma {:induction false} SweepDocsAssign(v: TableValues, data: seq<seq<EntityData>>, zs: seq<seq<int>>, k: int, cfg: Config)
    requires Sweepable(v, data, zs) && 0 <= k <= |zs|
    ensures SweepDocs(v, data, zs, k, cfg).zs == zs[..k] + v.zs[k..]
    decreases k
  {
    hide ResampleValues;
    if k == 0 {
      assert zs[..0] + v.zs[0..] == v.zs;
    } else {
      var u := SweepDocs(v, data, zs, k - 1, cfg);
      var zrow := zs[k - 1];
      SweepDocsAssign(v, data, zs, k - 1, cfg);
      SweepDocsStep(v, data, zs, k, cfg);
      SweepDocAssigns(u, data, k - 1, zrow, |zrow|, cfg);
      assert zrow[..|zrow|] + u.zs[k - 1][|zrow|..] == zrow;
      RowsTakeDraws(v.zs, zs, k - 1, u.zs, SweepDocs(v, data, zs, k, cfg).zs);
    }
  }

  /** After a sweep every entity holds the topic drawn for it. */
  lemma SweepAssigns(v: TableValues, data: seq<seq<EntityData>>, zs: seq<seq<int>>, cfg: Config)
    requires Sweepable(v, data, zs)
    ensures SweepValues(v, data, zs, cfg).zs == zs
  {
    hide ResampleValues;
    SweepDocsAssign(v, data, zs, |zs|, cfg);
    assert zs[..|zs|] + v.zs[|zs|..] == zs;
  }

  /** After a run of `k > 0` sweeps every entity holds the topic drawn for it at the last iteration. */
  lemma SweepRunAssigns(v: TableValues, data: seq<seq<EntityData>>, k: nat, draw: (int, int, int) -> int, cfg: Config)
    requires Shaped(v, data) && AllHaveMentions(data) && AllDrawsBelow(draw, |v.topicCounts|) && k > 0
    ensures SweepRun(v, data, k, draw, cfg).zs == DrawsAt(draw, k - 1, data)
  {
    hide ResampleValues;
    hide SweepDoc;
    hide SweepDocs;
    SweepRunStep(v, data, k, draw, cfg);
    SweepAssigns(SweepRun(v, data, k - 1, draw, cfg), data, DrawsAt(draw, k - 1, data), cfg);
  }

  // ---------------------------------------------------------------------------
  // Agreement of the topic counts

  /** The topic counts agree with the assignments, globally and per document. */
  predicate CountsAgree(v: TableValues) {
    TopicCountsAgree(v) && DocCountsAgree(v)
  }

  /** Resampling one entity keeps topic counts that agreed with the assignments in agreement. */
  lemma ResampleKeepsCountsAgreeing(v: TableValues, data: seq<seq<EntityData>>, d: int, e: int, z: int, cfg: Config)
    requires HasEntity(v, data, d, e) && 0 <= z < |v.topicCounts| && CountsAgree(v)
    ensures CountsAgree(ResampleValues(v, data, d, e, z, cfg))
  {
    SamplingStepKeepsTopicCounts(v, data, d, e, z, cfg);
  }

  /** Sweeping the first `m` entities of a document keeps topic counts that agreed with the assignments in agreement. */
  lemma {:induction false} SweepDocKeepsAgreement(v: TableValues, data: seq<seq<EntityData>>, d: int, zrow: seq<int>, m: int, cfg: Config)
    requires DocSweepable(v, data, d, zrow) && 0 <= m <= |zrow| && CountsAgree(v)
    ensures CountsAgree(SweepDoc(v, data, d, zrow, m, cfg))
    decreases m
  {
    hide ResampleValues;
    if m > 0 {
      SweepDocKeepsAgreement(v, data, d, zrow, m - 1, cfg);
      SweepDocStep(v, data, d, zrow, m, cfg);
      ResampleKeepsCountsAgreeing(SweepDoc(v, data, d, zrow, m - 1, cfg), data, d, m - 1, zrow[m - 1], cfg);
    }
  }

  /** Sweeping the first `k` documents keeps topic counts that agreed with the assignments in agreement. */
  lemma {:induction false} SweepDocsKeepAgreement(v: TableValues, data: seq<seq<EntityData>>, zs: seq<seq<int>>, k: int, cfg: Config)
    requires Sweepable(v, data, zs) && 0 <= k <= |zs| && CountsAgree(v)
    ensures CountsAgree(SweepDocs(v, data, zs, k, cfg))
    decreases k
  {
    hide ResampleValues;
    if k > 0 {
      SweepDocsKeepAgreement(v, data, zs, k - 1, cfg);
      SweepDocsStep(v, data, zs, k, cfg);
      SweepDocKeepsAgreement(SweepDocs(v, data, zs, k - 1, cfg), data, k - 1, zs[k - 1], |zs[k - 1]|, cfg);
    }
  }

  /** A sweep keeps topic counts that agreed with the assignments in agreement. */
  lemma SweepKeepsAgreement(v: TableValues, data: seq<seq<EntityData>>, zs: seq<seq<int>>, cfg: Config)
    requires Sweepable(v, data, zs) && CountsAgree(v)
    ensures CountsAgree(SweepValues(v, data, zs, cfg))
  {
    hide ResampleValues;
    SweepDocsKeepAgreement(v, data, zs, |zs|, cfg);
  }

  /** A run of sweeps keeps topic counts that agreed with the assignments in agreement. */
  lemma {:induction false} SweepRunKeepsAgreement(v: TableValues, data: seq<seq<EntityData>>, k: nat, draw: (int, int, int) -> int, cfg: Config)
    requires Shaped(v, data) && AllHaveMentions(data) && AllDrawsBelow(draw, |v.topicCounts|) && CountsAgree(v)
    ensures CountsAgree(SweepRun(v, data, k, draw, cfg))
    decreases k
  {
    hide ResampleValues;
    hide SweepDoc;
    hide SweepDocs;
    if k > 0 {
      SweepRunKeepsAgreement(v, data, k - 1, draw, cfg);
      SweepRunStep(v, data, k, draw, cfg);
      SweepKeepsAgreement(SweepRun(v, data, k - 1, draw, cfg), data, DrawsAt(draw, k - 1, data), cfg);
    }
  }

  // ---------------------------------------------------------------------------
  // The tables as tallies of the assignments

  /** What one entity weighs in a tally: the occurrences of a key among its keys, or the number of its keys. */
  datatype Weight = KeyCount(tab: Table, k: int) | KeyMass(tab: Table)

  function WeightOf(w: Weight, ed: EntityData): int {
    match w
    case KeyCount(tab, k) => Count(TableKeys(tab, ed), k)
    case KeyMass(tab) => |TableKeys(tab, ed)|
  }

  /** The weight of the entities of one row assigned topic `t`. */
  function RowWeight(row: seq<EntityData>, zrow: seq<int>, t: int, w: Weight): int
    requires |row| == |zrow|
    decreases |row|
  {
    if |row| == 0 then 0
    else
      var n := |row| - 1;
      RowWeight(row[..n], zrow[..n], t, w) + (if zrow[n] == t then WeightOf(w, row[n]) else 0)
  }

  /** The weight of the entities of the corpus assigned topic `t`. */
  function CorpusWeight(data: seq<seq<EntityData>>, topics: seq<seq<int>>, t: int, w: Weight): int
    requires SameShape(data, topics)
    decreases |data|
  {
    if |data| == 0 then 0
    else
      var n := |data| - 1;
      CorpusWeight(data[..n], topics[..n], t, w) + RowWeight(data[n], topics[n], t, w)
  }

  /** Tallying a row adds the row's weight to every count and to the total. */
  lemma {:induction false} TallyRowWeight(c: Counter, row: seq<EntityData>, zrow: seq<int>, t: int, tab: Table, k: int)
    requires |row| == |zrow|
    ensures GetCount(TallyRow(c, row, zrow, t, tab), k) == GetCount(c, k) + RowWeight(row, zrow, t, KeyCount(tab, k))
    ensures TallyRow(c, row, zrow, t, tab).total == c.total + RowWeight(row, zrow, t, KeyMass(tab))
    decreases |row|
  {
    if |row| > 0 {
      var n := |row| - 1;
      TallyRowWeight(c, row[..n], zrow[..n], t, tab, k);
      if zrow[n] == t {
        IncrementAllCounts(TallyRow(c, row[..n], zrow[..n], t, tab), TableKeys(tab, row[n]));
      }
    }
  }

  /** A count of the corpus tally is the corpus weight of its key, and its total the corpus weight of all keys. */
  lemma {:induction false} TallyCorpusWeight(data: seq<seq<EntityData>>, topics: seq<seq<int>>, t: int, tab: Table, k: int)
    requires SameShape(data, topics)
    ensures GetCount(TallyCorpus(data, topics, t, tab), k) == CorpusWeight(data, topics, t, KeyCount(tab, k))
    ensures TallyCorpus(data, topics, t, tab).total == CorpusWeight(data, topics, t, KeyMass(tab))
    decreases |data|
  {
    if |data| > 0 {
      var n := |data| - 1;
      TallyCorpusWeight(data[..n], topics[..n], t, tab, k);
      TallyRowWeight(TallyCorpus(data[..n], topics[..n], t, tab), data[n], topics[n], t, tab, k);
    }
  }

  /** Reassigning entity `e` of a row moves its weight from its old topic to `z`. */
  lemma {:induction false} RowWeightUpdate(row: seq<EntityData>, zrow: seq<int>, e: int, z: int, t: int, w: Weight)
    requires |row| == |zrow| && 0 <= e < |row|
    ensures RowWeight(row, zrow[e := z], t, w) ==
            RowWeight(row, zrow, t, w) - (if zrow[e] == t then WeightOf(w, row[e]) else 0) +
            (if z == t then WeightOf(w, row[e]) else 0)
    decreases |row|
  {
    var n := |row| - 1;
    if e == n {
      assert zrow[e := z][..n] == zrow[..n];
    } else {
      assert zrow[e := z][..n] == zrow[..n][e := z];
      RowWeightUpdate(row[..n], zrow[..n], e, z, t, w);
    }
  }

  /** Reassigning entity `e` of document `d` moves its weight from its old topic to `z`. */
  lemma {:induction false} CorpusWeightUpdate(data: seq<seq<EntityData>>, topics: seq<seq<int>>, d: int, e: int, z: int,
                                              t: int, w: Weight)
    requires SameShape(data, topics) && 0 <= d < |data| && 0 <= e < |data[d]|
    ensures SameShape(data, topics[d := topics[d][e := z]])
    ensures CorpusWeight(data, topics[d := topics[d][e := z]], t, w) ==
            CorpusWeight(data, topics, t, w) - (if topics[d][e] == t then WeightOf(w, data[d][e]) else 0) +
            (if z == t then WeightOf(w, data[d][e]) else 0)
    decreases |data|
  {
    var topics' := topics[d := topics[d][e := z]];
    var n := |data| - 1;
    if d == n {
      assert topics'[..n] == topics[..n];
      RowWeightUpdate(data[n], topics[n], e, z, t, w);
    } else {
      assert topics'[..n] == topics[..n][d := topics[..n][d][e := z]];
      CorpusWeightUpdate(data[..n], topics[..n], d, e, z, t, w);
    }
  }

  /** Every counter of a table has the counts and the total of the corpus tally of its topic under `topics`. */
  ghost predicate TableIsTally(cs: seq<Counter>, data: seq<seq<EntityData>>, topics: seq<seq<int>>, tab: Table) {
    SameShape(data, topics) &&
    (forall t, k :: 0 <= t < |cs| ==> GetCount(cs[t], k) == GetCount(TallyCorpus(data, topics, t, tab), k)) &&
    (forall t :: 0 <= t < |cs| ==> cs[t].total == TallyCorpus(data, topics, t, tab).total)
  }

  /** The dependency, verb and feature tables are the corpus tallies under the assignments. */
  ghost predicate TablesAreTallies(v: TableValues, data: seq<seq<EntityData>>) {
    TableIsTally(v.depCounts, data, v.zs, DepTable) && TableIsTally(v.verbCounts, data, v.zs, VerbTable) &&
    TableIsTally(v.featCounts, data, v.zs, FeatTable)
  }

  /** The tables of initialization are the tallies of the initial topics. */
  lemma InitialTablesAreTallies(data: seq<seq<EntityData>>, topics: seq<seq<int>>, n: nat)
    requires SameShape(data, topics)
    ensures TablesAreTallies(InitialValues(data, topics, n), data)
  {
  }

  /**
   * Taking an entity's keys off its old topic and adding them to `z` turns the
   * tally of the old assignment into the tally of the new one.
   */
  lemma MoveKeepsTally(cs: seq<Counter>, data: seq<seq<EntityData>>, topics: seq<seq<int>>, d: int, e: int, z: int,
                       tab: Table, prune: bool)
    requires TableIsTally(cs, data, topics, tab) && 0 <= d < |data| && 0 <= e < |data[d]|
    requires 0 <= topics[d][e] < |cs| && 0 <= z < |cs|
    ensures var ks := TableKeys(tab, data[d][e]);
            var o := topics[d][e];
            var m := cs[o := DecrementAll(cs[o], ks, prune)];
            TableIsTally(m[z := IncrementAll(m[z], ks)], data, topics[d := topics[d][e := z]], tab)
  {
    var ks := TableKeys(tab, data[d][e]);
    var o := topics[d][e];
    var m := cs[o := DecrementAll(cs[o], ks, prune)];
    var r := m[z := IncrementAll(m[z], ks)];
    var topics' := topics[d := topics[d][e := z]];
    DecrementAllCounts(cs[o], ks, prune);
    IncrementAllCounts(m[z], ks);
    forall t, k | 0 <= t < |r|
      ensures GetCount(r[t], k) == GetCount(TallyCorpus(data, topics', t, tab), k)
    {
      TallyCorpusWeight(data, topics, t, tab, k);
      TallyCorpusWeight(data, topics', t, tab, k);
      CorpusWeightUpdate(data, topics, d, e, z, t, KeyCount(tab, k));
    }
    forall t | 0 <= t < |r|
      ensures r[t].total == TallyCorpus(data, topics', t, tab).total
    {
      TallyCorpusWeight(data, topics, t, tab, 0);
      TallyCorpusWeight(data, topics', t, tab, 0);
      CorpusWeightUpdate(data, topics, d, e, z, t, KeyMass(tab));
    }
  }

  /** A table no entity adds keys to is untouched by a move, and stays the tally. */
  lemma NoKeysKeepTally(cs: seq<Counter>, data: seq<seq<EntityData>>, topics: seq<seq<int>>, d: int, e: int, z: int,
                        tab: Table, prune: bool)
    requires TableIsTally(cs, data, topics, tab) && 0 <= d < |data| && 0 <= e < |data[d]|
    requires 0 <= topics[d][e] < |cs| && 0 <= z < |cs| && TableKeys(tab, data[d][e]) == []
    ensures TableIsTally(cs, data, topics[d := topics[d][e := z]], tab)
  {
    MoveKeepsTally(cs, data, topics, d, e, z, tab, prune);
    var o := topics[d][e];
    var m := cs[o := DecrementAll(cs[o], [], prune)];
    assert m == cs;
    assert m[z := IncrementAll(m[z], [])] == cs;
  }

  /**
   * One resampling step keeps the dependency, verb and feature tables the
   * tallies of the assignments. The verbs and the features, when they are off,
   * add no keys and stay as they were.
   */
  lemma ResampleKeepsTallies(v: TableValues, data: seq<seq<EntityData>>, d: int, e: int, z: int, cfg: Config, ix: Indices)
    requires HasEntity(v, data, d, e) && 0 <= z < |v.topicCounts| && DataFits(data, ix, cfg)
    requires TablesAreTallies(v, data)
    ensures TablesAreTallies(ResampleValues(v, data, d, e, z, cfg), data)
  {
    var ed := data[d][e];
    assert EntityFits(ed, |ed.words|, ix, cfg);
    ResampleKeepsShape(v, data, d, e, z, cfg);
    MoveKeepsTally(v.depCounts, data, v.zs, d, e, z, DepTable, true);
    if cfg.includeVerbs {
      MoveKeepsTally(v.verbCounts, data, v.zs, d, e, z, VerbTable, true);
    } else {
      NoKeysKeepTally(v.verbCounts, data, v.zs, d, e, z, VerbTable, true);
    }
    if cfg.includeEntityFeatures {
      MoveKeepsTally(v.featCounts, data, v.zs, d, e, z, FeatTable, false);
    } else {
      NoKeysKeepTally(v.featCounts, data, v.zs, d, e, z, FeatTable, false);
    }
  }

  /** Sweeping the first `m` entities of a document keeps the dependency, verb and feature tables the tallies of the assignments. */
  lemma {:induction false} SweepDocKeepsTallies(v: TableValues, data: seq<seq<EntityData>>, d: int, zrow: seq<int>, m: int,
                                                cfg: Config, ix: Indices)
    requires DocSweepable(v, data, d, zrow) && 0 <= m <= |zrow| && DataFits(data, ix, cfg) && TablesAreTallies(v, data)
    ensures TablesAreTallies(SweepDoc(v, data, d, zrow, m, cfg), data)
    decreases m
  {
    hide ResampleValues;
    if m > 0 {
      SweepDocKeepsTallies(v, data, d, zrow, m - 1, cfg, ix);
      SweepDocStep(v, data, d, zrow, m, cfg);
      ResampleKeepsTallies(SweepDoc(v, data, d, zrow, m - 1, cfg), data, d, m - 1, zrow[m - 1], cfg, ix);
    }
  }

  /** Sweeping the first `k` documents keeps the dependency, verb and feature tables the tallies of the assignments. */
  lemma {:induction false} SweepDocsKeepTallies(v: TableValues, data: seq<seq<EntityData>>, zs: seq<seq<int>>, k: int,
                                                cfg: Config, ix: Indices)
    requires Sweepable(v, data, zs) && 0 <= k <= |zs| && DataFits(data, ix, cfg) && TablesAreTallies(v, data)
    ensures TablesAreTallies(SweepDocs(v, data, zs, k, cfg), data)
    decreases k
  {
    hide ResampleValues;
    if k > 0 {
      SweepDocsKeepTallies(v, data, zs, k - 1, cfg, ix);
      SweepDocsStep(v, data, zs, k, cfg);
      SweepDocKeepsTallies(SweepDocs(v, data, zs, k - 1, cfg), data, k - 1, zs[k - 1], |zs[k - 1]|, cfg, ix);
    }
  }

  /** A sweep keeps the dependency, verb and feature tables the tallies of the assignments. */
  lemma SweepKeepsTallies(v: TableValues, data: seq<seq<EntityData>>, zs: seq<seq<int>>, cfg: Config, ix: Indices)
    requires Sweepable(v, data, zs) && DataFits(data, ix, cfg) && TablesAreTallies(v, data)
    ensures TablesAreTallies(SweepValues(v, data, zs, cfg), data)
  {
    hide ResampleValues;
    SweepDocsKeepTallies(v, data, zs, |zs|, cfg, ix);
  }

  /** A run of sweeps keeps the dependency, verb and feature tables the tallies of the assignments. */
  lemma {:induction false} SweepRunKeepsTallies(v: TableValues, data: seq<seq<EntityData>>, k: nat, draw: (int, int, int) -> int,
                                                cfg: Config, ix: Indices)
    requires Shaped(v, data) && AllHaveMentions(data) && AllDrawsBelow(draw, |v.topicCounts|)
    requires DataFits(data, ix, cfg) && TablesAreTallies(v, data)
    ensures TablesAreTallies(SweepRun(v, data, k, draw, cfg), data)
    decreases k
  {
    hide ResampleValues;
    hide SweepDoc;
    hide SweepDocs;
    if k > 0 {
      SweepRunKeepsTallies(v, data, k - 1, draw, cfg, ix);
      SweepRunStep(v, data, k, draw, cfg);
      SweepKeepsTallies(SweepRun(v, data, k - 1, draw, cfg), data, DrawsAt(draw, k - 1, data), cfg, ix);
    }
  }

  // ---------------------------------------------------------------------------
  // The word tables

  /**
   * Moving an entity to another topic moves one count of its core token, and
   * one unit of total, whatever its number of mentions.
   */
  lemma WordsMoveOnce(v: TableValues, data: seq<seq<EntityData>>, d: int, e: int, z: int, cfg: Config)
    requires HasEntity(v, data, d, e) && 0 <= z < |v.topicCounts| && z != v.zs[d][e]
    ensures var r := ResampleValues(v, data, d, e, z, cfg);
            var o := v.zs[d][e];
            var w := data[d][e].words[0];
            GetCount(r.wCounts[o], w) == GetCount(v.wCounts[o], w) - 1 && r.wCounts[o].total == v.wCounts[o].total - 1 &&
            GetCount(r.wCounts[z], w) == GetCount(v.wCounts[z], w) + 1 && r.wCounts[z].total == v.wCounts[z].total + 1
  {
  }

  /**
   * Word tables that were the tally of the assignments stop being one as soon
   * as an entity of two or more mentions changes topic: its old topic's tally
   * loses one unit per mention, its table only one.
   */
  lemma WordTallyBreaks(v: TableValues, data: seq<seq<EntityData>>, d: int, e: int, z: int, cfg: Config)
    requires HasEntity(v, data, d, e) && 0 <= z < |v.topicCounts| && z != v.zs[d][e]
    requires |data[d][e].words| >= 2 && TableIsTally(v.wCounts, data, v.zs, WordTable)
    ensures !TableIsTally(ResampleValues(v, data, d, e, z, cfg).wCounts, data, ResampleValues(v, data, d, e, z, cfg).zs, WordTable)
  {
    var r := ResampleValues(v, data, d, e, z, cfg);
    var o := v.zs[d][e];
    WordsMoveOnce(v, data, d, e, z, cfg);
    TallyCorpusWeight(data, v.zs, o, WordTable, 0);
    TallyCorpusWeight(data, r.zs, o, WordTable, 0);
    CorpusWeightUpdate(data, v.zs, d, e, z, o, KeyMass(WordTable));
    assert r.wCounts[o].total != TallyCorpus(data, r.zs, o, WordTable).total;
  }
}
