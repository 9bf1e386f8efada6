/**
 * The bookkeeping of the entity Gibbs sampler (`GibbsSamplerEntities`): the
 * count tables filled from the corpus, the removal and re-addition of one
 * entity's counts around each draw, the likelihood-based stopping rule with
 * its best-so-far snapshot, the reload of that snapshot, and the numeric
 * checks that the priors and verb distributions sum to one.
 *
 * The topic draws and the data likelihood are inputs: `initializeModelFromData`
 * receives the initial topics, `relabel` the drawn topic and the stopping rule the
 * likelihood.
 */
module GibbsSampler {
  import opened Wrappers
  import opened Seqs
  import opened Strings
  import opened Counters
  import opened Entities
  import opened GibbsParams
  import opened SamplerData
  import opened Snapshots

  /** `-Double.MAX_VALUE`, written out exactly: -(2^53 - 1) * 2^971. */
  const MinusMaxDouble: real := -179769313486231570814527423731704356798070567525844996598917476803157260780028538760589558632766878171540458953514382464234321326889464182768467546703537516986049910576551282076245490090389328944075868508455133942304583236903222948165808559332123348274797826204144723168738177180919299881250404026184124858368.0

  /** The tolerance of the distribution checks. */
  const Tolerance: real := 0.00001

  function Abs(x: real): real {
    if x < 0.0 then -x else x
  }

  // ---------------------------------------------------------------------------
  // The count state, as values

  /**
   * One row of topics and one row of per-topic counts per document; one global
   * count and one counter of each kind per topic; every topic in range.
   */
  predicate Shaped(v: TableValues, data: seq<seq<EntityData>>) {
    var n := |v.topicCounts|;
    |v.zs| == |data| && |v.topicCountsByDoc| == |data| &&
    |v.wCounts| == n && |v.verbCounts| == n && |v.depCounts| == n && |v.featCounts| == n &&
    forall d :: 0 <= d < |data| ==>
      |v.zs[d]| == |data[d]| && Below(v.zs[d], n) && |v.topicCountsByDoc[d]| == n
  }

  /** Every counter of a table keeps its total and holds only keys in `[0, n)`. */
  ghost predicate TableFits(cs: seq<Counter>, n: int) {
    forall t :: 0 <= t < |cs| ==> Consistent(cs[t]) && KeysBelow(cs[t], n)
  }

  /** The word, verb, dependency and feature tables hold only positions their indices give out. */
  ghost predicate CountersFit(v: TableValues, ix: Indices, cfg: Config) {
    TableFits(v.wCounts, |ix.words|) && TableFits(v.verbCounts, |ix.verbs|) &&
    TableFits(v.depCounts, |ix.deps|) && TableFits(v.featCounts, cfg.numFeats)
  }

  /** Every encoded entity fits the indices. */
  predicate DataFits(data: seq<seq<EntityData>>, ix: Indices, cfg: Config) {
    forall d, e :: 0 <= d < |data| && 0 <= e < |data[d]| ==> EntityFits(data[d][e], |data[d][e].words|, ix, cfg)
  }

  /** The global topic counts are the number of entities assigned each topic. */
  predicate TopicCountsAgree(v: TableValues) {
    forall t :: 0 <= t < |v.topicCounts| ==> v.topicCounts[t] == TopicTotal(v.zs, t)
  }

  /** Each document's topic counts are the number of its entities assigned each topic. */
  predicate DocCountsAgree(v: TableValues) {
    |v.topicCountsByDoc| == |v.zs| &&
    forall d, t :: 0 <= d < |v.zs| && 0 <= t < |v.topicCountsByDoc[d]| ==> v.topicCountsByDoc[d][t] == Count(v.zs[d], t)
  }

  /** Entity `e` of document `d` exists and has a first mention. */
  predicate HasEntity(v: TableValues, data: seq<seq<EntityData>>, d: int, e: int) {
    Shaped(v, data) && 0 <= d < |data| && 0 <= e < |data[d]| && |data[d][e].words| > 0
  }

  /**
   * `unlabel(d, e)`: with `z` the entity's topic, one entity less for `z` globally
   * and in the document, the first mention's word decremented once, every
   * dependency (and verb, when verbs are on) decremented once per mention, with
   * keys that reach zero removed, and every flagged type decremented (when
   * features are on) without removal.
   */
  function UnlabelValues(v: TableValues, data: seq<seq<EntityData>>, d: int, e: int, cfg: Config): TableValues
    requires HasEntity(v, data, d, e)
  {
    var ed := data[d][e];
    var z := v.zs[d][e];
    TableValues(v.zs,
                v.topicCounts[z := v.topicCounts[z] - 1],
                v.topicCountsByDoc[d := v.topicCountsByDoc[d][z := v.topicCountsByDoc[d][z] - 1]],
                v.wCounts[z := DecrementCount(v.wCounts[z], ed.words[0], true)],
                if cfg.includeVerbs then v.verbCounts[z := DecrementAll(v.verbCounts[z], ed.verbs, true)] else v.verbCounts,
                v.depCounts[z := DecrementAll(v.depCounts[z], ed.deps, true)],
                if cfg.includeEntityFeatures then v.featCounts[z := DecrementAll(v.featCounts[z], OnFeatures(ed.feats), false)]
                else v.featCounts)
  }

  /** `relabel(d, e, z)`: the entity is assigned `z` and the same contributions are added to `z`. */
  function RelabelValues(v: TableValues, data: seq<seq<EntityData>>, d: int, e: int, z: int, cfg: Config): TableValues
    requires HasEntity(v, data, d, e) && 0 <= z < |v.topicCounts|
  {
    var ed := data[d][e];
    TableValues(v.zs[d := v.zs[d][e := z]],
                v.topicCounts[z := v.topicCounts[z] + 1],
                v.topicCountsByDoc[d := v.topicCountsByDoc[d][z := v.topicCountsByDoc[d][z] + 1]],
                v.wCounts[z := IncrementCount(v.wCounts[z], ed.words[0], 1)],
                if cfg.includeVerbs then v.verbCounts[z := IncrementAll(v.verbCounts[z], ed.verbs)] else v.verbCounts,
                v.depCounts[z := IncrementAll(v.depCounts[z], ed.deps)],
                if cfg.includeEntityFeatures then v.featCounts[z := IncrementAll(v.featCounts[z], OnFeatures(ed.feats))]
                else v.featCounts)
  }

  /** Two tables of counters agree on every count and every total. */
  ghost predicate SameCounts(a: seq<Counter>, b: seq<Counter>) {
    |a| == |b| &&
    (forall t, k :: 0 <= t < |a| ==> GetCount(a[t], k) == GetCount(b[t], k)) &&
    (forall t :: 0 <= t < |a| ==> a[t].total == b[t].total)
  }

  /** The state after one entity is unlabelled and relabelled with its old topic. */
  ghost predicate Restored(u: TableValues, v: TableValues) {
    u.zs == v.zs && u.topicCounts == v.topicCounts && u.topicCountsByDoc == v.topicCountsByDoc &&
    SameCounts(u.wCounts, v.wCounts) && SameCounts(u.verbCounts, v.verbCounts) &&
    SameCounts(u.depCounts, v.depCounts) && SameCounts(u.featCounts, v.featCounts)
  }

  lemma SameCountsRefl(a: seq<Counter>)
    ensures SameCounts(a, a)
  {
  }

  lemma SameCountsTrans(a: seq<Counter>, b: seq<Counter>, c: seq<Counter>)
    requires SameCounts(a, b) && SameCounts(b, c)
    ensures SameCounts(a, c)
  {
  }

  lemma RestoredTrans(u: TableValues, v: TableValues, w: TableValues)
    requires Restored(u, v) && Restored(v, w)
    ensures Restored(u, w)
  {
    SameCountsTrans(u.wCounts, v.wCounts, w.wCounts);
    SameCountsTrans(u.verbCounts, v.verbCounts, w.verbCounts);
    SameCountsTrans(u.depCounts, v.depCounts, w.depCounts);
    SameCountsTrans(u.featCounts, v.featCounts, w.featCounts);
  }

  /** Decrementing then incrementing one slot of a table brings back its counts. */
  lemma SlotRestored(cs: seq<Counter>, z: int, ks: seq<int>, prune: bool)
    requires 0 <= z < |cs|
    ensures SameCounts(cs[z := DecrementAll(cs[z], ks, prune)][z := IncrementAll(DecrementAll(cs[z], ks, prune), ks)], cs)
  {
    DecrementThenIncrement(cs[z], ks, prune);
  }

  /**
   * Relabelling an entity with the topic it had before it was unlabelled leaves
   * the topics, both topic counts, and every count and total of every counter as
   * they were. Counters may differ only in keys holding a zero.
   */
  lemma RelabelUndoesUnlabel(v: TableValues, data: seq<seq<EntityData>>, d: int, e: int, cfg: Config)
    requires HasEntity(v, data, d, e)
    ensures HasEntity(UnlabelValues(v, data, d, e, cfg), data, d, e)
    ensures Restored(RelabelValues(UnlabelValues(v, data, d, e, cfg), data, d, e, v.zs[d][e], cfg), v)
  {
    var ed := data[d][e];
    var z := v.zs[d][e];
    var u := UnlabelValues(v, data, d, e, cfg);
    var r := RelabelValues(u, data, d, e, z, cfg);
    assert v.zs[d][e := z] == v.zs[d];
    assert r.zs == v.zs;
    assert r.topicCountsByDoc[d] == v.topicCountsByDoc[d];
    assert r.topicCountsByDoc == v.topicCountsByDoc;
    assert r.topicCounts == v.topicCounts;
    assert SameCounts(r.wCounts, v.wCounts) by {
      var c := v.wCounts[z];
      var k := ed.words[0];
      assert r.wCounts == v.wCounts[z := IncrementCount(DecrementCount(c, k, true), k, 1)];
    }
    if cfg.includeVerbs {
      SlotRestored(v.verbCounts, z, ed.verbs, true);
    }
    SlotRestored(v.depCounts, z, ed.deps, true);
    if cfg.includeEntityFeatures {
      SlotRestored(v.featCounts, z, OnFeatures(ed.feats), false);
    }
  }

  // ---------------------------------------------------------------------------
  // Topic totals under one reassignment

  /** Changing one entry of a row moves one occurrence from the old value to the new one. */
  lemma CountUpdate(s: seq<int>, e: int, z: int, t: int)
    requires 0 <= e < |s|
    ensures Count(s[e := z], t) == Count(s, t) - (if s[e] == t then 1 else 0) + (if z == t then 1 else 0)
  {
    assert multiset(s[e := z]) == multiset(s) - multiset{s[e]} + multiset{z};
  }

  /** Replacing one document's row changes a topic's total by the difference of the row's counts. */
  lemma {:induction false} TopicTotalUpdate(zs: seq<seq<int>>, d: int, row: seq<int>, t: int)
    requires 0 <= d < |zs|
    ensures TopicTotal(zs[d := row], t) == TopicTotal(zs, t) - Count(zs[d], t) + Count(row, t)
    decreases |zs|
  {
    var m := |zs| - 1;
    assert zs[d := row][..m] == if d == m then zs[..m] else zs[..m][d := row];
    if d < m {
      TopicTotalUpdate(zs[..m], d, row, t);
    }
  }

  /** The entity totals do not depend on which topics the entities carry. */
  lemma {:induction false} EntityTotalUpdate(zs: seq<seq<int>>, d: int, row: seq<int>)
    requires 0 <= d < |zs| && |row| == |zs[d]|
    ensures EntityTotal(zs[d := row]) == EntityTotal(zs)
    decreases |zs|
  {
    var m := |zs| - 1;
    assert zs[d := row][..m] == if d == m then zs[..m] else zs[..m][d := row];
    if d < m {
      EntityTotalUpdate(zs[..m], d, row);
    }
  }

  /** Moving one entity of document `d` to topic `z` keeps global counts equal to the topic totals. */
  lemma MoveKeepsTotals(zs: seq<seq<int>>, tc: seq<int>, d: int, e: int, z: int, zs': seq<seq<int>>, tc': seq<int>)
    requires 0 <= d < |zs| && 0 <= e < |zs[d]| && 0 <= zs[d][e] < |tc| && 0 <= z < |tc|
    requires forall t :: 0 <= t < |tc| ==> tc[t] == TopicTotal(zs, t)
    requires zs' == zs[d := zs[d][e := z]]
    requires tc' == tc[zs[d][e] := tc[zs[d][e]] - 1][z := tc[zs[d][e] := tc[zs[d][e]] - 1][z] + 1]
    ensures forall t :: 0 <= t < |tc'| ==> tc'[t] == TopicTotal(zs', t)
  {
    forall t | 0 <= t < |tc'| ensures tc'[t] == TopicTotal(zs', t) {
      TopicTotalUpdate(zs, d, zs[d][e := z], t);
      CountUpdate(zs[d], e, z, t);
    }
  }

  /** Moving one entity of a row to topic `z` keeps the row's counts equal to its occurrences. */
  lemma MoveKeepsRowCounts(row: seq<int>, counts: seq<int>, e: int, z: int, row': seq<int>, counts': seq<int>)
    requires 0 <= e < |row| && 0 <= row[e] < |counts| && 0 <= z < |counts|
    requires forall t :: 0 <= t < |counts| ==> counts[t] == Count(row, t)
    requires row' == row[e := z]
    requires counts' == counts[row[e] := counts[row[e]] - 1][z := counts[row[e] := counts[row[e]] - 1][z] + 1]
    ensures forall t :: 0 <= t < |counts'| ==> counts'[t] == Count(row', t)
  {
    forall t | 0 <= t < |counts'| ensures counts'[t] == Count(row', t) {
      CountUpdate(row, e, z, t);
    }
  }

  /** Unlabelling leaves the shape of the state as it was. */
  lemma UnlabelKeepsShape(v: TableValues, data: seq<seq<EntityData>>, d: int, e: int, cfg: Config)
    requires HasEntity(v, data, d, e)
    ensures HasEntity(UnlabelValues(v, data, d, e, cfg), data, d, e)
    ensures UnlabelValues(v, data, d, e, cfg).zs == v.zs
  {
    var u := UnlabelValues(v, data, d, e, cfg);
    assert forall dd :: 0 <= dd < |data| ==> |u.topicCountsByDoc[dd]| == |v.topicCountsByDoc[dd]|;
  }

  lemma SamplingStepKeepsGlobalCounts(v: TableValues, data: seq<seq<EntityData>>, d: int, e: int, z: int, cfg: Config)
    requires HasEntity(v, data, d, e) && 0 <= z < |v.topicCounts| && TopicCountsAgree(v)
    requires HasEntity(UnlabelValues(v, data, d, e, cfg), data, d, e)
    ensures TopicCountsAgree(RelabelValues(UnlabelValues(v, data, d, e, cfg), data, d, e, z, cfg))
  {
    var u := UnlabelValues(v, data, d, e, cfg);
    var r := RelabelValues(u, data, d, e, z, cfg);
    UnlabelDocFields(v, data, d, e, cfg);
    RelabelDocFields(u, data, d, e, z, cfg);
    assert Shaped(v, data);
    MovedTotals(v.zs, v.topicCounts, u.topicCounts, d, e, z, r);
  }

  /** The global counts of `r`, which moved entity `e` of document `d` to `z`, agree with its topics. */
  lemma MovedTotals(zs: seq<seq<int>>, tc: seq<int>, tcMid: seq<int>, d: int, e: int, z: int, r: TableValues)
    requires 0 <= d < |zs| && 0 <= e < |zs[d]| && 0 <= zs[d][e] < |tc| && 0 <= z < |tc|
    requires forall t :: 0 <= t < |tc| ==> tc[t] == TopicTotal(zs, t)
    requires tcMid == tc[zs[d][e] := tc[zs[d][e]] - 1]
    requires r.zs == zs[d := zs[d][e := z]] && r.topicCounts == tcMid[z := tcMid[z] + 1]
    ensures TopicCountsAgree(r)
  {
    MoveKeepsTotals(zs, tc, d, e, z, r.zs, r.topicCounts);
  }

  /** Moving one entity of document `d` to topic `z` keeps every document's counts equal to its occurrences. */
  lemma MoveKeepsDocCounts(zs: seq<seq<int>>, tcd: seq<seq<int>>, d: int, e: int, z: int,
                           zs': seq<seq<int>>, tcd': seq<seq<int>>)
    requires |tcd| == |zs| && 0 <= d < |zs| && 0 <= e < |zs[d]| && 0 <= zs[d][e] < |tcd[d]| && 0 <= z < |tcd[d]|
    requires forall dd, t :: 0 <= dd < |zs| && 0 <= t < |tcd[dd]| ==> tcd[dd][t] == Count(zs[dd], t)
    requires zs' == zs[d := zs[d][e := z]]
    requires var row := tcd[d][zs[d][e] := tcd[d][zs[d][e]] - 1];
             tcd' == tcd[d := row[z := row[z] + 1]]
    ensures |tcd'| == |zs'|
    ensures forall dd, t :: 0 <= dd < |zs'| && 0 <= t < |tcd'[dd]| ==> tcd'[dd][t] == Count(zs'[dd], t)
  {
    MoveKeepsRowCounts(zs[d], tcd[d], e, z, zs'[d], tcd'[d]);
  }

  lemma SamplingStepKeepsDocCounts(v: TableValues, data: seq<seq<EntityData>>, d: int, e: int, z: int, cfg: Config)
    requires HasEntity(v, data, d, e) && 0 <= z < |v.topicCounts| && DocCountsAgree(v)
    requires HasEntity(UnlabelValues(v, data, d, e, cfg), data, d, e)
    ensures DocCountsAgree(RelabelValues(UnlabelValues(v, data, d, e, cfg), data, d, e, z, cfg))
  {
    var u := UnlabelValues(v, data, d, e, cfg);
    var r := RelabelValues(u, data, d, e, z, cfg);
    UnlabelDocFields(v, data, d, e, cfg);
    RelabelDocFields(u, data, d, e, z, cfg);
    assert Shaped(v, data);
    MovedDocCounts(v.zs, v.topicCountsByDoc, u.topicCountsByDoc, d, e, z, r);
  }

  /** The per-document counts of `r`, which moved entity `e` of document `d` to `z`, agree with its topics. */
  lemma MovedDocCounts(zs: seq<seq<int>>, tcd: seq<seq<int>>, tcdMid: seq<seq<int>>, d: int, e: int, z: int, r: TableValues)
    requires |tcd| == |zs| && 0 <= d < |zs| && 0 <= e < |zs[d]| && 0 <= zs[d][e] < |tcd[d]| && 0 <= z < |tcd[d]|
    requires forall dd, t :: 0 <= dd < |zs| && 0 <= t < |tcd[dd]| ==> tcd[dd][t] == Count(zs[dd], t)
    requires tcdMid == tcd[d := tcd[d][zs[d][e] := tcd[d][zs[d][e]] - 1]]
    requires r.zs == zs[d := zs[d][e := z]] && r.topicCountsByDoc == tcdMid[d := tcdMid[d][z := tcdMid[d][z] + 1]]
    ensures DocCountsAgree(r)
  {
    MoveKeepsDocCounts(zs, tcd, d, e, z, r.zs, r.topicCountsByDoc);
  }

  /** The topic rows and the global and per-document counts after an unlabel. */
  lemma UnlabelDocFields(v: TableValues, data: seq<seq<EntityData>>, d: int, e: int, cfg: Config)
    requires HasEntity(v, data, d, e)
    ensures var u := UnlabelValues(v, data, d, e, cfg);
            var oz := v.zs[d][e];
            u.zs == v.zs && u.topicCounts == v.topicCounts[oz := v.topicCounts[oz] - 1] &&
            u.topicCountsByDoc == v.topicCountsByDoc[d := v.topicCountsByDoc[d][oz := v.topicCountsByDoc[d][oz] - 1]]
  {
  }

  /** The topic rows and the global and per-document counts after a relabel. */
  lemma RelabelDocFields(v: TableValues, data: seq<seq<EntityData>>, d: int, e: int, z: int, cfg: Config)
    requires HasEntity(v, data, d, e) && 0 <= z < |v.topicCounts|
    ensures var r := RelabelValues(v, data, d, e, z, cfg);
            r.zs == v.zs[d := v.zs[d][e := z]] && r.topicCounts == v.topicCounts[z := v.topicCounts[z] + 1] &&
            r.topicCountsByDoc == v.topicCountsByDoc[d := v.topicCountsByDoc[d][z := v.topicCountsByDoc[d][z] + 1]]
  {
  }

  /**
   * One sampling step, an unlabel followed by a relabel with any topic in range,
   * keeps the global and per-document topic counts equal to the number of
   * entities assigned each topic.
   */
  lemma SamplingStepKeepsTopicCounts(v: TableValues, data: seq<seq<EntityData>>, d: int, e: int, z: int, cfg: Config)
    requires HasEntity(v, data, d, e) && 0 <= z < |v.topicCounts|
    requires TopicCountsAgree(v) && DocCountsAgree(v)
    ensures HasEntity(UnlabelValues(v, data, d, e, cfg), data, d, e)
    ensures var r := RelabelValues(UnlabelValues(v, data, d, e, cfg), data, d, e, z, cfg);
            TopicCountsAgree(r) && DocCountsAgree(r)
  {
    UnlabelKeepsShape(v, data, d, e, cfg);
    SamplingStepKeepsGlobalCounts(v, data, d, e, z, cfg);
    SamplingStepKeepsDocCounts(v, data, d, e, z, cfg);
  }

  /** After an unlabel the entity is counted nowhere: its old topic holds one entity less than it is assigned. */
  lemma UnlabelLeavesEntityOut(v: TableValues, data: seq<seq<EntityData>>, d: int, e: int, cfg: Config)
    requires HasEntity(v, data, d, e) && TopicCountsAgree(v) && DocCountsAgree(v)
    ensures var u := UnlabelValues(v, data, d, e, cfg);
            u.zs == v.zs &&
            (forall t :: 0 <= t < |u.topicCounts| ==>
               u.topicCounts[t] == TopicTotal(v.zs, t) - (if t == v.zs[d][e] then 1 else 0)) &&
            (forall t :: 0 <= t < |u.topicCountsByDoc[d]| ==>
               u.topicCountsByDoc[d][t] == Count(v.zs[d], t) - (if t == v.zs[d][e] then 1 else 0))
  {
  }

  // ---------------------------------------------------------------------------
  // What unlabelling takes away

  /** Decrementing the keys `ks` in slot `z` takes each key's multiplicity off slot `z` only. */
  lemma DecrementSlot(cs: seq<Counter>, z: int, ks: seq<int>, prune: bool)
    requires 0 <= z < |cs|
    ensures forall t, k :: 0 <= t < |cs| ==>
              GetCount(cs[z := DecrementAll(cs[z], ks, prune)][t], k) == GetCount(cs[t], k) - (if t == z then Count(ks, k) else 0)
  {
    DecrementAllCounts(cs[z], ks, prune);
  }

  /**
   * `unlabel` changes nothing but the entity's old topic `z`: one entity, the
   * first mention's word once, each dependency once per mention, each verb once
   * per mention when verbs are on and each flagged type when features are on.
   */
  lemma UnlabelRemovesOneEntity(v: TableValues, data: seq<seq<EntityData>>, d: int, e: int, cfg: Config)
    requires HasEntity(v, data, d, e)
    ensures var u := UnlabelValues(v, data, d, e, cfg);
            var ed := data[d][e];
            var z := v.zs[d][e];
            u.zs == v.zs &&
            (forall t :: 0 <= t < |v.topicCounts| ==>
               u.topicCounts[t] == v.topicCounts[t] - (if t == z then 1 else 0)) &&
            (forall dd, t :: 0 <= dd < |v.zs| && 0 <= t < |v.topicCountsByDoc[dd]| ==>
               u.topicCountsByDoc[dd][t] == v.topicCountsByDoc[dd][t] - (if dd == d && t == z then 1 else 0)) &&
            (forall t, k :: 0 <= t < |v.wCounts| ==>
               GetCount(u.wCounts[t], k) == GetCount(v.wCounts[t], k) - (if t == z && k == ed.words[0] then 1 else 0)) &&
            (forall t, k :: 0 <= t < |v.depCounts| ==>
               GetCount(u.depCounts[t], k) == GetCount(v.depCounts[t], k) - (if t == z then Count(ed.deps, k) else 0)) &&
            (forall t, k :: 0 <= t < |v.verbCounts| ==>
               GetCount(u.verbCounts[t], k) ==
               GetCount(v.verbCounts[t], k) - (if t == z && cfg.includeVerbs then Count(ed.verbs, k) else 0)) &&
            (forall t, k :: 0 <= t < |v.featCounts| ==>
               GetCount(u.featCounts[t], k) ==
               GetCount(v.featCounts[t], k) - (if t == z && cfg.includeEntityFeatures then Count(OnFeatures(ed.feats), k) else 0))
  {
    var ed := data[d][e];
    var z := v.zs[d][e];
    DecrementSlot(v.depCounts, z, ed.deps, true);
    DecrementSlot(v.verbCounts, z, ed.verbs, true);
    DecrementSlot(v.featCounts, z, OnFeatures(ed.feats), false);
  }

  // ---------------------------------------------------------------------------
  // Fitting states

  lemma TableFitsUpdate(cs: seq<Counter>, z: int, c: Counter, n: int)
    requires TableFits(cs, n) && 0 <= z < |cs| && Consistent(c) && KeysBelow(c, n)
    ensures TableFits(cs[z := c], n)
  {
  }

  lemma TableFitsDecrement(cs: seq<Counter>, z: int, ks: seq<int>, prune: bool, n: int)
    requires TableFits(cs, n) && 0 <= z < |cs| && Below(ks, n)
    ensures TableFits(cs[z := DecrementAll(cs[z], ks, prune)], n)
  {
    DecrementAllConsistent(cs[z], ks, prune);
    DecrementAllKeysBelow(cs[z], ks, prune, n);
  }

  lemma TableFitsIncrement(cs: seq<Counter>, z: int, ks: seq<int>, n: int)
    requires TableFits(cs, n) && 0 <= z < |cs| && Below(ks, n)
    ensures TableFits(cs[z := IncrementAll(cs[z], ks)], n)
  {
    IncrementAllConsistent(cs[z], ks);
    IncrementAllKeysBelow(cs[z], ks, n);
  }

  /** The flagged types of a fitting entity are types. */
  lemma OnFeaturesBelow(ed: EntityData, ix: Indices, cfg: Config)
    requires FeatsFit(ed, cfg)
    ensures Below(OnFeatures(ed.feats), cfg.numFeats)
  {
  }

  /** Unlabelling keeps the state shaped and its counters fitting the indices. */
  lemma UnlabelKeepsFit(v: TableValues, data: seq<seq<EntityData>>, d: int, e: int, ix: Indices, cfg: Config)
    requires HasEntity(v, data, d, e) && CountersFit(v, ix, cfg) && DataFits(data, ix, cfg)
    ensures var u := UnlabelValues(v, data, d, e, cfg);
            Shaped(u, data) && |u.topicCounts| == |v.topicCounts| && CountersFit(u, ix, cfg)
  {
    var ed := data[d][e];
    var z := v.zs[d][e];
    assert EntityFits(ed, |ed.words|, ix, cfg);
    DecrementConsistent(v.wCounts[z], ed.words[0], true);
    TableFitsUpdate(v.wCounts, z, DecrementCount(v.wCounts[z], ed.words[0], true), |ix.words|);
    TableFitsDecrement(v.verbCounts, z, ed.verbs, true, |ix.verbs|);
    TableFitsDecrement(v.depCounts, z, ed.deps, true, |ix.deps|);
    OnFeaturesBelow(ed, ix, cfg);
    TableFitsDecrement(v.featCounts, z, OnFeatures(ed.feats), false, cfg.numFeats);
  }

  /** Relabelling with a topic in range keeps the state shaped and its counters fitting the indices. */
  lemma RelabelKeepsFit(v: TableValues, data: seq<seq<EntityData>>, d: int, e: int, z: int, ix: Indices, cfg: Config)
    requires HasEntity(v, data, d, e) && 0 <= z < |v.topicCounts| && CountersFit(v, ix, cfg) && DataFits(data, ix, cfg)
    ensures var r := RelabelValues(v, data, d, e, z, cfg);
            Shaped(r, data) && |r.topicCounts| == |v.topicCounts| && CountersFit(r, ix, cfg)
  {
    var ed := data[d][e];
    assert EntityFits(ed, |ed.words|, ix, cfg);
    IncrementConsistent(v.wCounts[z], ed.words[0], 1);
    TableFitsUpdate(v.wCounts, z, IncrementCount(v.wCounts[z], ed.words[0], 1), |ix.words|);
    TableFitsIncrement(v.verbCounts, z, ed.verbs, |ix.verbs|);
    TableFitsIncrement(v.depCounts, z, ed.deps, |ix.deps|);
    OnFeaturesBelow(ed, ix, cfg);
    TableFitsIncrement(v.featCounts, z, OnFeatures(ed.feats), cfg.numFeats);
    var r := RelabelValues(v, data, d, e, z, cfg);
    forall dd | 0 <= dd < |data| ensures Below(r.zs[dd], |r.topicCounts|) {
    }
  }

  // ---------------------------------------------------------------------------
  // Initialization

  /** The per-topic entity counts of one document. */
  function CountRow(zrow: seq<int>, n: nat): (r: seq<int>)
    ensures |r| == n && forall t :: 0 <= t < n ==> r[t] == Count(zrow, t)
  {
    seq(n, t => Count(zrow, t))
  }

  /** One more entity with topic `z` raises that topic's count of its document by one. */
  lemma CountRowSnoc(zrow: seq<int>, z: int, n: nat)
    requires 0 <= z < n
    ensures CountRow(zrow + [z], n) == CountRow(zrow, n)[z := CountRow(zrow, n)[z] + 1]
  {
    forall t | 0 <= t < n ensures Count(zrow + [z], t) == Count(zrow, t) + (if t == z then 1 else 0) {
      assert multiset(zrow + [z]) == multiset(zrow) + multiset{z};
    }
  }

  /**
   * The tables `initializeModelFromData` fills for the topics `topics`: the
   * topics themselves, the number of entities per topic globally and per
   * document, and the tally of every entity's words, verbs, dependencies and
   * flagged types under its topic.
   */
  ghost function InitialValues(data: seq<seq<EntityData>>, topics: seq<seq<int>>, n: nat): TableValues
    requires SameShape(data, topics)
  {
    TableValues(topics,
                seq(n, t => TopicTotal(topics, t)),
                seq(|topics|, d requires 0 <= d < |topics| => CountRow(topics[d], n)),
                seq(n, t => TallyCorpus(data, topics, t, WordTable)),
                seq(n, t => TallyCorpus(data, topics, t, VerbTable)),
                seq(n, t => TallyCorpus(data, topics, t, DepTable)),
                seq(n, t => TallyCorpus(data, topics, t, FeatTable)))
  }

  /**
   * After initialization every document's counts sum to its number of entities,
   * the global counts sum to the number of entities of the corpus, and both
   * agree with the topics.
   */
  lemma InitialTopicCounts(data: seq<seq<EntityData>>, topics: seq<seq<int>>, n: nat)
    requires SameShape(data, topics) && TopicsBelow(topics, n)
    ensures var v := InitialValues(data, topics, n);
            Shaped(v, data) && TopicCountsAgree(v) && DocCountsAgree(v) &&
            (forall d :: 0 <= d < |topics| ==> IntSum(v.topicCountsByDoc[d], n) == |topics[d]|) &&
            IntSum(v.topicCounts, n) == EntityTotal(topics)
  {
    var v := InitialValues(data, topics, n);
    forall d | 0 <= d < |topics| ensures IntSum(v.topicCountsByDoc[d], n) == |topics[d]| {
      CountsSumToLength(topics[d], v.topicCountsByDoc[d], n);
    }
    TopicTotalsSum(topics, v.topicCounts, n);
  }

  /**
   * After initialization the dependency table of topic `t` holds one count per
   * mention of the entities assigned `t`, and so does its word table: the core
   * token is counted once per mention.
   */
  lemma InitialMentionCounts(data: seq<seq<EntityData>>, docs: seq<seq<TextEntity>>, topics: seq<seq<int>>, n: nat,
                             ix: Indices, cfg: Config, t: int)
    requires CorpusFits(data, docs, ix, cfg) && SameShape(docs, topics) && 0 <= t < n
    ensures SameShape(data, topics)
    ensures InitialValues(data, topics, n).depCounts[t].total == MentionsOfTopic(docs, topics, t)
    ensures InitialValues(data, topics, n).wCounts[t].total == MentionsOfTopic(docs, topics, t)
  {
    TallyIsMentions(data, docs, topics, t, DepTable, ix, cfg);
    TallyIsMentions(data, docs, topics, t, WordTable, ix, cfg);
  }

  /** The initial counters keep their totals and hold only positions the indices give out. */
  lemma InitialCountersFit(data: seq<seq<EntityData>>, topics: seq<seq<int>>, n: nat, ix: Indices, cfg: Config)
    requires SameShape(data, topics) && DataFits(data, ix, cfg)
    ensures CountersFit(InitialValues(data, topics, n), ix, cfg)
  {
    var v := InitialValues(data, topics, n);
    assert KeysOfDataBelow(data, WordTable, |ix.words|) && KeysOfDataBelow(data, VerbTable, |ix.verbs|) &&
           KeysOfDataBelow(data, DepTable, |ix.deps|);
    assert KeysOfDataBelow(data, FeatTable, cfg.numFeats) by {
      forall d, e | 0 <= d < |data| && 0 <= e < |data[d]| ensures Below(TableKeys(FeatTable, data[d][e]), cfg.numFeats) {
        OnFeaturesBelow(data[d][e], ix, cfg);
      }
    }
    forall t, tab | 0 <= t < n
      ensures Consistent(TallyCorpus(data, topics, t, tab))
    {
      TallyConsistent(data, topics, t, tab);
    }
    forall t | 0 <= t < n
      ensures KeysBelow(TallyCorpus(data, topics, t, WordTable), |ix.words|)
      ensures KeysBelow(TallyCorpus(data, topics, t, VerbTable), |ix.verbs|)
      ensures KeysBelow(TallyCorpus(data, topics, t, DepTable), |ix.deps|)
      ensures KeysBelow(TallyCorpus(data, topics, t, FeatTable), cfg.numFeats)
    {
      TallyKeysBelow(data, topics, t, WordTable, |ix.words|);
      TallyKeysBelow(data, topics, t, VerbTable, |ix.verbs|);
      TallyKeysBelow(data, topics, t, DepTable, |ix.deps|);
      TallyKeysBelow(data, topics, t, FeatTable, cfg.numFeats);
    }
  }

  /** The encoded corpus fits the indices it was encoded with, entity by entity. */
  lemma CorpusFitsData(data: seq<seq<EntityData>>, docs: seq<seq<TextEntity>>, ix: Indices, cfg: Config)
    requires CorpusFits(data, docs, ix, cfg)
    ensures DataFits(data, ix, cfg)
  {
  }

  /**
   * The tables of topic `t` hold the tally of the finished documents and of
   * entities `row` of the current one, under their topics.
   */
  ghost predicate Tallied(cs: seq<Counter>, data: seq<seq<EntityData>>, topics: seq<seq<int>>,
                          row: seq<EntityData>, zrow: seq<int>, tab: Table) {
    SameShape(data, topics) && |row| == |zrow| &&
    forall t :: 0 <= t < |cs| ==> cs[t] == TallyRow(TallyCorpus(data, topics, t, tab), row, zrow, t, tab)
  }

  lemma TalliedStart(cs: seq<Counter>, tab: Table)
    requires forall t :: 0 <= t < |cs| ==> cs[t] == EmptyCounter
    ensures Tallied(cs, [], [], [], [], tab)
  {
  }

  /** Counting one more entity of the current document into its topic's table. */
  lemma TalliedStep(cs: seq<Counter>, data: seq<seq<EntityData>>, topics: seq<seq<int>>,
                    row: seq<EntityData>, zrow: seq<int>, tab: Table, ed: EntityData, z: int)
    requires Tallied(cs, data, topics, row, zrow, tab) && 0 <= z < |cs|
    ensures Tallied(cs[z := IncrementAll(cs[z], TableKeys(tab, ed))], data, topics, row + [ed], zrow + [z], tab)
  {
    assert (row + [ed])[..|row|] == row && (zrow + [z])[..|zrow|] == zrow;
  }

  /** A finished document joins the finished ones. */
  lemma TalliedDoc(cs: seq<Counter>, data: seq<seq<EntityData>>, topics: seq<seq<int>>,
                   row: seq<EntityData>, zrow: seq<int>, tab: Table)
    requires Tallied(cs, data, topics, row, zrow, tab)
    ensures Tallied(cs, data + [row], topics + [zrow], [], [], tab)
  {
    assert (data + [row])[..|data|] == data && (topics + [zrow])[..|topics|] == topics;
  }

  /** The entity data and indices after one more mention, written out. */
  lemma AddMentionParts(ix: Indices, ed: EntityData, token: string, dep: string, includeVerbs: bool)
    requires InverseDepDefined(dep)
    ensures var r := AddMention(ix, ed, token, dep, includeVerbs);
            var words := IndexAdd(ix.words, token);
            var verbs := IndexAdd(ix.verbs, Governor(dep));
            var deps := IndexAdd(ix.deps, dep);
            r.0.words == words && r.0.verbs == verbs &&
            r.1.words == ed.words + [PositionOf(words, token)] &&
            r.1.deps == ed.deps + [PositionOf(deps, dep)] &&
            r.1.verbs == (if includeVerbs then ed.verbs + [PositionOf(verbs, Governor(dep))] else ed.verbs) &&
            r.1.feats == ed.feats
  {
  }

  /**
   * The mentions loop of `initializeModelFromData` for one entity with core token
   * `token`: each mention's word, verb and dependency are indexed and recorded,
   * and the topic's word, verb (when verbs are on) and dependency counters
   * incremented.
   */
  method CountMentions(ix: Indices, token: string, ms: seq<Mention>, includeVerbs: bool,
                       w: Counter, v: Counter, dc: Counter, mentions: int)
    returns (ix': Indices, ed: EntityData, w': Counter, v': Counter, dc': Counter, mentions': int)
    requires forall i :: 0 <= i < |ms| ==> InverseDepDefined(ms[i].dep)
    ensures (ix', ed) == EncodeMentions(ix, token, ms, includeVerbs)
    ensures w' == IncrementAll(w, ed.words) && v' == IncrementAll(v, ed.verbs) && dc' == IncrementAll(dc, ed.deps)
    ensures mentions' == mentions + |ms|
  {
    ix', ed := ix, EntityData([], [], [], [], []);
    w', v', dc', mentions' := w, v, dc, mentions;
    for wi := 0 to |ms|
      invariant (ix', ed) == EncodeMentions(ix, token, ms[..wi], includeVerbs)
      invariant w' == IncrementAll(w, ed.words) && v' == IncrementAll(v, ed.verbs) && dc' == IncrementAll(dc, ed.deps)
      invariant mentions' == mentions + wi
    {
      var dep := ms[wi].dep;
      assert ms[..wi + 1][..wi] == ms[..wi] && ms[..wi + 1][wi].dep == dep;
      var next := AddMention(ix', ed, token, dep, includeVerbs);
      AddMentionParts(ix', ed, token, dep, includeVerbs);
      var wIndex := PositionOf(next.0.words, token);
      var verb := Governor(dep);
      var vIndex := PositionOf(next.0.verbs, verb);
      var dIndex := PositionOf(IndexAdd(ix'.deps, dep), dep);
      IncrementAllSnoc(w, ed.words, wIndex);
      IncrementAllSnoc(dc, ed.deps, dIndex);
      w' := IncrementCount(w', wIndex, 1);
      if includeVerbs {
        IncrementAllSnoc(v, ed.verbs, vIndex);
        v' := IncrementCount(v', vIndex, 1);
      }
      dc' := IncrementCount(dc', dIndex, 1);
      mentions' := mentions' + 1;
      ix', ed := next.0, next.1;
    }
    assert ms[..|ms|] == ms;
  }

  /** One more flag at the end adds its position to the flagged ones when it is set. */
  lemma OnFeaturesSnoc(flags: seq<int>, b: int)
    ensures OnFeatures(flags + [b]) == OnFeatures(flags) + (if b == 1 then [|flags|] else [])
  {
    assert (flags + [b])[..|flags|] == flags;
  }

  /** Counting the positions flagged so far, one flag further on. */
  lemma FlagStep(fc: Counter, flags: seq<int>, flag: int)
    ensures IncrementAll(fc, OnFeatures(flags + [flag])) ==
            if flag == 1 then IncrementCount(IncrementAll(fc, OnFeatures(flags)), |flags|, 1)
            else IncrementAll(fc, OnFeatures(flags))
  {
    OnFeaturesSnoc(flags, flag);
    if flag == 1 {
      IncrementAllSnoc(fc, OnFeatures(flags), |flags|);
    } else {
      assert OnFeatures(flags + [flag]) == OnFeatures(flags) + [] == OnFeatures(flags);
    }
  }

  /** The flags of one more type are the flags so far followed by that type's flag. */
  lemma FeatureFlagsSnoc(types: set<int>, n: nat)
    ensures FeatureFlags(types, n + 1) == FeatureFlags(types, n) + [if n in types then 1 else 0]
  {
    var a, b := FeatureFlags(types, n + 1), FeatureFlags(types, n) + [if n in types then 1 else 0];
    assert |a| == |b|;
    forall f | 0 <= f < |a| ensures a[f] == b[f] {
      if f < n {
        assert b[f] == FeatureFlags(types, n)[f];
      }
    }
  }

  /** The type loop of `initializeModelFromData`: one 0/1 flag per type, and the topic's counter of each type the entity carries incremented. */
  method CountFeatures(types: set<int>, numFeats: nat, fc: Counter) returns (flags: seq<int>, fc': Counter)
    ensures flags == FeatureFlags(types, numFeats)
    ensures fc' == IncrementAll(fc, OnFeatures(flags))
  {
    flags, fc' := [], fc;
    for feati := 0 to numFeats
      invariant flags == FeatureFlags(types, feati)
      invariant fc' == IncrementAll(fc, OnFeatures(flags))
    {
      var flag := if feati in types then 1 else 0;
      FlagStep(fc, flags, flag);
      FeatureFlagsSnoc(types, feati);
      if feati in types {
        fc' := IncrementCount(fc', feati, 1);
      }
      flags := flags + [flag];
    }
  }

  /** The type flags of an entity: counted when features are on, none otherwise. */
  method EntityFeatures(types: set<int>, cfg: Config, fc: Counter) returns (flags: seq<int>, fc': Counter)
    ensures flags == if cfg.includeEntityFeatures then FeatureFlags(types, cfg.numFeats) else []
    ensures fc' == IncrementAll(fc, OnFeatures(flags))
  {
    if cfg.includeEntityFeatures {
      flags, fc' := CountFeatures(types, cfg.numFeats, fc);
    } else {
      flags, fc' := [], fc;
      assert OnFeatures(flags) == [];
    }
  }

  /** An entity's encoding is its mentions' encoding with its flags. */
  lemma EncodeEntityIs(ix: Indices, entity: TextEntity, cfg: Config, m: (Indices, EntityData), flags: seq<int>)
    requires EntityDepsDefined(entity)
    requires m == EncodeMentions(ix, entity.coreToken, entity.mentions, cfg.includeVerbs)
    requires flags == if cfg.includeEntityFeatures then FeatureFlags(entity.types, cfg.numFeats) else []
    ensures EncodeEntity(ix, entity, cfg) == (m.0, m.1.(feats := flags))
  {
  }

  /** The keys an entity adds: its mentions' words, verbs and dependencies, and its flagged types. */
  lemma EntityKeys(md: EntityData, flags: seq<int>, ed: EntityData)
    requires ed == md.(feats := flags)
    ensures TableKeys(WordTable, ed) == md.words && TableKeys(VerbTable, ed) == md.verbs
    ensures TableKeys(DepTable, ed) == md.deps && TableKeys(FeatTable, ed) == OnFeatures(flags)
  {
  }

  /**
   * One entity of `initializeModelFromData` under its topic: the type flags and
   * the mentions are encoded, and the topic's counters receive the entity's keys.
   */
  method CountEntity(ix: Indices, entity: TextEntity, cfg: Config, w: Counter, v: Counter, dc: Counter, fc: Counter,
                     mentions: int)
    returns (ix': Indices, ed: EntityData, w': Counter, v': Counter, dc': Counter, fc': Counter, mentions': int)
    requires EntityDepsDefined(entity)
    ensures (ix', ed) == EncodeEntity(ix, entity, cfg)
    ensures w' == IncrementAll(w, TableKeys(WordTable, ed)) && v' == IncrementAll(v, TableKeys(VerbTable, ed))
    ensures dc' == IncrementAll(dc, TableKeys(DepTable, ed)) && fc' == IncrementAll(fc, TableKeys(FeatTable, ed))
    ensures mentions' == mentions + |entity.mentions|
  {
    var flags;
    flags, fc' := EntityFeatures(entity.types, cfg, fc);
    var md;
    ix', md, w', v', dc', mentions' := CountMentions(ix, entity.coreToken, entity.mentions, cfg.includeVerbs, w, v, dc, mentions);
    EncodeEntityIs(ix, entity, cfg, (ix', md), flags);
    ed := md.(feats := flags);
    EntityKeys(md, flags, ed);
  }

  /**
   * The counts after the finished documents `data` and the entities `row` of the
   * current one: `tc` holds every topic's entities, and each counter table the
   * tally of the entities' keys under their topics.
   */
  ghost predicate Filled(tc: seq<int>, w: seq<Counter>, v: seq<Counter>, dc: seq<Counter>, fc: seq<Counter>,
                         data: seq<seq<EntityData>>, topics: seq<seq<int>>, row: seq<EntityData>, zrow: seq<int>, n: nat) {
    |tc| == n && |w| == n && |v| == n && |dc| == n && |fc| == n &&
    (forall k :: 0 <= k < n ==> tc[k] == TopicTotal(topics, k) + Count(zrow, k)) &&
    Tallied(w, data, topics, row, zrow, WordTable) && Tallied(v, data, topics, row, zrow, VerbTable) &&
    Tallied(dc, data, topics, row, zrow, DepTable) && Tallied(fc, data, topics, row, zrow, FeatTable)
  }

  lemma FilledStart(tc: seq<int>, w: seq<Counter>, v: seq<Counter>, dc: seq<Counter>, fc: seq<Counter>, n: nat)
    requires |tc| == n && (forall k :: 0 <= k < n ==> tc[k] == 0)
    requires |w| == n && |v| == n && |dc| == n && |fc| == n
    requires forall k :: 0 <= k < n ==> w[k] == EmptyCounter && v[k] == EmptyCounter && dc[k] == EmptyCounter && fc[k] == EmptyCounter
    ensures Filled(tc, w, v, dc, fc, [], [], [], [], n)
  {
  }

  /** Counting one more entity with topic `z`. */
  lemma FilledStep(tc: seq<int>, w: seq<Counter>, v: seq<Counter>, dc: seq<Counter>, fc: seq<Counter>,
                   data: seq<seq<EntityData>>, topics: seq<seq<int>>, row: seq<EntityData>, zrow: seq<int>, n: nat,
                   ed: EntityData, z: int,
                   tc': seq<int>, w': seq<Counter>, v': seq<Counter>, dc': seq<Counter>, fc': seq<Counter>)
    requires Filled(tc, w, v, dc, fc, data, topics, row, zrow, n) && 0 <= z < n
    requires tc' == tc[z := tc[z] + 1]
    requires w' == w[z := IncrementAll(w[z], TableKeys(WordTable, ed))]
    requires v' == v[z := IncrementAll(v[z], TableKeys(VerbTable, ed))]
    requires dc' == dc[z := IncrementAll(dc[z], TableKeys(DepTable, ed))]
    requires fc' == fc[z := IncrementAll(fc[z], TableKeys(FeatTable, ed))]
    ensures Filled(tc', w', v', dc', fc', data, topics, row + [ed], zrow + [z], n)
  {
    forall k | 0 <= k < n ensures tc'[k] == TopicTotal(topics, k) + Count(zrow + [z], k) {
      assert multiset(zrow + [z]) == multiset(zrow) + multiset{z};
    }
    TalliedStep(w, data, topics, row, zrow, WordTable, ed, z);
    TalliedStep(v, data, topics, row, zrow, VerbTable, ed, z);
    TalliedStep(dc, data, topics, row, zrow, DepTable, ed, z);
    TalliedStep(fc, data, topics, row, zrow, FeatTable, ed, z);
  }

  /** A finished document joins the finished ones. */
  lemma FilledDoc(tc: seq<int>, w: seq<Counter>, v: seq<Counter>, dc: seq<Counter>, fc: seq<Counter>,
                  data: seq<seq<EntityData>>, topics: seq<seq<int>>, row: seq<EntityData>, zrow: seq<int>, n: nat)
    requires Filled(tc, w, v, dc, fc, data, topics, row, zrow, n)
    ensures Filled(tc, w, v, dc, fc, data + [row], topics + [zrow], [], [], n)
  {
    assert (topics + [zrow])[..|topics|] == topics;
    TalliedDoc(w, data, topics, row, zrow, WordTable);
    TalliedDoc(v, data, topics, row, zrow, VerbTable);
    TalliedDoc(dc, data, topics, row, zrow, DepTable);
    TalliedDoc(fc, data, topics, row, zrow, FeatTable);
  }

  /** When every document is finished, the counts are the initial tables. */
  lemma FilledAll(tc: seq<int>, w: seq<Counter>, v: seq<Counter>, dc: seq<Counter>, fc: seq<Counter>,
                  data: seq<seq<EntityData>>, topics: seq<seq<int>>, n: nat)
    requires Filled(tc, w, v, dc, fc, data, topics, [], [], n)
    ensures var iv := InitialValues(data, topics, n);
            tc == iv.topicCounts && w == iv.wCounts && v == iv.verbCounts && dc == iv.depCounts && fc == iv.featCounts
  {
  }

  /** Encoding one more entity of a document. */
  lemma EncodeDocSnoc(ix: Indices, doc: seq<TextEntity>, e: int, cfg: Config)
    requires DocDepsDefined(doc) && 0 <= e < |doc|
    ensures DocDepsDefined(doc[..e]) && DocDepsDefined(doc[..e + 1])
    ensures var prev := EncodeDoc(ix, doc[..e], cfg);
            var last := EncodeEntity(prev.0, doc[e], cfg);
            EncodeDoc(ix, doc[..e + 1], cfg) == (last.0, prev.1 + [last.1])
  {
    assert doc[..e + 1][..e] == doc[..e];
  }

  /** Encoding one more document. */
  lemma EncodeCorpusSnoc(ix: Indices, docs: seq<seq<TextEntity>>, d: int, cfg: Config)
    requires CorpusDepsDefined(docs) && 0 <= d < |docs|
    ensures CorpusDepsDefined(docs[..d]) && CorpusDepsDefined(docs[..d + 1])
    ensures var prev := EncodeCorpus(ix, docs[..d], cfg);
            var last := EncodeDoc(prev.0, docs[d], cfg);
            EncodeCorpus(ix, docs[..d + 1], cfg) == (last.0, prev.1 + [last.1])
  {
    assert docs[..d + 1][..d] == docs[..d];
    assert CorpusDepsDefined(docs[..d]);
  }

  /** `EntityTotal` and `MentionTotal` one document further on. */
  lemma TotalsSnoc(docs: seq<seq<TextEntity>>, topics: seq<seq<int>>, d: int)
    requires 0 <= d < |docs| && d < |topics|
    ensures EntityTotal(topics[..d + 1]) == EntityTotal(topics[..d]) + |topics[d]|
    ensures MentionTotal(docs[..d + 1]) == MentionTotal(docs[..d]) + DocMentionTotal(docs[d])
  {
    assert topics[..d + 1][..d] == topics[..d] && docs[..d + 1][..d] == docs[..d];
  }

  lemma DocMentionTotalSnoc(doc: seq<TextEntity>, e: int)
    requires 0 <= e < |doc|
    ensures DocMentionTotal(doc[..e + 1]) == DocMentionTotal(doc[..e]) + |doc[e].mentions|
  {
    assert doc[..e + 1][..e] == doc[..e];
  }

  /**
   * New containers for `numDocs` documents and `n` topics, as
   * `initializeModelFromData` allocates them: every count zero, every counter
   * empty, every row empty until its document is counted.
   */
  method AllocateTables(numDocs: nat, n: nat) returns (t: Tables)
    ensures fresh(Repr(t)) && Separate(t)
    ensures t.zs.Length == numDocs && t.topicCountsByDoc.Length == numDocs
    ensures t.topicCounts.Length == n && t.wCounts.Length == n && t.verbCounts.Length == n
    ensures t.depCounts.Length == n && t.featCounts.Length == n
    ensures forall k :: 0 <= k < n ==> t.topicCounts[k] == 0
    ensures forall k :: 0 <= k < n ==> t.wCounts[k] == EmptyCounter && t.verbCounts[k] == EmptyCounter &&
                                       t.depCounts[k] == EmptyCounter && t.featCounts[k] == EmptyCounter
  {
    var w := new Counter[n](_ => EmptyCounter);
    var v := new Counter[n](_ => EmptyCounter);
    var dc := new Counter[n](_ => EmptyCounter);
    var fc := new Counter[n](_ => EmptyCounter);
    var zs := new seq<int>[numDocs](_ => []);
    var tc := new int[n](_ => 0);
    var tcd := new seq<int>[numDocs](_ => []);
    t := Tables(zs, tc, tcd, w, v, dc, fc);
  }

  /** `a[k]++`. */
  method Bump(a: array<int>, k: int)
    requires 0 <= k < a.Length
    modifies a
    ensures a[..] == old(a[..])[k := old(a[..])[k] + 1]
  {
    a[k] := a[k] + 1;
  }

  /**
   * The counts of one entity stored under `topic`: the topic's entity count goes
   * up by one and its four counters are replaced by the updated ones.
   */
  method StoreCounts(t: Tables, topic: int, w': Counter, v': Counter, dc': Counter, fc': Counter,
                     ghost tc: seq<int>, ghost w: seq<Counter>, ghost v: seq<Counter>, ghost dc: seq<Counter>, ghost fc: seq<Counter>)
    requires Separate(t) && 0 <= topic < t.topicCounts.Length
    requires topic < t.wCounts.Length && topic < t.verbCounts.Length && topic < t.depCounts.Length && topic < t.featCounts.Length
    requires tc == t.topicCounts[..] && w == t.wCounts[..] && v == t.verbCounts[..] && dc == t.depCounts[..] && fc == t.featCounts[..]
    modifies t.topicCounts, t.wCounts, t.verbCounts, t.depCounts, t.featCounts
    ensures t.topicCounts[..] == tc[topic := tc[topic] + 1]
    ensures t.wCounts[..] == w[topic := w'] && t.verbCounts[..] == v[topic := v']
    ensures t.depCounts[..] == dc[topic := dc'] && t.featCounts[..] == fc[topic := fc']
  {
    Bump(t.topicCounts, topic);
    t.wCounts[topic] := w';
    t.verbCounts[topic] := v';
    t.depCounts[topic] := dc';
    t.featCounts[topic] := fc';
  }

  /**
   * The entity loop of `initializeModelFromData` for one document whose
   * entities get the topics `zs`: each is encoded against the growing indices
   * and counted; the document's topic row and count row come back.
   */
  method FillDoc(t: Tables, doc: seq<TextEntity>, zs: seq<int>, cfg: Config, ix: Indices,
                 ghost data: seq<seq<EntityData>>, ghost topics: seq<seq<int>>, entities: int, mentions: int)
    returns (ix': Indices, row: seq<EntityData>, zrow: seq<int>, tcrow: seq<int>, entities': int, mentions': int)
    requires Separate(t) && DocDepsDefined(doc) && |zs| == |doc| && Below(zs, t.topicCounts.Length)
    requires Filled(t.topicCounts[..], t.wCounts[..], t.verbCounts[..], t.depCounts[..], t.featCounts[..],
                    data, topics, [], [], t.topicCounts.Length)
    modifies t.topicCounts, t.wCounts, t.verbCounts, t.depCounts, t.featCounts
    ensures (ix', row) == EncodeDoc(ix, doc, cfg)
    ensures zrow == zs && tcrow == CountRow(zs, t.topicCounts.Length)
    ensures Filled(t.topicCounts[..], t.wCounts[..], t.verbCounts[..], t.depCounts[..], t.featCounts[..],
                   data, topics, row, zrow, t.topicCounts.Length)
    ensures entities' == entities + |doc| && mentions' == mentions + DocMentionTotal(doc)
  {
    var n := t.topicCounts.Length;
    ix', row, zrow := ix, [], [];
    entities', mentions' := entities, mentions;
    tcrow := seq(n, _ => 0);
    assert tcrow == CountRow(zrow, n);
    for entityi := 0 to |doc|
      invariant DocDepsDefined(doc[..entityi]) && (ix', row) == EncodeDoc(ix, doc[..entityi], cfg)
      invariant zrow == zs[..entityi] && tcrow == CountRow(zrow, n)
      invariant Filled(t.topicCounts[..], t.wCounts[..], t.verbCounts[..], t.depCounts[..], t.featCounts[..],
                       data, topics, row, zrow, n)
      invariant entities' == entities + entityi && mentions' == mentions + DocMentionTotal(doc[..entityi])
    {
      ix', row, zrow, tcrow, mentions' := FillEntity(t, doc, zs, entityi, cfg, ix, data, topics, ix', row, zrow, tcrow, mentions, mentions');
      entities' := entities' + 1;
    }
    assert doc[..|doc|] == doc && zs[..|zs|] == zs;
  }

  /** One step of `FillDoc`: entity `entityi` is encoded, counted under its topic and appended. */
  method FillEntity(t: Tables, doc: seq<TextEntity>, zs: seq<int>, entityi: int, cfg: Config, ghost ix0: Indices,
                    ghost data: seq<seq<EntityData>>, ghost topics: seq<seq<int>>,
                    ix: Indices, row: seq<EntityData>, zrow: seq<int>, tcrow: seq<int>, ghost mentions0: int, mentions: int)
    returns (ix': Indices, row': seq<EntityData>, zrow': seq<int>, tcrow': seq<int>, mentions': int)
    requires Separate(t) && DocDepsDefined(doc) && |zs| == |doc| && Below(zs, t.topicCounts.Length)
    requires 0 <= entityi < |doc|
    requires (ix, row) == EncodeDoc(ix0, doc[..entityi], cfg)
    requires zrow == zs[..entityi] && tcrow == CountRow(zrow, t.topicCounts.Length)
    requires Filled(t.topicCounts[..], t.wCounts[..], t.verbCounts[..], t.depCounts[..], t.featCounts[..],
                    data, topics, row, zrow, t.topicCounts.Length)
    requires mentions == mentions0 + DocMentionTotal(doc[..entityi])
    modifies t.topicCounts, t.wCounts, t.verbCounts, t.depCounts, t.featCounts
    ensures DocDepsDefined(doc[..entityi + 1]) && (ix', row') == EncodeDoc(ix0, doc[..entityi + 1], cfg)
    ensures zrow' == zs[..entityi + 1] && tcrow' == CountRow(zrow', t.topicCounts.Length)
    ensures Filled(t.topicCounts[..], t.wCounts[..], t.verbCounts[..], t.depCounts[..], t.featCounts[..],
                   data, topics, row', zrow', t.topicCounts.Length)
    ensures mentions' == mentions0 + DocMentionTotal(doc[..entityi + 1])
  {
    var n := t.topicCounts.Length;
    var topic := zs[entityi];
    CountRowSnoc(zrow, topic, n);
    TakeSnoc(zs, entityi);
    zrow' := zrow + [topic];
    tcrow' := tcrow[topic := tcrow[topic] + 1];
    assert zrow' == zs[..entityi + 1] && tcrow' == CountRow(zrow', n);
    EncodeDocSnoc(ix0, doc, entityi, cfg);
    DocMentionTotalSnoc(doc, entityi);
    ghost var tc0, w0, v0, dc0, fc0 := t.topicCounts[..], t.wCounts[..], t.verbCounts[..], t.depCounts[..], t.featCounts[..];
    var ed, w, v, dc, fc;
    ix', ed, w, v, dc, fc, mentions' :=
      CountEntity(ix, doc[entityi], cfg, t.wCounts[topic], t.verbCounts[topic], t.depCounts[topic], t.featCounts[topic], mentions);
    StoreCounts(t, topic, w, v, dc, fc, tc0, w0, v0, dc0, fc0);
    FilledStep(tc0, w0, v0, dc0, fc0, data, topics, row, zrow, n, ed, topic,
               t.topicCounts[..], t.wCounts[..], t.verbCounts[..], t.depCounts[..], t.featCounts[..]);
    row' := row + [ed];
  }

  /** The topic rows and count rows of the first `d` documents are stored. */
  ghost predicate RowsStored(zs: seq<seq<int>>, tcd: seq<seq<int>>, topics: seq<seq<int>>, d: int, n: nat) {
    0 <= d <= |zs| && d <= |topics| && |tcd| == |zs| &&
    zs[..d] == topics[..d] && forall dd :: 0 <= dd < d ==> tcd[dd] == CountRow(topics[dd], n)
  }

  /** Storing the rows of document `d`. */
  lemma RowsStoredStep(zs: seq<seq<int>>, tcd: seq<seq<int>>, topics: seq<seq<int>>, d: int, n: nat,
                       zs': seq<seq<int>>, tcd': seq<seq<int>>)
    requires RowsStored(zs, tcd, topics, d, n) && d < |zs| && d < |topics|
    requires zs' == zs[d := topics[d]] && tcd' == tcd[d := CountRow(topics[d], n)]
    ensures RowsStored(zs', tcd', topics, d + 1, n)
  {
    assert zs'[..d + 1] == zs[..d] + [topics[d]];
    TakeSnoc(topics, d);
  }

  /** The rows of document `d` stored: its topics and its counts per topic. */
  method StoreRows(t: Tables, d: int, zrow: seq<int>, tcrow: seq<int>, ghost zs: seq<seq<int>>, ghost tcd: seq<seq<int>>)
    requires Separate(t) && 0 <= d < t.zs.Length && d < t.topicCountsByDoc.Length
    requires zs == t.zs[..] && tcd == t.topicCountsByDoc[..]
    modifies t.zs, t.topicCountsByDoc
    ensures t.zs[..] == zs[d := zrow] && t.topicCountsByDoc[..] == tcd[d := tcrow]
  {
    t.zs[d] := zrow;
    t.topicCountsByDoc[d] := tcrow;
  }

  /**
   * The document loop of `initializeModelFromData` over containers of the
   * right size: every entity gets its topic from `topics`, and each document's
   * topic row and count row are stored when the document is done.
   */
  method FillTables(t: Tables, docs: seq<seq<TextEntity>>, topics: seq<seq<int>>, cfg: Config, entities: int, mentions: int)
    returns (ix: Indices, data: seq<seq<EntityData>>, entities': int, mentions': int)
    requires Separate(t) && CorpusDepsDefined(docs) && SameShape(docs, topics)
    requires t.zs.Length == |docs| && t.topicCountsByDoc.Length == |docs|
    requires t.wCounts.Length == t.topicCounts.Length && t.verbCounts.Length == t.topicCounts.Length
    requires t.depCounts.Length == t.topicCounts.Length && t.featCounts.Length == t.topicCounts.Length
    requires TopicsBelow(topics, t.topicCounts.Length)
    requires forall k :: 0 <= k < t.topicCounts.Length ==> t.topicCounts[k] == 0
    requires forall k :: 0 <= k < t.topicCounts.Length ==> t.wCounts[k] == EmptyCounter && t.verbCounts[k] == EmptyCounter &&
                                                           t.depCounts[k] == EmptyCounter && t.featCounts[k] == EmptyCounter
    modifies Repr(t)
    ensures (ix, data) == EncodeCorpus(NoIndices, docs, cfg) && SameShape(data, topics)
    ensures Values(t) == InitialValues(data, topics, t.topicCounts.Length)
    ensures entities' == entities + EntityTotal(topics) && mentions' == mentions + MentionTotal(docs)
  {
    var n := t.topicCounts.Length;
    FilledStart(t.topicCounts[..], t.wCounts[..], t.verbCounts[..], t.depCounts[..], t.featCounts[..], n);
    ix, data := NoIndices, [];
    entities', mentions' := entities, mentions;
    for doci := 0 to |docs|
      invariant CorpusDepsDefined(docs[..doci]) && (ix, data) == EncodeCorpus(NoIndices, docs[..doci], cfg)
      invariant Filled(t.topicCounts[..], t.wCounts[..], t.verbCounts[..], t.depCounts[..], t.featCounts[..],
                       data, topics[..doci], [], [], n)
      invariant RowsStored(t.zs[..], t.topicCountsByDoc[..], topics, doci, n)
      invariant entities' == entities + EntityTotal(topics[..doci]) && mentions' == mentions + MentionTotal(docs[..doci])
    {
      EncodeCorpusSnoc(NoIndices, docs, doci, cfg);
      TotalsSnoc(docs, topics, doci);
      TakeSnoc(topics, doci);
      var row, zrow, tcrow;
      ix, row, zrow, tcrow, entities', mentions' :=
        FillDoc(t, docs[doci], topics[doci], cfg, ix, data, topics[..doci], entities', mentions');
      ghost var zs0, tcd0 := t.zs[..], t.topicCountsByDoc[..];
      StoreRows(t, doci, zrow, tcrow, zs0, tcd0);
      RowsStoredStep(zs0, tcd0, topics, doci, n, t.zs[..], t.topicCountsByDoc[..]);
      FilledDoc(t.topicCounts[..], t.wCounts[..], t.verbCounts[..], t.depCounts[..], t.featCounts[..],
                data, topics[..doci], row, zrow, n);
      data := data + [row];
    }
    assert docs[..|docs|] == docs && topics[..|topics|] == topics;
    FilledAll(t.topicCounts[..], t.wCounts[..], t.verbCounts[..], t.depCounts[..], t.featCounts[..], data, topics, n);
  }

  // ---------------------------------------------------------------------------
  // Moving one entity

  /**
   * The mention loop of `unlabel`: per mention its dependency, and its verb
   * when verbs are on, decremented, with keys that reach zero removed. The
   * loop runs over the entity's mentions, as many as it has dependencies.
   */
  method UncountMentions(deps: seq<int>, verbs: seq<int>, includeVerbs: bool, dc: Counter, v: Counter)
    returns (dc': Counter, v': Counter)
    requires includeVerbs ==> |verbs| == |deps|
    ensures dc' == DecrementAll(dc, deps, true)
    ensures v' == if includeVerbs then DecrementAll(v, verbs, true) else v
  {
    dc', v' := dc, v;
    for mention := 0 to |deps|
      invariant dc' == DecrementAll(dc, deps[..mention], true)
      invariant v' == if includeVerbs then DecrementAll(v, verbs[..mention], true) else v
    {
      TakeSnoc(deps, mention);
      DecrementAllSnoc(dc, deps[..mention], deps[mention], true);
      dc' := DecrementCount(dc', deps[mention], true);
      if includeVerbs {
        TakeSnoc(verbs, mention);
        DecrementAllSnoc(v, verbs[..mention], verbs[mention], true);
        v' := DecrementCount(v', verbs[mention], true);
      }
    }
    assert deps[..|deps|] == deps;
    assert includeVerbs ==> verbs[..|verbs|] == verbs;
  }

  /** The mention loop of `relabel`: per mention its dependency, and its verb when verbs are on, incremented. */
  method RecountMentions(deps: seq<int>, verbs: seq<int>, includeVerbs: bool, dc: Counter, v: Counter)
    returns (dc': Counter, v': Counter)
    requires includeVerbs ==> |verbs| == |deps|
    ensures dc' == IncrementAll(dc, deps)
    ensures v' == if includeVerbs then IncrementAll(v, verbs) else v
  {
    dc', v' := dc, v;
    for mention := 0 to |deps|
      invariant dc' == IncrementAll(dc, deps[..mention])
      invariant v' == if includeVerbs then IncrementAll(v, verbs[..mention]) else v
    {
      TakeSnoc(deps, mention);
      IncrementAllSnoc(dc, deps[..mention], deps[mention]);
      dc' := IncrementCount(dc', deps[mention], 1);
      if includeVerbs {
        TakeSnoc(verbs, mention);
        IncrementAllSnoc(v, verbs[..mention], verbs[mention]);
        v' := IncrementCount(v', verbs[mention], 1);
      }
    }
    assert deps[..|deps|] == deps;
    assert includeVerbs ==> verbs[..|verbs|] == verbs;
  }

  /** Taking off the positions flagged so far, one flag further on. */
  lemma UnflagStep(fc: Counter, flags: seq<int>, flag: int)
    ensures DecrementAll(fc, OnFeatures(flags + [flag]), false) ==
            if flag == 1 then DecrementCount(DecrementAll(fc, OnFeatures(flags), false), |flags|, false)
            else DecrementAll(fc, OnFeatures(flags), false)
  {
    OnFeaturesSnoc(flags, flag);
    if flag == 1 {
      DecrementAllSnoc(fc, OnFeatures(flags), |flags|, false);
    } else {
      assert OnFeatures(flags + [flag]) == OnFeatures(flags) + [] == OnFeatures(flags);
    }
  }

  /** The feature loop of `unlabel`: every flagged type decremented, without removal. */
  method UncountFeatures(feats: seq<int>, fc: Counter) returns (fc': Counter)
    ensures fc' == DecrementAll(fc, OnFeatures(feats), false)
  {
    fc' := fc;
    for feat := 0 to |feats|
      invariant fc' == DecrementAll(fc, OnFeatures(feats[..feat]), false)
    {
      TakeSnoc(feats, feat);
      UnflagStep(fc, feats[..feat], feats[feat]);
      if feats[feat] == 1 {
        fc' := DecrementCount(fc', feat, false);
      }
    }
    assert feats[..|feats|] == feats;
  }

  /** The feature loop of `relabel`: every flagged type incremented. */
  method RecountFeatures(feats: seq<int>, fc: Counter) returns (fc': Counter)
    ensures fc' == IncrementAll(fc, OnFeatures(feats))
  {
    fc' := fc;
    for feat := 0 to |feats|
      invariant fc' == IncrementAll(fc, OnFeatures(feats[..feat]))
    {
      TakeSnoc(feats, feat);
      FlagStep(fc, feats[..feat], feats[feat]);
      if feats[feat] == 1 {
        fc' := IncrementCount(fc', feat, 1);
      }
    }
    assert feats[..|feats|] == feats;
  }

  /**
   * The four counters of one topic with one entity's contributions taken off:
   * its first word once, its dependencies (and verbs) once per mention with
   * zero counts removed, its flagged types (when features are on) kept at zero.
   */
  method UncountEntity(ed: EntityData, cfg: Config, w: Counter, v: Counter, dc: Counter, fc: Counter)
    returns (w': Counter, v': Counter, dc': Counter, fc': Counter)
    requires |ed.words| > 0 && (cfg.includeVerbs ==> |ed.verbs| == |ed.deps|)
    ensures w' == DecrementCount(w, ed.words[0], true)
    ensures v' == if cfg.includeVerbs then DecrementAll(v, ed.verbs, true) else v
    ensures dc' == DecrementAll(dc, ed.deps, true)
    ensures fc' == if cfg.includeEntityFeatures then DecrementAll(fc, OnFeatures(ed.feats), false) else fc
  {
    w' := DecrementCount(w, ed.words[0], true);
    dc', v' := UncountMentions(ed.deps, ed.verbs, cfg.includeVerbs, dc, v);
    fc' := fc;
    if cfg.includeEntityFeatures {
      fc' := UncountFeatures(ed.feats, fc);
    }
  }

  /** The four counters of one topic with one entity's contributions added. */
  method RecountEntity(ed: EntityData, cfg: Config, w: Counter, v: Counter, dc: Counter, fc: Counter)
    returns (w': Counter, v': Counter, dc': Counter, fc': Counter)
    requires |ed.words| > 0 && (cfg.includeVerbs ==> |ed.verbs| == |ed.deps|)
    ensures w' == IncrementCount(w, ed.words[0], 1)
    ensures v' == if cfg.includeVerbs then IncrementAll(v, ed.verbs) else v
    ensures dc' == IncrementAll(dc, ed.deps)
    ensures fc' == if cfg.includeEntityFeatures then IncrementAll(fc, OnFeatures(ed.feats)) else fc
  {
    w' := IncrementCount(w, ed.words[0], 1);
    dc', v' := RecountMentions(ed.deps, ed.verbs, cfg.includeVerbs, dc, v);
    fc' := fc;
    if cfg.includeEntityFeatures {
      fc' := RecountFeatures(ed.feats, fc);
    }
  }

  /**
   * The counts of topic `z` replaced: its global entity count, the count row of
   * document `d` and its four counters; the topic assignments are untouched.
   */
  method StoreSlot(t: Tables, d: int, z: int, tcz: int, tcrow: seq<int>, w': Counter, v': Counter, dc': Counter, fc': Counter,
                   ghost v: TableValues)
    requires Separate(t) && v == Values(t) && 0 <= d < t.topicCountsByDoc.Length && 0 <= z < t.topicCounts.Length
    requires z < t.wCounts.Length && z < t.verbCounts.Length && z < t.depCounts.Length && z < t.featCounts.Length
    modifies t.topicCounts, t.topicCountsByDoc, t.wCounts, t.verbCounts, t.depCounts, t.featCounts
    ensures Values(t) == TableValues(v.zs, v.topicCounts[z := tcz], v.topicCountsByDoc[d := tcrow],
                                     v.wCounts[z := w'], v.verbCounts[z := v'], v.depCounts[z := dc'], v.featCounts[z := fc'])
  {
    t.topicCounts[z] := tcz;
    t.topicCountsByDoc[d] := tcrow;
    t.wCounts[z] := w';
    t.verbCounts[z] := v';
    t.depCounts[z] := dc';
    t.featCounts[z] := fc';
  }

  /** The tables with topic `z`'s counts replaced are those `unlabel` leaves when the new counters are its decremented ones. */
  lemma UnlabelIs(v: TableValues, data: seq<seq<EntityData>>, d: int, e: int, cfg: Config, w: Counter, vb: Counter, dc: Counter, fc: Counter)
    requires HasEntity(v, data, d, e)
    requires var z := v.zs[d][e]; var ed := data[d][e];
             w == DecrementCount(v.wCounts[z], ed.words[0], true) &&
             vb == (if cfg.includeVerbs then DecrementAll(v.verbCounts[z], ed.verbs, true) else v.verbCounts[z]) &&
             dc == DecrementAll(v.depCounts[z], ed.deps, true) &&
             fc == (if cfg.includeEntityFeatures then DecrementAll(v.featCounts[z], OnFeatures(ed.feats), false) else v.featCounts[z])
    ensures var z := v.zs[d][e];
            TableValues(v.zs, v.topicCounts[z := v.topicCounts[z] - 1],
                        v.topicCountsByDoc[d := v.topicCountsByDoc[d][z := v.topicCountsByDoc[d][z] - 1]],
                        v.wCounts[z := w], v.verbCounts[z := vb], v.depCounts[z := dc], v.featCounts[z := fc]) ==
            UnlabelValues(v, data, d, e, cfg)
  {
    var z := v.zs[d][e];
    UpdateSame(v.verbCounts, z);
    UpdateSame(v.featCounts, z);
  }

  /** `unlabel(d, e)` on the containers `t`, whose contents are `v`. */
  method UnlabelTables(t: Tables, data: seq<seq<EntityData>>, d: int, e: int, cfg: Config, ghost v: TableValues)
    requires Separate(t) && v == Values(t) && HasEntity(v, data, d, e)
    requires cfg.includeVerbs ==> |data[d][e].verbs| == |data[d][e].deps|
    modifies t.topicCounts, t.topicCountsByDoc, t.wCounts, t.verbCounts, t.depCounts, t.featCounts
    ensures Values(t) == UnlabelValues(v, data, d, e, cfg)
  {
    var ed := data[d][e];
    var z := t.zs[d][e];
    var w, vb, dc, fc := UncountEntity(ed, cfg, t.wCounts[z], t.verbCounts[z], t.depCounts[z], t.featCounts[z]);
    UnlabelIs(v, data, d, e, cfg, w, vb, dc, fc);
    var row := t.topicCountsByDoc[d];
    StoreSlot(t, d, z, t.topicCounts[z] - 1, row[z := row[z] - 1], w, vb, dc, fc, v);
  }

  /** The tables with topic `z`'s counts and the entity's topic replaced are those `relabel` leaves when the new counters are its incremented ones. */
  lemma RelabelIs(v: TableValues, data: seq<seq<EntityData>>, d: int, e: int, z: int, cfg: Config,
                  w: Counter, vb: Counter, dc: Counter, fc: Counter)
    requires HasEntity(v, data, d, e) && 0 <= z < |v.topicCounts|
    requires var ed := data[d][e];
             w == IncrementCount(v.wCounts[z], ed.words[0], 1) &&
             vb == (if cfg.includeVerbs then IncrementAll(v.verbCounts[z], ed.verbs) else v.verbCounts[z]) &&
             dc == IncrementAll(v.depCounts[z], ed.deps) &&
             fc == (if cfg.includeEntityFeatures then IncrementAll(v.featCounts[z], OnFeatures(ed.feats)) else v.featCounts[z])
    ensures TableValues(v.zs[d := v.zs[d][e := z]], v.topicCounts[z := v.topicCounts[z] + 1],
                        v.topicCountsByDoc[d := v.topicCountsByDoc[d][z := v.topicCountsByDoc[d][z] + 1]],
                        v.wCounts[z := w], v.verbCounts[z := vb], v.depCounts[z := dc], v.featCounts[z := fc]) ==
            RelabelValues(v, data, d, e, z, cfg)
  {
    UpdateSame(v.verbCounts, z);
    UpdateSame(v.featCounts, z);
  }

  /** `relabel(d, e, z)` on the containers `t`, whose contents are `v`. */
  method RelabelTables(t: Tables, data: seq<seq<EntityData>>, d: int, e: int, z: int, cfg: Config, ghost v: TableValues)
    requires Separate(t) && v == Values(t) && HasEntity(v, data, d, e) && 0 <= z < |v.topicCounts|
    requires cfg.includeVerbs ==> |data[d][e].verbs| == |data[d][e].deps|
    modifies t.zs, t.topicCounts, t.topicCountsByDoc, t.wCounts, t.verbCounts, t.depCounts, t.featCounts
    ensures Values(t) == RelabelValues(v, data, d, e, z, cfg)
  {
    var ed := data[d][e];
    var w, vb, dc, fc := RecountEntity(ed, cfg, t.wCounts[z], t.verbCounts[z], t.depCounts[z], t.featCounts[z]);
    RelabelIs(v, data, d, e, z, cfg, w, vb, dc, fc);
    var row := t.topicCountsByDoc[d];
    StoreSlot(t, d, z, t.topicCounts[z] + 1, row[z := row[z] + 1], w, vb, dc, fc, v);
    ghost var v1 := Values(t);
    StoreAssignment(t, d, t.zs[d][e := z], v1);
  }

  /** The topic row of document `d` replaced. */
  method StoreAssignment(t: Tables, d: int, zrow: seq<int>, ghost v: TableValues)
    requires Separate(t) && v == Values(t) && 0 <= d < t.zs.Length
    modifies t.zs
    ensures Values(t) == v.(zs := v.zs[d := zrow])
  {
    t.zs[d] := zrow;
  }
}
