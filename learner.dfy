/**
 * The deterministic helpers of the learner (`Learner`): the cutoff and ranking
 * of a topic distribution, the removal of labels whose template is seen only
 * once in a document, the merging of document lists without repeated names,
 * the selection of training documents for a given draw, and the labelling of
 * test documents from a sampled model, which unlabels and relabels every
 * entity around its lookup.
 */
module Learner {
  import opened Wrappers
  import opened Seqs
  import opened Strings
  import opened Counters
  import opened Entities
  import opened GibbsParams
  import opened SamplerData
  import opened Snapshots
  import opened GibbsSampler
  import opened EntitySampler
  import opened Ranking

  // ---------------------------------------------------------------------------
  // getSortedTopics

  /** No element occurs twice. */
  predicate Distinct<T(==)>(s: seq<T>) {
    forall i, j :: 0 <= i < j < |s| ==> s[i] != s[j]
  }

  /** The topics below `n` whose probability reaches the cutoff, in increasing order. */
  function TopicsAbove(probs: seq<real>, cutoff: real, n: int): (r: seq<int>)
    requires n <= |probs|
    ensures forall x :: x in r <==> 0 <= x < n && probs[x] >= cutoff
    ensures forall i, j :: 0 <= i < j < |r| ==> r[i] < r[j]
    decreases n
  {
    if n <= 0 then []
    else
      var r := TopicsAbove(probs, cutoff, n - 1);
      assert forall i :: 0 <= i < |r| ==> r[i] in r && r[i] < n - 1;
      r + (if probs[n - 1] >= cutoff then [n - 1] else [])
  }

  lemma {:induction false} DistinctMultiplicity<T>(s: seq<T>, x: T)
    requires Distinct(s)
    ensures multiset(s)[x] <= 1
    decreases |s|
  {
    if |s| > 0 {
      var m := s[..|s| - 1];
      assert s == m + [s[|s| - 1]];
      assert Distinct(m);
      DistinctMultiplicity(m, x);
      if s[|s| - 1] == x {
        assert x !in m;
      }
    }
  }

  /** A sequence with the same elements, counted with multiplicity, as a sequence without repeats has none either. */
  lemma SameMultisetDistinct<T>(s: seq<T>, t: seq<T>)
    requires multiset(s) == multiset(t) && Distinct(t)
    ensures Distinct(s)
  {
    forall i, j | 0 <= i < j < |s| ensures s[i] != s[j] {
      if s[i] == s[j] {
        assert s == s[..i] + [s[i]] + s[i + 1..j] + [s[j]] + s[j + 1..];
        assert multiset(s)[s[i]] >= 2;
        DistinctMultiplicity(t, s[i]);
      }
    }
  }

  /**
   * The ranking `getSortedTopics` returns: exactly the topics whose
   * probability is at least the cutoff, each once, in non-increasing order of
   * probability.
   */
  function SortedTopics(topicProbs: seq<real>, cutoff: real): (r: seq<int>)
    ensures ValidKeys(r, topicProbs) && SortedByValue(r, topicProbs)
    ensures forall x :: x in r <==> 0 <= x < |topicProbs| && topicProbs[x] >= cutoff
    ensures Distinct(r)
  {
    var keys := TopicsAbove(topicProbs, cutoff, |topicProbs|);
    assert forall i :: 0 <= i < |keys| ==> keys[i] in keys;
    SortedTopicsFacts(keys, topicProbs);
    SortKeysByValues(keys, topicProbs)
  }

  lemma SortedTopicsFacts(keys: seq<int>, topicProbs: seq<real>)
    requires ValidKeys(keys, topicProbs) && Distinct(keys)
    ensures SortedByValue(SortKeysByValues(keys, topicProbs), topicProbs)
    ensures forall x :: x in SortKeysByValues(keys, topicProbs) <==> x in keys
    ensures Distinct(SortKeysByValues(keys, topicProbs))
  {
    SortKeysSorted(keys, topicProbs);
    forall x ensures x in SortKeysByValues(keys, topicProbs) <==> x in keys {
      SortKeysMembers(keys, topicProbs, x);
    }
    SameMultisetDistinct(SortKeysByValues(keys, topicProbs), keys);
  }

  /**
   * `getSortedTopics`: the topics reaching the cutoff gathered in index order,
   * then sorted by probability.
   */
  method GetSortedTopics(topicProbs: seq<real>, cutoff: real) returns (sortedTopics: seq<int>)
    ensures sortedTopics == SortedTopics(topicProbs, cutoff)
  {
    var keys := [];
    for ii := 0 to |topicProbs|
      invariant keys == TopicsAbove(topicProbs, cutoff, ii)
    {
      if topicProbs[ii] >= cutoff {
        keys := keys + [ii];
      }
    }
    assert forall i :: 0 <= i < |keys| ==> keys[i] in keys;
    sortedTopics := SortKeysByValues(keys, topicProbs);
  }

  /** The topic the learner labels an entity with: the first of the sorted topics, when there is one. */
  predicate IsTopTopic(topicProbs: seq<real>, cutoff: real, t: int) {
    0 <= t < |topicProbs| && topicProbs[t] >= cutoff &&
    forall x :: 0 <= x < |topicProbs| && topicProbs[x] >= cutoff ==> topicProbs[x] <= topicProbs[t]
  }

  /** The head of the sorted topics has the largest probability among the topics that reach the cutoff. */
  lemma SortedHeadIsTop(topicProbs: seq<real>, cutoff: real, sortedTopics: seq<int>)
    requires ValidKeys(sortedTopics, topicProbs) && SortedByValue(sortedTopics, topicProbs)
    requires forall x :: x in sortedTopics <==> 0 <= x < |topicProbs| && topicProbs[x] >= cutoff
    requires |sortedTopics| > 0
    ensures IsTopTopic(topicProbs, cutoff, sortedTopics[0])
  {
    forall x | 0 <= x < |topicProbs| && topicProbs[x] >= cutoff ensures topicProbs[x] <= topicProbs[sortedTopics[0]] {
      var j :| 0 <= j < |sortedTopics| && sortedTopics[j] == x;
      if j > 0 {
        assert topicProbs[sortedTopics[0]] >= topicProbs[sortedTopics[j]];
      }
    }
  }

  // ---------------------------------------------------------------------------
  // removeIsolatedTemplateLabels

  /** The labels of a set whose template, `topic / numTemplates`, is `b`. */
  function LabelsIn(labels: set<int>, numTemplates: int, b: int): set<int>
    requires numTemplates != 0
  {
    set t | t in labels && JavaDiv(t, numTemplates) == b
  }

  /** The number of labels in the document, over all its entities, whose template is `b`. */
  function TemplateCount(doc: seq<TextEntity>, numTemplates: int, b: int): nat
    requires numTemplates != 0
    decreases |doc|
  {
    if |doc| == 0 then 0
    else TemplateCount(doc[..|doc| - 1], numTemplates, b) + |LabelsIn(doc[|doc| - 1].labels, numTemplates, b)|
  }

  /** The labels kept: those whose template carries more than one label in the document. */
  function KeptLabels(doc: seq<TextEntity>, numTemplates: int, labels: set<int>): set<int>
    requires numTemplates != 0
  {
    set t | t in labels && TemplateCount(doc, numTemplates, JavaDiv(t, numTemplates)) > 1
  }

  /** The document with only its kept labels, counted before any is removed. */
  function IsolatedRemoved(doc: seq<TextEntity>, numTemplates: int): (r: seq<TextEntity>)
    requires numTemplates != 0
  {
    seq(|doc|, i requires 0 <= i < |doc| => doc[i].(labels := KeptLabels(doc, numTemplates, doc[i].labels)))
  }

  /** Some entity of the document carries a label of template `b` other than label `t` of entity `i`. */
  predicate OtherLabelOfTemplate(doc: seq<TextEntity>, numTemplates: int, b: int, i: int, t: int)
    requires numTemplates != 0
  {
    exists j, u :: 0 <= j < |doc| && u in doc[j].labels && JavaDiv(u, numTemplates) == b && (j != i || u != t)
  }

  /** Taking one more label off the set still to count adds it to the counted labels of its template. */
  lemma LabelsInStep(labels: set<int>, remaining: set<int>, t: int, n: int, b: int)
    requires n != 0 && t in remaining && remaining <= labels
    ensures |LabelsIn(labels - (remaining - {t}), n, b)| ==
            |LabelsIn(labels - remaining, n, b)| + (if JavaDiv(t, n) == b then 1 else 0)
  {
    var before := LabelsIn(labels - remaining, n, b);
    var after := LabelsIn(labels - (remaining - {t}), n, b);
    if JavaDiv(t, n) == b {
      assert after == before + {t};
      assert t !in before;
    } else {
      assert after == before;
    }
  }

  /** The inner counting loop: one count per label, for its template. */
  method CountLabels(c: Counter, labels: set<int>, numTemplates: int) returns (c': Counter)
    requires numTemplates != 0
    ensures forall b :: GetCount(c', b) == GetCount(c, b) + |LabelsIn(labels, numTemplates, b)|
  {
    c' := c;
    var remaining := labels;
    while remaining != {}
      invariant remaining <= labels
      invariant forall b :: GetCount(c', b) == GetCount(c, b) + |LabelsIn(labels - remaining, numTemplates, b)|
      decreases |remaining|
    {
      NonEmptyHasKey(remaining);
      var t :| t in remaining;
      forall b ensures |LabelsIn(labels - (remaining - {t}), numTemplates, b)| ==
                       |LabelsIn(labels - remaining, numTemplates, b)| + (if JavaDiv(t, numTemplates) == b then 1 else 0) {
        LabelsInStep(labels, remaining, t, numTemplates, b);
      }
      c' := IncrementCount(c', JavaDiv(t, numTemplates), 1);
      remaining := remaining - {t};
    }
    assert labels - remaining == labels;
  }

  /** The first loop of `removeIsolatedTemplateLabels`: the template of every label of every entity, counted. */
  method CountTemplates(doc: seq<TextEntity>, numTemplates: int) returns (templateCounts: Counter)
    requires numTemplates != 0
    ensures forall b :: GetCount(templateCounts, b) == TemplateCount(doc, numTemplates, b)
  {
    templateCounts := EmptyCounter;
    for i := 0 to |doc|
      invariant forall b :: GetCount(templateCounts, b) == TemplateCount(doc[..i], numTemplates, b)
    {
      templateCounts := CountLabels(templateCounts, doc[i].labels, numTemplates);
      assert doc[..i + 1][..i] == doc[..i];
    }
    assert doc[..|doc|] == doc;
  }

  /**
   * `removeIsolatedTemplateLabels`: every labelled entity keeps only the labels
   * whose template is seen more than once in the document. Without templates
   * the division `topic / numTemplates` is reached at the first labelled
   * entity and throws `ArithmeticException`: `None`.
   */
  method RemoveIsolatedTemplateLabels(doc: seq<TextEntity>, numTemplates: int) returns (r: Option<seq<TextEntity>>)
    ensures r.None? <==> numTemplates == 0 && !NoLabels(doc)
    ensures numTemplates == 0 && NoLabels(doc) ==> r == Some(doc)
    ensures numTemplates != 0 ==> r == Some(IsolatedRemoved(doc, numTemplates))
  {
    if numTemplates == 0 {
      for i := 0 to |doc|
        invariant NoLabels(doc[..i])
      {
        if doc[i].labels != {} {
          return None;
        }
      }
      assert doc[..|doc|] == doc;
      return Some(doc);
    }
    var templateCounts := CountTemplates(doc, numTemplates);
    var doc' := [];
    for i := 0 to |doc|
      invariant doc' == IsolatedRemoved(doc, numTemplates)[..i]
    {
      var ent := doc[i];
      if ent.labels != {} {
        var keeptopics := set t | t in ent.labels && GetCount(templateCounts, JavaDiv(t, numTemplates)) > 1;
        assert keeptopics == KeptLabels(doc, numTemplates, ent.labels);
        ent := ent.(labels := keeptopics);
      } else {
        assert KeptLabels(doc, numTemplates, ent.labels) == {};
      }
      assert IsolatedRemoved(doc, numTemplates)[..i + 1] ==
             IsolatedRemoved(doc, numTemplates)[..i] + [IsolatedRemoved(doc, numTemplates)[i]];
      doc' := doc' + [ent];
    }
    assert IsolatedRemoved(doc, numTemplates)[..|doc|] == IsolatedRemoved(doc, numTemplates);
    r := Some(doc');
  }

  /** A template count is positive exactly when some entity carries a label of that template. */
  lemma {:induction false} TemplateCountPositive(doc: seq<TextEntity>, n: int, b: int)
    requires n != 0
    ensures TemplateCount(doc, n, b) > 0 <==>
            exists j, u :: 0 <= j < |doc| && u in doc[j].labels && JavaDiv(u, n) == b
    decreases |doc|
  {
    if |doc| > 0 {
      var m := |doc| - 1;
      var front := doc[..m];
      TemplateCountPositive(front, n, b);
      if TemplateCount(front, n, b) > 0 {
        var j, u :| 0 <= j < |front| && u in front[j].labels && JavaDiv(u, n) == b;
        assert doc[j] == front[j];
      }
      if |LabelsIn(doc[m].labels, n, b)| > 0 {
        var u :| u in LabelsIn(doc[m].labels, n, b);
      }
      if exists j, u :: 0 <= j < |doc| && u in doc[j].labels && JavaDiv(u, n) == b {
        var j, u :| 0 <= j < |doc| && u in doc[j].labels && JavaDiv(u, n) == b;
        if j < m {
          assert front[j] == doc[j];
        } else {
          assert u in LabelsIn(doc[m].labels, n, b);
        }
      }
    }
  }

  /** A set holding `t` has more than one element exactly when it holds another one. */
  lemma MoreThanOne(s: set<int>, t: int)
    requires t in s
    ensures |s| > 1 <==> exists u :: u in s && u != t
  {
    if exists u :: u in s && u != t {
      var u :| u in s && u != t;
      assert s == (s - {t}) + {t};
      assert u in s - {t};
    } else {
      assert s == {t};
    }
  }

  /**
   * A label is counted more than once for its template exactly when another
   * label of the document, on this entity or another, has the same template.
   */
  lemma {:induction false} TemplateCountShared(doc: seq<TextEntity>, n: int, i: int, t: int)
    requires n != 0 && 0 <= i < |doc| && t in doc[i].labels
    ensures TemplateCount(doc, n, JavaDiv(t, n)) > 1 <==> OtherLabelOfTemplate(doc, n, JavaDiv(t, n), i, t)
    decreases |doc|
  {
    var b := JavaDiv(t, n);
    var m := |doc| - 1;
    var front := doc[..m];
    var last := LabelsIn(doc[m].labels, n, b);
    if i == m {
      assert t in last;
      TemplateCountPositive(front, n, b);
      MoreThanOne(last, t);
      if OtherLabelOfTemplate(doc, n, b, i, t) {
        var j, u :| 0 <= j < |doc| && u in doc[j].labels && JavaDiv(u, n) == b && (j != i || u != t);
        if j < m {
          assert front[j] == doc[j];
        } else {
          assert u in last;
        }
      }
      if TemplateCount(front, n, b) > 0 {
        var j, u :| 0 <= j < |front| && u in front[j].labels && JavaDiv(u, n) == b;
        assert doc[j] == front[j];
      }
      if |last| > 1 {
        var u :| u in last && u != t;
      }
    } else {
      assert front[i] == doc[i];
      TemplateCountShared(front, n, i, t);
      TemplateCountPositive(front, n, b);
      assert TemplateCount(front, n, b) > 0;
      if OtherLabelOfTemplate(doc, n, b, i, t) {
        var j, u :| 0 <= j < |doc| && u in doc[j].labels && JavaDiv(u, n) == b && (j != i || u != t);
        if j < m {
          assert front[j] == doc[j];
        } else {
          assert u in last;
        }
      }
      if OtherLabelOfTemplate(front, n, b, i, t) {
        var j, u :| 0 <= j < |front| && u in front[j].labels && JavaDiv(u, n) == b && (j != i || u != t);
        assert doc[j] == front[j];
      }
      if |last| > 0 {
        var u :| u in last;
      }
    }
  }

  /**
   * After the removal every entity keeps its mentions and types, its labels
   * are a subset of its old ones, an unlabelled entity is untouched, and a
   * label survives exactly when another label of the document shares its
   * template.
   */
  lemma IsolatedRemovedKeepsShared(doc: seq<TextEntity>, n: int, i: int, t: int)
    requires n != 0 && 0 <= i < |doc|
    ensures var r := IsolatedRemoved(doc, n);
            |r| == |doc| && r[i] == doc[i].(labels := r[i].labels) && r[i].labels <= doc[i].labels &&
            (doc[i].labels == {} ==> r[i] == doc[i]) &&
            (t in r[i].labels <==> t in doc[i].labels && OtherLabelOfTemplate(doc, n, JavaDiv(t, n), i, t))
  {
    if t in doc[i].labels {
      TemplateCountShared(doc, n, i, t);
    }
  }

  // ---------------------------------------------------------------------------
  // addDocsNoRepeats

  /** Some name of the list equals `doc` ignoring case. */
  predicate NameIn(names: seq<string>, doc: string) {
    exists i :: 0 <= i < |names| && EqualsIgnoreCase(names[i], doc)
  }

  /** The elements of `xs` at the positions `idx`, in the order of `idx`. */
  function Pick<T>(xs: seq<T>, idx: seq<int>): (r: seq<T>)
    requires forall j :: 0 <= j < |idx| ==> 0 <= idx[j] < |xs|
    ensures |r| == |idx| && forall j :: 0 <= j < |idx| ==> r[j] == xs[idx[j]]
  {
    seq(|idx|, j requires 0 <= j < |idx| => xs[idx[j]])
  }

  lemma PickSnoc<T>(xs: seq<T>, idx: seq<int>, k: int)
    requires forall j :: 0 <= j < |idx| ==> 0 <= idx[j] < |xs|
    requires 0 <= k < |xs|
    ensures Pick(xs, idx + [k]) == Pick(xs, idx) + [xs[k]]
  {
  }

  /**
   * The positions of the first `k` new documents that are appended: a new
   * document is appended when its name matches no name present when it is
   * reached, the old ones and those appended before it.
   */
  function Added(names: seq<string>, newNames: seq<string>, k: int): (r: seq<int>)
    requires 0 <= k <= |newNames|
    ensures forall j :: 0 <= j < |r| ==> 0 <= r[j] < k
    decreases k
  {
    if k == 0 then []
    else
      var s := Added(names, newNames, k - 1);
      if NameIn(names + Pick(newNames, s), newNames[k - 1]) then s else s + [k - 1]
  }

  /** The inner loop of `addDocsNoRepeats`, which scans every name without stopping at a match. */
  method ContainsIgnoreCase(names: seq<string>, doc: string) returns (exists_: bool)
    ensures exists_ <==> NameIn(names, doc)
  {
    exists_ := false;
    for i := 0 to |names|
      invariant exists_ <==> NameIn(names[..i], doc)
    {
      if EqualsIgnoreCase(names[i], doc) {
        exists_ := true;
      }
      assert forall j :: 0 <= j < i ==> names[..i + 1][j] == names[..i][j];
    }
    assert names[..|names|] == names;
  }

  /**
   * `addDocsNoRepeats`: the old lists extended, name and entities together,
   * with the new documents whose names are not yet present; nothing happens
   * without new names.
   */
  method AddDocsNoRepeats(names: seq<string>, entities: seq<seq<TextEntity>>,
                          newNames: Option<seq<string>>, newEntities: seq<seq<TextEntity>>)
    returns (names': seq<string>, entities': seq<seq<TextEntity>>)
    requires newNames.Some? ==> |newNames.value| <= |newEntities|
    ensures newNames.None? ==> names' == names && entities' == entities
    ensures newNames.Some? ==>
              var added := Added(names, newNames.value, |newNames.value|);
              names' == names + Pick(newNames.value, added) && entities' == entities + Pick(newEntities, added)
  {
    names' := names;
    entities' := entities;
    if newNames.Some? {
      var nn := newNames.value;
      for ii := 0 to |nn|
        invariant names' == names + Pick(nn, Added(names, nn, ii))
        invariant entities' == entities + Pick(newEntities, Added(names, nn, ii))
      {
        var doc := nn[ii];
        var exists_ := ContainsIgnoreCase(names', doc);
        if !exists_ {
          PickSnoc(nn, Added(names, nn, ii), ii);
          PickSnoc(newEntities, Added(names, nn, ii), ii);
          names' := names' + [doc];
          entities' := entities' + [newEntities[ii]];
        }
      }
    }
  }

  /** Each name from position `from` on matches, ignoring case, no name before it. */
  predicate NewFrom(all: seq<string>, from: int) {
    forall j, i :: from <= j < |all| && 0 <= i < j ==> !EqualsIgnoreCase(all[i], all[j])
  }

  /**
   * No name appended by `addDocsNoRepeats` matches, ignoring case, any name
   * before it in the resulting list.
   */
  lemma {:induction false} AddedNamesAreNew(names: seq<string>, newNames: seq<string>, k: int)
    requires 0 <= k <= |newNames|
    ensures NewFrom(names + Pick(newNames, Added(names, newNames, k)), |names|)
    decreases k
  {
    if k > 0 {
      AddedNamesAreNew(names, newNames, k - 1);
      var s := Added(names, newNames, k - 1);
      var before := names + Pick(newNames, s);
      if NameIn(before, newNames[k - 1]) {
        assert Added(names, newNames, k) == s;
      } else {
        assert Added(names, newNames, k) == s + [k - 1];
        PickSnoc(newNames, s, k - 1);
        var all := before + [newNames[k - 1]];
        forall j, i | |names| <= j < |all| && 0 <= i < j ensures !EqualsIgnoreCase(all[i], all[j]) {
          if j < |before| {
            assert all[i] == before[i] && all[j] == before[j];
            assert !EqualsIgnoreCase(before[i], before[j]);
          } else {
            assert all[i] == before[i] && all[j] == newNames[k - 1];
            assert !EqualsIgnoreCase(before[i], newNames[k - 1]);
          }
        }
        assert names + Pick(newNames, Added(names, newNames, k)) == all;
        assert NewFrom(all, |names|);
      }
    }
  }

  // ---------------------------------------------------------------------------
  // getRandomDocsFromTrain

  /** The drawn positions below `k`, in increasing order. */
  function DrawnBelow(draws: set<int>, k: int): (r: seq<int>)
    ensures forall i :: 0 <= i < |r| ==> 0 <= r[i] < k
    ensures forall x :: x in r <==> x in draws && 0 <= x < k
    ensures forall i, j :: 0 <= i < j < |r| ==> r[i] < r[j]
    decreases k
  {
    if k <= 0 then []
    else
      var r := DrawnBelow(draws, k - 1);
      var tail := if k - 1 in draws then [k - 1] else [];
      AppendAbove(r, tail, k);
      r + tail
  }

  /** An increasing sequence below `k - 1`, followed by nothing or by `k - 1`, is increasing and below `k`. */
  lemma AppendAbove(r: seq<int>, tail: seq<int>, k: int)
    requires k >= 1 && (tail == [] || tail == [k - 1])
    requires forall i :: 0 <= i < |r| ==> 0 <= r[i] < k - 1
    requires forall i, j :: 0 <= i < j < |r| ==> r[i] < r[j]
    ensures forall i :: 0 <= i < |r + tail| ==> 0 <= (r + tail)[i] < k
    ensures forall i, j :: 0 <= i < j < |r + tail| ==> (r + tail)[i] < (r + tail)[j]
  {
    var s := r + tail;
    forall i, j | 0 <= i < j < |s| ensures s[i] < s[j] {
      if j < |r| {
        assert s[i] == r[i] && s[j] == r[j];
      } else {
        assert s[i] == r[i] && s[j] == k - 1;
      }
    }
  }

  /** The draws below `k`. */
  ghost function Drawn(draws: set<int>, k: int): set<int> {
    set x | x in draws && 0 <= x < k
  }

  lemma DrawnStep(draws: set<int>, k: int)
    requires k > 0
    ensures Drawn(draws, k) == Drawn(draws, k - 1) + (if k - 1 in draws then {k - 1} else {})
    ensures k - 1 !in Drawn(draws, k - 1)
  {
  }

  /** One more position adds one draw exactly when it was drawn. */
  lemma DrawnSize(draws: set<int>, k: int)
    requires k > 0
    ensures |Drawn(draws, k)| == |Drawn(draws, k - 1)| + (if k - 1 in draws then 1 else 0)
  {
    DrawnStep(draws, k);
    var prev := Drawn(draws, k - 1);
    if k - 1 in draws {
      assert |prev + {k - 1}| == |prev| + 1;
    } else {
      assert prev + {} == prev;
    }
  }

  /** Listing the drawn positions below `k` lists each of them once. */
  lemma {:induction false} DrawnBelowSize(draws: set<int>, k: int)
    ensures |DrawnBelow(draws, k)| == |Drawn(draws, k)|
    decreases k
  {
    if k > 0 {
      DrawnBelowSize(draws, k - 1);
      DrawnSize(draws, k);
    } else {
      assert Drawn(draws, k) == {};
    }
  }

  /** When every draw is a position of the list, exactly as many documents are taken as there are draws. */
  lemma AllDrawnTaken(draws: set<int>, n: int)
    requires forall x :: x in draws ==> 0 <= x < n
    ensures |DrawnBelow(draws, n)| == |draws|
  {
    DrawnBelowSize(draws, n);
    assert Drawn(draws, n) == draws;
  }

  /**
   * `getRandomDocsFromTrain`, with the random draws given as the set of
   * positions they produce (`num` distinct positions when fewer documents
   * than there are are asked for): every document when `num` is at least
   * their number, otherwise the drawn documents in their original order,
   * names and entities alike, appended to the lists being filled.
   */
  method GetRandomDocsFromTrain(num: int, trainNames: seq<string>, trainEntities: seq<seq<TextEntity>>,
                                fillNames: seq<string>, fillEntities: seq<seq<TextEntity>>, draws: set<int>)
    returns (fillNames': seq<string>, fillEntities': seq<seq<TextEntity>>)
    requires |trainNames| <= |trainEntities|
    requires num < |trainNames| ==>
               |draws| == (if num < 0 then 0 else num) && forall x :: x in draws ==> 0 <= x < |trainNames|
    ensures num >= |trainNames| ==>
              fillNames' == fillNames + trainNames && fillEntities' == fillEntities + trainEntities[..|trainNames|]
    ensures num < |trainNames| ==>
              var taken := DrawnBelow(draws, |trainNames|);
              fillNames' == fillNames + Pick(trainNames, taken) && fillEntities' == fillEntities + Pick(trainEntities, taken)
  {
    if num >= |trainNames| {
      fillNames', fillEntities' := AppendAll(trainNames, trainEntities, fillNames, fillEntities);
    } else {
      fillNames', fillEntities' := AppendDrawn(trainNames, trainEntities, fillNames, fillEntities, draws);
    }
  }

  /** The loop that takes every training document. */
  method AppendAll(trainNames: seq<string>, trainEntities: seq<seq<TextEntity>>,
                   fillNames: seq<string>, fillEntities: seq<seq<TextEntity>>)
    returns (fillNames': seq<string>, fillEntities': seq<seq<TextEntity>>)
    requires |trainNames| <= |trainEntities|
    ensures fillNames' == fillNames + trainNames && fillEntities' == fillEntities + trainEntities[..|trainNames|]
  {
    fillNames' := fillNames;
    fillEntities' := fillEntities;
    for ii := 0 to |trainNames|
      invariant fillNames' == fillNames + trainNames[..ii]
      invariant fillEntities' == fillEntities + trainEntities[..ii]
    {
      assert trainNames[..ii + 1] == trainNames[..ii] + [trainNames[ii]];
      assert trainEntities[..ii + 1] == trainEntities[..ii] + [trainEntities[ii]];
      fillNames' := fillNames' + [trainNames[ii]];
      fillEntities' := fillEntities' + [trainEntities[ii]];
    }
    assert trainNames[..|trainNames|] == trainNames;
  }

  /** The loop that takes the drawn training documents in order. */
  method AppendDrawn(trainNames: seq<string>, trainEntities: seq<seq<TextEntity>>,
                     fillNames: seq<string>, fillEntities: seq<seq<TextEntity>>, draws: set<int>)
    returns (fillNames': seq<string>, fillEntities': seq<seq<TextEntity>>)
    requires |trainNames| <= |trainEntities|
    ensures var taken := DrawnBelow(draws, |trainNames|);
            fillNames' == fillNames + Pick(trainNames, taken) && fillEntities' == fillEntities + Pick(trainEntities, taken)
  {
    fillNames' := fillNames;
    fillEntities' := fillEntities;
    for ii := 0 to |trainNames|
      invariant fillNames' == fillNames + Pick(trainNames, DrawnBelow(draws, ii))
      invariant fillEntities' == fillEntities + Pick(trainEntities, DrawnBelow(draws, ii))
    {
      DrawnPickStep(trainNames, draws, ii, fillNames', fillNames);
      DrawnPickStep(trainEntities, draws, ii, fillEntities', fillEntities);
      if ii in draws {
        fillNames' := fillNames' + [trainNames[ii]];
        fillEntities' := fillEntities' + [trainEntities[ii]];
      }
    }
  }

  /** Taking position `ii` when it was drawn extends the drawn documents below `ii` to those below `ii + 1`. */
  lemma DrawnPickStep<T>(xs: seq<T>, draws: set<int>, ii: int, acc: seq<T>, base: seq<T>)
    requires 0 <= ii < |xs| && acc == base + Pick(xs, DrawnBelow(draws, ii))
    ensures (if ii in draws then acc + [xs[ii]] else acc) == base + Pick(xs, DrawnBelow(draws, ii + 1))
  {
    var before := DrawnBelow(draws, ii);
    assert DrawnBelow(draws, ii + 1) == before + (if ii in draws then [ii] else []);
    if ii in draws {
      PickSnoc(xs, before, ii);
    } else {
      assert before + [] == before;
    }
  }

  /** The random selection takes exactly `num` documents, each once, in their original order. */
  lemma RandomDocsCount(num: int, n: int, draws: set<int>)
    requires 0 <= num < n && |draws| == num && forall x :: x in draws ==> 0 <= x < n
    ensures var taken := DrawnBelow(draws, n);
            |taken| == num && forall i, j :: 0 <= i < j < |taken| ==> taken[i] < taken[j]
  {
    AllDrawnTaken(draws, n);
  }

  // ---------------------------------------------------------------------------
  // The labelling loop of inferUsingSampledData

  /**
   * The label the loop gives an entity: the head of its sorted topics, a topic
   * of largest probability among those reaching the cutoff; none when no topic
   * reaches it.
   */
  function TopLabel(topicProbs: seq<real>, cutoff: real): (r: set<int>)
    ensures r == {} <==> forall t :: 0 <= t < |topicProbs| ==> topicProbs[t] < cutoff
    ensures forall t :: t in r ==> IsTopTopic(topicProbs, cutoff, t)
    ensures forall t, u :: t in r && u in r ==> t == u
  {
    var s := SortedTopics(topicProbs, cutoff);
    if |s| == 0 then {}
    else
      SortedHeadIsTop(topicProbs, cutoff, s);
      assert s[0] in s;
      {s[0]}
  }

  /** Each entity of the document with its top label added. */
  function LabelledByTop(doc: seq<TextEntity>, topicProbs: seq<seq<real>>, cutoff: real): seq<TextEntity>
    requires |doc| <= |topicProbs|
  {
    seq(|doc|, i requires 0 <= i < |doc| => AddLabels(doc[i], TopLabel(topicProbs[i], cutoff)))
  }

  /**
   * Labelling keeps every entity but its labels, adds at most one label to
   * each, a top topic reaching the cutoff, and adds none when no topic reaches it.
   */
  lemma LabelledByTopAddsTop(doc: seq<TextEntity>, topicProbs: seq<seq<real>>, cutoff: real, i: int)
    requires |doc| <= |topicProbs| && 0 <= i < |doc|
    ensures var r := LabelledByTop(doc, topicProbs, cutoff);
            |r| == |doc| && r[i] == doc[i].(labels := r[i].labels) && doc[i].labels <= r[i].labels &&
            (forall t, u :: t in r[i].labels - doc[i].labels && u in r[i].labels - doc[i].labels ==> t == u) &&
            (forall t :: t in r[i].labels - doc[i].labels ==> IsTopTopic(topicProbs[i], cutoff, t)) &&
            ((forall t :: 0 <= t < |topicProbs[i]| ==> topicProbs[i][t] < cutoff) ==> r[i].labels == doc[i].labels) &&
            ((exists t :: 0 <= t < |topicProbs[i]| && topicProbs[i][t] >= cutoff) ==>
               exists t :: t in r[i].labels && IsTopTopic(topicProbs[i], cutoff, t))
  {
    var top := TopLabel(topicProbs[i], cutoff);
    if exists t :: 0 <= t < |topicProbs[i]| && topicProbs[i][t] >= cutoff {
      assert top != {};
      var t :| t in top;
      assert t in LabelledByTop(doc, topicProbs, cutoff)[i].labels;
    }
  }

  /**
   * The body of the loop for one entity: its topic saved, the entity
   * unlabelled, its top label chosen from the distribution the sampler gives
   * it while unlabelled, and the saved topic relabelled; the sampler's tables
   * end as they started.
   */
  method LabelEntity(sampler: Sampler, d: int, e: int, topicProbs: seq<real>, cutoff: real) returns (added: set<int>)
    requires sampler.Ready() && HasEntity(Values(sampler.tables), sampler.corpus.data, d, e)
    modifies Repr(sampler.tables)
    ensures added == TopLabel(topicProbs, cutoff)
    ensures sampler.Ready() && Restored(Values(sampler.tables), old(Values(sampler.tables)))
  {
    ghost var v := Values(sampler.tables);
    ghost var data := sampler.corpus.data;
    var z := sampler.tables.zs[d][e];
    assert z == v.zs[d][e] && 0 <= z < sampler.params.numTopics by {
      assert Shaped(v, data);
    }
    ghost var cfg := sampler.cfg;
    RelabelUndoesUnlabel(v, data, d, e, cfg);
    ghost var u := UnlabelValues(v, data, d, e, cfg);
    sampler.Unlabel(d, e);
    assert Values(sampler.tables) == u;
    added := ChooseTopLabel(topicProbs, cutoff);
    sampler.Relabel(d, e, z);
    assert Values(sampler.tables) == RelabelValues(u, data, d, e, z, cfg);
  }

  /** The topics ranked by probability, and the first one taken as the label. */
  method ChooseTopLabel(topicProbs: seq<real>, cutoff: real) returns (added: set<int>)
    ensures added == TopLabel(topicProbs, cutoff)
  {
    var sortedTopics := GetSortedTopics(topicProbs, cutoff);
    added := TopOf(sortedTopics);
  }

  /** The head of a ranking, as a set: the label `inferUsingSampledData` adds. */
  function TopOf(sortedTopics: seq<int>): set<int> {
    if |sortedTopics| > 0 then {sortedTopics[0]} else {}
  }

  /** The sampler holds a document named `docName` with at least `n` entities, each with a word. */
  ghost predicate DocInSampler(sampler: Sampler, docName: string, n: int)
    reads sampler
  {
    var d := FirstMatch(sampler.corpus.docNames, docName);
    d >= 0 ==> d < |sampler.corpus.data| && n <= |sampler.corpus.data[d]| &&
               forall e :: 0 <= e < n ==> |sampler.corpus.data[d][e].words| > 0
  }

  /**
   * What the loop makes of one test document: top labels added, then isolated
   * template labels removed when asked; `None` where that removal divides by
   * zero templates.
   */
  function LabelledDoc(doc: seq<TextEntity>, topicProbs: seq<seq<real>>, cutoff: real,
                       ignoreIsolated: bool, numTemplates: int): Option<seq<TextEntity>>
    requires |doc| <= |topicProbs|
  {
    var l := LabelledByTop(doc, topicProbs, cutoff);
    if !ignoreIsolated then Some(l)
    else if numTemplates != 0 then Some(IsolatedRemoved(l, numTemplates))
    else if NoLabels(l) then Some(l)
    else None
  }

  /** No entity carries a label. */
  predicate NoLabels(doc: seq<TextEntity>) {
    forall i :: 0 <= i < |doc| ==> doc[i].labels == {}
  }

  /** The entity loop of `inferUsingSampledData` over sampler document `d`: every entity gets its top label. */
  method LabelAll(sampler: Sampler, d: int, doc: seq<TextEntity>, topicProbs: seq<seq<real>>, cutoff: real)
    returns (labelled: seq<TextEntity>)
    requires sampler.Ready() && |doc| <= |topicProbs| && 0 <= d < |sampler.corpus.data|
    requires |doc| <= |sampler.corpus.data[d]| && forall e :: 0 <= e < |doc| ==> |sampler.corpus.data[d][e].words| > 0
    modifies Repr(sampler.tables)
    ensures sampler.Ready() && Restored(Values(sampler.tables), old(Values(sampler.tables)))
    ensures labelled == LabelledByTop(doc, topicProbs, cutoff)
  {
    ghost var v0 := Values(sampler.tables);
    SameCountsRefl(v0.wCounts);
    SameCountsRefl(v0.verbCounts);
    SameCountsRefl(v0.depCounts);
    SameCountsRefl(v0.featCounts);
    labelled := [];
    for entityi := 0 to |doc|
      invariant sampler.Ready() && Restored(Values(sampler.tables), v0)
      invariant labelled == LabelledByTop(doc[..entityi], topicProbs, cutoff)
    {
      ghost var before := Values(sampler.tables);
      var added := LabelEntity(sampler, d, entityi, topicProbs[entityi], cutoff);
      RestoredTrans(Values(sampler.tables), before, v0);
      LabelledByTopSnoc(doc, topicProbs, cutoff, entityi);
      labelled := labelled + [AddLabels(doc[entityi], added)];
    }
    assert doc[..|doc|] == doc;
  }

  /** Labelling one more entity of the document. */
  lemma LabelledByTopSnoc(doc: seq<TextEntity>, topicProbs: seq<seq<real>>, cutoff: real, i: int)
    requires |doc| <= |topicProbs| && 0 <= i < |doc|
    ensures LabelledByTop(doc[..i + 1], topicProbs, cutoff) ==
            LabelledByTop(doc[..i], topicProbs, cutoff) + [AddLabels(doc[i], TopLabel(topicProbs[i], cutoff))]
  {
    hide TopLabel;
    hide AddLabels;
    var a := LabelledByTop(doc[..i + 1], topicProbs, cutoff);
    var b := LabelledByTop(doc[..i], topicProbs, cutoff) + [AddLabels(doc[i], TopLabel(topicProbs[i], cutoff))];
    assert |a| == |b|;
    forall k | 0 <= k < |a| ensures a[k] == b[k] {
      var labelled := AddLabels(doc[k], TopLabel(topicProbs[k], cutoff));
      assert doc[..i + 1][k] == doc[k];
      assert a[k] == labelled;
      var before := LabelledByTop(doc[..i], topicProbs, cutoff);
      if k < i {
        assert doc[..i][k] == doc[k];
        assert before[k] == labelled;
        assert b[k] == before[k];
      } else {
        assert k == |before|;
        assert b[k] == labelled;
      }
    }
  }

  /**
   * One test document of `inferUsingSampledData`, with the distribution the
   * sampler gives each unlabelled entity given: `None` when the sampler has
   * no document of that name (the source exits) or when removing isolated
   * labels divides by zero templates (the source throws), otherwise the
   * labelled document; every table of the sampler ends as it started.
   */
  method LabelDocFromSampler(sampler: Sampler, doc: seq<TextEntity>, docName: string,
                             topicProbs: seq<seq<real>>, cutoff: real, ignoreIsolated: bool)
    returns (r: Option<seq<TextEntity>>)
    requires sampler.Ready() && |doc| <= |topicProbs| && DocInSampler(sampler, docName, |doc|)
    modifies Repr(sampler.tables)
    ensures sampler.Ready() && Restored(Values(sampler.tables), old(Values(sampler.tables)))
    ensures FirstMatch(sampler.corpus.docNames, docName) < 0 ==> r.None?
    ensures FirstMatch(sampler.corpus.docNames, docName) >= 0 ==>
              r == LabelledDoc(doc, topicProbs, cutoff, ignoreIsolated, sampler.params.numTemplates)
  {
    ghost var v0 := Values(sampler.tables);
    SameCountsRefl(v0.wCounts);
    SameCountsRefl(v0.verbCounts);
    SameCountsRefl(v0.depCounts);
    SameCountsRefl(v0.featCounts);
    var samplerDoci := sampler.DocnameToIndex(docName);
    if samplerDoci == -1 {
      return None;
    }
    var labelled := LabelAll(sampler, samplerDoci, doc, topicProbs, cutoff);
    if ignoreIsolated {
      r := RemoveIsolatedTemplateLabels(labelled, sampler.params.numTemplates);
    } else {
      r := Some(labelled);
    }
  }

  /** `docs` holds, document by document, what the loop makes of the test documents with cutoff 0.1. */
  ghost predicate LabelledAll(docs: seq<seq<TextEntity>>, testEntities: seq<seq<TextEntity>>,
                              topicProbs: seq<seq<seq<real>>>, ignoreIsolated: bool, numTemplates: int)
  {
    |docs| == |testEntities| && |testEntities| <= |topicProbs| &&
    forall i :: 0 <= i < |docs| ==>
      |testEntities[i]| <= |topicProbs[i]| &&
      LabelledDoc(testEntities[i], topicProbs[i], InferCutoff, ignoreIsolated, numTemplates) == Some(docs[i])
  }

  lemma LabelledAllSnoc(docs: seq<seq<TextEntity>>, testEntities: seq<seq<TextEntity>>,
                        topicProbs: seq<seq<seq<real>>>, ignoreIsolated: bool, numTemplates: int, k: int, doc: seq<TextEntity>)
    requires 0 <= k < |testEntities| <= |topicProbs|
    requires LabelledAll(docs, testEntities[..k], topicProbs, ignoreIsolated, numTemplates)
    requires |testEntities[k]| <= |topicProbs[k]|
    requires LabelledDoc(testEntities[k], topicProbs[k], InferCutoff, ignoreIsolated, numTemplates) == Some(doc)
    ensures LabelledAll(docs + [doc], testEntities[..k + 1], topicProbs, ignoreIsolated, numTemplates)
  {
  }

  /** The one cutoff `inferUsingSampledData` labels with. */
  const InferCutoff: real := 0.1

  /** The documents a loaded sampler can label: each one, when present, large enough, with every entity mentioned. */
  ghost predicate TestDocsFit(sampler: Sampler, testEntities: seq<seq<TextEntity>>, testDocNames: seq<string>,
                              topicProbs: seq<seq<seq<real>>>, ignoreIsolated: bool)
    reads sampler
  {
    |testEntities| <= |testDocNames| && |testEntities| <= |topicProbs| &&
    forall i :: 0 <= i < |testEntities| ==>
      |testEntities[i]| <= |topicProbs[i]| && DocInSampler(sampler, testDocNames[i], |testEntities[i]|)
  }

  /**
   * Test document `i` ends the pass: the sampler has no document of its name,
   * or removing its isolated labels divides by zero templates.
   */
  ghost predicate DocStops(sampler: Sampler, testEntities: seq<seq<TextEntity>>, testDocNames: seq<string>,
                           topicProbs: seq<seq<seq<real>>>, ignoreIsolated: bool, i: int)
    reads sampler
    requires 0 <= i < |testEntities| && |testEntities| <= |testDocNames| && |testEntities| <= |topicProbs|
    requires |testEntities[i]| <= |topicProbs[i]|
  {
    FirstMatch(sampler.corpus.docNames, testDocNames[i]) < 0 ||
    LabelledDoc(testEntities[i], topicProbs[i], InferCutoff, ignoreIsolated, sampler.params.numTemplates).None?
  }

  /**
   * The labelling pass of `inferUsingSampledData` over every test document,
   * with cutoff 0.1: `None` as soon as a document is missing from the sampler
   * (the source exits) or its isolated-label removal divides by zero (the
   * source throws), otherwise every document labelled; the sampler's tables
   * end as they started.
   */
  method InferUsingSampledData(sampler: Sampler, testEntities: seq<seq<TextEntity>>, testDocNames: seq<string>,
                               topicProbs: seq<seq<seq<real>>>, ignoreIsolated: bool)
    returns (r: Option<seq<seq<TextEntity>>>)
    requires sampler.Ready() && TestDocsFit(sampler, testEntities, testDocNames, topicProbs, ignoreIsolated)
    modifies Repr(sampler.tables)
    ensures sampler.Ready() && Restored(Values(sampler.tables), old(Values(sampler.tables)))
    ensures r.None? <==> exists i :: 0 <= i < |testEntities| &&
                                      DocStops(sampler, testEntities, testDocNames, topicProbs, ignoreIsolated, i)
    ensures r.Some? ==> LabelledAll(r.value, testEntities, topicProbs, ignoreIsolated, sampler.params.numTemplates)
  {
    ghost var v0 := Values(sampler.tables);
    SameCountsRefl(v0.wCounts);
    SameCountsRefl(v0.verbCounts);
    SameCountsRefl(v0.depCounts);
    SameCountsRefl(v0.featCounts);
    var docs := [];
    for testdoci := 0 to |testEntities|
      invariant sampler.Ready() && Restored(Values(sampler.tables), v0)
      invariant forall i :: 0 <= i < testdoci ==> !DocStops(sampler, testEntities, testDocNames, topicProbs, ignoreIsolated, i)
      invariant LabelledAll(docs, testEntities[..testdoci], topicProbs, ignoreIsolated, sampler.params.numTemplates)
    {
      ghost var before := Values(sampler.tables);
      var labelled := LabelDocFromSampler(sampler, testEntities[testdoci], testDocNames[testdoci],
                                          topicProbs[testdoci], InferCutoff, ignoreIsolated);
      RestoredTrans(Values(sampler.tables), before, v0);
      if labelled.None? {
        assert DocStops(sampler, testEntities, testDocNames, topicProbs, ignoreIsolated, testdoci);
        return None;
      }
      LabelledAllSnoc(docs, testEntities, topicProbs, ignoreIsolated, sampler.params.numTemplates, testdoci, labelled.value);
      docs := docs + [labelled.value];
    }
    assert testEntities[..|testEntities|] == testEntities;
    r := Some(docs);
  }
}
