/**
 * Role labelling of a document's entities from a learned model. Each entity
 * gets the most probable role; entities below the probability threshold are
 * dropped, and each role keeps only its most probable entities.
 *
 * The per-entity role distribution comes from the sampler and is an input
 * here: `probs[i][t]` is the probability of role `t` for entity `i`, that is
 * the exponential of the log-score the source computes. The exponential is
 * increasing, so the arg-max and the threshold test are the same in either space.
 */
module Inference {
  import opened Strings
  import opened Seqs
  import opened Entities
  import opened Ranking

  /** The governors of the entity's mentions: what each dependency attaches to. */
  method GetVerbsInEntity(entity: TextEntity) returns (words: set<string>)
    ensures forall v :: v in words <==> exists i :: 0 <= i < |entity.mentions| && Governor(entity.mentions[i].dep) == v
  {
    words := {};
    var ii := 0;
    while ii < |entity.mentions|
      invariant 0 <= ii <= |entity.mentions|
      invariant forall v :: v in words <==> exists i :: 0 <= i < ii && Governor(entity.mentions[i].dep) == v
    {
      words := words + {Governor(entity.mentions[ii].dep)};
      ii := ii + 1;
    }
  }

  /** The governors of every mention of every entity of the document. */
  method GetVerbsInDocFromDeps(docEntities: seq<TextEntity>) returns (words: set<string>)
    ensures forall v :: v in words <==>
              exists e, i :: 0 <= e < |docEntities| && 0 <= i < |docEntities[e].mentions| &&
                             Governor(docEntities[e].mentions[i].dep) == v
  {
    words := {};
    var k := 0;
    while k < |docEntities|
      invariant 0 <= k <= |docEntities|
      invariant forall v :: v in words <==>
                  exists e, i :: 0 <= e < k && 0 <= i < |docEntities[e].mentions| &&
                                 Governor(docEntities[e].mentions[i].dep) == v
    {
      var ws := GetVerbsInEntity(docEntities[k]);
      words := words + ws;
      k := k + 1;
    }
  }

  /** Whether one of the first five predicates is in the other set. */
  method PredicateOverlap(preds: seq<string>, preds2: set<string>) returns (overlap: bool)
    ensures overlap <==> exists xx :: 0 <= xx < 5 && xx < |preds| && preds[xx] in preds2
  {
    var xx := 0;
    while xx < 5 && xx < |preds|
      invariant 0 <= xx <= 5
      invariant forall y :: 0 <= y < xx && y < |preds| ==> preds[y] !in preds2
    {
      if preds[xx] in preds2 {
        return true;
      }
      xx := xx + 1;
    }
    return false;
  }

  /** Every entity of every document loses its labels; nothing else changes. */
  method ClearEntityLabels(docsEntities: seq<seq<TextEntity>>) returns (r: seq<seq<TextEntity>>)
    ensures |r| == |docsEntities|
    ensures forall d :: 0 <= d < |r| ==> |r[d]| == |docsEntities[d]|
    ensures forall d, e :: 0 <= d < |r| && 0 <= e < |r[d]| ==> r[d][e] == docsEntities[d][e].(labels := {})
  {
    r := [];
    var d := 0;
    while d < |docsEntities|
      invariant 0 <= d <= |docsEntities|
      invariant |r| == d
      invariant forall d' :: 0 <= d' < d ==> |r[d']| == |docsEntities[d']|
      invariant forall d', e :: 0 <= d' < d && 0 <= e < |r[d']| ==> r[d'][e] == docsEntities[d'][e].(labels := {})
    {
      var doc := docsEntities[d];
      var cleared := [];
      var e := 0;
      while e < |doc|
        invariant 0 <= e <= |doc|
        invariant |cleared| == e
        invariant forall e' :: 0 <= e' < e ==> cleared[e'] == doc[e'].(labels := {})
      {
        cleared := cleared + [doc[e].(labels := {})];
        e := e + 1;
      }
      r := r + [cleared];
      d := d + 1;
    }
  }

  /** Scans the role distribution for the first most probable role. */
  method BestTopic(probs: seq<real>) returns (bestTopic: int)
    requires |probs| > 0 && forall t :: 0 <= t < |probs| ==> probs[t] >= 0.0
    ensures bestTopic == FirstMax(probs)
  {
    var best := -1.0;
    bestTopic := -1;
    var topic := 0;
    while topic < |probs|
      invariant 0 <= topic <= |probs|
      invariant topic == 0 ==> bestTopic == -1 && best == -1.0
      invariant topic > 0 ==> 0 <= bestTopic < topic && best == probs[bestTopic]
      invariant forall j :: 0 <= j < topic ==> probs[j] <= best
      invariant forall j :: 0 <= j < bestTopic ==> probs[j] < best
    {
      if probs[topic] > best {
        best := probs[topic];
        bestTopic := topic;
      }
      topic := topic + 1;
    }
    FirstMaxUnique(probs, bestTopic);
  }

  /** A well-formed distribution per entity over `numTopics` roles. */
  predicate Distributions(probs: seq<seq<real>>, numTopics: int) {
    numTopics > 0 &&
    forall i :: 0 <= i < |probs| ==> |probs[i]| == numTopics && forall t :: 0 <= t < numTopics ==> probs[i][t] >= 0.0
  }

  /** The probability of each entity's best role. */
  function BestProbs(probs: seq<seq<real>>, numTopics: int): (r: seq<real>)
    requires Distributions(probs, numTopics)
    ensures |r| == |probs|
  {
    seq(|probs|, i requires 0 <= i < |probs| => probs[i][FirstMax(probs[i])])
  }

  /** Entity `i` is a candidate for role `t`: `t` is its best role and clears the threshold strictly. */
  predicate IsCandidate(probs: seq<seq<real>>, numTopics: int, minProb: real, t: int, i: int)
    requires Distributions(probs, numTopics)
  {
    0 <= i < |probs| && FirstMax(probs[i]) == t && probs[i][t] > minProb
  }

  function CandidateOf(probs: seq<seq<real>>, numTopics: int, minProb: real, t: int): int -> bool
    requires Distributions(probs, numTopics)
  {
    (i: int) => IsCandidate(probs, numTopics, minProb, t, i)
  }

  /** The candidates of role `t`, in entity order. */
  function Candidates(probs: seq<seq<real>>, numTopics: int, minProb: real, t: int): (r: seq<int>)
    requires Distributions(probs, numTopics)
    ensures ValidKeys(r, BestProbs(probs, numTopics))
  {
    var r := Filter(Range(|probs|), CandidateOf(probs, numTopics, minProb, t));
    assert forall k :: 0 <= k < |r| ==> IsCandidate(probs, numTopics, minProb, t, r[k]);
    r
  }

  /** The entities that receive role `t`: its candidates ranked by probability, cut at `maxPerRole`. */
  function Chosen(probs: seq<seq<real>>, numTopics: int, minProb: real, maxPerRole: int, t: int): seq<int>
    requires Distributions(probs, numTopics)
  {
    Take(SortKeysByValues(Candidates(probs, numTopics, minProb, t), BestProbs(probs, numTopics)), maxPerRole)
  }

  /** A role applies to the document unless poor documents are skipped and none of its top verbs occurs in it. */
  predicate TopicApplies(skipPoorDocuments: bool, predicatesInDoc: set<string>, topVerbs: seq<string>) {
    !skipPoorDocuments || exists pred :: pred in predicatesInDoc && pred in topVerbs
  }

  /** The labels entity `i` ends with. */
  function LabelsFor(probs: seq<seq<real>>, numTopics: int, minProb: real, maxPerRole: int, applies: seq<bool>, i: int): set<int>
    requires Distributions(probs, numTopics) && |applies| == numTopics && 0 <= i < |probs|
  {
    var b := FirstMax(probs[i]);
    if applies[b] && i in Chosen(probs, numTopics, minProb, maxPerRole, b) then {b} else {}
  }

  /**
   * The first pass: each entity's best role, with the entity recorded under
   * that role when it clears the threshold.
   */
  method CollectCandidates(probs: seq<seq<real>>, numTopics: int, minProb: real) returns (byTopic: seq<seq<int>>)
    requires Distributions(probs, numTopics)
    ensures |byTopic| == numTopics
    ensures forall t :: 0 <= t < numTopics ==> byTopic[t] == Candidates(probs, numTopics, minProb, t)
  {
    byTopic := seq(numTopics, _ => []);
    var entityid := 0;
    while entityid < |probs|
      invariant 0 <= entityid <= |probs|
      invariant CollectedUpTo(probs, numTopics, minProb, entityid, byTopic)
    {
      var bestTopic := BestTopic(probs[entityid]);
      CollectStep(probs, numTopics, minProb, entityid, byTopic);
      if probs[entityid][bestTopic] > minProb {
        byTopic := byTopic[bestTopic := byTopic[bestTopic] + [entityid]];
      }
      entityid := entityid + 1;
    }
  }

  /** After the first `n` entities, each role holds its candidates among them. */
  ghost predicate CollectedUpTo(probs: seq<seq<real>>, numTopics: int, minProb: real, n: nat, byTopic: seq<seq<int>>)
    requires Distributions(probs, numTopics)
  {
    |byTopic| == numTopics &&
    forall t :: 0 <= t < numTopics ==> byTopic[t] == Filter(Range(n), CandidateOf(probs, numTopics, minProb, t))
  }

  /** Recording entity `n` under its best role, when it clears the threshold, extends `CollectedUpTo` by one entity. */
  lemma CollectStep(probs: seq<seq<real>>, numTopics: int, minProb: real, n: nat, byTopic: seq<seq<int>>)
    requires Distributions(probs, numTopics) && n < |probs| && CollectedUpTo(probs, numTopics, minProb, n, byTopic)
    ensures var b := FirstMax(probs[n]);
            CollectedUpTo(probs, numTopics, minProb, n + 1,
                          if probs[n][b] > minProb then byTopic[b := byTopic[b] + [n]] else byTopic)
  {
    var b := FirstMax(probs[n]);
    var next := if probs[n][b] > minProb then byTopic[b := byTopic[b] + [n]] else byTopic;
    forall t | 0 <= t < numTopics
      ensures next[t] == Filter(Range(n + 1), CandidateOf(probs, numTopics, minProb, t))
    {
      CandidatesStep(probs, numTopics, minProb, t, n);
    }
  }

  /** The candidates of role `t` among the first `n + 1` entities: those among the first `n`, then entity `n` if it is one. */
  lemma CandidatesStep(probs: seq<seq<real>>, numTopics: int, minProb: real, t: int, n: nat)
    requires Distributions(probs, numTopics) && n < |probs|
    ensures Filter(Range(n + 1), CandidateOf(probs, numTopics, minProb, t)) ==
            Filter(Range(n), CandidateOf(probs, numTopics, minProb, t)) +
            (if FirstMax(probs[n]) == t && probs[n][t] > minProb then [n] else [])
  {
    assert Range(n + 1) == Range(n) + [n];
    FilterSnoc(Range(n), n, CandidateOf(probs, numTopics, minProb, t));
  }

  /** The governors of all mentions of the document's entities. */
  function DocPredicates(docEntities: seq<TextEntity>): set<string> {
    set e, i | 0 <= e < |docEntities| && 0 <= i < |docEntities[e].mentions| :: Governor(docEntities[e].mentions[i].dep)
  }

  /** Per role, whether it applies to the document. */
  function Applies(skipPoorDocuments: bool, predicatesInDoc: set<string>, topVerbs: seq<seq<string>>): (r: seq<bool>)
    ensures |r| == |topVerbs|
  {
    seq(|topVerbs|, t requires 0 <= t < |topVerbs| => TopicApplies(skipPoorDocuments, predicatesInDoc, topVerbs[t]))
  }

  /** Gives label `topic` to the given entities, all of whose best role it is. */
  method LabelTop(labels: seq<set<int>>, probs: seq<seq<real>>, numTopics: int, topic: int,
                  top: seq<int>, ghost expected: seq<set<int>>)
    returns (labels': seq<set<int>>)
    requires |labels| == |probs| == |expected| && Distributions(probs, numTopics)
    requires forall k :: 0 <= k < |top| ==> 0 <= top[k] < |probs| && FirstMax(probs[top[k]]) == topic
    requires forall i :: 0 <= i < |labels| ==> labels[i] == if FirstMax(probs[i]) < topic then expected[i] else {}
    ensures |labels'| == |labels|
    ensures forall i :: 0 <= i < |labels| ==>
              labels'[i] == if FirstMax(probs[i]) < topic then expected[i] else if i in top then {topic} else {}
  {
    labels' := labels;
    var xx := 0;
    while xx < |top|
      invariant 0 <= xx <= |top|
      invariant |labels'| == |labels|
      invariant forall i :: 0 <= i < |labels| ==>
                  labels'[i] == if FirstMax(probs[i]) < topic then expected[i] else if i in top[..xx] then {topic} else {}
    {
      var k := top[xx];
      assert top[..xx + 1] == top[..xx] + [k];
      labels' := labels'[k := labels'[k] + {topic}];
      xx := xx + 1;
    }
    assert top[..xx] == top;
  }

  /** The entities role `topic` labels: its top candidates when it applies, none otherwise. */
  method TopOfRole(probs: seq<seq<real>>, numTopics: int, minProb: real, maxPerRole: int, topic: int,
                   applies: bool, candidates: seq<int>)
    returns (top: seq<int>)
    requires Distributions(probs, numTopics) && 0 <= topic < numTopics
    requires candidates == Candidates(probs, numTopics, minProb, topic)
    ensures top == (if applies then Chosen(probs, numTopics, minProb, maxPerRole, topic) else [])
    ensures forall k :: 0 <= k < |top| ==> 0 <= top[k] < |probs| && FirstMax(probs[top[k]]) == topic
  {
    top := [];
    if applies {
      var topentities := SortKeysByValues(candidates, BestProbs(probs, numTopics));
      top := Take(topentities, maxPerRole);
      forall k | 0 <= k < |top| ensures 0 <= top[k] < |probs| && FirstMax(probs[top[k]]) == topic {
        SortKeysMembers(candidates, BestProbs(probs, numTopics), top[k]);
        FilterMembers(Range(|probs|), CandidateOf(probs, numTopics, minProb, topic), top[k]);
      }
    }
  }

  /**
   * Labels the entities of one document. Labels are cleared first; each role
   * that applies to the document then labels its top `maxPerRole` candidates.
   */
  method LabelEntities(docEntities: seq<TextEntity>, probs: seq<seq<real>>, numTopics: int, minProb: real,
                       maxPerRole: int, skipPoorDocuments: bool, topVerbs: seq<seq<string>>)
    returns (r: seq<TextEntity>)
    requires |probs| == |docEntities| && Distributions(probs, numTopics) && |topVerbs| == numTopics
    ensures |r| == |docEntities|
    ensures forall i :: 0 <= i < |r| ==>
              r[i] == docEntities[i].(labels := LabelsFor(probs, numTopics, minProb, maxPerRole,
                                                          Applies(skipPoorDocuments, DocPredicates(docEntities), topVerbs), i))
  {
    var predicatesInDoc := GetVerbsInDocFromDeps(docEntities);
    assert predicatesInDoc == DocPredicates(docEntities);
    var byTopic := CollectCandidates(probs, numTopics, minProb);
    var applies := Applies(skipPoorDocuments, predicatesInDoc, topVerbs);
    ghost var expected := seq(|probs|, i requires 0 <= i < |probs| => LabelsFor(probs, numTopics, minProb, maxPerRole, applies, i));
    var labels: seq<set<int>> := seq(|docEntities|, _ => {});
    var topic := 0;
    while topic < numTopics
      invariant 0 <= topic <= numTopics
      invariant |labels| == |docEntities|
      invariant forall i :: 0 <= i < |labels| ==> labels[i] == if FirstMax(probs[i]) < topic then expected[i] else {}
    {
      var top := TopOfRole(probs, numTopics, minProb, maxPerRole, topic, applies[topic], byTopic[topic]);
      labels := LabelTop(labels, probs, numTopics, topic, top, expected);
      forall i | 0 <= i < |labels| && FirstMax(probs[i]) == topic
        ensures expected[i] == if i in top then {topic} else {}
      {
        assert expected[i] == LabelsFor(probs, numTopics, minProb, maxPerRole, applies, i);
      }
      topic := topic + 1;
    }
    r := seq(|docEntities|, i requires 0 <= i < |docEntities| => docEntities[i].(labels := labels[i]));
  }

  /** An entity is chosen for a role only if it is one of that role's candidates, found in the sorted list. */
  lemma ChosenIsCandidate(probs: seq<seq<real>>, numTopics: int, minProb: real, maxPerRole: int, t: int, i: int)
    requires Distributions(probs, numTopics)
    requires i in Chosen(probs, numTopics, minProb, maxPerRole, t)
    ensures IsCandidate(probs, numTopics, minProb, t, i)
  {
    var cands := Candidates(probs, numTopics, minProb, t);
    SortKeysMembers(cands, BestProbs(probs, numTopics), i);
    FilterMembers(Range(|probs|), CandidateOf(probs, numTopics, minProb, t), i);
  }

  /**
   * Each entity ends with at most one label: its best role, and only when that
   * role's probability is strictly above the threshold.
   */
  lemma LabelIsBestAboveThreshold(probs: seq<seq<real>>, numTopics: int, minProb: real, maxPerRole: int,
                                  applies: seq<bool>, i: int)
    requires Distributions(probs, numTopics) && |applies| == numTopics && 0 <= i < |probs|
    ensures LabelsFor(probs, numTopics, minProb, maxPerRole, applies, i) <= {FirstMax(probs[i])}
    ensures probs[i][FirstMax(probs[i])] <= minProb ==> LabelsFor(probs, numTopics, minProb, maxPerRole, applies, i) == {}
    ensures forall t :: t in LabelsFor(probs, numTopics, minProb, maxPerRole, applies, i) ==> applies[t] && probs[i][t] > minProb
  {
    var b := FirstMax(probs[i]);
    if i in Chosen(probs, numTopics, minProb, maxPerRole, b) {
      ChosenIsCandidate(probs, numTopics, minProb, maxPerRole, b, i);
    }
  }

  lemma {:induction false} SubsetSize<T>(a: set<T>, b: set<T>)
    requires a <= b
    ensures |a| <= |b|
    decreases |b|
  {
    if a != {} {
      var x :| x in a;
      SubsetSize(a - {x}, b - {x});
    }
  }

  lemma {:induction false} SeqElementsSize<T>(s: seq<T>)
    ensures |set k | 0 <= k < |s| :: s[k]| <= |s|
    decreases |s|
  {
    if |s| > 0 {
      var front := s[..|s| - 1];
      SeqElementsSize(front);
      var fs := set k | 0 <= k < |front| :: front[k];
      assert (set k | 0 <= k < |s| :: s[k]) <= fs + {s[|s| - 1]} by {
        forall k | 0 <= k < |s| - 1 ensures s[k] in fs {
          assert front[k] == s[k];
        }
      }
      SubsetSize(set k | 0 <= k < |s| :: s[k], fs + {s[|s| - 1]});
    }
  }

  /** An entity labelled `t` is one of the entities chosen for `t`. */
  lemma LabelledIsChosen(probs: seq<seq<real>>, numTopics: int, minProb: real, maxPerRole: int,
                         applies: seq<bool>, t: int, i: int)
    requires Distributions(probs, numTopics) && |applies| == numTopics && 0 <= i < |probs|
    ensures t in LabelsFor(probs, numTopics, minProb, maxPerRole, applies, i) <==>
            applies[FirstMax(probs[i])] && t == FirstMax(probs[i]) && i in Chosen(probs, numTopics, minProb, maxPerRole, t)
  {
  }

  /** No role labels more than `maxPerRole` entities. */
  lemma LabelsPerRoleCapped(probs: seq<seq<real>>, numTopics: int, minProb: real, maxPerRole: int,
                            applies: seq<bool>, t: int)
    requires Distributions(probs, numTopics) && |applies| == numTopics
    ensures |set i | 0 <= i < |probs| && t in LabelsFor(probs, numTopics, minProb, maxPerRole, applies, i)| <=
            (if maxPerRole < 0 then 0 else maxPerRole)
  {
    var chosen := Chosen(probs, numTopics, minProb, maxPerRole, t);
    var labelled := set i | 0 <= i < |probs| && t in LabelsFor(probs, numTopics, minProb, maxPerRole, applies, i);
    var elems := set k | 0 <= k < |chosen| :: chosen[k];
    forall i | i in labelled ensures i in elems {
      LabelledIsChosen(probs, numTopics, minProb, maxPerRole, applies, t, i);
      var k :| 0 <= k < |chosen| && chosen[k] == i;
    }
    SubsetSize(labelled, elems);
    SeqElementsSize(chosen);
  }

  /**
   * Within a role, a labelled entity is at least as probable as any candidate
   * left unlabelled, and a candidate is left unlabelled only when the role is full.
   */
  lemma LabelledOutrankUnlabelled(probs: seq<seq<real>>, numTopics: int, minProb: real, maxPerRole: int,
                                  applies: seq<bool>, t: int, i: int, j: int)
    requires Distributions(probs, numTopics) && |applies| == numTopics && 0 <= i < |probs| && 0 <= j < |probs|
    requires 0 <= t < numTopics && applies[t] && IsCandidate(probs, numTopics, minProb, t, j)
    requires t !in LabelsFor(probs, numTopics, minProb, maxPerRole, applies, j)
    ensures |Chosen(probs, numTopics, minProb, maxPerRole, t)| == (if maxPerRole < 0 then 0 else maxPerRole)
    ensures t in LabelsFor(probs, numTopics, minProb, maxPerRole, applies, i) ==> probs[i][t] >= probs[j][t]
  {
    var vals := BestProbs(probs, numTopics);
    var cands := Candidates(probs, numTopics, minProb, t);
    var sorted := SortKeysByValues(cands, vals);
    assert Range(|probs|)[j] == j;
    assert CandidateOf(probs, numTopics, minProb, t)(j);
    FilterMembers(Range(|probs|), CandidateOf(probs, numTopics, minProb, t), j);
    assert j in cands;
    SortKeysMembers(cands, vals, j);
    assert j in sorted;
    SortKeysSorted(cands, vals);
    LabelledIsChosen(probs, numTopics, minProb, maxPerRole, applies, t, j);
    LabelledIsChosen(probs, numTopics, minProb, maxPerRole, applies, t, i);
    assert Chosen(probs, numTopics, minProb, maxPerRole, t) == Take(sorted, maxPerRole);
    assert j !in Take(sorted, maxPerRole);
    TakeOutranksRest(sorted, vals, maxPerRole, i, j);
    assert vals[j] == probs[j][t];
    if t in LabelsFor(probs, numTopics, minProb, maxPerRole, applies, i) {
      assert vals[i] == probs[i][t];
    }
  }

  /** A role that does not apply to the document labels nothing. */
  lemma SkippedRoleUnused(probs: seq<seq<real>>, numTopics: int, minProb: real, maxPerRole: int,
                          applies: seq<bool>, t: int, i: int)
    requires Distributions(probs, numTopics) && |applies| == numTopics && 0 <= i < |probs|
    requires 0 <= t < numTopics && !applies[t]
    ensures t !in LabelsFor(probs, numTopics, minProb, maxPerRole, applies, i)
  {
  }
}
