/**
 * The corpus filters applied to parsed documents before learning: dependency
 * normalisation, removal of mentions and entities that carry little signal,
 * duplicate-mention pruning, the choice of an entity's core token, and the
 * cache-path rewriting.
 */
module DataSimplifier {
  import opened Wrappers
  import opened Strings
  import opened Seqs
  import opened Entities

  // ---------------------------------------------------------------------------
  // Dependency strings

  /**
   * Rewrites passive and controlled subjects to their active roles: the first
   * "nsubjpass--" becomes "dobj--", otherwise the first "agent--" or "xsubj--"
   * becomes "nsubj--". A missing dependency stays missing.
   */
  function NormalizeDep(dep: Option<string>): (r: Option<string>)
    ensures r.Some? <==> dep.Some?
    ensures (dep.Some? && !Contains(dep.value, "nsubjpass") && !Contains(dep.value, "agent--") &&
             !Contains(dep.value, "xsubj--")) ==> r == dep
  {
    match dep
    case None => None
    case Some(d) =>
      if Contains(d, "nsubjpass") then Some(ReplaceFirst(d, "nsubjpass--", "dobj--"))
      else if Contains(d, "agent--") then Some(ReplaceFirst(d, "agent--", "nsubj--"))
      else if Contains(d, "xsubj--") then Some(ReplaceFirst(d, "xsubj--", "nsubj--"))
      else dep
  }

  /** Subjects, agents and objects are the relations the model learns from. */
  predicate DepIsImportant(dep: string) {
    StartsWith(dep, "nsubj") || StartsWith(dep, "agent") || StartsWith(dep, "dobj")
  }

  predicate IsReportingVerbLemma(token: string) {
    token in {"say", "report", "reply", "tell", "talk", "add"}
  }

  predicate IsCommonVerbLemma(token: string) {
    token in {"be", "have", "do"}
  }

  /** No occurrence of `p` in `a + b` starts inside `a`, and `b` has none: so `a + b` has none. */
  lemma NotContainsAfterPrefix(a: string, b: string, p: string)
    requires !Contains(b, p)
    requires forall i :: 0 <= i < |a| ==> !OccursAt(a + b, p, i)
    ensures !Contains(a + b, p)
  {
    forall i | |a| <= i <= |a + b| - |p| ensures !OccursAt(a + b, p, i) {
      assert (a + b)[i..i + |p|] == b[i - |a|..i - |a| + |p|];
      assert !OccursAt(b, p, i - |a|);
    }
  }

  lemma PrefixReplaced(p: string, rep: string, g: string)
    requires Contains(p + g, p)
    ensures ReplaceFirst(p + g, p, rep) == rep + g
  {
    PrefixContains(p + g, p);
  }

  /** A passive subject becomes a direct object of the same governor. */
  lemma {:induction false} NormalizePassive(g: string)
    ensures NormalizeDep(Some("nsubjpass--" + g)) == Some("dobj--" + g)
  {
    var d := "nsubjpass--" + g;
    PrefixContains(d, "nsubjpass");
    PrefixContains(d, "nsubjpass--");
    PrefixReplaced("nsubjpass--", "dobj--", g);
  }

  /** An agent becomes a subject of the same governor. */
  lemma {:induction false} NormalizeAgent(g: string)
    requires !Contains(g, "nsubjpass")
    ensures NormalizeDep(Some("agent--" + g)) == Some("nsubj--" + g)
  {
    var a, d := "agent--", "agent--" + g;
    forall i | 0 <= i < |a| ensures !OccursAt(d, "nsubjpass", i) {
      assert d[i] == a[i];
      if i + 1 < |a| {
        assert d[i + 1] == a[i + 1];
      }
    }
    NotContainsAfterPrefix(a, g, "nsubjpass");
    PrefixContains(d, a);
    PrefixReplaced(a, "nsubj--", g);
  }

  /** A controlled subject becomes a subject of the same governor. */
  lemma {:induction false} NormalizeXsubj(g: string)
    requires !Contains(g, "nsubjpass") && !Contains(g, "agent--")
    ensures NormalizeDep(Some("xsubj--" + g)) == Some("nsubj--" + g)
  {
    var a, d := "xsubj--", "xsubj--" + g;
    forall i | 0 <= i < |a| ensures !OccursAt(d, "nsubjpass", i) && !OccursAt(d, "agent--", i) {
      assert d[i] == a[i];
      if i + 1 < |a| {
        assert d[i + 1] == a[i + 1];
      }
    }
    NotContainsAfterPrefix(a, g, "nsubjpass");
    NotContainsAfterPrefix(a, g, "agent--");
    PrefixContains(d, a);
    PrefixReplaced(a, "nsubj--", g);
  }

  /** Each rewritten form is one of the important relations. */
  lemma NormalizedDepsAreImportant(g: string)
    ensures DepIsImportant(NormalizeDep(Some("nsubjpass--" + g)).value)
    ensures !Contains(g, "nsubjpass") ==> DepIsImportant(NormalizeDep(Some("agent--" + g)).value)
    ensures !Contains(g, "nsubjpass") && !Contains(g, "agent--") ==>
              DepIsImportant(NormalizeDep(Some("xsubj--" + g)).value)
  {
    NormalizePassive(g);
    assert StartsWith("dobj--" + g, "dobj");
    if !Contains(g, "nsubjpass") {
      NormalizeAgent(g);
      assert StartsWith("nsubj--" + g, "nsubj");
      if !Contains(g, "agent--") {
        NormalizeXsubj(g);
      }
    }
  }

  // ---------------------------------------------------------------------------
  // Mention and entity removal

  /** The entities kept by a pass that drops those with at most `n` mentions. */
  function MoreThan(n: int): TextEntity -> bool {
    (e: TextEntity) => |e.mentions| > n
  }

  /** Drops every entity with `n` or fewer mentions; the others keep their order. */
  method RemoveEntitiesWithNMentions(entities: seq<TextEntity>, n: int) returns (r: seq<TextEntity>)
    ensures r == Filter(entities, MoreThan(n))
    ensures forall k :: 0 <= k < |r| ==> |r[k].mentions| > n
  {
    r := [];
    var i := 0;
    while i < |entities|
      invariant 0 <= i <= |entities|
      invariant r == Filter(entities[..i], MoreThan(n))
    {
      assert entities[..i + 1][..i] == entities[..i];
      if |entities[i].mentions| > n {
        r := r + [entities[i]];
      }
      i := i + 1;
    }
    assert entities[..i] == entities;
  }

  /** The first position in `s` whose element fails `keep`, or -1. */
  function FirstRejected<T>(s: seq<T>, keep: T -> bool): (r: int)
    ensures -1 <= r < |s|
    ensures r >= 0 ==> !keep(s[r])
    ensures forall j :: 0 <= j < |s| && (r < 0 || j < r) ==> keep(s[j])
    decreases |s|
  {
    if |s| == 0 then -1
    else if !keep(s[0]) then 0
    else
      var k := FirstRejected(s[1..], keep);
      if k < 0 then -1 else k + 1
  }

  /**
   * Removes the first mention that fails `keep` and starts over, until none is
   * left: the result is exactly the passing mentions, in order.
   */
  function StripMentions(ms: seq<Mention>, keep: Mention -> bool): (r: seq<Mention>)
    ensures r == Filter(ms, keep)
    decreases |ms|
  {
    var i := FirstRejected(ms, keep);
    if i < 0 then
      FilterAll(ms, keep);
      ms
    else
      FilterDropRejected(ms, i, keep);
      StripMentions(ms[..i] + ms[i + 1..], keep)
  }

  function StripEntity(e: TextEntity, keep: Mention -> bool): TextEntity {
    e.(mentions := StripMentions(e.mentions, keep))
  }

  function StripAll(entities: seq<TextEntity>, keep: Mention -> bool): (r: seq<TextEntity>)
    ensures |r| == |entities|
  {
    seq(|entities|, k requires 0 <= k < |entities| => StripEntity(entities[k], keep))
  }

  /** Mentions whose governor is not a reporting verb. */
  predicate NotReporting(m: Mention) {
    !IsReportingVerbLemma(Governor(m.dep))
  }

  /** Mentions whose governor is not "be", "have" or "do". */
  predicate NotCommon(m: Mention) {
    !IsCommonVerbLemma(Governor(m.dep))
  }

  /**
   * Strips every entity of the mentions failing `keep`, then drops the entities
   * left without mentions.
   */
  method RemoveMentions(entities: seq<TextEntity>, keep: Mention -> bool) returns (r: seq<TextEntity>)
    ensures r == Filter(StripAll(entities, keep), MoreThan(0))
    ensures forall k :: 0 <= k < |r| ==> |r[k].mentions| > 0
    ensures forall k, j :: 0 <= k < |r| && 0 <= j < |r[k].mentions| ==> keep(r[k].mentions[j])
  {
    var stripped: seq<TextEntity> := [];
    var i := 0;
    while i < |entities|
      invariant 0 <= i <= |entities|
      invariant stripped == StripAll(entities[..i], keep)
    {
      stripped := stripped + [StripEntity(entities[i], keep)];
      i := i + 1;
    }
    assert entities[..i] == entities;
    r := RemoveEntitiesWithNMentions(stripped, 0);
    forall k, j | 0 <= k < |r| && 0 <= j < |r[k].mentions| ensures keep(r[k].mentions[j]) {
      FilterMembers(stripped, MoreThan(0), r[k]);
      var q :| 0 <= q < |stripped| && stripped[q] == r[k];
    }
  }

  /** Removes the mentions attached to a reporting verb, then the emptied entities. */
  method RemoveReportingMentions(entities: seq<TextEntity>) returns (r: seq<TextEntity>)
    ensures r == Filter(StripAll(entities, NotReporting), MoreThan(0))
    ensures forall k, j :: 0 <= k < |r| && 0 <= j < |r[k].mentions| ==>
              !IsReportingVerbLemma(Governor(r[k].mentions[j].dep))
  {
    r := RemoveMentions(entities, NotReporting);
  }

  /** Removes the mentions attached to "be", "have" or "do", then the emptied entities. */
  method RemoveCommonMentions(entities: seq<TextEntity>) returns (r: seq<TextEntity>)
    ensures r == Filter(StripAll(entities, NotCommon), MoreThan(0))
    ensures forall k, j :: 0 <= k < |r| && 0 <= j < |r[k].mentions| ==>
              !IsCommonVerbLemma(Governor(r[k].mentions[j].dep))
  {
    r := RemoveMentions(entities, NotCommon);
  }

  // ---------------------------------------------------------------------------
  // Rare dependencies

  function EntityDeps(e: TextEntity): seq<string> {
    seq(|e.mentions|, i requires 0 <= i < |e.mentions| => e.mentions[i].dep)
  }

  function DocDeps(entities: seq<TextEntity>): seq<string>
    decreases |entities|
  {
    if |entities| == 0 then []
    else DocDeps(entities[..|entities| - 1]) + EntityDeps(entities[|entities| - 1])
  }

  /** The dependency of every mention of every entity of every document. */
  function CorpusDeps(docs: seq<seq<TextEntity>>): seq<string>
    decreases |docs|
  {
    if |docs| == 0 then [] else CorpusDeps(docs[..|docs| - 1]) + DocDeps(docs[|docs| - 1])
  }

  /** Mentions whose dependency occurs at least `minCount` times in `deps`. */
  function Frequent(deps: seq<string>, minCount: real): Mention -> bool {
    (m: Mention) => Count(deps, m.dep) as real >= minCount
  }

  /**
   * Removes the first mention whose dependency count is below `minCount` and
   * rescans, until a full scan removes nothing.
   */
  method DropRareMentions(ms: seq<Mention>, counts: map<string, int>, ghost deps: seq<string>, minCount: real)
    returns (r: seq<Mention>)
    requires forall x :: Get(counts, x) == Count(deps, x)
    ensures r == Filter(ms, Frequent(deps, minCount))
  {
    var keep := Frequent(deps, minCount);
    r := ms;
    var removed := true;
    while removed
      invariant Filter(r, keep) == Filter(ms, keep)
      invariant !removed ==> forall j :: 0 <= j < |r| ==> keep(r[j])
      decreases |r| + (if removed then 1 else 0)
    {
      removed := false;
      var ii := 0;
      while ii < |r|
        invariant 0 <= ii <= |r|
        invariant !removed
        invariant forall j :: 0 <= j < ii ==> keep(r[j])
      {
        if (Get(counts, r[ii].dep) as real) < minCount {
          FilterDropRejected(r, ii, keep);
          r := r[..ii] + r[ii + 1..];
          removed := true;
          break;
        }
        ii := ii + 1;
      }
    }
    FilterAll(r, keep);
  }

  /**
   * Counts every dependency over the whole corpus first, then removes from each
   * entity the mentions whose dependency was seen fewer than `minDepCounts`
   * times, and drops the entities left empty, document by document.
   */
  method RemoveLowOccurringMentions(docs: seq<seq<TextEntity>>, minDepCounts: real)
    returns (r: seq<seq<TextEntity>>)
    ensures |r| == |docs|
    ensures forall d :: 0 <= d < |docs| ==>
              r[d] == Filter(StripAll(docs[d], Frequent(CorpusDeps(docs), minDepCounts)), MoreThan(0))
  {
    ghost var deps := CorpusDeps(docs);
    var keep := Frequent(CorpusDeps(docs), minDepCounts);
    var counts := Tally(CorpusDeps(docs));
    r := [];
    var d := 0;
    while d < |docs|
      invariant 0 <= d <= |docs| && |r| == d
      invariant forall k :: 0 <= k < d ==> r[k] == Filter(StripAll(docs[k], keep), MoreThan(0))
    {
      var stripped := StripRareMentions(docs[d], counts, deps, minDepCounts);
      var kept := RemoveEntitiesWithNMentions(stripped, 0);
      r := r + [kept];
      d := d + 1;
    }
  }

  /** Removes from each entity of one document the mentions whose dependency is rare. */
  method StripRareMentions(entities: seq<TextEntity>, counts: map<string, int>, ghost deps: seq<string>, minDepCounts: real)
    returns (stripped: seq<TextEntity>)
    requires forall x :: Get(counts, x) == Count(deps, x)
    ensures stripped == StripAll(entities, Frequent(deps, minDepCounts))
  {
    var keep := Frequent(deps, minDepCounts);
    stripped := [];
    var i := 0;
    while i < |entities|
      invariant 0 <= i <= |entities|
      invariant stripped == StripAll(entities[..i], keep)
    {
      var ms := DropRareMentions(entities[i].mentions, counts, deps, minDepCounts);
      stripped := stripped + [entities[i].(mentions := ms)];
      i := i + 1;
    }
    assert entities[..i] == entities;
  }

  // ---------------------------------------------------------------------------
  // Duplicate mentions ending on the same token

  /** A mention as a token span of its sentence. */
  datatype EntityMention = EntityMention(start: int, end: int)

  function Width(m: EntityMention): int { m.end - m.start }

  /**
   * Among the first `n` mentions, `i` is the narrowest one ending where it ends,
   * and the first of those.
   */
  ghost predicate NarrowestUpTo(ms: seq<EntityMention>, n: int, i: int)
    requires 0 <= i < n <= |ms|
  {
    (forall j :: 0 <= j < i && ms[j].end == ms[i].end ==> Width(ms[j]) > Width(ms[i])) &&
    (forall j :: i < j < n && ms[j].end == ms[i].end ==> Width(ms[j]) >= Width(ms[i]))
  }

  /** Mention `i` of a sentence survives the duplicate pruning. */
  ghost predicate Survives(ms: seq<EntityMention>, i: int)
    requires 0 <= i < |ms|
  {
    NarrowestUpTo(ms, |ms|, i)
  }

  /** The surviving mentions among the first `n`, in sentence order. */
  ghost function SurvivorsUpTo(ms: seq<EntityMention>, n: int): seq<EntityMention>
    requires 0 <= n <= |ms|
  {
    if n == 0 then [] else SurvivorsUpTo(ms, n - 1) + (if Survives(ms, n - 1) then [ms[n - 1]] else [])
  }

  lemma NarrowestUnique(ms: seq<EntityMention>, n: int, a: int, b: int)
    requires 0 <= a < n <= |ms| && 0 <= b < n
    requires ms[a].end == ms[b].end
    requires NarrowestUpTo(ms, n, a) && NarrowestUpTo(ms, n, b)
    ensures a == b
  {
  }

  /** For every mention, some mention with the same end index is the narrowest one. */
  lemma {:induction false} NarrowestExists(ms: seq<EntityMention>, n: int, i: int)
    requires 0 <= i < n <= |ms|
    ensures exists j :: 0 <= j < n && ms[j].end == ms[i].end && NarrowestUpTo(ms, n, j)
    decreases n
  {
    var e := ms[i].end;
    if i == n - 1 && forall j :: 0 <= j < n - 1 ==> ms[j].end != e {
      assert NarrowestUpTo(ms, n, n - 1);
    } else {
      var i' := i;
      if i == n - 1 {
        i' :| 0 <= i' < n - 1 && ms[i'].end == e;
      }
      NarrowestExists(ms, n - 1, i');
      var j :| 0 <= j < n - 1 && ms[j].end == e && NarrowestUpTo(ms, n - 1, j);
      if ms[n - 1].end == e && Width(ms[n - 1]) < Width(ms[j]) {
        assert NarrowestUpTo(ms, n, n - 1);
      } else {
        assert NarrowestUpTo(ms, n, j);
      }
    }
  }

  /** After pruning, every end index of the sentence has exactly one surviving mention. */
  lemma ExactlyOneSurvivorPerEnd(ms: seq<EntityMention>, i: int)
    requires 0 <= i < |ms|
    ensures exists j :: 0 <= j < |ms| && ms[j].end == ms[i].end && Survives(ms, j)
    ensures forall a, b :: (0 <= a < |ms| && 0 <= b < |ms| && ms[a].end == ms[b].end &&
              Survives(ms, a) && Survives(ms, b)) ==> a == b
  {
    NarrowestExists(ms, |ms|, i);
    forall a, b | 0 <= a < |ms| && 0 <= b < |ms| && ms[a].end == ms[b].end && Survives(ms, a) && Survives(ms, b)
      ensures a == b
    {
      NarrowestUnique(ms, |ms|, a, b);
    }
  }

  /**
   * The state of the scan after the first `k` mentions: `seen` maps every end
   * index met so far to the narrowest mention with that end, and `remove` holds
   * every other position scanned.
   */
  ghost predicate ScanState(ms: seq<EntityMention>, k: int, seen: map<int, int>, remove: set<int>)
    requires 0 <= k <= |ms|
  {
    (forall j :: 0 <= j < k ==> ms[j].end in seen) &&
    (forall e :: e in seen ==> 0 <= seen[e] < k && ms[seen[e]].end == e && NarrowestUpTo(ms, k, seen[e])) &&
    (forall j :: j in remove <==> 0 <= j < k && seen[ms[j].end] != j)
  }

  lemma ScanFirstOfEnd(ms: seq<EntityMention>, k: int, seen: map<int, int>, remove: set<int>)
    requires 0 <= k < |ms| && ScanState(ms, k, seen, remove) && ms[k].end !in seen
    ensures ScanState(ms, k + 1, seen[ms[k].end := k], remove)
  {
    var seen' := seen[ms[k].end := k];
    forall e | e in seen' ensures NarrowestUpTo(ms, k + 1, seen'[e]) {
      if e != ms[k].end {
        assert NarrowestUpTo(ms, k, seen[e]);
      }
    }
  }

  lemma ScanNarrower(ms: seq<EntityMention>, k: int, seen: map<int, int>, remove: set<int>)
    requires 0 <= k < |ms| && ScanState(ms, k, seen, remove) && ms[k].end in seen
    requires Width(ms[seen[ms[k].end]]) > Width(ms[k])
    ensures ScanState(ms, k + 1, seen[ms[k].end := k], remove + {seen[ms[k].end]})
  {
    var e0 := ms[k].end;
    var prev := seen[e0];
    var seen' := seen[e0 := k];
    forall e | e in seen' ensures NarrowestUpTo(ms, k + 1, seen'[e]) {
      if e != e0 {
        assert NarrowestUpTo(ms, k, seen[e]);
      } else {
        assert NarrowestUpTo(ms, k, prev);
      }
    }
  }

  lemma ScanNotNarrower(ms: seq<EntityMention>, k: int, seen: map<int, int>, remove: set<int>)
    requires 0 <= k < |ms| && ScanState(ms, k, seen, remove) && ms[k].end in seen
    requires Width(ms[seen[ms[k].end]]) <= Width(ms[k])
    ensures ScanState(ms, k + 1, seen, remove + {k})
  {
    forall e | e in seen ensures NarrowestUpTo(ms, k + 1, seen[e]) {
      assert NarrowestUpTo(ms, k, seen[e]);
    }
  }

  /**
   * The scan over a sentence: remembers, per end index, the narrowest mention
   * seen so far, and collects the positions of the mentions it displaces.
   */
  method DuplicatePositions(ms: seq<EntityMention>) returns (remove: set<int>)
    ensures forall j :: 0 <= j < |ms| ==> (j in remove <==> !Survives(ms, j))
  {
    var seen: map<int, int> := map[];
    remove := {};
    var k := 0;
    while k < |ms|
      invariant 0 <= k <= |ms|
      invariant ScanState(ms, k, seen, remove)
    {
      var current := ms[k];
      if current.end !in seen {
        ScanFirstOfEnd(ms, k, seen, remove);
        seen := seen[current.end := k];
      } else {
        var prev := seen[current.end];
        if Width(ms[prev]) > Width(current) {
          ScanNarrower(ms, k, seen, remove);
          seen := seen[current.end := k];
          remove := remove + {prev};
        } else {
          ScanNotNarrower(ms, k, seen, remove);
          remove := remove + {k};
        }
      }
      k := k + 1;
    }
    forall j | 0 <= j < |ms| ensures j in remove <==> !Survives(ms, j) {
      if Survives(ms, j) {
        NarrowestUnique(ms, |ms|, j, seen[ms[j].end]);
      }
    }
  }

  /** Keeps, for each end index, the first mention of minimal width, in sentence order. */
  method RemoveDuplicatesInSentence(ms: seq<EntityMention>) returns (r: seq<EntityMention>)
    ensures r == SurvivorsUpTo(ms, |ms|)
  {
    var remove := DuplicatePositions(ms);
    r := [];
    var i := 0;
    while i < |ms|
      invariant 0 <= i <= |ms|
      invariant r == SurvivorsUpTo(ms, i)
    {
      if i !in remove {
        r := r + [ms[i]];
      }
      i := i + 1;
    }
  }

  /** Prunes duplicate mentions in every sentence independently. */
  method RemoveDuplicateMentions(sentences: seq<seq<EntityMention>>) returns (r: seq<seq<EntityMention>>)
    ensures |r| == |sentences|
    ensures forall s :: 0 <= s < |r| ==> r[s] == SurvivorsUpTo(sentences[s], |sentences[s]|)
  {
    r := [];
    var s := 0;
    while s < |sentences|
      invariant 0 <= s <= |sentences| && |r| == s
      invariant forall t :: 0 <= t < s ==> r[t] == SurvivorsUpTo(sentences[t], |sentences[t]|)
    {
      var kept := RemoveDuplicatesInSentence(sentences[s]);
      r := r + [kept];
      s := s + 1;
    }
  }

  // ---------------------------------------------------------------------------
  // Number entities

  /** The largest value `Integer.parseInt` accepts. */
  const MaxInt: int := 0x7fff_ffff

  /** `Integer.parseInt` on a string of ASCII digits: no value when it does not fit in 32 bits. */
  function ParseInt(s: string): (r: Option<int>)
    requires AllDigits(s)
    ensures r.Some? <==> DigitsValue(s) <= MaxInt
    ensures r.Some? ==> r.value == DigitsValue(s)
  {
    var v := DigitsValue(s);
    if v <= MaxInt then Some(v) else None
  }

  /** An entity with one mention whose token is a string of digits. */
  predicate IsNumberEntity(e: TextEntity) {
    |e.mentions| == 1 && AllDigits(e.mentions[0].token)
  }

  /** Numbers that cannot be a year of the corpus. */
  predicate OutsideYears(v: int) {
    v < 1900 || v > 2020
  }

  /** The entities the pass keeps: all but the single-number entities outside 1900..2020. */
  predicate KeepNumberEntity(e: TextEntity) {
    !(IsNumberEntity(e) && OutsideYears(DigitsValue(e.mentions[0].token)))
  }

  /** A single-number entity whose token makes `Integer.parseInt` throw. */
  predicate ParseOverflows(e: TextEntity) {
    IsNumberEntity(e) && DigitsValue(e.mentions[0].token) > MaxInt
  }

  /**
   * The pass as written: each single-number token is parsed as a 32-bit integer,
   * so the first one longer than that aborts the whole pass with an exception
   * (no result) before anything is removed.
   */
  method RemoveNumberEntitiesAsWritten(entities: seq<TextEntity>) returns (r: Option<seq<TextEntity>>)
    ensures r.None? <==> exists k :: 0 <= k < |entities| && ParseOverflows(entities[k])
    ensures r.Some? ==> r.value == Filter(entities, KeepNumberEntity)
  {
    var kept: seq<TextEntity> := [];
    var i := 0;
    while i < |entities|
      invariant 0 <= i <= |entities|
      invariant kept == Filter(entities[..i], KeepNumberEntity)
      invariant forall k :: 0 <= k < i ==> !ParseOverflows(entities[k])
    {
      assert entities[..i + 1][..i] == entities[..i];
      var e := entities[i];
      if IsNumberEntity(e) {
        var value := ParseInt(e.mentions[0].token);
        if value.None? {
          return None;
        }
        if !OutsideYears(value.value) {
          kept := kept + [e];
        }
      } else {
        kept := kept + [e];
      }
      i := i + 1;
    }
    assert entities[..i] == entities;
    r := Some(kept);
  }

  /** An eleven-digit token such as a phone number overflows the parse, although the pass means to drop it. */
  lemma LongNumberAbortsPass()
    ensures var e := TextEntity([Mention("12345678901", "12345678901", "nsubj--call")], "", "", {}, {});
            ParseOverflows(e) && !KeepNumberEntity(e)
  {
    var t := "12345678901";
    assert AllDigits(t);
    assert DigitsValue(t[..1]) == 1;
    assert t[..2][..1] == t[..1];
    assert DigitsValue(t[..2]) == 12;
    assert t[..3][..2] == t[..2];
    assert DigitsValue(t[..3]) == 123;
    assert t[..4][..3] == t[..3];
    assert DigitsValue(t[..4]) == 1234;
    assert t[..5][..4] == t[..4];
    assert DigitsValue(t[..5]) == 12345;
    assert t[..6][..5] == t[..5];
    assert DigitsValue(t[..6]) == 123456;
    assert t[..7][..6] == t[..6];
    assert DigitsValue(t[..7]) == 1234567;
    assert t[..8][..7] == t[..7];
    assert DigitsValue(t[..8]) == 12345678;
    assert t[..9][..8] == t[..8];
    assert DigitsValue(t[..9]) == 123456789;
    assert t[..10][..9] == t[..9];
    assert DigitsValue(t[..10]) == 1234567890;
    assert t[..11][..10] == t[..10];
    assert t[..11] == t;
  }

  /**
   * The pass as intended: a digit token is compared by its value, whatever its
   * length, so every single-number entity outside 1900..2020 is removed.
   */
  method RemoveNumberEntities(entities: seq<TextEntity>) returns (r: seq<TextEntity>)
    ensures r == Filter(entities, KeepNumberEntity)
    ensures forall k :: 0 <= k < |r| && IsNumberEntity(r[k]) ==> 1900 <= DigitsValue(r[k].mentions[0].token) <= 2020
  {
    r := [];
    var i := 0;
    while i < |entities|
      invariant 0 <= i <= |entities|
      invariant r == Filter(entities[..i], KeepNumberEntity)
    {
      assert entities[..i + 1][..i] == entities[..i];
      var e := entities[i];
      if !IsNumberEntity(e) || !OutsideYears(DigitsValue(e.mentions[0].token)) {
        r := r + [e];
      }
      i := i + 1;
    }
    assert entities[..i] == entities;
  }

  // ---------------------------------------------------------------------------
  // Core token

  /**
   * Mention `j` may become the core: the first mention always starts as the
   * choice; a later one only when `excluded` (the pronoun and reference tests)
   * rejects its token.
   */
  predicate CoreCandidate(ms: seq<Mention>, excluded: string -> bool, j: int)
    requires 0 <= j < |ms|
  {
    j == 0 || !excluded(ms[j].token)
  }

  /**
   * Among the first `n` mentions, `b` is the first candidate whose token has the
   * greatest length among the candidates.
   */
  ghost predicate IsCoreMention(ms: seq<Mention>, excluded: string -> bool, n: int, b: int)
    requires 0 <= n <= |ms|
  {
    0 <= b < n && CoreCandidate(ms, excluded, b) &&
    (forall j :: 0 <= j < n && CoreCandidate(ms, excluded, j) ==> |ms[j].token| <= |ms[b].token|) &&
    (forall j :: 0 <= j < b && CoreCandidate(ms, excluded, j) ==> |ms[j].token| < |ms[b].token|)
  }

  lemma CoreMentionUnique(ms: seq<Mention>, excluded: string -> bool, a: int, b: int)
    requires IsCoreMention(ms, excluded, |ms|, a) && IsCoreMention(ms, excluded, |ms|, b)
    ensures a == b
  {
  }

  /** The core token as stored: a string of digits is replaced by "NUMBER". */
  function CoreForm(token: string): (r: string)
    ensures AllDigits(token) ==> r == "NUMBER"
    ensures !AllDigits(token) ==> r == token
  {
    if AllDigits(token) then "NUMBER" else token
  }

  /**
   * Chooses the core mention by token length: the first mention, replaced only by
   * a strictly longer token that passes the pronoun tests.
   */
  method SetCoreEntityMention(e: TextEntity, excluded: string -> bool) returns (r: TextEntity)
    requires |e.mentions| > 0
    ensures exists b :: IsCoreMention(e.mentions, excluded, |e.mentions|, b) &&
              r == e.(coreToken := CoreForm(e.mentions[b].token), rawCoreToken := e.mentions[b].rawToken)
  {
    var ms := e.mentions;
    var besti := 0;
    var mentioni := 1;
    while mentioni < |ms|
      invariant 1 <= mentioni <= |ms|
      invariant IsCoreMention(ms, excluded, mentioni, besti)
    {
      var token := ms[mentioni].token;
      if |token| > |ms[besti].token| && !excluded(token) {
        besti := mentioni;
      }
      mentioni := mentioni + 1;
    }
    r := e.(coreToken := CoreForm(ms[besti].token), rawCoreToken := ms[besti].rawToken);
  }

  // ---------------------------------------------------------------------------
  // Cache file names

  /** Runs of two or more dashes shrink to one dash (the pattern "--+"). */
  function CollapseDashes(s: string): (r: string)
    ensures |s| > 0 ==> |r| > 0 && r[0] == s[0]
    ensures forall i :: 0 <= i < |r| ==> r[i] in s
    ensures forall i :: 0 <= i < |r| - 1 ==> !(r[i] == '-' && r[i + 1] == '-')
    decreases |s|
  {
    if |s| < 2 then s
    else if s[0] == '-' && s[1] == '-' then CollapseDashes(s[1..])
    else [s[0]] + CollapseDashes(s[1..])
  }

  /** The characters stripped from both ends of a path before it is turned into a name. */
  predicate Trimmed(c: char, sep: char) {
    c == '.' || c == sep
  }

  /** Doubled separators, then single ones, then slashes become dashes. */
  function DashSeparators(f: string, sep: char): (c: string)
    requires sep == '/' || sep == '\\'
    ensures forall i :: 0 <= i < |c| ==> c[i] != sep && c[i] != '/'
  {
    var a := ReplaceAll(f, [sep, sep], "-");
    var b := ReplaceAll(a, [sep], "-");
    ReplaceCharPointwise(a, sep, '-');
    ReplaceCharPointwise(b, '/', '-');
    ReplaceAll(b, "/", "-")
  }

  lemma UnderscoreDots(d: string, sep: char)
    requires sep == '/' || sep == '\\'
    requires forall i :: 0 <= i < |d| ==> d[i] != sep && d[i] != '/'
    requires forall i :: 0 <= i < |d| - 1 ==> !(d[i] == '-' && d[i + 1] == '-')
    ensures forall i :: 0 <= i < |ReplaceAll(d, ".", "_")| ==>
              ReplaceAll(d, ".", "_")[i] != '.' && ReplaceAll(d, ".", "_")[i] != '/' && ReplaceAll(d, ".", "_")[i] != sep
    ensures !Contains(ReplaceAll(d, ".", "_"), "--")
  {
    ReplaceCharPointwise(d, '.', '_');
    var n := ReplaceAll(d, ".", "_");
    forall i | 0 <= i <= |n| - 2 ensures !OccursAt(n, "--", i) {
      assert !(d[i] == '-' && d[i + 1] == '-');
    }
  }

  /**
   * Rewrites a trimmed path into one file name: separators (doubled or single)
   * and slashes become dashes, dash runs collapse, and dots become underscores.
   */
  function CacheName(f: string, sep: char): (r: string)
    requires sep == '/' || sep == '\\'
    ensures forall i :: 0 <= i < |r| ==> r[i] != '.' && r[i] != '/' && r[i] != sep
    ensures !Contains(r, "--")
  {
    var c := DashSeparators(f, sep);
    var d := CollapseDashes(c);
    UnderscoreDots(d, sep);
    ReplaceAll(d, ".", "_")
  }

  lemma {:induction false} CollapseWithoutDashes(s: string)
    requires forall i :: 0 <= i < |s| ==> s[i] != '-'
    ensures CollapseDashes(s) == s
    decreases |s|
  {
    if |s| >= 2 {
      var t := s[1..];
      assert s[0] != '-';
      assert forall i :: 0 <= i < |t| ==> t[i] == s[i + 1];
      CollapseWithoutDashes(t);
      assert CollapseDashes(s) == [s[0]] + t;
      assert [s[0]] + t == s;
    }
  }

  /** A name with no dot, slash, separator or dash is used as it is. */
  lemma {:induction false} CacheNameOfPlainName(f: string, sep: char)
    requires sep == '/' || sep == '\\'
    requires forall i :: 0 <= i < |f| ==> f[i] != '.' && f[i] != '/' && f[i] != sep && f[i] != '-'
    ensures CacheName(f, sep) == f
  {
    ReplaceCharPointwise(f, sep, '-');
    ReplaceCharPointwise(f, '/', '-');
    ReplaceCharPointwise(f, '.', '_');
    assert ReplaceAll(f, [sep], "-") == f;
    assert ReplaceAll(f, "/", "-") == f;
    assert ReplaceAll(f, ".", "_") == f;
    forall i | 0 <= i <= |f| - 2 ensures !OccursAt(f, [sep, sep], i) {
      assert f[i] != sep;
    }
    ReplaceAllAbsent(f, [sep, sep], "-");
    CollapseWithoutDashes(f);
  }

  /**
   * Strips leading and trailing dots and separators, rewrites the rest with
   * `CacheName`, and places it under the "cache" directory. A path made only of
   * dots and separators makes the character lookup fail: no result.
   */
  method CreateCachePath(origFile: string, sep: char) returns (r: Option<string>)
    requires sep == '/' || sep == '\\'
    ensures r.None? <==> forall i :: 0 <= i < |origFile| ==> Trimmed(origFile[i], sep)
    ensures r.Some? ==> exists i, j :: (0 <= i < j <= |origFile| &&
              (forall k :: 0 <= k < i ==> Trimmed(origFile[k], sep)) &&
              (forall k :: j <= k < |origFile| ==> Trimmed(origFile[k], sep)) &&
              !Trimmed(origFile[i], sep) && !Trimmed(origFile[j - 1], sep) &&
              r.value == "cache" + [sep] + CacheName(origFile[i..j], sep))
  {
    var i := 0;
    while i < |origFile| && Trimmed(origFile[i], sep)
      invariant 0 <= i <= |origFile|
      invariant forall k :: 0 <= k < i ==> Trimmed(origFile[k], sep)
    {
      i := i + 1;
    }
    if i == |origFile| {
      return None;
    }
    var j := |origFile|;
    while Trimmed(origFile[j - 1], sep)
      invariant i < j <= |origFile|
      decreases j
      invariant forall k :: j <= k < |origFile| ==> Trimmed(origFile[k], sep)
    {
      j := j - 1;
    }
    r := Some("cache" + [sep] + CacheName(origFile[i..j], sep));
  }
}
