/**
 * The verb-pattern baseline (`BaselineBestVerb`): slots are the subject and
 * object positions of the most domain-specific verbs, and an entity is
 * labelled with the slot of a pattern one of its mentions fills.
 *
 * The ranked word list comes from `DomainVerbDetector`, and the relation
 * names and their normalisation from `WordEvent`; all three are inputs here
 * (`detected`, `subjectRel`/`objectRel` and `normalizeRelation`).
 */
module BaselineBestVerb {
  import opened Strings
  import opened Entities
  import opened Ranking

  /** A slot pattern, "verb:relation", and the slot it stands for. */
  datatype SlotPattern = SlotPattern(pattern: string, slot: int)

  /** How many of the detected words are kept (`Util.firstN(topWords, 50)`). */
  const TopWordsKept: int := 50

  /** `Integer.MAX_VALUE`, the "no match yet" value of the best pattern index. */
  const IntMax: int := 0x7fff_ffff

  function Min(a: int, b: int): int {
    if a <= b then a else b
  }

  /**
   * The pattern loop of `computeLikelihoods`: slot `i` is the subject
   * (even `i`) or the object (odd `i`) of word `i / 2`, for as many slots as
   * asked and as the kept words allow.
   */
  method ComputeSlotPatterns(detected: seq<string>, numSlots: int, subjectRel: string, objectRel: string)
    returns (patterns: seq<SlotPattern>)
    ensures var topWords := Take(detected, TopWordsKept);
            |patterns| == (if numSlots < 0 then 0 else Min(numSlots, 2 * |topWords|))
    ensures var topWords := Take(detected, TopWordsKept);
            forall i :: 0 <= i < |patterns| ==>
              patterns[i] == SlotPattern(topWords[i / 2] + ":" + (if i % 2 == 0 then subjectRel else objectRel), i)
  {
    var topWords := Take(detected, TopWordsKept);
    patterns := [];
    var slotid := 0;
    while slotid < numSlots
      invariant 0 <= slotid <= 2 * |topWords| && (numSlots < 0 ==> slotid == 0) && (numSlots >= 0 ==> slotid <= numSlots)
      invariant |patterns| == slotid
      invariant forall i :: 0 <= i < |patterns| ==>
                  patterns[i] == SlotPattern(topWords[i / 2] + ":" + (if i % 2 == 0 then subjectRel else objectRel), i)
    {
      if |topWords| < slotid / 2 + 1 {
        break;
      }
      if slotid % 2 == 0 {
        patterns := patterns + [SlotPattern(topWords[slotid / 2] + ":" + subjectRel, slotid)];
      } else {
        patterns := patterns + [SlotPattern(topWords[slotid / 2] + ":" + objectRel, slotid)];
      }
      slotid := slotid + 1;
    }
  }

  // ---------------------------------------------------------------------------
  // labelEntities

  /** Every mention's dependency has a "--", so both of its halves exist. */
  predicate DepsSplit(entity: TextEntity) {
    forall i :: 0 <= i < |entity.mentions| ==> Contains(entity.mentions[i].dep, "--")
  }

  /** The slot a mention fills: "v-", its governor, ":" and its normalised relation. */
  function MentionSlot(m: Mention, normalizeRelation: string -> string): string
    requires Contains(m.dep, "--")
  {
    "v-" + Governor(m.dep) + ":" + normalizeRelation(m.dep[..IndexOf(m.dep, "--")])
  }

  /** The slot of every mention, in mention order. */
  function MentionSlots(entity: TextEntity, normalizeRelation: string -> string): (r: seq<string>)
    requires DepsSplit(entity)
    ensures |r| == |entity.mentions|
  {
    seq(|entity.mentions|, i requires 0 <= i < |entity.mentions| => MentionSlot(entity.mentions[i], normalizeRelation))
  }

  /** The index of the first pattern equal to `slot`, or -1. */
  function FirstPatternOf(slot: string, patterns: seq<SlotPattern>): (r: int)
    ensures -1 <= r < |patterns|
    ensures r >= 0 ==> patterns[r].pattern == slot
    ensures forall q :: 0 <= q < |patterns| && (r < 0 || q < r) ==> patterns[q].pattern != slot
    decreases |patterns|
  {
    if |patterns| == 0 then -1
    else
      var k := FirstPatternOf(slot, patterns[..|patterns| - 1]);
      assert forall q :: 0 <= q < |patterns| - 1 ==> patterns[..|patterns| - 1][q] == patterns[q];
      if k >= 0 then k else if patterns[|patterns| - 1].pattern == slot then |patterns| - 1 else -1
  }

  /**
   * The pattern the source's loop settles on, with its pattern counter never
   * advanced: the first pattern matched by the first mention that matches any.
   */
  function AsWrittenChoice(slots: seq<string>, patterns: seq<SlotPattern>): (r: int)
    ensures -1 <= r < |patterns|
    ensures r < 0 <==> forall i :: 0 <= i < |slots| ==> FirstPatternOf(slots[i], patterns) < 0
    ensures r >= 0 ==> exists i :: 0 <= i < |slots| && r == FirstPatternOf(slots[i], patterns) &&
                                   forall k :: 0 <= k < i ==> FirstPatternOf(slots[k], patterns) < 0
    decreases |slots|
  {
    if |slots| == 0 then -1
    else
      var pre := slots[..|slots| - 1];
      var c := AsWrittenChoice(pre, patterns);
      assert forall k :: 0 <= k < |pre| ==> pre[k] == slots[k];
      if c >= 0 then c else FirstPatternOf(slots[|slots| - 1], patterns)
  }

  lemma AsWrittenSnoc(slots: seq<string>, i: int, patterns: seq<SlotPattern>)
    requires 0 <= i < |slots|
    ensures var c := AsWrittenChoice(slots[..i], patterns);
            AsWrittenChoice(slots[..i + 1], patterns) == if c >= 0 then c else FirstPatternOf(slots[i], patterns)
  {
    assert slots[..i + 1][..i] == slots[..i];
  }

  /** The least index of a pattern some mention fills, or -1 when none is filled. */
  function LowestPattern(slots: seq<string>, patterns: seq<SlotPattern>): (r: int)
    ensures -1 <= r < |patterns|
    ensures r >= 0 ==> patterns[r].pattern in slots
    ensures forall q :: 0 <= q < |patterns| && (r < 0 || q < r) ==> patterns[q].pattern !in slots
    decreases |patterns|
  {
    if |patterns| == 0 then -1
    else
      var k := LowestPattern(slots, patterns[..|patterns| - 1]);
      assert forall q :: 0 <= q < |patterns| - 1 ==> patterns[..|patterns| - 1][q] == patterns[q];
      if k >= 0 then k else if patterns[|patterns| - 1].pattern in slots then |patterns| - 1 else -1
  }

  /** The slot of pattern `c`, or -1 when there is no pattern. */
  function SlotAt(patterns: seq<SlotPattern>, c: int): int
    requires -1 <= c < |patterns|
  {
    if c >= 0 then patterns[c].slot else -1
  }

  /** A value `r` that has the two properties of `LowestPattern` is `LowestPattern`. */
  lemma LowestUnique(slots: seq<string>, patterns: seq<SlotPattern>, r: int)
    requires -1 <= r < |patterns|
    requires r >= 0 ==> patterns[r].pattern in slots
    requires forall q :: 0 <= q < |patterns| && (r < 0 || q < r) ==> patterns[q].pattern !in slots
    ensures r == LowestPattern(slots, patterns)
  {
    var l := LowestPattern(slots, patterns);
    if r != l {
      assert false;
    }
  }

  /** One mention more: the lower of the lowest pattern so far and the mention's first pattern. */
  lemma LowestSnoc(slots: seq<string>, x: string, patterns: seq<SlotPattern>)
    ensures var l := LowestPattern(slots, patterns);
            var f := FirstPatternOf(x, patterns);
            LowestPattern(slots + [x], patterns) == (if f >= 0 && (l < 0 || f < l) then f else l)
  {
    var l := LowestPattern(slots, patterns);
    var f := FirstPatternOf(x, patterns);
    var r := if f >= 0 && (l < 0 || f < l) then f else l;
    forall q | 0 <= q < |patterns| && (r < 0 || q < r) ensures patterns[q].pattern !in slots + [x] {
      assert patterns[q].pattern !in slots;
      assert patterns[q].pattern != x;
    }
    if r >= 0 {
      assert patterns[r].pattern in slots + [x];
    }
    LowestUnique(slots + [x], patterns, r);
  }

  /** One more slot of a prefix: the lowest pattern of `slots[..i + 1]` from that of `slots[..i]`. */
  lemma LowestPrefixStep(slots: seq<string>, i: int, patterns: seq<SlotPattern>)
    requires 0 <= i < |slots|
    ensures var l := LowestPattern(slots[..i], patterns);
            var f := FirstPatternOf(slots[i], patterns);
            LowestPattern(slots[..i + 1], patterns) == (if f >= 0 && (l < 0 || f < l) then f else l)
  {
    assert slots[..i + 1] == slots[..i] + [slots[i]];
    LowestSnoc(slots[..i], slots[i], patterns);
  }

  /**
   * The inner loop of `labelEntities` as written: the pattern counter stays
   * 0, so only the very first match ever moves the best index off its initial
   * value, to 0, and records its slot.
   */
  method ScanPatternsAsWritten(slot: string, patterns: seq<SlotPattern>, bestmatch: int, bestslot: int)
    returns (bestmatch': int, bestslot': int)
    requires bestmatch == IntMax || bestmatch == 0
    ensures bestmatch == 0 ==> bestmatch' == 0 && bestslot' == bestslot
    ensures bestmatch == IntMax ==>
              var f := FirstPatternOf(slot, patterns);
              if f >= 0 then bestmatch' == 0 && bestslot' == patterns[f].slot
              else bestmatch' == IntMax && bestslot' == bestslot
  {
    bestmatch', bestslot' := bestmatch, bestslot;
    var patterni := 0;
    for pj := 0 to |patterns|
      invariant bestmatch == 0 ==> bestmatch' == 0 && bestslot' == bestslot
      invariant bestmatch == IntMax ==>
                  var f := FirstPatternOf(slot, patterns[..pj]);
                  if f >= 0 then bestmatch' == 0 && bestslot' == patterns[f].slot
                  else bestmatch' == IntMax && bestslot' == bestslot
    {
      assert patterns[..pj + 1][..pj] == patterns[..pj];
      if slot == patterns[pj].pattern {
        if patterni < bestmatch' {
          bestmatch' := patterni;
          bestslot' := patterns[pj].slot;
        }
      }
    }
    assert patterns[..|patterns|] == patterns;
  }

  /**
   * The choice of slot for one entity in `labelEntities` as written: the slot
   * of the first pattern matched by the first mention that matches any, or -1.
   */
  method ChooseSlotAsWritten(entity: TextEntity, patterns: seq<SlotPattern>, normalizeRelation: string -> string)
    returns (bestslot: int)
    requires DepsSplit(entity)
    ensures bestslot == SlotAt(patterns, AsWrittenChoice(MentionSlots(entity, normalizeRelation), patterns))
  {
    ghost var slots := MentionSlots(entity, normalizeRelation);
    var bestmatch := IntMax;
    bestslot := -1;
    for ii := 0 to |entity.mentions|
      invariant bestmatch == IntMax || bestmatch == 0
      invariant var c := AsWrittenChoice(slots[..ii], patterns);
                (bestmatch == IntMax <==> c < 0) && bestslot == SlotAt(patterns, c)
    {
      var mentionslot := entity.mentions[ii].dep;
      var verb := Governor(mentionslot);
      var dep := mentionslot[..IndexOf(mentionslot, "--")];
      var slot := "v-" + verb + ":" + normalizeRelation(dep);
      assert slot == slots[ii];
      AsWrittenSnoc(slots, ii, patterns);
      bestmatch, bestslot := ScanPatternsAsWritten(slot, patterns, bestmatch, bestslot);
    }
    assert slots[..|entity.mentions|] == slots;
  }

  /**
   * For a sample, the two patterns "a" (slot 0) and "b" (slot 1) and an
   * entity whose mentions fill "b" and then "a": the source's loop labels it
   * with slot 1, not with slot 0 of the lower pattern "a" it also fills.
   */
  lemma AsWrittenMissesLowerPattern()
    ensures var patterns := [SlotPattern("a", 0), SlotPattern("b", 1)];
            var slots := ["b", "a"];
            SlotAt(patterns, AsWrittenChoice(slots, patterns)) == 1 &&
            SlotAt(patterns, LowestPattern(slots, patterns)) == 0
  {
    var patterns := [SlotPattern("a", 0), SlotPattern("b", 1)];
    var slots := ["b", "a"];
    assert FirstPatternOf("b", patterns) == 1 by {
      assert patterns[0].pattern != "b";
    }
    assert slots[..1] == ["b"];
    assert AsWrittenChoice(["b"], patterns) == 1 by {
      assert ["b"][..0] == [];
    }
    assert "a" in slots;
    assert LowestPattern(slots, patterns) == 0 by {
      LowestUnique(slots, patterns, 0);
    }
  }

  /**
   * The inner loop of `labelEntities` with its pattern counter advanced: the
   * first pattern the mention fills replaces the best so far when its index is lower.
   */
  method ScanPatterns(slot: string, patterns: seq<SlotPattern>, bestmatch: int, bestslot: int)
    returns (bestmatch': int, bestslot': int)
    ensures var f := FirstPatternOf(slot, patterns);
            if f >= 0 && f < bestmatch then bestmatch' == f && bestslot' == patterns[f].slot
            else bestmatch' == bestmatch && bestslot' == bestslot
  {
    bestmatch', bestslot' := bestmatch, bestslot;
    var patterni := 0;
    while patterni < |patterns|
      invariant 0 <= patterni <= |patterns|
      invariant var f := FirstPatternOf(slot, patterns[..patterni]);
                if f >= 0 && f < bestmatch then bestmatch' == f && bestslot' == patterns[f].slot
                else bestmatch' == bestmatch && bestslot' == bestslot
    {
      assert patterns[..patterni + 1][..patterni] == patterns[..patterni];
      if slot == patterns[patterni].pattern {
        if patterni < bestmatch' {
          bestmatch' := patterni;
          bestslot' := patterns[patterni].slot;
        }
      }
      patterni := patterni + 1;
    }
    assert patterns[..|patterns|] == patterns;
  }

  /**
   * The choice of slot for one entity, as the doc-comment of `labelEntities`
   * intends: the slot of the lowest-indexed pattern one of its mentions
   * fills, or -1 when none does. The initial best index is the number of
   * patterns, above every index as `Integer.MAX_VALUE` is.
   */
  method ChooseSlot(entity: TextEntity, patterns: seq<SlotPattern>, normalizeRelation: string -> string)
    returns (bestslot: int)
    requires DepsSplit(entity)
    ensures bestslot == SlotAt(patterns, LowestPattern(MentionSlots(entity, normalizeRelation), patterns))
  {
    ghost var slots := MentionSlots(entity, normalizeRelation);
    var bestmatch := |patterns|;
    bestslot := -1;
    for ii := 0 to |entity.mentions|
      invariant var l := LowestPattern(slots[..ii], patterns);
                bestmatch == (if l >= 0 then l else |patterns|) && bestslot == SlotAt(patterns, l)
    {
      var slot := MentionSlot(entity.mentions[ii], normalizeRelation);
      LowestPrefixStep(slots, ii, patterns);
      bestmatch, bestslot := ScanPatterns(slot, patterns, bestmatch, bestslot);
    }
    assert slots[..|entity.mentions|] == slots;
  }

  /** The slot as a label set: nothing for -1. */
  function SlotLabel(slot: int): set<int> {
    if slot > -1 then {slot} else {}
  }

  /** The entity with the label of its chosen slot added. */
  function Labelled(entity: TextEntity, patterns: seq<SlotPattern>, normalizeRelation: string -> string): TextEntity
    requires DepsSplit(entity)
  {
    entity.(labels := entity.labels + SlotLabel(SlotAt(patterns, LowestPattern(MentionSlots(entity, normalizeRelation), patterns))))
  }

  /**
   * `labelEntities` with the intended choice: every entity gets the slot of
   * the lowest pattern its mentions fill, and nothing when none is filled.
   */
  method LabelEntities(docEntities: seq<TextEntity>, patterns: seq<SlotPattern>, normalizeRelation: string -> string)
    returns (labelled: seq<TextEntity>)
    requires forall i :: 0 <= i < |docEntities| ==> DepsSplit(docEntities[i])
    ensures |labelled| == |docEntities|
    ensures forall i :: 0 <= i < |docEntities| ==> labelled[i] == Labelled(docEntities[i], patterns, normalizeRelation)
  {
    labelled := [];
    for ei := 0 to |docEntities|
      invariant |labelled| == ei
      invariant forall i :: 0 <= i < ei ==> labelled[i] == Labelled(docEntities[i], patterns, normalizeRelation)
    {
      var entity := docEntities[ei];
      var bestslot := ChooseSlot(entity, patterns, normalizeRelation);
      if bestslot > -1 {
        labelled := labelled + [entity.(labels := entity.labels + {bestslot})];
      } else {
        labelled := labelled + [entity];
      }
    }
  }

  /**
   * What labelling gives an entity: at most one new label; when one of its
   * mentions fills a pattern of a non-negative slot, the slot of the lowest
   * such pattern, of a pattern before which none is filled; and no label at
   * all when no mention fills any pattern.
   */
  lemma LabelIsLowestFilledSlot(entity: TextEntity, patterns: seq<SlotPattern>, normalizeRelation: string -> string)
    requires DepsSplit(entity)
    ensures var slots := MentionSlots(entity, normalizeRelation);
            var added := SlotLabel(SlotAt(patterns, LowestPattern(slots, patterns)));
            (forall s, t :: s in added && t in added ==> s == t) &&
            ((forall q :: 0 <= q < |patterns| ==> patterns[q].pattern !in slots) ==> added == {}) &&
            (forall s :: s in added ==>
               exists p :: 0 <= p < |patterns| && patterns[p].slot == s && patterns[p].pattern in slots &&
                           forall q :: 0 <= q < p ==> patterns[q].pattern !in slots)
  {
    var slots := MentionSlots(entity, normalizeRelation);
    var l := LowestPattern(slots, patterns);
    var added := SlotLabel(SlotAt(patterns, l));
    if l >= 0 {
      assert patterns[l].pattern in slots;
      forall s | s in added
        ensures exists p :: 0 <= p < |patterns| && patterns[p].slot == s && patterns[p].pattern in slots &&
                            forall q :: 0 <= q < p ==> patterns[q].pattern !in slots
      {
        assert s == patterns[l].slot;
      }
    } else {
      assert added == {};
    }
  }
}
