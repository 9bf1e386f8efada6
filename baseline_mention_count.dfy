/**
 * The mention-count baseline (`BaselineMentionCount`): the entities of a
 * document are bucketed by their number of mentions, and the buckets are
 * visited from the second-largest count down to one, giving each slot in
 * turn to a fixed number of entities.
 *
 * The random pick inside a bucket is an input: `choose(k, size)` is the
 * position drawn for the `k`-th pick in a bucket of `size` entities, taken
 * modulo `size`, so every proof holds for every sequence of draws. An entity
 * is identified by its position in the document; the slot each entity gets
 * (or -1) is returned beside the labelled document.
 */
module BaselineMentionCount {
  import opened Seqs
  import opened Entities

  /** The number of mentions of entity `x`. */
  function Mentions(doc: seq<TextEntity>, x: int): nat
    requires 0 <= x < |doc|
  {
    |doc[x].mentions|
  }

  /** The largest mention count of the document, 0 when it has no entities. */
  function MaxMentions(doc: seq<TextEntity>): (r: nat)
    ensures forall x :: 0 <= x < |doc| ==> Mentions(doc, x) <= r
    ensures |doc| > 0 ==> exists x :: 0 <= x < |doc| && Mentions(doc, x) == r
    ensures |doc| == 0 ==> r == 0
    decreases |doc|
  {
    if |doc| == 0 then 0
    else
      var pre := doc[..|doc| - 1];
      var m := MaxMentions(pre);
      assert forall x :: 0 <= x < |pre| ==> Mentions(pre, x) == Mentions(doc, x);
      if Mentions(doc, |doc| - 1) > m then Mentions(doc, |doc| - 1) else m
  }

  /** The entities below `k` with `len` mentions, in document order. */
  function BucketOf(doc: seq<TextEntity>, len: int, k: int): (r: seq<int>)
    requires 0 <= k <= |doc|
    ensures forall j :: 0 <= j < |r| ==> 0 <= r[j] < k
    ensures forall x :: x in r <==> 0 <= x < k && Mentions(doc, x) == len
    ensures Increasing(r)
    decreases k
  {
    if k == 0 then []
    else
      var r := BucketOf(doc, len, k - 1);
      assert forall j :: 0 <= j < |r| ==> r[j] in r;
      r + (if Mentions(doc, k - 1) == len then [k - 1] else [])
  }

  predicate Increasing(s: seq<int>) {
    forall i, j :: 0 <= i < j < |s| ==> s[i] < s[j]
  }

  /** The slot as a label set: nothing for -1. */
  function SlotLabel(slot: int): set<int> {
    if slot >= 0 then {slot} else {}
  }

  // ---------------------------------------------------------------------------
  // The state of the labelling loop, one predicate per invariant

  /** Every entity has no slot (-1) or a slot below `numSlots` and at most the current one. */
  ghost predicate SlotsInRange(chosen: seq<int>, numSlots: int, chosenSlot: int) {
    forall x :: 0 <= x < |chosen| ==> chosen[x] == -1 || (0 <= chosen[x] < numSlots && chosen[x] <= chosenSlot)
  }

  /** `k * n`, by repeated addition. */
  function Times(k: nat, n: int): int {
    if k == 0 then 0 else Times(k - 1, n) + n
  }

  lemma {:induction false} TimesMono(k: nat, m: nat, n: int)
    requires k <= m && n >= 0
    ensures Times(k, n) <= Times(m, n)
    decreases m
  {
    if k < m {
      TimesMono(k, m - 1, n);
    }
  }

  /** The number of entities with a slot. */
  function NumLabelled(chosen: seq<int>): int {
    |chosen| - Count(chosen, -1)
  }

  /**
   * The slot counters agree with the slots handed out: with at least one
   * entity per slot, every earlier slot is full, the current one holds
   * `addedPerSlot`, and the labelled entities fill `chosenSlot` slots and
   * `addedPerSlot` more; otherwise the slot never moves off 0.
   */
  ghost predicate Tally(chosen: seq<int>, chosenSlot: int, addedPerSlot: int, numPerSlot: int) {
    0 <= chosenSlot && 0 <= addedPerSlot &&
    (numPerSlot >= 1 ==>
       addedPerSlot < numPerSlot &&
       (forall s :: 0 <= s < chosenSlot ==> Count(chosen, s) == numPerSlot) &&
       Count(chosen, chosenSlot) == addedPerSlot &&
       NumLabelled(chosen) == Times(chosenSlot, numPerSlot) + addedPerSlot) &&
    (numPerSlot < 1 ==> chosenSlot == 0)
  }

  /** Every labelled entity has between `lo` (exclusive) and the maximum (exclusive) mentions. */
  ghost predicate Levels(doc: seq<TextEntity>, chosen: seq<int>, lo: int, maxlength: int)
    requires |chosen| == |doc|
  {
    forall x :: 0 <= x < |doc| && chosen[x] >= 0 ==> lo < Mentions(doc, x) < maxlength
  }

  /** An entity with a higher slot than another has at most as many mentions. */
  ghost predicate Ordered(doc: seq<TextEntity>, chosen: seq<int>)
    requires |chosen| == |doc|
  {
    forall a, b :: 0 <= a < |doc| && 0 <= b < |doc| && chosen[a] >= 0 && chosen[b] > chosen[a] ==>
      Mentions(doc, a) >= Mentions(doc, b)
  }

  /** A bucket holds, in increasing order, exactly the unlabelled entities with `len` mentions. */
  ghost predicate BucketHolds(doc: seq<TextEntity>, chosen: seq<int>, b: seq<int>, len: int)
    requires |chosen| == |doc|
  {
    Increasing(b) && (forall j :: 0 <= j < |b| ==> 0 <= b[j] < |doc|) &&
    forall x :: x in b <==> 0 <= x < |doc| && Mentions(doc, x) == len && chosen[x] == -1
  }

  /** An unlabelled entity of a visited bucket was left only because the slots were used up. */
  ghost predicate Exhausted(doc: seq<TextEntity>, chosen: seq<int>, lo: int, maxlength: int, chosenSlot: int, numSlots: int)
    requires |chosen| == |doc|
  {
    forall x :: 0 <= x < |doc| && lo < Mentions(doc, x) < maxlength && chosen[x] == -1 ==> chosenSlot >= numSlots
  }

  /** Replacing one element changes the count of the old and of the new value by one. */
  lemma CountUpdate(s: seq<int>, x: int, v: int, y: int)
    requires 0 <= x < |s|
    ensures Count(s[x := v], y) == Count(s, y) - (if s[x] == y then 1 else 0) + (if v == y then 1 else 0)
  {
    assert s == s[..x] + [s[x]] + s[x + 1..];
    assert s[x := v] == s[..x] + [v] + s[x + 1..];
  }

  /** Labelling an unlabelled entity with slot `v`: one more for `v`, one less unlabelled, every other count kept. */
  lemma CountsAfterLabel(chosen: seq<int>, x: int, v: int)
    requires 0 <= x < |chosen| && chosen[x] == -1 && v >= 0
    ensures Count(chosen[x := v], v) == Count(chosen, v) + 1
    ensures NumLabelled(chosen[x := v]) == NumLabelled(chosen) + 1
    ensures forall s :: s != v && s != -1 ==> Count(chosen[x := v], s) == Count(chosen, s)
  {
    CountUpdate(chosen, x, v, v);
    CountUpdate(chosen, x, v, -1);
    forall s | s != v && s != -1 ensures Count(chosen[x := v], s) == Count(chosen, s) {
      CountUpdate(chosen, x, v, s);
    }
  }

  /** No entity has yet a slot above the current one. */
  lemma CountAboveZero(chosen: seq<int>, numSlots: int, chosenSlot: int, s: int)
    requires SlotsInRange(chosen, numSlots, chosenSlot) && 0 <= chosenSlot < s
    ensures Count(chosen, s) == 0
  {
  }

  /** The counters step for one more entity labelled with the current slot. */
  lemma TallyStep(chosen: seq<int>, x: int, chosenSlot: int, addedPerSlot: int, numPerSlot: int, numSlots: int)
    requires Tally(chosen, chosenSlot, addedPerSlot, numPerSlot)
    requires SlotsInRange(chosen, numSlots, chosenSlot)
    requires 0 <= x < |chosen| && chosen[x] == -1
    ensures var c := chosen[x := chosenSlot];
            if addedPerSlot + 1 == numPerSlot then Tally(c, chosenSlot + 1, 0, numPerSlot)
            else Tally(c, chosenSlot, addedPerSlot + 1, numPerSlot)
  {
    var c := chosen[x := chosenSlot];
    CountsAfterLabel(chosen, x, chosenSlot);
    if numPerSlot >= 1 {
      forall s | 0 <= s < chosenSlot ensures Count(c, s) == numPerSlot {
        assert Count(c, s) == Count(chosen, s);
      }
      if addedPerSlot + 1 == numPerSlot {
        CountAboveZero(chosen, numSlots, chosenSlot, chosenSlot + 1);
        assert Count(c, chosenSlot + 1) == 0;
        assert Times(chosenSlot + 1, numPerSlot) == Times(chosenSlot, numPerSlot) + numPerSlot;
        forall s | 0 <= s < chosenSlot + 1 ensures Count(c, s) == numPerSlot {
          if s == chosenSlot {
            assert Count(c, chosenSlot) == addedPerSlot + 1;
          }
        }
      }
    }
  }

  /** Giving an unlabelled entity the current slot, below `numSlots`, keeps every slot in range. */
  lemma SlotsInRangeStep(chosen: seq<int>, x: int, chosenSlot: int, next: int, numSlots: int)
    requires SlotsInRange(chosen, numSlots, chosenSlot) && 0 <= x < |chosen|
    requires 0 <= chosenSlot < numSlots && chosenSlot <= next
    ensures SlotsInRange(chosen[x := chosenSlot], numSlots, next)
  {
  }

  /** The labelling bound: with the counters in step, at most `numSlots * numPerSlot` entities are labelled. */
  lemma TallyBound(chosen: seq<int>, chosenSlot: int, addedPerSlot: int, numPerSlot: int, numSlots: int)
    requires Tally(chosen, chosenSlot, addedPerSlot, numPerSlot) && numPerSlot >= 1 && numSlots >= 0
    requires chosenSlot < numSlots || (chosenSlot == numSlots && addedPerSlot == 0)
    ensures NumLabelled(chosen) <= Times(numSlots, numPerSlot)
  {
    if chosenSlot < numSlots {
      assert Times(chosenSlot + 1, numPerSlot) == Times(chosenSlot, numPerSlot) + numPerSlot;
      TimesMono(chosenSlot + 1, numSlots, numPerSlot);
    }
  }

  /**
   * The inner loop of `labelEntities` on the bucket of entities with `len`
   * mentions: while the bucket has entities and slots remain, a drawn entity
   * gets the current slot and leaves the bucket, and the slot advances after
   * every `numPerSlot` entities.
   */
  method FillFromBucket(doc: seq<TextEntity>, bucket: seq<int>, len: int, maxlength: int,
                        chosen: seq<int>, chosenSlot: int, addedPerSlot: int,
                        numSlots: int, numPerSlot: int, choose: (nat, nat) -> nat)
    returns (bucket': seq<int>, chosen': seq<int>, chosenSlot': int, addedPerSlot': int)
    requires |chosen| == |doc| && 0 < len < maxlength
    requires BucketHolds(doc, chosen, bucket, len)
    requires SlotsInRange(chosen, numSlots, chosenSlot) && Tally(chosen, chosenSlot, addedPerSlot, numPerSlot)
    requires Levels(doc, chosen, len, maxlength) && Ordered(doc, chosen)
    requires Exhausted(doc, chosen, len, maxlength, chosenSlot, numSlots)
    ensures FillState(doc, chosen, chosen', bucket', len, maxlength, chosenSlot, chosenSlot', addedPerSlot', numSlots, numPerSlot)
    ensures Exhausted(doc, chosen', len - 1, maxlength, chosenSlot', numSlots)
  {
    bucket', chosen', chosenSlot', addedPerSlot' := bucket, chosen, chosenSlot, addedPerSlot;
    FillStart(doc, bucket, len, maxlength, chosen, chosenSlot, addedPerSlot, numSlots, numPerSlot);
    var k := 0;
    while |bucket'| > 0 && chosenSlot' < numSlots
      invariant FillState(doc, chosen, chosen', bucket', len, maxlength, chosenSlot, chosenSlot', addedPerSlot', numSlots, numPerSlot)
      decreases |bucket'|
    {
      var pick := choose(k, |bucket'|) % |bucket'|;
      var chosenEntity := bucket'[pick];
      var full := addedPerSlot' + 1 == numPerSlot;
      FillStep(doc, chosen, chosen', bucket', len, maxlength, chosenSlot, chosenSlot', addedPerSlot', numSlots, numPerSlot, pick);
      chosen' := chosen'[chosenEntity := chosenSlot'];
      bucket' := bucket'[..pick] + bucket'[pick + 1..];
      // the slot advances once `numPerSlot` entities have it
      chosenSlot', addedPerSlot' := if full then chosenSlot' + 1 else chosenSlot', if full then 0 else addedPerSlot' + 1;
      k := k + 1;
    }
    FillDone(doc, chosen, chosen', bucket', len, maxlength, chosenSlot, chosenSlot', addedPerSlot', numSlots, numPerSlot);
  }

  /** The invariant of the inner loop, started from `chosen` and slot `chosenSlot0`. */
  ghost predicate FillState(doc: seq<TextEntity>, chosen0: seq<int>, chosen: seq<int>, b: seq<int>, len: int, maxlength: int,
                            chosenSlot0: int, chosenSlot: int, addedPerSlot: int, numSlots: int, numPerSlot: int) {
    |chosen| == |doc| && |chosen0| == |doc| && chosenSlot >= chosenSlot0 &&
    BucketHolds(doc, chosen, b, len) &&
    SlotsInRange(chosen, numSlots, chosenSlot) && Tally(chosen, chosenSlot, addedPerSlot, numPerSlot) &&
    Levels(doc, chosen, len - 1, maxlength) && Ordered(doc, chosen) &&
    Exhausted(doc, chosen, len, maxlength, chosenSlot, numSlots) &&
    (forall x :: 0 <= x < |doc| && Mentions(doc, x) != len ==> chosen[x] == chosen0[x]) &&
    (chosenSlot == chosenSlot0 || chosenSlot <= numSlots) &&
    (chosenSlot == numSlots && numPerSlot >= 1 ==> addedPerSlot == 0) &&
    0 < len < maxlength
  }

  /** The invariant of the inner loop holds before its first pick. */
  lemma FillStart(doc: seq<TextEntity>, bucket: seq<int>, len: int, maxlength: int,
                  chosen: seq<int>, chosenSlot: int, addedPerSlot: int, numSlots: int, numPerSlot: int)
    requires |chosen| == |doc| && 0 < len < maxlength
    requires BucketHolds(doc, chosen, bucket, len)
    requires SlotsInRange(chosen, numSlots, chosenSlot) && Tally(chosen, chosenSlot, addedPerSlot, numPerSlot)
    requires Levels(doc, chosen, len, maxlength) && Ordered(doc, chosen)
    requires Exhausted(doc, chosen, len, maxlength, chosenSlot, numSlots)
    ensures FillState(doc, chosen, chosen, bucket, len, maxlength, chosenSlot, chosenSlot, addedPerSlot, numSlots, numPerSlot)
  {
  }

  /** One drawn entity labelled and taken out of its bucket keeps the invariant of the inner loop. */
  lemma FillStep(doc: seq<TextEntity>, chosen0: seq<int>, chosen: seq<int>, b: seq<int>, len: int, maxlength: int,
                 chosenSlot0: int, chosenSlot: int, addedPerSlot: int, numSlots: int, numPerSlot: int, pick: int)
    requires FillState(doc, chosen0, chosen, b, len, maxlength, chosenSlot0, chosenSlot, addedPerSlot, numSlots, numPerSlot)
    requires chosenSlot < numSlots && 0 <= pick < |b|
    ensures var c := chosen[b[pick] := chosenSlot];
            var full := addedPerSlot + 1 == numPerSlot;
            FillState(doc, chosen0, c, b[..pick] + b[pick + 1..], len, maxlength, chosenSlot0,
                      if full then chosenSlot + 1 else chosenSlot, if full then 0 else addedPerSlot + 1, numSlots, numPerSlot)
  {
    var x := b[pick];
    assert x in b;
    assert chosen[x] == -1 && Mentions(doc, x) == len;
    TallyStep(chosen, x, chosenSlot, addedPerSlot, numPerSlot, numSlots);
    SlotsInRangeStep(chosen, x, chosenSlot, if addedPerSlot + 1 == numPerSlot then chosenSlot + 1 else chosenSlot, numSlots);
    var c := chosen[x := chosenSlot];
    OrderedStep(doc, chosen, x, chosenSlot, len);
    RemoveAt(doc, chosen, c, b, pick, len);
    LabelInBucket(doc, chosen0, chosen, x, chosenSlot, len, maxlength, chosenSlot,
                  if addedPerSlot + 1 == numPerSlot then chosenSlot + 1 else chosenSlot, numSlots);
  }

  /** Labelling an entity of the current bucket keeps the levels, the other buckets and the exhaustion record. */
  lemma LabelInBucket(doc: seq<TextEntity>, chosen0: seq<int>, chosen: seq<int>, x: int, slot: int, len: int, maxlength: int,
                      chosenSlot: int, chosenSlot': int, numSlots: int)
    requires |chosen| == |doc| && |chosen0| == |doc| && 0 <= x < |doc| && Mentions(doc, x) == len
    requires 0 < len < maxlength && slot >= 0 && chosenSlot <= chosenSlot'
    requires Levels(doc, chosen, len - 1, maxlength) && Exhausted(doc, chosen, len, maxlength, chosenSlot, numSlots)
    requires forall y :: 0 <= y < |doc| && Mentions(doc, y) != len ==> chosen[y] == chosen0[y]
    ensures var c := chosen[x := slot];
            Levels(doc, c, len - 1, maxlength) && Exhausted(doc, c, len, maxlength, chosenSlot', numSlots) &&
            forall y :: 0 <= y < |doc| && Mentions(doc, y) != len ==> c[y] == chosen0[y]
  {
  }

  /** When the inner loop stops, an unlabelled entity of the bucket is left only because the slots were used up. */
  lemma FillDone(doc: seq<TextEntity>, chosen0: seq<int>, chosen: seq<int>, b: seq<int>, len: int, maxlength: int,
                 chosenSlot0: int, chosenSlot: int, addedPerSlot: int, numSlots: int, numPerSlot: int)
    requires FillState(doc, chosen0, chosen, b, len, maxlength, chosenSlot0, chosenSlot, addedPerSlot, numSlots, numPerSlot)
    requires |b| == 0 || chosenSlot >= numSlots
    ensures Exhausted(doc, chosen, len - 1, maxlength, chosenSlot, numSlots)
  {
    forall x | 0 <= x < |doc| && len - 1 < Mentions(doc, x) < maxlength && chosen[x] == -1
      ensures chosenSlot >= numSlots
    {
      if Mentions(doc, x) == len {
        assert x in b;
      }
    }
  }

  /** Labelling an entity of the current bucket with the current slot keeps the slots ordered by mention count. */
  lemma OrderedStep(doc: seq<TextEntity>, chosen: seq<int>, x: int, slot: int, len: int)
    requires |chosen| == |doc| && 0 <= x < |doc| && Mentions(doc, x) == len
    requires Ordered(doc, chosen) && slot >= 0
    requires forall y :: 0 <= y < |doc| && chosen[y] >= 0 ==> Mentions(doc, y) >= len && chosen[y] <= slot
    ensures Ordered(doc, chosen[x := slot])
  {
  }

  /** Dropping one element of an increasing sequence leaves it increasing. */
  lemma RemovedIncreasing(b: seq<int>, pick: int)
    requires Increasing(b) && 0 <= pick < |b|
    ensures Increasing(b[..pick] + b[pick + 1..])
  {
    var r := b[..pick] + b[pick + 1..];
    forall i, j | 0 <= i < j < |r| ensures r[i] < r[j] {
      var i' := if i < pick then i else i + 1;
      var j' := if j < pick then j else j + 1;
      assert r[i] == b[i'] && r[j] == b[j'];
    }
  }

  /** Dropping one element of an increasing sequence removes exactly that value. */
  lemma RemovedMembers(b: seq<int>, pick: int)
    requires Increasing(b) && 0 <= pick < |b|
    ensures forall x :: x in b[..pick] + b[pick + 1..] <==> x in b && x != b[pick]
  {
    var r := b[..pick] + b[pick + 1..];
    forall x ensures x in r <==> x in b && x != b[pick] {
      if x in r {
        var i :| 0 <= i < |r| && r[i] == x;
        var i' := if i < pick then i else i + 1;
        assert b[i'] == x && i' != pick;
      }
      if x in b && x != b[pick] {
        var i :| 0 <= i < |b| && b[i] == x;
        if i < pick {
          assert r[i] == x;
        } else {
          assert r[i - 1] == x;
        }
      }
    }
  }

  /** Taking the drawn entity out of the bucket leaves exactly the unlabelled entities of that length. */
  lemma RemoveAt(doc: seq<TextEntity>, before: seq<int>, after: seq<int>, b: seq<int>, pick: int, len: int)
    requires |before| == |doc| && |after| == |doc| && 0 <= pick < |b|
    requires BucketHolds(doc, before, b, len)
    requires after == before[b[pick] := after[b[pick]]] && after[b[pick]] >= 0
    ensures BucketHolds(doc, after, b[..pick] + b[pick + 1..], len)
  {
    RemovedIncreasing(b, pick);
    RemovedMembers(b, pick);
    var r := b[..pick] + b[pick + 1..];
    assert forall j :: 0 <= j < |r| ==> r[j] in b;
  }

  // ---------------------------------------------------------------------------
  // The outer loop over the buckets

  /** The invariant of the loop over the buckets, `ii` the next bucket to visit. */
  ghost predicate OuterState(doc: seq<TextEntity>, chosen: seq<int>, ii: int, maxlength: int,
                             chosenSlot: int, addedPerSlot: int, numSlots: int, numPerSlot: int) {
    |chosen| == |doc| && -1 <= ii < maxlength && (ii == -1 ==> maxlength == 0) &&
    (forall x :: 0 <= x < |doc| ==> Mentions(doc, x) <= maxlength) &&
    SlotsInRange(chosen, numSlots, chosenSlot) && Tally(chosen, chosenSlot, addedPerSlot, numPerSlot) &&
    Levels(doc, chosen, ii, maxlength) && Ordered(doc, chosen) &&
    Exhausted(doc, chosen, ii, maxlength, chosenSlot, numSlots) &&
    (forall x :: 0 <= x < |doc| && Mentions(doc, x) <= ii ==> chosen[x] == -1) &&
    (numSlots >= 0 ==> chosenSlot <= numSlots) &&
    (chosenSlot == numSlots && numPerSlot >= 1 ==> addedPerSlot == 0)
  }

  /** Before the first bucket nothing is labelled. */
  lemma OuterStart(doc: seq<TextEntity>, none: seq<int>, maxlength: int, numSlots: int, numPerSlot: int)
    requires maxlength == MaxMentions(doc)
    requires |none| == |doc| && forall x :: 0 <= x < |none| ==> none[x] == -1
    ensures OuterState(doc, none, maxlength - 1, maxlength, 0, 0, numSlots, numPerSlot)
  {
    CountNone(none);
    assert Count(none, 0) == 0;
  }

  /** No entity is labelled: every slot has count 0. */
  lemma {:induction false} CountNone(none: seq<int>)
    requires forall x :: 0 <= x < |none| ==> none[x] == -1
    ensures forall s :: s != -1 ==> Count(none, s) == 0
    ensures NumLabelled(none) == 0
    decreases |none|
  {
    if |none| > 0 {
      CountNone(none[..|none| - 1]);
    }
  }

  /** The bucket of length `ii`, still untouched, holds the entities the inner loop expects. */
  lemma OuterEnter(doc: seq<TextEntity>, chosen: seq<int>, ii: int, maxlength: int,
                   chosenSlot: int, addedPerSlot: int, numSlots: int, numPerSlot: int)
    requires OuterState(doc, chosen, ii, maxlength, chosenSlot, addedPerSlot, numSlots, numPerSlot) && ii > 0
    ensures BucketHolds(doc, chosen, BucketOf(doc, ii, |doc|), ii)
    ensures Levels(doc, chosen, ii, maxlength)
    ensures Exhausted(doc, chosen, ii, maxlength, chosenSlot, numSlots)
  {
  }

  /** A bucket filled as far as the slots allow moves the outer loop to the next bucket. */
  lemma OuterStep(doc: seq<TextEntity>, chosen: seq<int>, chosen': seq<int>, b: seq<int>, ii: int, maxlength: int,
                  chosenSlot: int, addedPerSlot: int, chosenSlot': int, addedPerSlot': int, numSlots: int, numPerSlot: int)
    requires OuterState(doc, chosen, ii, maxlength, chosenSlot, addedPerSlot, numSlots, numPerSlot) && ii > 0
    requires FillState(doc, chosen, chosen', b, ii, maxlength, chosenSlot, chosenSlot', addedPerSlot', numSlots, numPerSlot)
    requires Exhausted(doc, chosen', ii - 1, maxlength, chosenSlot', numSlots)
    ensures OuterState(doc, chosen', ii - 1, maxlength, chosenSlot', addedPerSlot', numSlots, numPerSlot)
  {
  }

  /** With the current slot `chosenSlot`, no slot holds more than `numPerSlot` entities. */
  lemma TallyAtMost(chosen: seq<int>, chosenSlot: int, addedPerSlot: int, numPerSlot: int, numSlots: int)
    requires Tally(chosen, chosenSlot, addedPerSlot, numPerSlot) && SlotsInRange(chosen, numSlots, chosenSlot)
    requires numPerSlot >= 1
    ensures forall s :: 0 <= s ==> Count(chosen, s) <= numPerSlot
  {
    forall s | 0 <= s ensures Count(chosen, s) <= numPerSlot {
      if s > chosenSlot {
        CountAboveZero(chosen, numSlots, chosenSlot, s);
      }
    }
  }

  /**
   * `labelEntities`: the mention counts are bucketed, the buckets are visited
   * from one below the largest count down to one, and each bucket is filled
   * from while slots remain. The result is the document with each entity's
   * slot added to its labels, and the slot of each entity (or -1).
   */
  method LabelEntities(doc: seq<TextEntity>, numSlots: int, numPerSlot: int, choose: (nat, nat) -> nat)
    returns (labelled: seq<TextEntity>, chosen: seq<int>)
    ensures |labelled| == |doc| && |chosen| == |doc|
    ensures forall x :: 0 <= x < |doc| ==> labelled[x] == doc[x].(labels := doc[x].labels + SlotLabel(chosen[x]))
    ensures forall x :: 0 <= x < |doc| ==> chosen[x] == -1 || 0 <= chosen[x] < numSlots
    ensures forall x :: 0 <= x < |doc| && chosen[x] >= 0 ==> 0 < Mentions(doc, x) < MaxMentions(doc)
    ensures numPerSlot >= 1 ==> forall s :: 0 <= s ==> Count(chosen, s) <= numPerSlot
    ensures numPerSlot >= 1 && numSlots >= 0 ==> NumLabelled(chosen) <= Times(numSlots, numPerSlot)
    ensures numPerSlot < 1 ==> forall x :: 0 <= x < |doc| ==> chosen[x] <= 0
    ensures Ordered(doc, chosen)
    ensures forall x :: 0 <= x < |doc| && 0 < Mentions(doc, x) < MaxMentions(doc) && chosen[x] == -1 ==>
              numSlots <= 0 || (numPerSlot >= 1 && forall s :: 0 <= s < numSlots ==> Count(chosen, s) == numPerSlot)
  {
    var maxlength := MaxLength(doc);
    var entitiesByLength := Buckets(doc, maxlength);
    var chosenSlot, addedPerSlot;
    chosen, chosenSlot, addedPerSlot := VisitBuckets(doc, entitiesByLength, maxlength, numSlots, numPerSlot, choose);
    OuterDone(doc, chosen, if maxlength == 0 then -1 else 0, maxlength, chosenSlot, addedPerSlot, numSlots, numPerSlot);
    labelled := AddSlots(doc, chosen);
  }

  /** Cells `0..n` of the bucket array still hold the entities with that many mentions. */
  ghost predicate BucketsUpTo(doc: seq<TextEntity>, cells: seq<seq<int>>, n: int) {
    n < |cells| && forall L :: 0 <= L <= n ==> cells[L] == BucketOf(doc, L, |doc|)
  }

  /** Overwriting cell `n` keeps the cells below it. */
  lemma BucketsUpToUpdate(doc: seq<TextEntity>, cells: seq<seq<int>>, n: int, bucket: seq<int>)
    requires BucketsUpTo(doc, cells, n) && n >= 0
    ensures BucketsUpTo(doc, cells[n := bucket], n - 1)
  {
  }

  /** The loop of `labelEntities` over the buckets, from `maxlength - 1` down to 1. */
  method VisitBuckets(doc: seq<TextEntity>, entitiesByLength: array<seq<int>>, maxlength: int,
                      numSlots: int, numPerSlot: int, choose: (nat, nat) -> nat)
    returns (chosen: seq<int>, chosenSlot: int, addedPerSlot: int)
    requires maxlength == MaxMentions(doc) && entitiesByLength.Length == maxlength + 1
    requires forall L :: 0 <= L <= maxlength ==> entitiesByLength[L] == BucketOf(doc, L, |doc|)
    modifies entitiesByLength
    ensures OuterState(doc, chosen, if maxlength == 0 then -1 else 0, maxlength, chosenSlot, addedPerSlot, numSlots, numPerSlot)
  {
    assert BucketsUpTo(doc, entitiesByLength[..], maxlength - 1);
    chosen := seq(|doc|, _ => -1);
    assert forall x :: 0 <= x < |chosen| ==> chosen[x] == -1;
    chosenSlot := 0;
    addedPerSlot := 0;
    var ii := maxlength - 1;
    OuterStart(doc, chosen, maxlength, numSlots, numPerSlot);
    while ii > 0
      invariant OuterState(doc, chosen, ii, maxlength, chosenSlot, addedPerSlot, numSlots, numPerSlot)
      invariant BucketsUpTo(doc, entitiesByLength[..], ii)
      decreases ii
    {
      OuterEnter(doc, chosen, ii, maxlength, chosenSlot, addedPerSlot, numSlots, numPerSlot);
      var chosen', chosenSlot', addedPerSlot';
      var bucket;
      ghost var cells := entitiesByLength[..];
      assert entitiesByLength[ii] == cells[ii];
      bucket, chosen', chosenSlot', addedPerSlot' :=
        FillFromBucket(doc, entitiesByLength[ii], ii, maxlength, chosen, chosenSlot, addedPerSlot, numSlots, numPerSlot, choose);
      OuterStep(doc, chosen, chosen', bucket, ii, maxlength, chosenSlot, addedPerSlot, chosenSlot', addedPerSlot', numSlots, numPerSlot);
      entitiesByLength[ii] := bucket;
      BucketsUpToUpdate(doc, cells, ii, bucket);
      assert entitiesByLength[..] == cells[ii := bucket];
      chosen, chosenSlot, addedPerSlot := chosen', chosenSlot', addedPerSlot';
      ii := ii - 1;
    }
  }

  /** The first loop of `labelEntities`: the largest mention count. */
  method MaxLength(doc: seq<TextEntity>) returns (maxlength: int)
    ensures maxlength == MaxMentions(doc)
  {
    maxlength := 0;
    for x := 0 to |doc|
      invariant maxlength == MaxMentions(doc[..x])
    {
      assert doc[..x + 1][..x] == doc[..x];
      if |doc[x].mentions| > maxlength {
        maxlength := |doc[x].mentions|;
      }
    }
    assert doc[..|doc|] == doc;
  }

  /** `entitiesByLength`: cell `L` holds the entities with `L` mentions, in document order. */
  method Buckets(doc: seq<TextEntity>, maxlength: int) returns (entitiesByLength: array<seq<int>>)
    requires maxlength == MaxMentions(doc)
    ensures fresh(entitiesByLength) && entitiesByLength.Length == maxlength + 1
    ensures forall L :: 0 <= L <= maxlength ==> entitiesByLength[L] == BucketOf(doc, L, |doc|)
  {
    entitiesByLength := new seq<int>[maxlength + 1](_ => []);
    for x := 0 to |doc|
      invariant forall L :: 0 <= L <= maxlength ==> entitiesByLength[L] == BucketOf(doc, L, x)
    {
      var len := Mentions(doc, x);
      entitiesByLength[len] := entitiesByLength[len] + [x];
    }
  }

  /** Every entity with its slot, if any, added to its labels. */
  method AddSlots(doc: seq<TextEntity>, chosen: seq<int>) returns (labelled: seq<TextEntity>)
    requires |chosen| == |doc|
    ensures |labelled| == |doc|
    ensures forall x :: 0 <= x < |doc| ==> labelled[x] == doc[x].(labels := doc[x].labels + SlotLabel(chosen[x]))
  {
    labelled := [];
    for x := 0 to |doc|
      invariant |labelled| == x
      invariant forall y :: 0 <= y < x ==> labelled[y] == doc[y].(labels := doc[y].labels + SlotLabel(chosen[y]))
    {
      labelled := labelled + [doc[x].(labels := doc[x].labels + SlotLabel(chosen[x]))];
    }
  }

  /** After the last bucket, the loop state gives the promises of `labelEntities`. */
  lemma OuterDone(doc: seq<TextEntity>, chosen: seq<int>, ii: int, maxlength: int,
                  chosenSlot: int, addedPerSlot: int, numSlots: int, numPerSlot: int)
    requires OuterState(doc, chosen, ii, maxlength, chosenSlot, addedPerSlot, numSlots, numPerSlot) && ii <= 0
    requires maxlength == MaxMentions(doc)
    ensures forall x :: 0 <= x < |doc| ==> chosen[x] == -1 || 0 <= chosen[x] < numSlots
    ensures forall x :: 0 <= x < |doc| && chosen[x] >= 0 ==> 0 < Mentions(doc, x) < MaxMentions(doc)
    ensures numPerSlot >= 1 ==> forall s :: 0 <= s ==> Count(chosen, s) <= numPerSlot
    ensures numPerSlot >= 1 && numSlots >= 0 ==> NumLabelled(chosen) <= Times(numSlots, numPerSlot)
    ensures numPerSlot < 1 ==> forall x :: 0 <= x < |doc| ==> chosen[x] <= 0
    ensures Ordered(doc, chosen)
    ensures forall x :: 0 <= x < |doc| && 0 < Mentions(doc, x) < MaxMentions(doc) && chosen[x] == -1 ==>
              numSlots <= 0 || (numPerSlot >= 1 && forall s :: 0 <= s < numSlots ==> Count(chosen, s) == numPerSlot)
  {
    if numPerSlot >= 1 {
      TallyAtMost(chosen, chosenSlot, addedPerSlot, numPerSlot, numSlots);
      if numSlots >= 0 {
        TallyBound(chosen, chosenSlot, addedPerSlot, numPerSlot, numSlots);
      }
    }
  }
}
