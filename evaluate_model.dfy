/**
 * Alignment of learned roles to gold template slots. A "perm" array gives,
 * for each learned role, the gold slot it is mapped to, or -1 when it is not
 * mapped. Roles come in consecutive blocks, one block per learned template.
 * The greedy procedures grow a perm from pairs ranked by their individual F1
 * scores; the scoring pass turns a perm into correct / false-positive /
 * false-negative counts over all documents.
 *
 * Floating-point scores are real numbers here. The F1 of a candidate perm,
 * and the individual F1 of each (slot, role) pair, are inputs: they come from
 * a scoring function over counts that is not part of this model.
 */
module EvaluateModel {
  import opened Wrappers
  import opened Strings
  import opened Seqs
  import opened Entities
  import opened Ranking
  import opened TemplateTester

  // ---------------------------------------------------------------------------
  // Scans of a perm

  /** The number of mapped roles. */
  function NumOn(s: seq<int>): nat {
    if |s| == 0 then 0 else NumOn(s[..|s| - 1]) + (if s[|s| - 1] > -1 then 1 else 0)
  }

  method HowManyOn(perm: array<int>) returns (count: int)
    ensures count == NumOn(perm[..])
  {
    count := 0;
    var ii := 0;
    while ii < perm.Length
      invariant 0 <= ii <= perm.Length
      invariant count == NumOn(perm[..ii])
    {
      assert perm[..ii + 1][..ii] == perm[..ii];
      if perm[ii] > -1 {
        count := count + 1;
      }
      ii := ii + 1;
    }
    assert perm[..ii] == perm[..];
  }

  /** No more roles are mapped than there are roles; none when every entry is -1. */
  lemma {:induction false} NumOnBounds(s: seq<int>)
    ensures NumOn(s) <= |s|
    ensures NumOn(s) == 0 <==> forall i :: 0 <= i < |s| ==> s[i] <= -1
    decreases |s|
  {
    if |s| > 0 {
      NumOnBounds(s[..|s| - 1]);
    }
  }

  /** The first role mapped to `sloti`, or -1. */
  method PermContainsAtIndex(perm: array<int>, sloti: int) returns (r: int)
    ensures -1 <= r < perm.Length
    ensures r >= 0 ==> perm[r] == sloti && forall j :: 0 <= j < r ==> perm[j] != sloti
    ensures r == -1 <==> sloti !in perm[..]
  {
    var ii := 0;
    while ii < perm.Length
      invariant 0 <= ii <= perm.Length
      invariant forall j :: 0 <= j < ii ==> perm[j] != sloti
    {
      if perm[ii] == sloti {
        return ii;
      }
      ii := ii + 1;
    }
    return -1;
  }

  method PermContains(perm: array<int>, sloti: int) returns (r: bool)
    ensures r <==> sloti in perm[..]
  {
    var ii := 0;
    while ii < perm.Length
      invariant 0 <= ii <= perm.Length
      invariant sloti !in perm[..ii]
    {
      if perm[ii] == sloti {
        return true;
      }
      assert perm[..ii + 1] == perm[..ii] + [perm[ii]];
      ii := ii + 1;
    }
    assert perm[..ii] == perm[..];
    return false;
  }

  /** Whether the role is mapped to some slot. */
  predicate PermMapped(perm: seq<int>, rolei: int)
    requires 0 <= rolei < |perm|
  {
    perm[rolei] >= 0
  }

  /** How many roles are mapped to `sloti`. */
  method NumTimesSlotIsMapped(perm: array<int>, sloti: int) returns (count: int)
    ensures count == Count(perm[..], sloti)
  {
    count := 0;
    var ii := 0;
    while ii < perm.Length
      invariant 0 <= ii <= perm.Length
      invariant count == Count(perm[..ii], sloti)
    {
      assert perm[..ii + 1][..ii] == perm[..ii];
      if perm[ii] == sloti {
        count := count + 1;
      }
      ii := ii + 1;
    }
    assert perm[..ii] == perm[..];
  }

  /** The summed pair scores of the mapped roles; a pair without a score adds nothing. */
  function PermScore(perm: seq<int>, scores: map<(int, int), real>): real {
    if |perm| == 0 then 0.0
    else
      var rolei := |perm| - 1;
      PermScore(perm[..rolei], scores) +
      (if perm[rolei] > -1 && (perm[rolei], rolei) in scores then scores[(perm[rolei], rolei)] else 0.0)
  }

  method ScoreOfPerm(perm: array<int>, scores: map<(int, int), real>) returns (score: real)
    ensures score == PermScore(perm[..], scores)
  {
    score := 0.0;
    var rolei := 0;
    while rolei < perm.Length
      invariant 0 <= rolei <= perm.Length
      invariant score == PermScore(perm[..rolei], scores)
    {
      assert perm[..rolei + 1][..rolei] == perm[..rolei];
      if perm[rolei] > -1 {
        var pair := (perm[rolei], rolei);
        if pair in scores {
          score := score + scores[pair];
        }
      }
      rolei := rolei + 1;
    }
    assert perm[..rolei] == perm[..];
  }

  /** With non-negative pair scores, mapping one more role never lowers the perm's score. */
  lemma {:induction false} PermScoreMonotone(perm: seq<int>, scores: map<(int, int), real>, rolei: int, sloti: int)
    requires 0 <= rolei < |perm| && perm[rolei] == -1 && sloti >= 0
    requires forall p :: p in scores ==> scores[p] >= 0.0
    ensures PermScore(perm[rolei := sloti], scores) >= PermScore(perm, scores)
    decreases |perm|
  {
    var n := |perm| - 1;
    if rolei < n {
      assert perm[rolei := sloti][..n] == perm[..n][rolei := sloti];
      PermScoreMonotone(perm[..n], scores, rolei, sloti);
    } else {
      assert perm[rolei := sloti][..n] == perm[..n];
    }
  }

  // ---------------------------------------------------------------------------
  // Template blocks

  /**
   * The roles are split into `numTemplates` blocks of equal size; role `r`
   * belongs to block `r / size`.
   */
  predicate Blocks(n: int, numTemplates: int) {
    numTemplates > 0 && n % numTemplates == 0 && n / numTemplates > 0
  }

  function BlockSize(n: int, numTemplates: int): (size: int)
    requires Blocks(n, numTemplates)
    ensures size > 0 && n == numTemplates * size
  {
    n / numTemplates
  }

  lemma BlockEnd(n: int, numTemplates: int, b: int)
    requires Blocks(n, numTemplates) && 0 <= b < numTemplates
    ensures 0 <= b * BlockSize(n, numTemplates) && (b + 1) * BlockSize(n, numTemplates) <= n
  {
    var size := BlockSize(n, numTemplates);
    assert (b + 1) * size <= numTemplates * size;
  }

  lemma RoleBlock(n: int, numTemplates: int, r: int)
    requires Blocks(n, numTemplates) && 0 <= r < n
    ensures 0 <= r / BlockSize(n, numTemplates) < numTemplates
  {
    var size := BlockSize(n, numTemplates);
    assert r / size * size <= r;
  }

  /** The roles of block `b`. */
  function Block(perm: seq<int>, numTemplates: int, b: int): (r: seq<int>)
    requires Blocks(|perm|, numTemplates) && 0 <= b < numTemplates
    ensures |r| == BlockSize(|perm|, numTemplates)
  {
    BlockEnd(|perm|, numTemplates, b);
    var size := BlockSize(|perm|, numTemplates);
    perm[b * size..(b + 1) * size]
  }

  /** Some role of block `b` is mapped. */
  predicate BlockInUse(perm: seq<int>, numTemplates: int, b: int)
    requires Blocks(|perm|, numTemplates) && 0 <= b < numTemplates
  {
    exists x :: x in Block(perm, numTemplates, b) && x > -1
  }

  /** The role's own block, in the repository's arithmetic. */
  function RoleTemplate(n: int, numTemplates: int, rolei: int): (b: int)
    requires Blocks(n, numTemplates) && 0 <= rolei < n
    ensures 0 <= b < numTemplates
  {
    RoleBlock(n, numTemplates, rolei);
    rolei / BlockSize(n, numTemplates)
  }

  /** The role's own block is in use. */
  predicate RoleTemplateInUse(perm: seq<int>, numTemplates: int, rolei: int)
    requires Blocks(|perm|, numTemplates) && 0 <= rolei < |perm|
  {
    BlockInUse(perm, numTemplates, RoleTemplate(|perm|, numTemplates, rolei))
  }

  /** Some role of the role's own block is mapped to `sloti`. */
  predicate RoleTemplateMapsTo(perm: seq<int>, numTemplates: int, rolei: int, sloti: int)
    requires Blocks(|perm|, numTemplates) && 0 <= rolei < |perm|
  {
    sloti in Block(perm, numTemplates, RoleTemplate(|perm|, numTemplates, rolei))
  }

  /** Whether the role's template already has a mapped role. */
  method RoleTemplateAlreadyInUse(perm: array<int>, rolei: int, numTemplates: int) returns (r: bool)
    requires Blocks(perm.Length, numTemplates) && 0 <= rolei < perm.Length
    ensures r <==> RoleTemplateInUse(perm[..], numTemplates, rolei)
  {
    var numRolesPerTemplate := perm.Length / numTemplates;
    var targetTemplate := rolei / numRolesPerTemplate;
    ghost var block := Block(perm[..], numTemplates, targetTemplate);
    BlockEnd(perm.Length, numTemplates, targetTemplate);
    var ii := 0;
    while ii < numRolesPerTemplate
      invariant 0 <= ii <= numRolesPerTemplate
      invariant forall j :: 0 <= j < ii ==> block[j] <= -1
    {
      assert block[ii] == perm[targetTemplate * numRolesPerTemplate + ii];
      if perm[targetTemplate * numRolesPerTemplate + ii] > -1 {
        assert block[ii] in block;
        return true;
      }
      ii := ii + 1;
    }
    forall x | x in block ensures x <= -1 {
      var j :| 0 <= j < |block| && block[j] == x;
    }
    return false;
  }

  /** Whether the role's template already has a role mapped to `sloti`. */
  method RoleTemplateMapsToSlot(perm: array<int>, rolei: int, sloti: int, numTemplates: int) returns (r: bool)
    requires Blocks(perm.Length, numTemplates) && 0 <= rolei < perm.Length
    ensures r <==> RoleTemplateMapsTo(perm[..], numTemplates, rolei, sloti)
  {
    var numRolesPerTemplate := perm.Length / numTemplates;
    var targetTemplate := rolei / numRolesPerTemplate;
    ghost var block := Block(perm[..], numTemplates, targetTemplate);
    BlockEnd(perm.Length, numTemplates, targetTemplate);
    var ii := 0;
    while ii < numRolesPerTemplate
      invariant 0 <= ii <= numRolesPerTemplate
      invariant forall j :: 0 <= j < ii ==> block[j] != sloti
    {
      assert block[ii] == perm[targetTemplate * numRolesPerTemplate + ii];
      if perm[targetTemplate * numRolesPerTemplate + ii] == sloti {
        return true;
      }
      ii := ii + 1;
    }
    return false;
  }
  /** The number of blocks among the first `k` that have a mapped role. */
  function BlocksInUse(perm: seq<int>, numTemplates: int, k: int): nat
    requires Blocks(|perm|, numTemplates) && 0 <= k <= numTemplates
  {
    if k == 0 then 0
    else BlocksInUse(perm, numTemplates, k - 1) + (if BlockInUse(perm, numTemplates, k - 1) then 1 else 0)
  }

  lemma {:induction false} BlocksInUseBound(perm: seq<int>, numTemplates: int, k: int)
    requires Blocks(|perm|, numTemplates) && 0 <= k <= numTemplates
    ensures BlocksInUse(perm, numTemplates, k) <= k
    decreases k
  {
    if k > 0 {
      BlocksInUseBound(perm, numTemplates, k - 1);
    }
  }

  lemma {:induction false} BlocksInUseNone(perm: seq<int>, numTemplates: int, k: int)
    requires Blocks(|perm|, numTemplates) && 0 <= k <= numTemplates
    requires forall r :: 0 <= r < |perm| ==> perm[r] == -1
    ensures BlocksInUse(perm, numTemplates, k) == 0
    decreases k
  {
    if k > 0 {
      BlocksInUseNone(perm, numTemplates, k - 1);
      var block := Block(perm, numTemplates, k - 1);
      BlockEnd(|perm|, numTemplates, k - 1);
      forall x | x in block ensures x <= -1 {
        var j :| 0 <= j < |block| && block[j] == x;
        assert block[j] == perm[(k - 1) * BlockSize(|perm|, numTemplates) + j];
      }
    }
  }

  /** Counts the templates with at least one mapped role. */
  method NumTemplatesInUse(perm: array<int>, numTemplates: int) returns (numon: int)
    requires Blocks(perm.Length, numTemplates)
    ensures numon == BlocksInUse(perm[..], numTemplates, numTemplates)
    ensures 0 <= numon <= numTemplates
  {
    numon := 0;
    var numRolesPerTemplate := perm.Length / numTemplates;
    var xx := 0;
    while xx < numTemplates
      invariant 0 <= xx <= numTemplates
      invariant numon == BlocksInUse(perm[..], numTemplates, xx)
    {
      ghost var block := Block(perm[..], numTemplates, xx);
      BlockEnd(perm.Length, numTemplates, xx);
      var ii := 0;
      var found := false;
      while ii < numRolesPerTemplate
        invariant 0 <= ii <= numRolesPerTemplate
        invariant !found
        invariant forall j :: 0 <= j < ii ==> block[j] <= -1
      {
        assert block[ii] == perm[xx * numRolesPerTemplate + ii];
        if perm[xx * numRolesPerTemplate + ii] > -1 {
          assert block[ii] in block;
          found := true;
          break;
        }
        ii := ii + 1;
      }
      if !found {
        forall x | x in block ensures x <= -1 {
          var j :| 0 <= j < |block| && block[j] == x;
        }
      }
      assert found <==> BlockInUse(perm[..], numTemplates, xx);
      if found {
        numon := numon + 1;
      }
      xx := xx + 1;
    }
    BlocksInUseBound(perm[..], numTemplates, numTemplates);
  }

  lemma MulMono(a: int, c: int, size: int)
    requires a <= c && size >= 0
    ensures a * size <= c * size
  {
    assert c * size - a * size == (c - a) * size;
  }

  /** A role lies inside its own block, at offset `r - b * size`. */
  lemma RoleInBlock(perm: seq<int>, numTemplates: int, r: int)
    requires Blocks(|perm|, numTemplates) && 0 <= r < |perm|
    ensures var b := RoleTemplate(|perm|, numTemplates, r);
            var size := BlockSize(|perm|, numTemplates);
            b * size <= r < (b + 1) * size && Block(perm, numTemplates, b)[r - b * size] == perm[r]
  {
    var b := RoleTemplate(|perm|, numTemplates, r);
    var size := BlockSize(|perm|, numTemplates);
    assert r == b * size + r % size;
    BlockEnd(|perm|, numTemplates, b);
  }

  /** Changing one role leaves the other blocks as they were. */
  lemma BlockUpdateOther(perm: seq<int>, numTemplates: int, r: int, v: int, b: int)
    requires Blocks(|perm|, numTemplates) && 0 <= r < |perm| && 0 <= b < numTemplates
    requires b != RoleTemplate(|perm|, numTemplates, r)
    ensures Block(perm[r := v], numTemplates, b) == Block(perm, numTemplates, b)
  {
    var rb := RoleTemplate(|perm|, numTemplates, r);
    var size := BlockSize(|perm|, numTemplates);
    RoleInBlock(perm, numTemplates, r);
    BlockEnd(|perm|, numTemplates, b);
    if b < rb {
      MulMono(b + 1, rb, size);
    } else {
      MulMono(rb + 1, b, size);
    }
  }

  /** Mapping a role puts its own block in use. */
  lemma BlockUpdateOwn(perm: seq<int>, numTemplates: int, r: int, v: int)
    requires Blocks(|perm|, numTemplates) && 0 <= r < |perm| && v > -1
    ensures BlockInUse(perm[r := v], numTemplates, RoleTemplate(|perm|, numTemplates, r))
  {
    RoleInBlock(perm[r := v], numTemplates, r);
    var b := RoleTemplate(|perm|, numTemplates, r);
    var size := BlockSize(|perm|, numTemplates);
    assert Block(perm[r := v], numTemplates, b)[r - b * size] in Block(perm[r := v], numTemplates, b);
  }

  /** Mapping a role adds a template in use exactly when its block was not in use. */
  lemma {:induction false} BlocksInUseUpdate(perm: seq<int>, numTemplates: int, r: int, v: int, k: int)
    requires Blocks(|perm|, numTemplates) && 0 <= r < |perm| && v > -1 && 0 <= k <= numTemplates
    ensures var rb := RoleTemplate(|perm|, numTemplates, r);
            BlocksInUse(perm[r := v], numTemplates, k) ==
            BlocksInUse(perm, numTemplates, k) + (if rb < k && !BlockInUse(perm, numTemplates, rb) then 1 else 0)
    decreases k
  {
    if k > 0 {
      BlocksInUseUpdate(perm, numTemplates, r, v, k - 1);
      if k - 1 == RoleTemplate(|perm|, numTemplates, r) {
        BlockUpdateOwn(perm, numTemplates, r, v);
      } else {
        BlockUpdateOther(perm, numTemplates, r, v, k - 1);
      }
    }
  }

  /** Within a block, no two mapped roles share a slot. */
  ghost predicate DistinctInBlocks(perm: seq<int>, numTemplates: int)
    requires Blocks(|perm|, numTemplates)
  {
    forall r1, r2 ::
      (0 <= r1 < |perm| && 0 <= r2 < |perm| && r1 != r2 && perm[r1] >= 0 &&
       RoleTemplate(|perm|, numTemplates, r1) == RoleTemplate(|perm|, numTemplates, r2)) ==> perm[r1] != perm[r2]
  }

  /** Mapping a role to a slot its block does not hold yet keeps the slots distinct within blocks. */
  lemma DistinctInBlocksUpdate(perm: seq<int>, numTemplates: int, r: int, v: int)
    requires Blocks(|perm|, numTemplates) && DistinctInBlocks(perm, numTemplates)
    requires 0 <= r < |perm| && !RoleTemplateMapsTo(perm, numTemplates, r, v)
    ensures DistinctInBlocks(perm[r := v], numTemplates)
  {
    var p := perm[r := v];
    forall r2 | 0 <= r2 < |perm| && r2 != r &&
                RoleTemplate(|perm|, numTemplates, r2) == RoleTemplate(|perm|, numTemplates, r)
      ensures p[r2] != v
    {
      RoleInBlock(perm, numTemplates, r2);
    }
  }

  // ---------------------------------------------------------------------------
  // Ranking (slot, role) pairs by their individual F1

  /** The smallest individual F1 a pair needs to be tried by the multi-role procedures. */
  const MinPairF1: real := 0.003

  /** The individual F1 of each (slot, role) pair; `None` stands for a score that is not a number. */
  type PairScores = ((int, int)) -> Option<real>

  /** The pairs of one slot, role by role. */
  function RowPairs(sloti: int, n: nat): (r: seq<(int, int)>)
    ensures |r| == n && forall k :: 0 <= k < n ==> r[k] == (sloti, k)
  {
    if n == 0 then [] else RowPairs(sloti, n - 1) + [(sloti, n - 1)]
  }

  /** Every (slot, role) pair, slot by slot, in the order the pairs are scored. */
  function AllPairs(numSlots: nat, numRoles: nat): (r: seq<(int, int)>)
    ensures forall k :: 0 <= k < |r| ==> 0 <= r[k].0 < numSlots && 0 <= r[k].1 < numRoles
  {
    if numSlots == 0 then [] else AllPairs(numSlots - 1, numRoles) + RowPairs(numSlots - 1, numRoles)
  }

  lemma {:induction false} AllPairsComplete(numSlots: nat, numRoles: nat, sloti: int, rolei: int)
    requires 0 <= sloti < numSlots && 0 <= rolei < numRoles
    ensures (sloti, rolei) in AllPairs(numSlots, numRoles)
    decreases numSlots
  {
    if sloti < numSlots - 1 {
      AllPairsComplete(numSlots - 1, numRoles, sloti, rolei);
    } else {
      assert RowPairs(sloti, numRoles)[rolei] == (sloti, rolei);
    }
  }

  /** A pair is tried when its score is a number and, with `cutoff`, exceeds `MinPairF1`. */
  predicate Admitted(pairF1: PairScores, cutoff: bool, pair: (int, int)) {
    pairF1(pair).Some? && (cutoff ==> pairF1(pair).value > MinPairF1)
  }

  function AdmittedBy(pairF1: PairScores, cutoff: bool): ((int, int)) -> bool {
    (pair: (int, int)) => Admitted(pairF1, cutoff, pair)
  }

  /** The admitted pairs in scoring order. */
  function ScoredPairs(numSlots: nat, numRoles: nat, pairF1: PairScores, cutoff: bool): seq<(int, int)> {
    Filter(AllPairs(numSlots, numRoles), AdmittedBy(pairF1, cutoff))
  }

  /** Scores the pairs of one slot and keeps the admitted ones. */
  method ScoreRow(sloti: int, numRoles: nat, pairF1: PairScores, cutoff: bool) returns (row: seq<(int, int)>)
    ensures row == Filter(RowPairs(sloti, numRoles), AdmittedBy(pairF1, cutoff))
  {
    row := [];
    var rolei := 0;
    while rolei < numRoles
      invariant 0 <= rolei <= numRoles
      invariant row == Filter(RowPairs(sloti, rolei), AdmittedBy(pairF1, cutoff))
    {
      var pair := (sloti, rolei);
      FilterSnoc(RowPairs(sloti, rolei), pair, AdmittedBy(pairF1, cutoff));
      if pairF1(pair).Some? && (cutoff ==> pairF1(pair).value > MinPairF1) {
        row := row + [pair];
      }
      rolei := rolei + 1;
    }
  }

  /** Scores every (slot, role) pair and keeps the admitted ones. */
  method ScorePairs(numSlots: nat, numRoles: nat, pairF1: PairScores, cutoff: bool) returns (scored: seq<(int, int)>)
    ensures scored == ScoredPairs(numSlots, numRoles, pairF1, cutoff)
  {
    scored := [];
    var sloti := 0;
    while sloti < numSlots
      invariant 0 <= sloti <= numSlots
      invariant scored == Filter(AllPairs(sloti, numRoles), AdmittedBy(pairF1, cutoff))
    {
      var row := ScoreRow(sloti, numRoles, pairF1, cutoff);
      FilterConcat(AllPairs(sloti, numRoles), RowPairs(sloti, numRoles), AdmittedBy(pairF1, cutoff));
      scored := scored + row;
      sloti := sloti + 1;
    }
  }

  function ValueOf(pairF1: PairScores, cutoff: bool, pair: (int, int)): real
    requires Admitted(pairF1, cutoff, pair)
  {
    pairF1(pair).value
  }

  /** The individual F1 of each admitted pair. */
  function ScoreValues(scored: seq<(int, int)>, pairF1: PairScores, cutoff: bool): (r: seq<real>)
    requires forall k :: 0 <= k < |scored| ==> Admitted(pairF1, cutoff, scored[k])
    ensures |r| == |scored| && forall k :: 0 <= k < |scored| ==> r[k] == ValueOf(pairF1, cutoff, scored[k])
  {
    seq(|scored|, k requires 0 <= k < |scored| => ValueOf(pairF1, cutoff, scored[k]))
  }

  /** The admitted pairs in non-increasing order of individual F1 (ties keep scoring order). */
  function RankPairs(scored: seq<(int, int)>, pairF1: PairScores, cutoff: bool): (r: seq<(int, int)>)
    requires forall k :: 0 <= k < |scored| ==> Admitted(pairF1, cutoff, scored[k])
    ensures forall i :: 0 <= i < |r| ==> r[i] in scored
  {
    var vals := ScoreValues(scored, pairF1, cutoff);
    var order := SortKeysByValues(Range(|scored|), vals);
    seq(|order|, i requires 0 <= i < |order| => scored[order[i]])
  }

  lemma RankPairsSorted(scored: seq<(int, int)>, pairF1: PairScores, cutoff: bool, i: int, j: int)
    requires forall k :: 0 <= k < |scored| ==> Admitted(pairF1, cutoff, scored[k])
    requires 0 <= i < j < |RankPairs(scored, pairF1, cutoff)|
    ensures ValueOf(pairF1, cutoff, RankPairs(scored, pairF1, cutoff)[i]) >= ValueOf(pairF1, cutoff, RankPairs(scored, pairF1, cutoff)[j])
  {
    var vals := ScoreValues(scored, pairF1, cutoff);
    SortKeysSorted(Range(|scored|), vals);
  }

  lemma RankPairsMembers(scored: seq<(int, int)>, pairF1: PairScores, cutoff: bool, pair: (int, int))
    requires forall k :: 0 <= k < |scored| ==> Admitted(pairF1, cutoff, scored[k])
    ensures pair in RankPairs(scored, pairF1, cutoff) <==> pair in scored
  {
    var vals := ScoreValues(scored, pairF1, cutoff);
    var order := SortKeysByValues(Range(|scored|), vals);
    var r := RankPairs(scored, pairF1, cutoff);
    if pair in scored {
      var k :| 0 <= k < |scored| && scored[k] == pair;
      assert Range(|scored|)[k] == k;
      SortKeysMembers(Range(|scored|), vals, k);
      var i :| 0 <= i < |order| && order[i] == k;
      assert r[i] == pair;
    }
  }

  /** The ranked pairs are exactly the admitted (slot, role) pairs of the given sizes. */
  lemma RankedPairsExactly(numSlots: nat, numRoles: nat, pairF1: PairScores, cutoff: bool, pair: (int, int))
    ensures var scored := ScoredPairs(numSlots, numRoles, pairF1, cutoff);
            pair in RankPairs(scored, pairF1, cutoff) <==>
            0 <= pair.0 < numSlots && 0 <= pair.1 < numRoles && Admitted(pairF1, cutoff, pair)
  {
    var scored := ScoredPairs(numSlots, numRoles, pairF1, cutoff);
    RankPairsMembers(scored, pairF1, cutoff, pair);
    FilterMembers(AllPairs(numSlots, numRoles), AdmittedBy(pairF1, cutoff), pair);
    if 0 <= pair.0 < numSlots && 0 <= pair.1 < numRoles {
      AllPairsComplete(numSlots, numRoles, pair.0, pair.1);
    }
  }

  /** Every ranked pair is an admitted pair of a slot and a role in range. */
  lemma RankedPairsValid(numSlots: nat, numRoles: nat, pairF1: PairScores, cutoff: bool)
    ensures var sorted := RankPairs(ScoredPairs(numSlots, numRoles, pairF1, cutoff), pairF1, cutoff);
            forall i :: 0 <= i < |sorted| ==>
              0 <= sorted[i].0 < numSlots && 0 <= sorted[i].1 < numRoles && Admitted(pairF1, cutoff, sorted[i])
  {
    var sorted := RankPairs(ScoredPairs(numSlots, numRoles, pairF1, cutoff), pairF1, cutoff);
    forall i | 0 <= i < |sorted|
      ensures 0 <= sorted[i].0 < numSlots && 0 <= sorted[i].1 < numRoles && Admitted(pairF1, cutoff, sorted[i])
    {
      RankedPairsExactly(numSlots, numRoles, pairF1, cutoff, sorted[i]);
    }
  }

  // ---------------------------------------------------------------------------
  // Greedy alignment

  /** One accepted step of a greedy procedure, with the F1 the perm had after it. */
  datatype Step = Added(f1: real) | Remapped(f1: real)

  /**
   * The acceptance rule: the first step maps a new role; a new role is kept
   * only when it raises the running F1, a remap only when it does not lower it.
   */
  ghost predicate AcceptedSteps(trace: seq<Step>) {
    (|trace| > 0 ==> trace[0].Added?) &&
    forall i :: 0 < i < |trace| ==>
      (trace[i].Added? ==> trace[i].f1 > trace[i - 1].f1) && (trace[i].Remapped? ==> trace[i].f1 >= trace[i - 1].f1)
  }

  /** So the running F1 never decreases. */
  lemma {:induction false} RunningF1NeverDecreases(trace: seq<Step>, i: int, j: int)
    requires AcceptedSteps(trace) && 0 <= i <= j < |trace|
    ensures trace[i].f1 <= trace[j].f1
    decreases j - i
  {
    if i < j {
      RunningF1NeverDecreases(trace, i, j - 1);
    }
  }

  lemma AcceptedStepsExtend(trace: seq<Step>, step: Step)
    requires AcceptedSteps(trace)
    requires |trace| == 0 ==> step.Added?
    requires |trace| > 0 && step.Added? ==> step.f1 > trace[|trace| - 1].f1
    requires |trace| > 0 && step.Remapped? ==> step.f1 >= trace[|trace| - 1].f1
    ensures AcceptedSteps(trace + [step])
  {
    var t := trace + [step];
    forall i | 0 < i < |t|
      ensures (t[i].Added? ==> t[i].f1 > t[i - 1].f1) && (t[i].Remapped? ==> t[i].f1 >= t[i - 1].f1)
    {
      if i < |trace| {
        assert t[i] == trace[i] && t[i - 1] == trace[i - 1];
      }
    }
  }

  /** Every entry is -1 or a slot whose pair with the role is admitted. */
  ghost predicate MappedAdmitted(perm: seq<int>, numSlots: int, pairF1: PairScores, cutoff: bool) {
    forall r :: 0 <= r < |perm| ==> perm[r] == -1 || (0 <= perm[r] < numSlots && Admitted(pairF1, cutoff, (perm[r], r)))
  }

  lemma CountUpdate(s: seq<int>, i: int, v: int, x: int)
    requires 0 <= i < |s|
    ensures Count(s[i := v], x) == Count(s, x) - (if s[i] == x then 1 else 0) + (if v == x then 1 else 0)
  {
    assert s == s[..i] + [s[i]] + s[i + 1..];
    assert s[i := v] == s[..i] + [v] + s[i + 1..];
  }

  /**
   * Tries mapping `rolei` to `sloti` and keeps the change only when the
   * acceptance rule allows it; the perm is left as it was otherwise.
   */
  method TryMapping(perm: array<int>, sloti: int, rolei: int, current: Option<real>, permF1: seq<int> -> real)
    returns (next: Option<real>, ghost step: Option<Step>)
    requires 0 <= rolei < perm.Length && sloti >= 0 && perm[rolei] >= -1
    requires current.None? ==> forall r :: 0 <= r < perm.Length ==> perm[r] == -1
    requires current.Some? ==> current.value == permF1(perm[..])
    modifies perm
    ensures step.None? ==> perm[..] == old(perm[..]) && next == current
    ensures step.Some? ==> perm[..] == old(perm[..])[rolei := sloti] && next == Some(step.value.f1) &&
                           step.value.f1 == permF1(perm[..]) && (step.value.Added? <==> old(perm[rolei]) < 0)
    ensures step.Some? && current.Some? && step.value.Added? ==> step.value.f1 > current.value
    ensures step.Some? && current.Some? && step.value.Remapped? ==> step.value.f1 >= current.value
    ensures current.None? ==> step.Some? && step.value.Added?
    ensures (perm[..], next) == TryMap(old(perm[..]), sloti, rolei, current, permF1)
  {
    if !PermMapped(perm[..], rolei) {
      perm[rolei] := sloti;
      var newF1 := permF1(perm[..]);
      if current.Some? && newF1 <= current.value {
        perm[rolei] := -1;
        assert perm[..] == old(perm[..]);
        next, step := current, None;
      } else {
        next, step := Some(newF1), Some(Added(newF1));
      }
    } else {
      assert perm[rolei] != -1;
      var oldsloti := perm[rolei];
      perm[rolei] := sloti;
      var newF1 := permF1(perm[..]);
      if newF1 < current.value {
        perm[rolei] := oldsloti;
        assert perm[..] == old(perm[..]);
        next, step := current, None;
      } else {
        next, step := Some(newF1), Some(Remapped(newF1));
      }
    }
  }

  /** `TryMapping` on values: the perm and running F1 after trying to map `rolei` to `sloti`. */
  function TryMap(perm: seq<int>, sloti: int, rolei: int, current: Option<real>, permF1: seq<int> -> real)
    : (r: (seq<int>, Option<real>))
    requires 0 <= rolei < |perm|
    ensures |r.0| == |perm|
  {
    var tried := perm[rolei := sloti];
    var newF1 := permF1(tried);
    if !PermMapped(perm, rolei) then
      if current.Some? && newF1 <= current.value then (perm, current) else (tried, Some(newF1))
    else if current.Some? && newF1 < current.value then (perm, current) else (tried, Some(newF1))
  }

  /**
   * Trying a pair never unmaps a role and never loses the running F1; on an
   * empty perm, with no F1 yet, the pair is always taken.
   */
  lemma TryMapKeepsMapped(perm: seq<int>, sloti: int, rolei: int, current: Option<real>, permF1: seq<int> -> real)
    requires 0 <= rolei < |perm| && sloti >= 0
    ensures var r := TryMap(perm, sloti, rolei, current, permF1);
            (forall x :: 0 <= x < |perm| && perm[x] >= 0 ==> r.0[x] >= 0) &&
            (current.Some? ==> r.1.Some?) &&
            (current.None? ==> r.0 == perm[rolei := sloti] && r.1.Some?)
  {
  }

  lemma MappedAdmittedUpdate(perm: seq<int>, numSlots: int, pairF1: PairScores, cutoff: bool, rolei: int, sloti: int)
    requires MappedAdmitted(perm, numSlots, pairF1, cutoff)
    requires 0 <= rolei < |perm| && 0 <= sloti < numSlots && Admitted(pairF1, cutoff, (sloti, rolei))
    ensures MappedAdmitted(perm[rolei := sloti], numSlots, pairF1, cutoff)
  {
  }

  lemma CountAbsent(s: seq<int>, x: int)
    requires forall i :: 0 <= i < |s| ==> s[i] != x
    ensures Count(s, x) == 0
  {
    assert x !in multiset(s);
  }

  /** The upper bound `max` reads as 0 when it is negative. */
  function Cap(max: int): nat {
    if max < 0 then 0 else max
  }

  /**
   * What every greedy procedure keeps while it runs: the perm maps only
   * admitted pairs, `trace` records the accepted steps and ends with the
   * running F1 `current`, and nothing is mapped before the first step.
   */
  ghost predicate GreedyState(perm: seq<int>, numSlots: int, pairF1: PairScores, permF1: seq<int> -> real,
                              current: Option<real>, trace: seq<Step>) {
    MappedAdmitted(perm, numSlots, pairF1, true) &&
    AcceptedSteps(trace) &&
    (current.None? <==> |trace| == 0) &&
    (current.None? ==> forall r :: 0 <= r < |perm| ==> perm[r] == -1) &&
    (current.Some? ==> current.value == permF1(perm) && trace[|trace| - 1].f1 == current.value)
  }

  /** Tries one ranked pair under the acceptance rule, keeping the greedy state. */
  method GreedyStep(perm: array<int>, sloti: int, rolei: int, numSlots: int, pairF1: PairScores,
                    permF1: seq<int> -> real, current: Option<real>, ghost trace: seq<Step>)
    returns (next: Option<real>, ghost trace': seq<Step>, ghost changed: bool)
    requires 0 <= sloti < numSlots && 0 <= rolei < perm.Length && Admitted(pairF1, true, (sloti, rolei))
    requires GreedyState(perm[..], numSlots, pairF1, permF1, current, trace)
    modifies perm
    ensures GreedyState(perm[..], numSlots, pairF1, permF1, next, trace')
    ensures perm[..] == if changed then old(perm[..])[rolei := sloti] else old(perm[..])
    ensures (perm[..], next) == TryMap(old(perm[..]), sloti, rolei, current, permF1)
  {
    ghost var before := perm[..];
    assert perm[rolei] >= -1;
    ghost var step: Option<Step>;
    next, step := TryMapping(perm, sloti, rolei, current, permF1);
    changed := step.Some?;
    if step.Some? {
      AcceptedStepsExtend(trace, step.value);
      trace' := trace + [step.value];
      MappedAdmittedUpdate(before, numSlots, pairF1, true, rolei, sloti);
    } else {
      trace' := trace;
    }
  }

  /**
   * Maps roles to slots greedily, in ranked order, allowing up to
   * `maxRolesPerSlot` roles per slot and keeping each step that the F1 of the
   * whole perm (`permF1`) accepts.
   */
  method GreedyMultipleSlots(numSlots: nat, numRoles: nat, maxRolesPerSlot: int, pairF1: PairScores,
                             permF1: seq<int> -> real)
    returns (perm: array<int>, ghost trace: seq<Step>)
    ensures fresh(perm) && perm.Length == numRoles
    ensures MappedAdmitted(perm[..], numSlots, pairF1, true)
    ensures forall sloti :: sloti >= 0 ==> Count(perm[..], sloti) <= Cap(maxRolesPerSlot)
    ensures AcceptedSteps(trace)
    ensures |trace| == 0 ==> forall r :: 0 <= r < numRoles ==> perm[r] == -1
    ensures |trace| > 0 ==> trace[|trace| - 1].f1 == permF1(perm[..])
    ensures perm[..] == GreedySlots(numSlots, numRoles, maxRolesPerSlot, pairF1, permF1).0
    ensures |trace| > 0 <==> GreedySlots(numSlots, numRoles, maxRolesPerSlot, pairF1, permF1).1.Some?
    ensures |Ranked(numSlots, numRoles, pairF1)| > 0 && maxRolesPerSlot > 0 ==>
              |trace| > 0 && perm[Ranked(numSlots, numRoles, pairF1)[0].1] >= 0
  {
    hide RankPairs; hide TryMap;
    var scored := ScorePairs(numSlots, numRoles, pairF1, true);
    var sorted := RankPairs(scored, pairF1, true);
    RankedPairsValid(numSlots, numRoles, pairF1, true);
    assert sorted == Ranked(numSlots, numRoles, pairF1);
    perm := new int[numRoles](_ => -1);
    assert perm[..] == Unmapped(numRoles);
    UnmappedStart(numRoles, numSlots, pairF1, permF1, maxRolesPerSlot);
    assert (perm[..], None) == SlotsRun(sorted, numRoles, maxRolesPerSlot, permF1, 0);
    hide SlotsRun; hide Unmapped;
    assert GreedySlots(numSlots, numRoles, maxRolesPerSlot, pairF1, permF1) ==
           SlotsRun(sorted, numRoles, maxRolesPerSlot, permF1, |sorted|);
    hide *;
    var current;
    current, trace := SlotsLoop(perm, sorted, numSlots, maxRolesPerSlot, pairF1, permF1);
    GreedyStateFacts(perm[..], numSlots, pairF1, permF1, current, trace);
    if |sorted| > 0 && maxRolesPerSlot > 0 {
      GreedySlotsMapsTop(numSlots, numRoles, maxRolesPerSlot, pairF1, permF1);
    }
  }

  /** The loop of `greedyMultipleSlots`: every ranked pair tried in order, from the unmapped perm. */
  method SlotsLoop(perm: array<int>, sorted: seq<(int, int)>, numSlots: nat, maxRolesPerSlot: int,
                   pairF1: PairScores, permF1: seq<int> -> real)
    returns (current: Option<real>, ghost trace: seq<Step>)
    requires PairsInRange(sorted, perm.Length)
    requires forall i :: 0 <= i < |sorted| ==> sorted[i].0 < numSlots && Admitted(pairF1, true, sorted[i])
    requires GreedyState(perm[..], numSlots, pairF1, permF1, None, []) && SlotsCapped(perm[..], maxRolesPerSlot)
    requires (perm[..], None) == SlotsRun(sorted, perm.Length, maxRolesPerSlot, permF1, 0)
    modifies perm
    ensures GreedyState(perm[..], numSlots, pairF1, permF1, current, trace) && SlotsCapped(perm[..], maxRolesPerSlot)
    ensures (perm[..], current) == SlotsRun(sorted, perm.Length, maxRolesPerSlot, permF1, |sorted|)
  {
    hide *;
    current, trace := None, [];
    var index := 0;
    while index < |sorted|
      invariant 0 <= index <= |sorted|
      invariant GreedyState(perm[..], numSlots, pairF1, permF1, current, trace)
      invariant SlotsCapped(perm[..], maxRolesPerSlot)
      invariant (perm[..], current) == SlotsRun(sorted, perm.Length, maxRolesPerSlot, permF1, index)
    {
      current, trace := TrySlotsPair(perm, sorted, index, numSlots, maxRolesPerSlot, pairF1, permF1, current, trace);
      index := index + 1;
    }
  }

  /** One iteration of `greedyMultipleSlots`: the ranked pair at `index` tried when its slot is under the cap. */
  method TrySlotsPair(perm: array<int>, sorted: seq<(int, int)>, index: int, numSlots: nat, maxRolesPerSlot: int,
                      pairF1: PairScores, permF1: seq<int> -> real, current: Option<real>, ghost trace: seq<Step>)
    returns (next: Option<real>, ghost trace': seq<Step>)
    requires PairsInRange(sorted, perm.Length) && 0 <= index < |sorted|
    requires sorted[index].0 < numSlots && Admitted(pairF1, true, sorted[index])
    requires GreedyState(perm[..], numSlots, pairF1, permF1, current, trace) && SlotsCapped(perm[..], maxRolesPerSlot)
    requires (perm[..], current) == SlotsRun(sorted, perm.Length, maxRolesPerSlot, permF1, index)
    modifies perm
    ensures GreedyState(perm[..], numSlots, pairF1, permF1, next, trace') && SlotsCapped(perm[..], maxRolesPerSlot)
    ensures (perm[..], next) == SlotsRun(sorted, perm.Length, maxRolesPerSlot, permF1, index + 1)
  {
    var (sloti, rolei) := sorted[index];
    ghost var before := perm[..];
    var times := NumTimesSlotIsMapped(perm, sloti);
    next, trace' := current, trace;
    if times < maxRolesPerSlot {
      ghost var changed;
      next, trace', changed := GreedyStep(perm, sloti, rolei, numSlots, pairF1, permF1, current, trace);
      if changed {
        SlotsCappedUpdate(before, rolei, sloti, maxRolesPerSlot);
      }
    }
  }

  /** The admitted pairs of the given sizes in ranked order, each a slot and a role in range. */
  function Ranked(numSlots: nat, numRoles: nat, pairF1: PairScores): (sorted: seq<(int, int)>)
    ensures forall i :: 0 <= i < |sorted| ==> 0 <= sorted[i].0 < numSlots && 0 <= sorted[i].1 < numRoles
  {
    RankedPairsValid(numSlots, numRoles, pairF1, true);
    RankPairs(ScoredPairs(numSlots, numRoles, pairF1, true), pairF1, true)
  }

  /** Every pair names a slot that is not negative and a role below `numRoles`. */
  predicate PairsInRange(sorted: seq<(int, int)>, numRoles: nat) {
    forall i :: 0 <= i < |sorted| ==> sorted[i].0 >= 0 && 0 <= sorted[i].1 < numRoles
  }

  /** The perm with no role mapped. */
  function Unmapped(numRoles: nat): (perm: seq<int>)
    ensures |perm| == numRoles && forall r :: 0 <= r < numRoles ==> perm[r] == -1
  {
    seq(numRoles, _ => -1)
  }

  /**
   * The greedy run with at most `maxRolesPerSlot` roles per slot, on values:
   * from the unmapped perm, each of the first `k` pairs tried in order when
   * its slot is still under the cap; the perm and the running F1.
   */
  function SlotsRun(sorted: seq<(int, int)>, numRoles: nat, maxRolesPerSlot: int, permF1: seq<int> -> real, k: nat)
    : (r: (seq<int>, Option<real>))
    requires k <= |sorted| && PairsInRange(sorted, numRoles)
    ensures |r.0| == numRoles
    decreases k
  {
    if k == 0 then (Unmapped(numRoles), None)
    else
      var prev := SlotsRun(sorted, numRoles, maxRolesPerSlot, permF1, k - 1);
      var sloti, rolei := sorted[k - 1].0, sorted[k - 1].1;
      if Count(prev.0, sloti) < maxRolesPerSlot then TryMap(prev.0, sloti, rolei, prev.1, permF1) else prev
  }

  /** `greedyMultipleSlots` on values: every ranked pair tried. */
  function GreedySlots(numSlots: nat, numRoles: nat, maxRolesPerSlot: int, pairF1: PairScores, permF1: seq<int> -> real)
    : (seq<int>, Option<real>)
  {
    var sorted := Ranked(numSlots, numRoles, pairF1);
    SlotsRun(sorted, numRoles, maxRolesPerSlot, permF1, |sorted|)
  }

  /**
   * When some slot may take a role, the top-ranked pair is always taken:
   * its role stays mapped to the end and the run has a running F1.
   */
  lemma {:induction false} SlotsRunKeepsTop(sorted: seq<(int, int)>, numRoles: nat, maxRolesPerSlot: int,
                                            permF1: seq<int> -> real, k: nat)
    requires 1 <= k <= |sorted| && PairsInRange(sorted, numRoles) && maxRolesPerSlot > 0
    ensures var r := SlotsRun(sorted, numRoles, maxRolesPerSlot, permF1, k);
            r.0[sorted[0].1] >= 0 && r.1.Some?
    decreases k
  {
    var prev := SlotsRun(sorted, numRoles, maxRolesPerSlot, permF1, k - 1);
    var sloti, rolei := sorted[k - 1].0, sorted[k - 1].1;
    TryMapKeepsMapped(prev.0, sloti, rolei, prev.1, permF1);
    if k == 1 {
      CountAbsent(prev.0, sloti);
    } else {
      SlotsRunKeepsTop(sorted, numRoles, maxRolesPerSlot, permF1, k - 1);
    }
  }

  /** With a positive cap and an admitted pair, `greedyMultipleSlots` maps the top-ranked role. */
  lemma GreedySlotsMapsTop(numSlots: nat, numRoles: nat, maxRolesPerSlot: int, pairF1: PairScores, permF1: seq<int> -> real)
    requires |Ranked(numSlots, numRoles, pairF1)| > 0 && maxRolesPerSlot > 0
    ensures var r := GreedySlots(numSlots, numRoles, maxRolesPerSlot, pairF1, permF1);
            r.0[Ranked(numSlots, numRoles, pairF1)[0].1] >= 0 && r.1.Some?
  {
    var sorted := Ranked(numSlots, numRoles, pairF1);
    SlotsRunKeepsTop(sorted, numRoles, maxRolesPerSlot, permF1, |sorted|);
  }

  /**
   * The greedy run over templates, on values: from the unmapped perm, each of
   * the first `k` pairs tried in order when its role's template is in use or
   * fewer than `maxTemplatesToMap` are, and no role of that template has the
   * slot yet; the perm and the running F1.
   */
  function TemplatesRun(sorted: seq<(int, int)>, numRoles: nat, numTemplates: int, maxTemplatesToMap: int,
                        permF1: seq<int> -> real, k: nat)
    : (r: (seq<int>, Option<real>))
    requires k <= |sorted| && PairsInRange(sorted, numRoles) && Blocks(numRoles, numTemplates)
    ensures |r.0| == numRoles
    decreases k
  {
    if k == 0 then (Unmapped(numRoles), None)
    else
      var prev := TemplatesRun(sorted, numRoles, numTemplates, maxTemplatesToMap, permF1, k - 1);
      var sloti, rolei := sorted[k - 1].0, sorted[k - 1].1;
      if (RoleTemplateInUse(prev.0, numTemplates, rolei) || BlocksInUse(prev.0, numTemplates, numTemplates) < maxTemplatesToMap) &&
         !RoleTemplateMapsTo(prev.0, numTemplates, rolei, sloti)
      then TryMap(prev.0, sloti, rolei, prev.1, permF1)
      else prev
  }

  /** `greedyMultipleTemplates` on values: every ranked pair tried. */
  function GreedyTemplates(numSlots: nat, numRoles: nat, numTemplates: int, maxTemplatesToMap: int, pairF1: PairScores,
                           permF1: seq<int> -> real): (seq<int>, Option<real>)
    requires Blocks(numRoles, numTemplates)
  {
    var sorted := Ranked(numSlots, numRoles, pairF1);
    TemplatesRun(sorted, numRoles, numTemplates, maxTemplatesToMap, permF1, |sorted|)
  }

  /** On the unmapped perm no template holds a slot. */
  lemma UnmappedHoldsNoSlot(numRoles: nat, numTemplates: int, rolei: int, sloti: int)
    requires Blocks(numRoles, numTemplates) && 0 <= rolei < numRoles && sloti >= 0
    ensures !RoleTemplateMapsTo(Unmapped(numRoles), numTemplates, rolei, sloti)
  {
    var perm := Unmapped(numRoles);
    var b := RoleTemplate(numRoles, numTemplates, rolei);
    var block := Block(perm, numTemplates, b);
    BlockEnd(numRoles, numTemplates, b);
    forall j | 0 <= j < |block| ensures block[j] == -1 {
      assert block[j] == perm[b * BlockSize(numRoles, numTemplates) + j];
    }
  }

  /**
   * When at least one template may be used, the top-ranked pair is always
   * taken: its role stays mapped to the end and the run has a running F1.
   */
  lemma {:induction false} TemplatesRunKeepsTop(sorted: seq<(int, int)>, numRoles: nat, numTemplates: int,
                                                maxTemplatesToMap: int, permF1: seq<int> -> real, k: nat)
    requires 1 <= k <= |sorted| && PairsInRange(sorted, numRoles) && Blocks(numRoles, numTemplates) && maxTemplatesToMap > 0
    ensures var r := TemplatesRun(sorted, numRoles, numTemplates, maxTemplatesToMap, permF1, k);
            r.0[sorted[0].1] >= 0 && r.1.Some?
    decreases k
  {
    var prev := TemplatesRun(sorted, numRoles, numTemplates, maxTemplatesToMap, permF1, k - 1);
    var sloti, rolei := sorted[k - 1].0, sorted[k - 1].1;
    TryMapKeepsMapped(prev.0, sloti, rolei, prev.1, permF1);
    if k == 1 {
      BlocksInUseNone(prev.0, numTemplates, numTemplates);
      UnmappedHoldsNoSlot(numRoles, numTemplates, rolei, sloti);
    } else {
      TemplatesRunKeepsTop(sorted, numRoles, numTemplates, maxTemplatesToMap, permF1, k - 1);
    }
  }

  /** With room for a template and an admitted pair, `greedyMultipleTemplates` maps the top-ranked role. */
  lemma GreedyTemplatesMapsTop(numSlots: nat, numRoles: nat, numTemplates: int, maxTemplatesToMap: int,
                               pairF1: PairScores, permF1: seq<int> -> real)
    requires Blocks(numRoles, numTemplates)
    requires |Ranked(numSlots, numRoles, pairF1)| > 0 && maxTemplatesToMap > 0
    ensures var r := GreedyTemplates(numSlots, numRoles, numTemplates, maxTemplatesToMap, pairF1, permF1);
            r.0[Ranked(numSlots, numRoles, pairF1)[0].1] >= 0 && r.1.Some?
  {
    var sorted := Ranked(numSlots, numRoles, pairF1);
    TemplatesRunKeepsTop(sorted, numRoles, numTemplates, maxTemplatesToMap, permF1, |sorted|);
  }

  /** What the greedy state says of a finished run. */
  lemma GreedyStateFacts(perm: seq<int>, numSlots: int, pairF1: PairScores, permF1: seq<int> -> real,
                         current: Option<real>, trace: seq<Step>)
    requires GreedyState(perm, numSlots, pairF1, permF1, current, trace)
    ensures MappedAdmitted(perm, numSlots, pairF1, true) && AcceptedSteps(trace)
    ensures |trace| == 0 ==> forall r :: 0 <= r < |perm| ==> perm[r] == -1
    ensures |trace| > 0 ==> trace[|trace| - 1].f1 == permF1(perm)
    ensures |trace| > 0 <==> current.Some?
  {
  }

  /** The unmapped perm starts every greedy run: no step taken yet and every slot under any cap. */
  lemma UnmappedStart(numRoles: nat, numSlots: int, pairF1: PairScores, permF1: seq<int> -> real, max: int)
    ensures GreedyState(Unmapped(numRoles), numSlots, pairF1, permF1, None, [])
    ensures SlotsCapped(Unmapped(numRoles), max)
  {
    forall s | s >= 0 ensures Count(Unmapped(numRoles), s) <= Cap(max) {
      CountAbsent(Unmapped(numRoles), s);
    }
  }

  /** No slot has more than `max` roles mapped to it. */
  ghost predicate SlotsCapped(perm: seq<int>, max: int) {
    forall sloti :: sloti >= 0 ==> Count(perm, sloti) <= Cap(max)
  }

  /** Mapping one more role to a slot still under its cap keeps every slot capped. */
  lemma SlotsCappedUpdate(perm: seq<int>, rolei: int, sloti: int, max: int)
    requires SlotsCapped(perm, max) && 0 <= rolei < |perm| && sloti >= 0 && Count(perm, sloti) < max
    ensures SlotsCapped(perm[rolei := sloti], max)
  {
    var perm' := perm[rolei := sloti];
    forall s | s >= 0 ensures Count(perm', s) <= Cap(max) {
      CountUpdate(perm, rolei, sloti, s);
    }
  }

  /**
   * Maps roles to slots greedily, in ranked order, using roles of at most
   * `maxTemplatesToMap` learned templates and never two roles of one template
   * for the same slot; each step is kept as the acceptance rule allows.
   */
  method GreedyMultipleTemplates(numSlots: nat, numRoles: nat, numTemplates: int, maxTemplatesToMap: int,
                                 pairF1: PairScores, permF1: seq<int> -> real)
    returns (perm: array<int>, ghost trace: seq<Step>)
    requires Blocks(numRoles, numTemplates)
    ensures fresh(perm) && perm.Length == numRoles
    ensures MappedAdmitted(perm[..], numSlots, pairF1, true)
    ensures BlocksInUse(perm[..], numTemplates, numTemplates) <= Cap(maxTemplatesToMap)
    ensures DistinctInBlocks(perm[..], numTemplates)
    ensures AcceptedSteps(trace)
    ensures |trace| == 0 ==> forall r :: 0 <= r < numRoles ==> perm[r] == -1
    ensures |trace| > 0 ==> trace[|trace| - 1].f1 == permF1(perm[..])
    ensures perm[..] == GreedyTemplates(numSlots, numRoles, numTemplates, maxTemplatesToMap, pairF1, permF1).0
    ensures |trace| > 0 <==> GreedyTemplates(numSlots, numRoles, numTemplates, maxTemplatesToMap, pairF1, permF1).1.Some?
    ensures |Ranked(numSlots, numRoles, pairF1)| > 0 && maxTemplatesToMap > 0 ==>
              |trace| > 0 && perm[Ranked(numSlots, numRoles, pairF1)[0].1] >= 0
  {
    hide RankPairs; hide TryMap;
    var scored := ScorePairs(numSlots, numRoles, pairF1, true);
    var sorted := RankPairs(scored, pairF1, true);
    RankedPairsValid(numSlots, numRoles, pairF1, true);
    assert sorted == Ranked(numSlots, numRoles, pairF1);
    perm := new int[numRoles](_ => -1);
    assert perm[..] == Unmapped(numRoles);
    BlocksInUseNone(perm[..], numTemplates, numTemplates);
    UnmappedStart(numRoles, numSlots, pairF1, permF1, 0);
    assert DistinctInBlocks(perm[..], numTemplates);
    assert (perm[..], None) == TemplatesRun(sorted, numRoles, numTemplates, maxTemplatesToMap, permF1, 0);
    hide TemplatesRun; hide Unmapped;
    assert GreedyTemplates(numSlots, numRoles, numTemplates, maxTemplatesToMap, pairF1, permF1) ==
           TemplatesRun(sorted, numRoles, numTemplates, maxTemplatesToMap, permF1, |sorted|);
    hide *;
    var current;
    current, trace := TemplatesLoop(perm, sorted, numSlots, numTemplates, maxTemplatesToMap, pairF1, permF1);
    GreedyStateFacts(perm[..], numSlots, pairF1, permF1, current, trace);
    if |sorted| > 0 && maxTemplatesToMap > 0 {
      GreedyTemplatesMapsTop(numSlots, numRoles, numTemplates, maxTemplatesToMap, pairF1, permF1);
    }
  }

  /** The loop of `greedyMultipleTemplates`: every ranked pair tried in order, from the unmapped perm. */
  method TemplatesLoop(perm: array<int>, sorted: seq<(int, int)>, numSlots: nat, numTemplates: int, maxTemplatesToMap: int,
                       pairF1: PairScores, permF1: seq<int> -> real)
    returns (current: Option<real>, ghost trace: seq<Step>)
    requires Blocks(perm.Length, numTemplates) && PairsInRange(sorted, perm.Length)
    requires forall i :: 0 <= i < |sorted| ==> sorted[i].0 < numSlots && Admitted(pairF1, true, sorted[i])
    requires GreedyState(perm[..], numSlots, pairF1, permF1, None, [])
    requires BlocksInUse(perm[..], numTemplates, numTemplates) <= Cap(maxTemplatesToMap) && DistinctInBlocks(perm[..], numTemplates)
    requires (perm[..], None) == TemplatesRun(sorted, perm.Length, numTemplates, maxTemplatesToMap, permF1, 0)
    modifies perm
    ensures GreedyState(perm[..], numSlots, pairF1, permF1, current, trace)
    ensures BlocksInUse(perm[..], numTemplates, numTemplates) <= Cap(maxTemplatesToMap) && DistinctInBlocks(perm[..], numTemplates)
    ensures (perm[..], current) == TemplatesRun(sorted, perm.Length, numTemplates, maxTemplatesToMap, permF1, |sorted|)
  {
    assert numTemplates > 0;
    hide *;
    current, trace := None, [];
    var index := 0;
    while index < |sorted|
      invariant 0 <= index <= |sorted| && numTemplates > 0 && Blocks(perm.Length, numTemplates)
      invariant GreedyState(perm[..], numSlots, pairF1, permF1, current, trace)
      invariant BlocksInUse(perm[..], numTemplates, numTemplates) <= Cap(maxTemplatesToMap)
      invariant DistinctInBlocks(perm[..], numTemplates)
      invariant (perm[..], current) == TemplatesRun(sorted, perm.Length, numTemplates, maxTemplatesToMap, permF1, index)
    {
      current, trace := TryTemplatesPair(perm, sorted, index, numSlots, numTemplates, maxTemplatesToMap, pairF1, permF1, current, trace);
      index := index + 1;
    }
  }

  /**
   * One iteration of `greedyMultipleTemplates`: the ranked pair at `index`
   * tried when its role's template is in use or there is room for one more,
   * and no role of that template has the slot.
   */
  method TryTemplatesPair(perm: array<int>, sorted: seq<(int, int)>, index: int, numSlots: nat, numTemplates: int,
                          maxTemplatesToMap: int, pairF1: PairScores, permF1: seq<int> -> real, current: Option<real>,
                          ghost trace: seq<Step>)
    returns (next: Option<real>, ghost trace': seq<Step>)
    requires Blocks(perm.Length, numTemplates) && PairsInRange(sorted, perm.Length) && 0 <= index < |sorted|
    requires sorted[index].0 < numSlots && Admitted(pairF1, true, sorted[index])
    requires GreedyState(perm[..], numSlots, pairF1, permF1, current, trace)
    requires BlocksInUse(perm[..], numTemplates, numTemplates) <= Cap(maxTemplatesToMap) && DistinctInBlocks(perm[..], numTemplates)
    requires (perm[..], current) == TemplatesRun(sorted, perm.Length, numTemplates, maxTemplatesToMap, permF1, index)
    modifies perm
    ensures GreedyState(perm[..], numSlots, pairF1, permF1, next, trace')
    ensures BlocksInUse(perm[..], numTemplates, numTemplates) <= Cap(maxTemplatesToMap) && DistinctInBlocks(perm[..], numTemplates)
    ensures (perm[..], next) == TemplatesRun(sorted, perm.Length, numTemplates, maxTemplatesToMap, permF1, index + 1)
  {
    var (sloti, rolei) := sorted[index];
    ghost var before := perm[..];
    var inUse := RoleTemplateAlreadyInUse(perm, rolei, numTemplates);
    var templatesInUse := NumTemplatesInUse(perm, numTemplates);
    var sameSlot := RoleTemplateMapsToSlot(perm, rolei, sloti, numTemplates);
    next, trace' := current, trace;
    if (inUse || templatesInUse < maxTemplatesToMap) && !sameSlot {
      ghost var changed;
      next, trace', changed := GreedyStep(perm, sloti, rolei, numSlots, pairF1, permF1, current, trace);
      if changed {
        BlocksInUseUpdate(before, numTemplates, rolei, sloti, numTemplates);
        DistinctInBlocksUpdate(before, numTemplates, rolei, sloti);
      }
    }
  }

  /** No slot is used by two roles. */
  ghost predicate Injective(perm: seq<int>) {
    forall r1, r2 :: 0 <= r1 < r2 < |perm| && perm[r1] >= 0 ==> perm[r1] != perm[r2]
  }

  /** The sets of used slots and roles agree with the perm. */
  ghost predicate AlignState(perm: seq<int>, numSlots: int, pairF1: PairScores, slotsMapped: set<int>, rolesMapped: set<int>) {
    MappedAdmitted(perm, numSlots, pairF1, false) &&
    Injective(perm) &&
    (forall r :: 0 <= r < |perm| ==> (r in rolesMapped <==> perm[r] >= 0)) &&
    (forall x :: x in slotsMapped <==> x >= 0 && x in perm)
  }

  /** Takes the pair when both its slot and its role are still free. */
  method AlignStep(perm: array<int>, numSlots: int, pairF1: PairScores, slotsMapped: set<int>, rolesMapped: set<int>,
                   sloti: int, rolei: int)
    returns (slotsMapped': set<int>, rolesMapped': set<int>)
    requires 0 <= sloti < numSlots && 0 <= rolei < perm.Length && Admitted(pairF1, false, (sloti, rolei))
    requires AlignState(perm[..], numSlots, pairF1, slotsMapped, rolesMapped)
    modifies perm
    ensures AlignState(perm[..], numSlots, pairF1, slotsMapped', rolesMapped')
    ensures slotsMapped <= slotsMapped' && rolesMapped <= rolesMapped'
    ensures sloti in slotsMapped' || rolei in rolesMapped'
  {
    slotsMapped', rolesMapped' := slotsMapped, rolesMapped;
    if sloti !in slotsMapped && rolei !in rolesMapped {
      ghost var before := perm[..];
      slotsMapped' := slotsMapped + {sloti};
      rolesMapped' := rolesMapped + {rolei};
      perm[rolei] := sloti;
      assert perm[..] == before[rolei := sloti];
      forall x ensures x in slotsMapped' <==> x >= 0 && x in perm[..] {
        if x in perm[..] && x != sloti {
          var j :| 0 <= j < perm.Length && perm[j] == x;
          assert before[j] == x;
        }
        if x in before && x >= 0 {
          var j :| 0 <= j < perm.Length && before[j] == x;
          assert j != rolei;
          assert perm[j] == x;
        }
        assert perm[rolei] == sloti;
      }
    }
  }

  /**
   * Maps each slot to at most one role and each role to at most one slot,
   * taking pairs in ranked order (every pair with a numeric score) while both
   * ends are still free.
   */
  method GreedySlotAlignment(numSlots: nat, numRoles: nat, pairF1: PairScores) returns (perm: array<int>)
    ensures fresh(perm) && perm.Length == numRoles
    ensures MappedAdmitted(perm[..], numSlots, pairF1, false)
    ensures Injective(perm[..])
    ensures var sorted := RankPairs(ScoredPairs(numSlots, numRoles, pairF1, false), pairF1, false);
            forall k :: 0 <= k < |sorted| ==>
              sorted[k].0 in perm[..] || (0 <= sorted[k].1 < perm.Length && perm[sorted[k].1] >= 0)
  {
    var scored := ScorePairs(numSlots, numRoles, pairF1, false);
    RankedPairsValid(numSlots, numRoles, pairF1, false);
    var slotsMapped: set<int> := {};
    var rolesMapped: set<int> := {};
    perm := new int[numRoles](_ => -1);
    var sorted := RankPairs(scored, pairF1, false);
    var index := 0;
    while index < |sorted|
      invariant 0 <= index <= |sorted|
      invariant AlignState(perm[..], numSlots, pairF1, slotsMapped, rolesMapped)
      invariant Covered(sorted, index, slotsMapped, rolesMapped)
    {
      var (sloti, rolei) := sorted[index];
      ghost var slotsBefore, rolesBefore := slotsMapped, rolesMapped;
      slotsMapped, rolesMapped := AlignStep(perm, numSlots, pairF1, slotsMapped, rolesMapped, sloti, rolei);
      CoveredStep(sorted, index, slotsBefore, rolesBefore, slotsMapped, rolesMapped);
      index := index + 1;
    }
    CoveredInPerm(perm[..], numSlots, pairF1, sorted, slotsMapped, rolesMapped);
  }

  /** Each of the first `n` pairs has its slot or its role taken. */
  ghost predicate Covered(pairs: seq<(int, int)>, n: int, slots: set<int>, roles: set<int>)
    requires 0 <= n <= |pairs|
  {
    forall k :: 0 <= k < n ==> pairs[k].1 in roles || pairs[k].0 in slots
  }

  /** Taken slots and roles only grow, so a pair covered stays covered; the next one joins. */
  lemma CoveredStep(pairs: seq<(int, int)>, n: int, slots: set<int>, roles: set<int>, slots': set<int>, roles': set<int>)
    requires 0 <= n < |pairs| && Covered(pairs, n, slots, roles)
    requires slots <= slots' && roles <= roles' && (pairs[n].0 in slots' || pairs[n].1 in roles')
    ensures Covered(pairs, n + 1, slots', roles')
  {
    forall k | 0 <= k < n + 1 ensures pairs[k].1 in roles' || pairs[k].0 in slots' {
      if k < n {
        assert pairs[k].1 in roles || pairs[k].0 in slots;
      }
    }
  }

  /** Once every pair is covered, each has its slot used or its role mapped in the perm. */
  lemma CoveredInPerm(perm: seq<int>, numSlots: int, pairF1: PairScores, pairs: seq<(int, int)>,
                      slots: set<int>, roles: set<int>)
    requires AlignState(perm, numSlots, pairF1, slots, roles) && Covered(pairs, |pairs|, slots, roles)
    requires forall k :: 0 <= k < |pairs| ==> 0 <= pairs[k].1 < |perm|
    ensures forall k :: 0 <= k < |pairs| ==> pairs[k].0 in perm || (0 <= pairs[k].1 < |perm| && perm[pairs[k].1] >= 0)
  {
    forall k | 0 <= k < |pairs| ensures pairs[k].0 in perm || (0 <= pairs[k].1 < |perm| && perm[pairs[k].1] >= 0) {
      var (x, r) := pairs[k];
      if x in slots {
        assert x >= 0 && x in perm;
      } else {
        assert r in roles;
        assert perm[r] >= 0;
      }
    }
  }

  // ---------------------------------------------------------------------------
  // Template mapping and trimming

  /** One row of chosen roles per template type, with an entry for each type's slot index. */
  predicate TypeRoles(numRoles: int, typeRoles: seq<seq<int>>) {
    forall i :: 0 <= i < |typeRoles| ==>
      |typeRoles[i]| >= |typeRoles| && forall x :: 0 <= x < |typeRoles| ==> typeRoles[i][x] < numRoles
  }

  /**
   * The perm built from the best roles found for each gold template type:
   * `typeRoles[t][x]` is the role chosen for slot `x` (or -1), and a later
   * type overwrites an earlier one for the same role.
   */
  function ComposePerm(numRoles: nat, typeRoles: seq<seq<int>>, t: nat): (r: seq<int>)
    requires t <= |typeRoles|
    requires TypeRoles(numRoles, typeRoles)
    ensures |r| == numRoles
  {
    if t == 0 then seq(numRoles, _ => -1)
    else ComposeType(ComposePerm(numRoles, typeRoles, t - 1), typeRoles[t - 1], |typeRoles|, |typeRoles|)
  }

  /** Writes slot `x` into the entry of role `roles[x]`, for each `x < n` in turn. */
  function ComposeType(perm: seq<int>, roles: seq<int>, numTypes: nat, n: nat): (r: seq<int>)
    requires n <= numTypes <= |roles| && forall x :: 0 <= x < numTypes ==> roles[x] < |perm|
    ensures |r| == |perm|
  {
    if n == 0 then perm
    else
      var prev := ComposeType(perm, roles, numTypes, n - 1);
      if roles[n - 1] > -1 then prev[roles[n - 1] := n - 1] else prev
  }

  /** Each composed entry is -1 or a slot that the role was chosen for. */
  lemma {:induction false} ComposeTypeChosen(perm: seq<int>, roles: seq<int>, numTypes: nat, n: nat, r: int)
    requires n <= numTypes <= |roles| && forall x :: 0 <= x < numTypes ==> roles[x] < |perm|
    requires 0 <= r < |perm|
    ensures var c := ComposeType(perm, roles, numTypes, n);
            c[r] == perm[r] || (0 <= c[r] < n && roles[c[r]] == r)
    decreases n
  {
    if n > 0 {
      ComposeTypeChosen(perm, roles, numTypes, n - 1, r);
    }
  }

  lemma {:induction false} ComposePermChosen(numRoles: nat, typeRoles: seq<seq<int>>, t: nat, r: int)
    requires t <= |typeRoles|
    requires TypeRoles(numRoles, typeRoles)
    requires 0 <= r < numRoles
    ensures var c := ComposePerm(numRoles, typeRoles, t);
            c[r] == -1 || (0 <= c[r] < |typeRoles| && exists i :: 0 <= i < t && typeRoles[i][c[r]] == r)
    decreases t
  {
    if t > 0 {
      ComposePermChosen(numRoles, typeRoles, t - 1, r);
      ComposeTypeChosen(ComposePerm(numRoles, typeRoles, t - 1), typeRoles[t - 1], |typeRoles|, |typeRoles|, r);
    }
  }

  /** How far the F1 may drop when a mapping is removed before the mapping is restored. */
  const TrimTolerance: real := 0.001

  /**
   * The perm after the trimming pass has visited the first `n` roles: each
   * mapped role is unmapped, and mapped again only when the F1 without it
   * falls below `best - TrimTolerance`.
   */
  function Trimmed(perm: seq<int>, permF1: seq<int> -> real, best: real, n: nat): (r: seq<int>)
    requires n <= |perm|
    ensures |r| == |perm|
    ensures forall x :: n <= x < |perm| ==> r[x] == perm[x]
  {
    if n == 0 then perm
    else
      var prev := Trimmed(perm, permF1, best, n - 1);
      if prev[n - 1] > -1 && permF1(prev[n - 1 := -1]) >= best - TrimTolerance then prev[n - 1 := -1] else prev
  }

  /** Trimming only removes mappings. */
  lemma {:induction false} TrimOnlyRemoves(perm: seq<int>, permF1: seq<int> -> real, best: real, n: nat, x: int)
    requires n <= |perm| && 0 <= x < |perm|
    ensures Trimmed(perm, permF1, best, n)[x] in {perm[x], -1}
    decreases n
  {
    if n > 0 {
      TrimOnlyRemoves(perm, permF1, best, n - 1, x);
    }
  }

  /** Later steps do not revisit a role that has been decided. */
  lemma {:induction false} TrimDecided(perm: seq<int>, permF1: seq<int> -> real, best: real, n: nat, x: int)
    requires 0 <= x < n <= |perm|
    ensures Trimmed(perm, permF1, best, n)[x] == Trimmed(perm, permF1, best, x + 1)[x]
    decreases n
  {
    if n > x + 1 {
      TrimDecided(perm, permF1, best, n - 1, x);
    }
  }

  /**
   * A mapped role keeps its slot exactly when removing it, at its turn, drops
   * the F1 below `best - TrimTolerance`.
   */
  lemma TrimKeepsIff(perm: seq<int>, permF1: seq<int> -> real, best: real, x: int)
    requires 0 <= x < |perm| && perm[x] > -1
    ensures Trimmed(perm, permF1, best, |perm|)[x] == perm[x] <==>
            permF1(Trimmed(perm, permF1, best, x)[x := -1]) < best - TrimTolerance
  {
    TrimDecided(perm, permF1, best, |perm|, x);
  }

  /**
   * Removes the mappings whose removal does not lower the F1 of the whole perm
   * by more than `TrimTolerance` below the F1 the initial perm had.
   */
  method TrimMappings(perm: array<int>, permF1: seq<int> -> real) returns (revisedPerm: array<int>)
    ensures fresh(revisedPerm)
    ensures revisedPerm[..] == Trimmed(perm[..], permF1, permF1(perm[..]), perm.Length)
  {
    revisedPerm := new int[perm.Length];
    var xx := 0;
    while xx < revisedPerm.Length
      invariant 0 <= xx <= revisedPerm.Length
      invariant revisedPerm[..xx] == perm[..xx]
    {
      revisedPerm[xx] := perm[xx];
      xx := xx + 1;
    }
    assert revisedPerm[..] == perm[..];
    var bestOverall := permF1(revisedPerm[..]);
    xx := 0;
    while xx < perm.Length
      invariant 0 <= xx <= perm.Length
      invariant revisedPerm[..] == Trimmed(perm[..], permF1, bestOverall, xx)
    {
      if revisedPerm[xx] > -1 {
        revisedPerm[xx] := -1;
        var f1 := permF1(revisedPerm[..]);
        if f1 < bestOverall - TrimTolerance {
          revisedPerm[xx] := perm[xx];
        }
      }
      xx := xx + 1;
    }
  }

  /**
   * The template-type mapping: composes the roles chosen per gold template
   * type into one perm, then trims it.
   */
  method PermWithTemplateMapping(numLearnedRoles: nat, typeRoles: seq<seq<int>>, permF1: seq<int> -> real)
    returns (perm: array<int>)
    requires TypeRoles(numLearnedRoles, typeRoles)
    ensures fresh(perm)
    ensures var initial := ComposePerm(numLearnedRoles, typeRoles, |typeRoles|);
            perm[..] == Trimmed(initial, permF1, permF1(initial), numLearnedRoles)
  {
    var initial := new int[numLearnedRoles](_ => -1);
    var typei := 0;
    while typei < |typeRoles|
      invariant 0 <= typei <= |typeRoles|
      invariant initial[..] == ComposePerm(numLearnedRoles, typeRoles, typei)
    {
      var roles := typeRoles[typei];
      ghost var start := initial[..];
      var xx := 0;
      while xx < |typeRoles|
        invariant 0 <= xx <= |typeRoles|
        invariant initial[..] == ComposeType(start, roles, |typeRoles|, xx)
      {
        if roles[xx] > -1 {
          initial[roles[xx]] := xx;
        }
        xx := xx + 1;
      }
      typei := typei + 1;
    }
    perm := TrimMappings(initial, permF1);
  }

  // ---------------------------------------------------------------------------
  // Counting a perm against the answer key

  /** Correct, false-positive and false-negative counts. */
  datatype Counts = Counts(correct: int, falsePositives: int, missed: int) {
    function Plus(other: Counts): Counts {
      Counts(correct + other.correct, falsePositives + other.falsePositives, missed + other.missed)
    }
  }

  const NoCounts := Counts(0, 0, 0)

  /** The first three cells of an entity evaluation of guesses against golds. */
  type Evaluator = (seq<MUCEntity>, seq<string>) -> Counts

  /**
   * The documents under evaluation, in order, with the guessed entities of
   * each (`None` for a document without guesses); `goldSlots` gives, for a
   * story name, the gold entities of each of the `numSlots` slots over all its
   * templates, or `None` when the story has no templates.
   */
  datatype Corpus = Corpus(docNames: seq<string>, docGuesses: seq<Option<seq<TextEntity>>>,
                           goldSlots: string -> Option<seq<seq<MUCEntity>>>, numSlots: nat,
                           templateDocsOnly: bool, evaluate: Evaluator)

  /** One guess list per document, and one gold list per slot for every document with templates. */
  predicate WellFormed(c: Corpus) {
    |c.docGuesses| >= |c.docNames| &&
    forall d :: 0 <= d < |c.docNames| && c.goldSlots(c.docNames[d]).Some? ==>
      |c.goldSlots(c.docNames[d]).value| == c.numSlots
  }

  /** A perm whose entries index the gold slots, or say "unmapped". */
  predicate PermInRange(perm: seq<int>, numSlots: int) {
    forall r :: 0 <= r < |perm| ==> perm[r] < numSlots
  }

  /** Only the stories of the TST3 and TST4 test sets count false positives when they have no templates. */
  predicate IsTestStory(storyname: string) {
    StartsWith(ToLower(storyname), "tst3") || StartsWith(ToLower(storyname), "tst4")
  }

  predicate IsRequired(e: MUCEntity) {
    !e.optional
  }

  /** The gold entities that are not optional. */
  function RemoveOptionals(gold: seq<MUCEntity>): seq<MUCEntity> {
    Filter(gold, IsRequired)
  }

  /** How many entities carry the role's label. */
  function LabelledCount(entities: seq<TextEntity>, rolei: int): nat {
    if |entities| == 0 then 0
    else LabelledCount(entities[..|entities| - 1], rolei) + (if rolei in entities[|entities| - 1].labels then 1 else 0)
  }

  /** The raw core tokens of the entities labelled with the role, in order. */
  function RoleGuesses(entities: seq<TextEntity>, rolei: int): (r: seq<string>)
    ensures |r| == LabelledCount(entities, rolei)
  {
    if |entities| == 0 then []
    else
      var e := entities[|entities| - 1];
      RoleGuesses(entities[..|entities| - 1], rolei) + (if rolei in e.labels then [e.rawCoreToken] else [])
  }

  /** The guesses for a slot: those of each of the first `n` roles mapped to it, role by role. */
  function SlotGuesses(entities: seq<TextEntity>, perm: seq<int>, sloti: int, n: nat): seq<string>
    requires n <= |perm|
  {
    if n == 0 then []
    else SlotGuesses(entities, perm, sloti, n - 1) + (if perm[n - 1] == sloti then RoleGuesses(entities, n - 1) else [])
  }

  /** The entities labelled with any of the first `n` roles mapped to the slot. */
  function SlotLabelled(entities: seq<TextEntity>, perm: seq<int>, sloti: int, n: nat): nat
    requires n <= |perm|
  {
    if n == 0 then 0
    else SlotLabelled(entities, perm, sloti, n - 1) + (if perm[n - 1] == sloti then LabelledCount(entities, n - 1) else 0)
  }

  /** The first three cells of an entity evaluation: correct, incorrect, missed. */
  function EvaluationCounts(gold: seq<MUCEntity>, guesses: seq<string>, editDistance: (string, string) -> int): Counts {
    EvaluationLayout(gold, guesses, Matcher(editDistance), SimilarStrings);
    var m := Evaluation(Some(gold), guesses, editDistance);
    Counts(m[0], m[1], m[2])
  }

  /** The tester's entity evaluation as an `Evaluator`. */
  function EntityEvaluator(editDistance: (string, string) -> int): Evaluator {
    (gold: seq<MUCEntity>, guesses: seq<string>) => EvaluationCounts(gold, guesses, editDistance)
  }

  /**
   * What a document with templates and guesses adds to a slot: the evaluation
   * of the slot's guesses against its golds and, when no role is mapped to the
   * slot, its required golds once more as missed.
   */
  function MatchedSlotCounts(gold: seq<MUCEntity>, entities: seq<TextEntity>, perm: seq<int>, sloti: int,
                             evaluate: Evaluator): Counts {
    evaluate(gold, SlotGuesses(entities, perm, sloti, |perm|))
      .Plus(if sloti in perm then NoCounts else Counts(0, 0, |RemoveOptionals(gold)|))
  }

  /** What document `d` adds to the counts of slot `sloti`. */
  function DocSlotCounts(c: Corpus, perm: seq<int>, d: int, sloti: int): Counts
    requires WellFormed(c) && 0 <= d < |c.docNames| && 0 <= sloti < c.numSlots
  {
    var storyname := c.docNames[d];
    var gold := c.goldSlots(storyname);
    var entities := c.docGuesses[d];
    if c.templateDocsOnly && gold.None? then NoCounts
    else if gold.None? && entities.None? then NoCounts
    else if gold.None? then
      if IsTestStory(storyname) then Counts(0, SlotLabelled(entities.value, perm, sloti, |perm|), 0) else NoCounts
    else if entities.None? then Counts(0, 0, |RemoveOptionals(gold.value[sloti])|)
    else MatchedSlotCounts(gold.value[sloti], entities.value, perm, sloti, c.evaluate)
  }

  /** The counts of slot `sloti` over the first `n` documents. */
  function SlotTotals(c: Corpus, perm: seq<int>, sloti: int, n: nat): Counts
    requires WellFormed(c) && n <= |c.docNames| && 0 <= sloti < c.numSlots
  {
    if n == 0 then NoCounts else SlotTotals(c, perm, sloti, n - 1).Plus(DocSlotCounts(c, perm, n - 1, sloti))
  }

  /** A slot enters the overall counts only when it has a gold entity (a correct or a missed one). */
  function Scored(t: Counts): Counts {
    if t.correct + t.missed > 0 then t else NoCounts
  }

  /** The overall counts over the first `k` slots. */
  function OverallCounts(c: Corpus, perm: seq<int>, k: nat): Counts
    requires WellFormed(c) && k <= c.numSlots
  {
    if k == 0 then NoCounts else OverallCounts(c, perm, k - 1).Plus(Scored(SlotTotals(c, perm, k - 1, |c.docNames|)))
  }

  method CountLabelled(entities: seq<TextEntity>, rolei: int) returns (count: int)
    ensures count == LabelledCount(entities, rolei)
  {
    count := 0;
    var i := 0;
    while i < |entities|
      invariant 0 <= i <= |entities|
      invariant count == LabelledCount(entities[..i], rolei)
    {
      assert entities[..i + 1][..i] == entities[..i];
      if rolei in entities[i].labels {
        count := count + 1;
      }
      i := i + 1;
    }
    assert entities[..i] == entities;
  }

  method LabelledGuesses(entities: seq<TextEntity>, rolei: int) returns (guessed: seq<string>)
    ensures guessed == RoleGuesses(entities, rolei)
  {
    guessed := [];
    var i := 0;
    while i < |entities|
      invariant 0 <= i <= |entities|
      invariant guessed == RoleGuesses(entities[..i], rolei)
    {
      assert entities[..i + 1][..i] == entities[..i];
      if rolei in entities[i].labels {
        guessed := guessed + [entities[i].rawCoreToken];
      }
      i := i + 1;
    }
    assert entities[..i] == entities;
  }

  /** A document without templates: each mapped role's labelled entities are false positives of its slot. */
  method AddFalsePositives(slotResults: seq<Counts>, perm: array<int>, entities: seq<TextEntity>)
    returns (r: seq<Counts>)
    requires PermInRange(perm[..], |slotResults|)
    ensures |r| == |slotResults|
    ensures forall s :: 0 <= s < |r| ==> r[s] == slotResults[s].Plus(Counts(0, SlotLabelled(entities, perm[..], s, perm.Length), 0))
  {
    r := slotResults;
    var rolei := 0;
    while rolei < perm.Length
      invariant 0 <= rolei <= perm.Length && |r| == |slotResults|
      invariant forall s :: 0 <= s < |r| ==> r[s] == slotResults[s].Plus(Counts(0, SlotLabelled(entities, perm[..], s, rolei), 0))
    {
      var sloti := perm[rolei];
      if sloti > -1 {
        var falsePositives := CountLabelled(entities, rolei);
        r := r[sloti := r[sloti].Plus(Counts(0, falsePositives, 0))];
      }
      rolei := rolei + 1;
    }
  }

  /** A document with templates but no guesses: every required gold entity is missed. */
  method AddFalseNegatives(slotResults: seq<Counts>, goldSlots: seq<seq<MUCEntity>>) returns (r: seq<Counts>)
    requires |goldSlots| == |slotResults|
    ensures |r| == |slotResults|
    ensures forall s :: 0 <= s < |r| ==> r[s] == slotResults[s].Plus(Counts(0, 0, |RemoveOptionals(goldSlots[s])|))
  {
    r := slotResults;
    var sloti := 0;
    while sloti < |goldSlots|
      invariant 0 <= sloti <= |goldSlots| && |r| == |slotResults|
      invariant forall s :: 0 <= s < sloti ==> r[s] == slotResults[s].Plus(Counts(0, 0, |RemoveOptionals(goldSlots[s])|))
      invariant forall s :: sloti <= s < |r| ==> r[s] == slotResults[s]
    {
      r := r[sloti := r[sloti].Plus(Counts(0, 0, |RemoveOptionals(goldSlots[sloti])|))];
      sloti := sloti + 1;
    }
  }

  /** The guesses of every role mapped to the slot, and whether any role is. */
  method SlotGuessStrings(perm: array<int>, entities: seq<TextEntity>, sloti: int)
    returns (guessed: seq<string>, checked: bool)
    ensures guessed == SlotGuesses(entities, perm[..], sloti, perm.Length)
    ensures checked <==> sloti in perm[..]
  {
    guessed := [];
    checked := false;
    var rolei := 0;
    while rolei < perm.Length
      invariant 0 <= rolei <= perm.Length
      invariant guessed == SlotGuesses(entities, perm[..], sloti, rolei)
      invariant checked <==> sloti in perm[..rolei]
    {
      assert perm[..rolei + 1] == perm[..rolei] + [perm[rolei]];
      if perm[rolei] == sloti {
        var more := LabelledGuesses(entities, rolei);
        guessed := guessed + more;
        checked := true;
      }
      rolei := rolei + 1;
    }
    assert perm[..rolei] == perm[..];
  }

  /** One slot's guesses evaluated against its golds, and whether any role is mapped to the slot. */
  method ScoreSlotGuesses(perm: array<int>, gold: seq<MUCEntity>, entities: seq<TextEntity>, sloti: int,
                          evaluate: Evaluator)
    returns (counts: Counts, checked: bool)
    ensures counts == evaluate(gold, SlotGuesses(entities, perm[..], sloti, perm.Length))
    ensures checked <==> sloti in perm[..]
  {
    var guessedStrings;
    guessedStrings, checked := SlotGuessStrings(perm, entities, sloti);
    counts := evaluate(gold, guessedStrings);
  }

  /** Each slot's guesses evaluated against its golds; also which slots some role is mapped to. */
  method EvaluateSlotGuesses(slotResults: seq<Counts>, perm: array<int>, goldSlots: seq<seq<MUCEntity>>,
                             entities: seq<TextEntity>, evaluate: Evaluator)
    returns (r: seq<Counts>, slotsChecked: set<int>)
    requires |goldSlots| == |slotResults|
    ensures |r| == |slotResults|
    ensures forall s :: 0 <= s < |r| ==>
              r[s] == slotResults[s].Plus(evaluate(goldSlots[s], SlotGuesses(entities, perm[..], s, perm.Length)))
    ensures forall s :: 0 <= s < |r| ==> (s in slotsChecked <==> s in perm[..])
  {
    r := slotResults;
    slotsChecked := {};
    var sloti := 0;
    while sloti < |slotResults|
      invariant 0 <= sloti <= |slotResults| && |r| == |slotResults|
      invariant forall s :: 0 <= s < sloti ==>
                  r[s] == slotResults[s].Plus(evaluate(goldSlots[s], SlotGuesses(entities, perm[..], s, perm.Length)))
      invariant forall s :: sloti <= s < |r| ==> r[s] == slotResults[s]
      invariant forall s :: 0 <= s < |r| ==> (s in slotsChecked <==> s < sloti && s in perm[..])
    {
      var counts, checked := ScoreSlotGuesses(perm, goldSlots[sloti], entities, sloti, evaluate);
      if checked {
        slotsChecked := slotsChecked + {sloti};
      }
      r := r[sloti := r[sloti].Plus(counts)];
      sloti := sloti + 1;
    }
  }

  /** A document with templates and guesses: each slot's guesses against its golds, then the unmapped slots. */
  method AddMatches(slotResults: seq<Counts>, perm: array<int>, goldSlots: seq<seq<MUCEntity>>,
                    entities: seq<TextEntity>, evaluate: Evaluator)
    returns (r: seq<Counts>)
    requires |goldSlots| == |slotResults|
    ensures |r| == |slotResults|
    ensures forall s :: 0 <= s < |r| ==>
              r[s] == slotResults[s].Plus(MatchedSlotCounts(goldSlots[s], entities, perm[..], s, evaluate))
  {
    var slotsChecked;
    r, slotsChecked := EvaluateSlotGuesses(slotResults, perm, goldSlots, entities, evaluate);
    ghost var evaluated := r;
    var sloti := 0;
    while sloti < |goldSlots|
      invariant 0 <= sloti <= |goldSlots| && |r| == |slotResults|
      invariant forall s :: 0 <= s < sloti ==>
                  r[s] == evaluated[s].Plus(if s in perm[..] then NoCounts else Counts(0, 0, |RemoveOptionals(goldSlots[s])|))
      invariant forall s :: sloti <= s < |r| ==> r[s] == evaluated[s]
    {
      if sloti !in slotsChecked {
        r := r[sloti := r[sloti].Plus(Counts(0, 0, |RemoveOptionals(goldSlots[sloti])|))];
      }
      sloti := sloti + 1;
    }
  }

  /** The tester's entity evaluation, cut to its first three cells. */
  method EvaluateEntityCounts(gold: seq<MUCEntity>, guesses: seq<string>, editDistance: (string, string) -> int)
    returns (counts: Counts)
    ensures counts == EntityEvaluator(editDistance)(gold, guesses)
  {
    var matches := EvaluateEntities(Some(gold), guesses, editDistance);
    EvaluationLayout(gold, guesses, Matcher(editDistance), SimilarStrings);
    counts := Counts(matches[0], matches[1], matches[2]);
  }

  /** Adds the counts of the slots that have a gold entity, skipping the others. */
  method SumScoredSlots(c: Corpus, perm: seq<int>, slotResults: seq<Counts>) returns (allscores: Counts)
    requires WellFormed(c) && |slotResults| == c.numSlots
    requires forall s :: 0 <= s < c.numSlots ==> slotResults[s] == SlotTotals(c, perm, s, |c.docNames|)
    ensures allscores == OverallCounts(c, perm, c.numSlots)
  {
    allscores := NoCounts;
    var i := 0;
    while i < |slotResults|
      invariant 0 <= i <= |slotResults|
      invariant allscores == OverallCounts(c, perm, i)
    {
      var scores := slotResults[i];
      if scores.correct + scores.missed > 0 {
        allscores := allscores.Plus(scores);
      }
      i := i + 1;
    }
  }

  /**
   * Adds what document `d` contributes to each slot. A story without templates
   * outside the test sets is skipped: the early return stands for the
   * `continue` of the story loop, taken after the document index has advanced.
   */
  method AddDocument(c: Corpus, perm: array<int>, slotResults: seq<Counts>, d: int) returns (r: seq<Counts>)
    requires WellFormed(c) && PermInRange(perm[..], c.numSlots) && |slotResults| == c.numSlots
    requires 0 <= d < |c.docNames|
    ensures |r| == c.numSlots
    ensures forall s :: 0 <= s < c.numSlots ==> r[s] == slotResults[s].Plus(DocSlotCounts(c, perm[..], d, s))
  {
    r := slotResults;
    var storyname := c.docNames[d];
    var goldSlots := c.goldSlots(storyname);
    var entities := c.docGuesses[d];
    if c.templateDocsOnly && goldSlots.None? {
    } else if goldSlots.None? && entities.None? {
    } else if goldSlots.None? {
      if !IsTestStory(storyname) {
        return;
      }
      r := AddFalsePositives(slotResults, perm, entities.value);
    } else if entities.None? {
      r := AddFalseNegatives(slotResults, goldSlots.value);
    } else {
      r := AddMatches(slotResults, perm, goldSlots.value, entities.value, c.evaluate);
    }
  }

  /**
   * The counts of a perm over every document: per slot, then summed over the
   * slots that have a gold entity. The F1 of the perm is a function of these.
   */
  method EvaluateSlotsIgnoringEventTypes(c: Corpus, perm: array<int>) returns (allscores: Counts)
    requires WellFormed(c) && PermInRange(perm[..], c.numSlots)
    ensures allscores == OverallCounts(c, perm[..], c.numSlots)
  {
    var slotResults: seq<Counts> := seq(c.numSlots, _ => NoCounts);
    var docid := 0;
    while docid < |c.docNames|
      invariant 0 <= docid <= |c.docNames| && |slotResults| == c.numSlots
      invariant forall s :: 0 <= s < c.numSlots ==> slotResults[s] == SlotTotals(c, perm[..], s, docid)
    {
      slotResults := AddDocument(c, perm, slotResults, docid);
      docid := docid + 1;
    }
    allscores := SumScoredSlots(c, perm[..], slotResults);
  }

  /**
   * A document without templates adds neither correct nor missed entities to a
   * slot, and adds false positives only when it is a test story and the
   * evaluation is not restricted to documents with templates.
   */
  lemma NoTemplateDocFalsePositivesOnly(c: Corpus, perm: seq<int>, d: int, sloti: int)
    requires WellFormed(c) && 0 <= d < |c.docNames| && 0 <= sloti < c.numSlots
    requires c.goldSlots(c.docNames[d]).None?
    ensures DocSlotCounts(c, perm, d, sloti).correct == 0 && DocSlotCounts(c, perm, d, sloti).missed == 0
    ensures c.templateDocsOnly || !IsTestStory(c.docNames[d]) || c.docGuesses[d].None? ==>
              DocSlotCounts(c, perm, d, sloti) == NoCounts
    ensures !c.templateDocsOnly && IsTestStory(c.docNames[d]) && c.docGuesses[d].Some? ==>
              DocSlotCounts(c, perm, d, sloti).falsePositives == SlotLabelled(c.docGuesses[d].value, perm, sloti, |perm|)
  {
  }

  /** Slots no document gives a gold entity leave the overall counts untouched, false positives and all. */
  lemma {:induction false} UnscoredSlotsIgnored(c: Corpus, perm: seq<int>, k: nat)
    requires WellFormed(c) && k <= c.numSlots
    requires forall s :: 0 <= s < k ==> SlotTotals(c, perm, s, |c.docNames|).correct + SlotTotals(c, perm, s, |c.docNames|).missed == 0
    ensures OverallCounts(c, perm, k) == NoCounts
    decreases k
  {
    if k > 0 {
      UnscoredSlotsIgnored(c, perm, k - 1);
      var t := SlotTotals(c, perm, k - 1, |c.docNames|);
      assert t.correct + t.missed == 0;
      assert Scored(t) == NoCounts;
    }
  }

  // ---------------------------------------------------------------------------
  // One role against one slot

  /** What document `d` adds when only `rolei` is evaluated against slot `sloti`. */
  function DocRoleCounts(c: Corpus, d: int, sloti: int, rolei: int): Counts
    requires WellFormed(c) && 0 <= d < |c.docNames| && 0 <= sloti < c.numSlots
  {
    var storyname := c.docNames[d];
    var gold := c.goldSlots(storyname);
    var entities := c.docGuesses[d];
    if c.templateDocsOnly && gold.None? then NoCounts
    else if gold.None? && entities.None? then NoCounts
    else if gold.None? then
      if IsTestStory(storyname) then Counts(0, LabelledCount(entities.value, rolei), 0) else NoCounts
    else if entities.None? then Counts(0, 0, |RemoveOptionals(gold.value[sloti])|)
    else c.evaluate(gold.value[sloti], RoleGuesses(entities.value, rolei))
  }

  function RoleTotals(c: Corpus, sloti: int, rolei: int, n: nat): Counts
    requires WellFormed(c) && n <= |c.docNames| && 0 <= sloti < c.numSlots
  {
    if n == 0 then NoCounts else RoleTotals(c, sloti, rolei, n - 1).Plus(DocRoleCounts(c, n - 1, sloti, rolei))
  }

  method AddDocumentForRole(c: Corpus, overall: Counts, d: int, sloti: int, rolei: int) returns (r: Counts)
    requires WellFormed(c) && 0 <= d < |c.docNames| && 0 <= sloti < c.numSlots
    ensures r == overall.Plus(DocRoleCounts(c, d, sloti, rolei))
  {
    r := overall;
    var storyname := c.docNames[d];
    var goldSlots := c.goldSlots(storyname);
    var entities := c.docGuesses[d];
    if c.templateDocsOnly && goldSlots.None? {
    } else if goldSlots.None? && entities.None? {
    } else if goldSlots.None? {
      if !IsTestStory(storyname) {
        return;
      }
      var falsePositives := CountLabelled(entities.value, rolei);
      r := overall.Plus(Counts(0, falsePositives, 0));
    } else if entities.None? {
      r := overall.Plus(Counts(0, 0, |RemoveOptionals(goldSlots.value[sloti])|));
    } else {
      var guessedStrings := LabelledGuesses(entities.value, rolei);
      var matches := c.evaluate(goldSlots.value[sloti], guessedStrings);
      r := overall.Plus(matches);
    }
  }

  /** The counts of one learned role mapped to one gold slot, over every document. */
  method EvaluateSlot(c: Corpus, sloti: int, rolei: int) returns (overall: Counts)
    requires WellFormed(c) && 0 <= sloti < c.numSlots
    ensures overall == RoleTotals(c, sloti, rolei, |c.docNames|)
  {
    overall := NoCounts;
    var docid := 0;
    while docid < |c.docNames|
      invariant 0 <= docid <= |c.docNames|
      invariant overall == RoleTotals(c, sloti, rolei, docid)
    {
      overall := AddDocumentForRole(c, overall, docid, sloti, rolei);
      docid := docid + 1;
    }
  }

  /** The perm mapping only `rolei`, to `sloti`. */
  function OnlyRole(numRoles: nat, sloti: int, rolei: int): (r: seq<int>)
    ensures |r| == numRoles && forall k :: 0 <= k < numRoles ==> r[k] == if k == rolei then sloti else -1
  {
    seq(numRoles, k => if k == rolei then sloti else -1)
  }

  lemma {:induction false} OnlyRoleGuesses(entities: seq<TextEntity>, numRoles: nat, sloti: int, rolei: int, n: nat)
    requires 0 <= rolei < numRoles && sloti >= 0 && n <= numRoles
    ensures SlotGuesses(entities, OnlyRole(numRoles, sloti, rolei), sloti, n) == if rolei < n then RoleGuesses(entities, rolei) else []
    ensures SlotLabelled(entities, OnlyRole(numRoles, sloti, rolei), sloti, n) == if rolei < n then LabelledCount(entities, rolei) else 0
    decreases n
  {
    hide RoleGuesses; hide LabelledCount;
    if n > 0 {
      var perm := OnlyRole(numRoles, sloti, rolei);
      OnlyRoleGuesses(entities, numRoles, sloti, rolei, n - 1);
      assert SlotGuesses(entities, perm, sloti, n) == SlotGuesses(entities, perm, sloti, n - 1)
        + (if perm[n - 1] == sloti then RoleGuesses(entities, n - 1) else []);
      assert SlotLabelled(entities, perm, sloti, n) == SlotLabelled(entities, perm, sloti, n - 1)
        + (if perm[n - 1] == sloti then LabelledCount(entities, n - 1) else 0);
      hide SlotGuesses; hide SlotLabelled;
      if n - 1 == rolei {
        assert perm[n - 1] == sloti;
        assert [] + RoleGuesses(entities, rolei) == RoleGuesses(entities, rolei);
      } else {
        assert perm[n - 1] == -1;
        assert SlotGuesses(entities, perm, sloti, n - 1) + [] == SlotGuesses(entities, perm, sloti, n - 1);
      }
    }
  }

  /** One document: evaluating one role against one slot counts what the perm mapping only that role there counts. */
  lemma DocSlotIsOneRole(c: Corpus, numRoles: nat, sloti: int, rolei: int, d: int)
    requires WellFormed(c) && 0 <= d < |c.docNames| && 0 <= sloti < c.numSlots && 0 <= rolei < numRoles
    ensures DocSlotCounts(c, OnlyRole(numRoles, sloti, rolei), d, sloti) == DocRoleCounts(c, d, sloti, rolei)
  {
    var perm := OnlyRole(numRoles, sloti, rolei);
    OnlyRoleGuesses(if c.docGuesses[d].Some? then c.docGuesses[d].value else [], numRoles, sloti, rolei, numRoles);
    assert perm[rolei] == sloti;
  }

  /**
   * Evaluating one role against one slot counts, for that slot, what the perm
   * mapping only that role to that slot counts.
   */
  lemma {:induction false} EvaluateSlotIsOneRolePerm(c: Corpus, numRoles: nat, sloti: int, rolei: int, n: nat)
    requires WellFormed(c) && n <= |c.docNames| && 0 <= sloti < c.numSlots && 0 <= rolei < numRoles
    ensures SlotTotals(c, OnlyRole(numRoles, sloti, rolei), sloti, n) == RoleTotals(c, sloti, rolei, n)
    decreases n
  {
    if n > 0 {
      EvaluateSlotIsOneRolePerm(c, numRoles, sloti, rolei, n - 1);
      DocSlotIsOneRole(c, numRoles, sloti, rolei, n - 1);
    }
  }

  // ---------------------------------------------------------------------------
  // Unmapped slots: the counts as written and as intended

  /** Golds no guess matched: none correct, and every required one missed. */
  lemma {:induction false} UnmatchedGolds(gs: seq<MUCEntity>, counts: seq<int>)
    requires |counts| == |gs| && forall j :: 0 <= j < |counts| ==> counts[j] == 0
    ensures Positives(counts) == 0 && Missed(gs, counts) == |RemoveOptionals(gs)|
    decreases |gs|
  {
    if |gs| > 0 {
      UnmatchedGolds(gs[..|gs| - 1], counts[..|counts| - 1]);
    }
  }

  /** The entity evaluation of no guesses: nothing correct or incorrect, every required gold missed. */
  lemma NoGuessesEvaluation(gold: seq<MUCEntity>, editDistance: (string, string) -> int)
    ensures EvaluationCounts(gold, [], editDistance) == Counts(0, 0, |RemoveOptionals(gold)|)
  {
    var counts := GoldMatchCounts(gold, [], Matcher(editDistance));
    UnmatchedGolds(gold, counts);
    assert MatchedFlags(gold, [], Matcher(editDistance)) == [];
  }

  /** An evaluator that, given no guesses, counts exactly the required golds as missed. */
  ghost predicate MissesUnguessed(evaluate: Evaluator) {
    forall gold: seq<MUCEntity> :: evaluate(gold, []) == Counts(0, 0, |RemoveOptionals(gold)|)
  }

  /** An evaluator that counts each gold at most once, as correct or as missed. */
  ghost predicate CountsEachGoldOnce(evaluate: Evaluator) {
    forall gold: seq<MUCEntity>, guesses: seq<string> ::
      evaluate(gold, guesses).correct + evaluate(gold, guesses).missed <= |gold|
  }

  /** The tester's entity evaluation has both properties. */
  lemma EntityEvaluatorProperties(editDistance: (string, string) -> int)
    ensures MissesUnguessed(EntityEvaluator(editDistance))
    ensures CountsEachGoldOnce(EntityEvaluator(editDistance))
  {
    forall gold: seq<MUCEntity> ensures EntityEvaluator(editDistance)(gold, []) == Counts(0, 0, |RemoveOptionals(gold)|) {
      NoGuessesEvaluation(gold, editDistance);
    }
    forall gold: seq<MUCEntity>, guesses: seq<string>
      ensures EntityEvaluator(editDistance)(gold, guesses).correct + EntityEvaluator(editDistance)(gold, guesses).missed <= |gold|
    {
      EvaluationLayout(gold, guesses, Matcher(editDistance), SimilarStrings);
    }
  }

  /** No role mapped to a slot leaves it no guesses. */
  lemma {:induction false} UnmappedSlotNoGuesses(entities: seq<TextEntity>, perm: seq<int>, sloti: int, n: nat)
    requires n <= |perm| && sloti !in perm
    ensures SlotGuesses(entities, perm, sloti, n) == []
    decreases n
  {
    if n > 0 {
      assert perm[n - 1] in perm;
      UnmappedSlotNoGuesses(entities, perm, sloti, n - 1);
    }
  }

  /**
   * As written, a document with templates and guesses counts every required
   * gold of a slot no role maps to as missed twice: once by the evaluation of
   * the slot's (empty) guesses and once more for the slot being unchecked.
   */
  lemma UnmappedSlotMissedTwice(c: Corpus, perm: seq<int>, d: int, sloti: int)
    requires WellFormed(c) && 0 <= d < |c.docNames| && 0 <= sloti < c.numSlots
    requires c.goldSlots(c.docNames[d]).Some? && c.docGuesses[d].Some?
    requires sloti !in perm && MissesUnguessed(c.evaluate)
    ensures DocSlotCounts(c, perm, d, sloti) == Counts(0, 0, 2 * |RemoveOptionals(c.goldSlots(c.docNames[d]).value[sloti])|)
  {
    UnmappedSlotNoGuesses(c.docGuesses[d].value, perm, sloti, |perm|);
  }

  /** A one-document corpus whose only slot has one required gold entity. */
  function OneGoldCorpus(evaluate: Evaluator): Corpus {
    Corpus(["TST3-MUC4-0001"], [Some([])],
           (name: string) => Some([OneGold]),
           1, false, evaluate)
  }

  const OneGold: seq<MUCEntity> := [MUCEntity(["john smith"], false)]

  lemma OneGoldRequired()
    ensures RemoveOptionals(OneGold) == OneGold
  {
    assert OneGold == [] + [OneGold[0]];
  }

  /** With no role mapped, the document of `OneGoldCorpus` misses its one gold entity twice. */
  lemma OneGoldDocMissedTwice(evaluate: Evaluator)
    requires MissesUnguessed(evaluate)
    ensures WellFormed(OneGoldCorpus(evaluate))
    ensures DocSlotCounts(OneGoldCorpus(evaluate), [-1], 0, 0) == Counts(0, 0, 2)
  {
    var c := OneGoldCorpus(evaluate);
    assert c.goldSlots(c.docNames[0]) == Some([OneGold]);
    OneGoldRequired();
    UnmappedSlotMissedTwice(c, [-1], 0, 0);
  }

  lemma PlusNoCounts(x: Counts)
    ensures NoCounts.Plus(x) == x
  {
  }

  /** Over one document and one slot, the overall counts are that document's counts, when scored. */
  lemma SingleDocSingleSlot(c: Corpus, perm: seq<int>)
    requires WellFormed(c) && |c.docNames| == 1 && c.numSlots == 1
    ensures OverallCounts(c, perm, 1) == Scored(DocSlotCounts(c, perm, 0, 0))
  {
    var d := DocSlotCounts(c, perm, 0, 0);
    assert SlotTotals(c, perm, 0, 1) == NoCounts.Plus(d);
    PlusNoCounts(d);
    assert OverallCounts(c, perm, 1) == NoCounts.Plus(Scored(SlotTotals(c, perm, 0, 1)));
    PlusNoCounts(Scored(d));
  }

  /** With no role mapped, the one gold entity of `OneGoldCorpus` is missed twice overall. */
  lemma OneGoldMissedTwice(evaluate: Evaluator)
    requires MissesUnguessed(evaluate)
    ensures WellFormed(OneGoldCorpus(evaluate))
    ensures OverallCounts(OneGoldCorpus(evaluate), [-1], 1) == Counts(0, 0, 2)
  {
    OneGoldDocMissedTwice(evaluate);
    var c := OneGoldCorpus(evaluate);
    SingleDocSingleSlot(c, [-1]);
  }

  /**
   * What document `d` adds to slot `sloti` when each gold is counted once: the
   * evaluation of the slot's guesses, which already counts an unmapped slot's
   * required golds as missed.
   */
  function CorrectedDocSlotCounts(c: Corpus, perm: seq<int>, d: int, sloti: int): Counts
    requires WellFormed(c) && 0 <= d < |c.docNames| && 0 <= sloti < c.numSlots
  {
    var storyname := c.docNames[d];
    var gold := c.goldSlots(storyname);
    var entities := c.docGuesses[d];
    if c.templateDocsOnly && gold.None? then NoCounts
    else if gold.None? && entities.None? then NoCounts
    else if gold.None? then
      if IsTestStory(storyname) then Counts(0, SlotLabelled(entities.value, perm, sloti, |perm|), 0) else NoCounts
    else if entities.None? then Counts(0, 0, |RemoveOptionals(gold.value[sloti])|)
    else c.evaluate(gold.value[sloti], SlotGuesses(entities.value, perm, sloti, |perm|))
  }

  /** The correction changes nothing for a slot some role maps to. */
  lemma CorrectedAgreesWhenMapped(c: Corpus, perm: seq<int>, d: int, sloti: int)
    requires WellFormed(c) && 0 <= d < |c.docNames| && 0 <= sloti < c.numSlots && sloti in perm
    ensures CorrectedDocSlotCounts(c, perm, d, sloti) == DocSlotCounts(c, perm, d, sloti)
  {
  }

  /**
   * Corrected, a document counts each gold entity of a slot at most once, as
   * correct or as missed, whether or not a role maps to the slot; an unmapped
   * slot's required golds are missed exactly once.
   */
  lemma CorrectedGoldCountedOnce(c: Corpus, perm: seq<int>, d: int, sloti: int)
    requires WellFormed(c) && 0 <= d < |c.docNames| && 0 <= sloti < c.numSlots
    requires c.goldSlots(c.docNames[d]).Some? && MissesUnguessed(c.evaluate) && CountsEachGoldOnce(c.evaluate)
    ensures var t := CorrectedDocSlotCounts(c, perm, d, sloti);
            t.correct + t.missed <= |c.goldSlots(c.docNames[d]).value[sloti]|
    ensures sloti !in perm ==>
              CorrectedDocSlotCounts(c, perm, d, sloti) == Counts(0, 0, |RemoveOptionals(c.goldSlots(c.docNames[d]).value[sloti])|)
  {
    FilterLength(c.goldSlots(c.docNames[d]).value[sloti], IsRequired);
    if c.docGuesses[d].Some? && sloti !in perm {
      UnmappedSlotNoGuesses(c.docGuesses[d].value, perm, sloti, |perm|);
    }
  }
}
