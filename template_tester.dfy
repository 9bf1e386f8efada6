/**
 * Scoring of guessed entity strings against the gold entities of a MUC template:
 * the string-matching rules, the per-document evaluation vector, and the running
 * totals kept per evaluation type.
 */
module TemplateTester {
  import opened Wrappers
  import opened Strings
  import opened Seqs

  /** A gold entity: its alternative descriptions, and whether the key marks it optional. */
  datatype MUCEntity = MUCEntity(mentions: seq<string>, optional: bool)

  // ---------------------------------------------------------------------------
  // String matching

  /** The parser writes parentheses as -LRB- / -RRB-; they are turned back for comparison with the key. */
  function ReplaceParentheses(str: string): (r: string)
    ensures !Contains(str, "RB-") && !Contains(str, "rb-") ==> r == str
  {
    if Contains(str, "RB-") || Contains(str, "rb-") then
      var a := ReplaceAll(str, "-LRB- ", "(");
      var b := ReplaceAll(a, " -RRB-", ")");
      var c := ReplaceAll(b, "-lrb- ", "(");
      ReplaceAll(c, " -rrb-", ")")
    else str
  }

  /**
   * Two guesses name the same thing: equal up to case, one is the other plus a
   * plural ending (up to case), or one ends with the other (possibly plus "s" or "es").
   */
  predicate SimilarStrings(one: string, two: string) {
    EqualsIgnoreCase(one, two) ||
    EqualsIgnoreCase(one, two + "s") || EqualsIgnoreCase(one, two + "es") ||
    EndsWith(one, two) || EndsWith(two, one) ||
    EndsWith(one, two + "s") || EndsWith(two, one + "s") || EndsWith(one, two + "es") || EndsWith(two, one + "es")
  }

  lemma SimilarStringsReflexive(s: string)
    ensures SimilarStrings(s, s)
  {
  }

  lemma SimilarWhenSuffix(one: string, two: string)
    requires EndsWith(one, two) || EndsWith(two, one)
    ensures SimilarStrings(one, two) && SimilarStrings(two, one)
  {
  }

  /**
   * The relation is not symmetric: the case-insensitive plural test only looks
   * at the first argument as the plural.
   */
  lemma SimilarStringsNotSymmetric()
    ensures SimilarStrings("CATS", "cat")
    ensures !SimilarStrings("cat", "CATS")
  {
    assert ToLower("CATS") == "cats";
    assert ToLower("cat" + "s") == "cats";
    assert ToLower("cat") == "cat";
    assert ToLower("CATS") != ToLower("cat");
    assert ToLower("CATS" + "s") == "catss";
    assert ToLower("CATS" + "es") == "catses";
    assert "CATS"[1..][0] != "cat"[0];
    assert !EndsWith("CATS", "cat");
    assert "CATS"[0] != "cats"[0];
    assert !EndsWith("CATS", "cat" + "s");
  }

  /** The last space-separated word of `s` (all of `s` when it has no space). */
  function RightmostWord(s: string): (r: string)
    ensures EndsWith(s, r)
    ensures forall i :: 0 <= i < |r| ==> r[i] != ' '
  {
    var k := LastIndexOfChar(s, ' ');
    if k >= 0 then
      assert s[|s| - |s[k + 1..]|..] == s[k + 1..];
      s[k + 1..]
    else
      assert s[|s| - |s|..] == s;
      s
  }

  /** `p` occurs in `s`, and its first occurrence starts `s` or follows a space. */
  predicate FirstOccurrenceStartsWord(s: string, p: string) {
    var i := IndexOf(s, p);
    i > -1 && (i == 0 || s[i - 1] == ' ')
  }

  /**
   * The tests against one gold description `mention0`, for a guess already
   * cleaned and lower-cased. Containment (either way) at a word start matches
   * unless "of " precedes the contained string; such an "of" hit disables the
   * rightmost-word test. Long strings also match by a small edit distance.
   */
  predicate MentionMatches(mention0: string, guess: string, editDistance: (string, string) -> int) {
    var mention := ToLower(mention0);
    var mentionInGuess := FirstOccurrenceStartsWord(guess, mention);
    var guessInMention := FirstOccurrenceStartsWord(mention, guess);
    var ofMatch := (mentionInGuess && Contains(guess, "of " + mention)) ||
                   (guessInMention && Contains(mention, "of " + guess));
    (mentionInGuess && !Contains(guess, "of " + mention)) ||
    (guessInMention && !Contains(mention, "of " + guess)) ||
    (|guess| > 15 && |mention| > 15 && -5 < |guess| - |mention| < 5 &&
     editDistance(guess, mention) < |guess| / 6) ||
    (!ofMatch && RightmostWord(mention) == RightmostWord(guess))
  }

  /** The guess, with parentheses restored and lower-cased, as the matcher compares it. */
  function CleanGuess(guess: string): string {
    ToLower(ReplaceParentheses(guess))
  }

  /** The guess matches the gold entity when it matches one of its descriptions. */
  predicate StringMatchToMUCEntity(gold: MUCEntity, guess: string, editDistance: (string, string) -> int) {
    exists k :: 0 <= k < |gold.mentions| && MentionMatches(gold.mentions[k], CleanGuess(guess), editDistance)
  }

  /** A description equal to the guess up to case always matches. */
  lemma {:induction false} ExactMatchMatches(gold: MUCEntity, k: int, guess: string, editDistance: (string, string) -> int)
    requires 0 <= k < |gold.mentions|
    requires !Contains(guess, "RB-") && !Contains(guess, "rb-")
    requires EqualsIgnoreCase(gold.mentions[k], guess)
    ensures StringMatchToMUCEntity(gold, guess, editDistance)
  {
    var g := CleanGuess(guess);
    var m := ToLower(gold.mentions[k]);
    assert g == m;
    PrefixContains(g, m);
    assert FirstOccurrenceStartsWord(g, m);
    assert !Contains(g, "of " + m);
    assert MentionMatches(gold.mentions[k], g, editDistance);
  }

  lemma SmithAtFive()
    ensures IndexOf("john smith", "smith") == 5
  {
    assert "john smith" == "john " + "smith";
    OccursAfterPrefix("john ", "smith");
    IndexOfFirstChar("john smith", "smith", 5);
  }

  lemma NoOfSmith()
    ensures !Contains("john smith", "of smith")
  {
    NotContainsFirstPair("john smith", "of smith");
  }

  lemma SmithStartsWord()
    ensures FirstOccurrenceStartsWord("john smith", "smith")
    ensures !Contains("john smith", "of " + "smith")
  {
    SmithAtFive();
    SpaceBeforeSmith();
    StartsWordAfterSpace("john smith", "smith", 5);
    NoOfSmith();
    OfSmith();
  }

  lemma SpaceBeforeSmith()
    ensures "john smith"[4] == ' '
  {
  }

  lemma OfSmith()
    ensures "of " + "smith" == "of smith"
  {
  }

  lemma SmithCleaned()
    ensures CleanGuess("Smith") == "smith"
    ensures ToLower("John Smith") == "john smith"
  {
    NotContainsFirstChar("Smith", "RB-");
    NotContainsFirstChar("Smith", "rb-");
  }

  /** "Smith" is contained in "John Smith" right after a space, so it matches. */
  lemma SurnameMatchesFullName(editDistance: (string, string) -> int)
    ensures StringMatchToMUCEntity(MUCEntity(["John Smith"], false), "Smith", editDistance)
  {
    SmithCleaned();
    SmithStartsWord();
    assert MentionMatches("John Smith", "smith", editDistance);
    assert MUCEntity(["John Smith"], false).mentions[0] == "John Smith";
  }

  /**
   * When the description occurs in the guess at a word start but right after
   * "of ", and the guess is short and not inside the description, the
   * description does not match, whatever the rightmost words are.
   */
  lemma OfMatchDisablesRightmost(mention0: string, guess: string, editDistance: (string, string) -> int)
    requires FirstOccurrenceStartsWord(guess, ToLower(mention0)) && Contains(guess, "of " + ToLower(mention0))
    requires !FirstOccurrenceStartsWord(ToLower(mention0), guess)
    requires |guess| <= 15
    ensures !MentionMatches(mention0, guess, editDistance)
  {
  }

  lemma OhioAtNine()
    ensures IndexOf("party of ohio", "ohio") == 9
  {
    assert "party of ohio" == "party of " + "ohio";
    OccursAfterPrefix("party of ", "ohio");
    IndexOfFirstPair("party of ohio", "ohio", 9);
  }

  lemma OfOhioInside()
    ensures Contains("party of ohio", "of " + "ohio")
  {
    assert "party of ohio" == "party " + "of ohio";
    assert "of " + "ohio" == "of ohio";
    OccursAfterPrefix("party ", "of ohio");
    OccursAtContains("party of ohio", "of ohio", 6);
  }

  lemma OhioCleaned()
    ensures CleanGuess("Party of Ohio") == "party of ohio"
    ensures ToLower("Ohio") == "ohio"
  {
    NotContainsFirstChar("Party of Ohio", "RB-");
    NotContainsFirstPair("Party of Ohio", "rb-");
  }

  /**
   * "Party of Ohio" does not match the gold "Ohio": the containment is rejected
   * for the "of", and that also switches off the equal rightmost words.
   */
  lemma PartyOfOhioDoesNotMatch(editDistance: (string, string) -> int)
    ensures !StringMatchToMUCEntity(MUCEntity(["Ohio"], false), "Party of Ohio", editDistance)
  {
    OhioCleaned();
    OhioStartsWord();
    OfOhioInside();
    GuessLongerThanOhio();
    OfMatchDisablesRightmost("Ohio", "party of ohio", editDistance);
  }

  lemma OhioStartsWord()
    ensures FirstOccurrenceStartsWord("party of ohio", "ohio")
  {
    OhioAtNine();
    SpaceBeforeOhio();
    StartsWordAfterSpace("party of ohio", "ohio", 9);
  }

  lemma SpaceBeforeOhio()
    ensures "party of ohio"[8] == ' '
  {
  }

  /** A first occurrence right after a space starts a word. */
  lemma StartsWordAfterSpace(s: string, p: string, i: int)
    requires IndexOf(s, p) == i && 0 < i <= |s| && s[i - 1] == ' '
    ensures FirstOccurrenceStartsWord(s, p)
  {
  }

  lemma GuessLongerThanOhio()
    ensures !FirstOccurrenceStartsWord("ohio", "party of ohio")
  {
    assert IndexOf("ohio", "party of ohio") == -1;
  }

  // ---------------------------------------------------------------------------
  // Unmatched guesses that repeat one another

  /**
   * Guess `j` has been marked as a duplicate once the scan has passed the first
   * `n` positions: it is unmatched, and an earlier active guess before `n` is
   * similar to it.
   */
  predicate MarkedBefore<T>(g: seq<T>, matched: seq<int>, similar: (T, T) -> bool, j: int, n: int)
    requires |matched| == |g| && 0 <= j < |g|
    decreases j, 0
  {
    matched[j] == 0 &&
    exists i :: 0 <= i < n && i < j && Active(g, matched, similar, i) && similar(g[i], g[j])
  }

  /** Guess `i` starts a comparison: it is unmatched and no earlier active guess marked it. */
  predicate Active<T>(g: seq<T>, matched: seq<int>, similar: (T, T) -> bool, i: int)
    requires |matched| == |g| && 0 <= i < |g|
    decreases i, 1
  {
    matched[i] == 0 && !MarkedBefore(g, matched, similar, i, i)
  }

  /** The unmatched guesses among positions (i, n) that are similar to guess `i`. */
  function SimilarAfter<T>(g: seq<T>, matched: seq<int>, similar: (T, T) -> bool, i: int, n: int): nat
    requires |matched| == |g| && 0 <= i < |g| && n <= |g|
    decreases n
  {
    if n <= i + 1 then 0
    else SimilarAfter(g, matched, similar, i, n - 1) + (if matched[n - 1] == 0 && similar(g[i], g[n - 1]) then 1 else 0)
  }

  /** The pairs counted by the scan over the first `n` starting positions. */
  function DuplicateCount<T>(g: seq<T>, matched: seq<int>, similar: (T, T) -> bool, n: int): nat
    requires |matched| == |g| && 0 <= n <= |g|
  {
    if n == 0 then 0
    else DuplicateCount(g, matched, similar, n - 1) +
         (if Active(g, matched, similar, n - 1) then SimilarAfter(g, matched, similar, n - 1, |g|) else 0)
  }

  /** The last starting position the scan uses is the second-to-last guess. */
  function ScanEnd(n: int): int {
    if n > 0 then n - 1 else 0
  }

  lemma MarkedBeforeStep<T>(g: seq<T>, matched: seq<int>, similar: (T, T) -> bool, j: int, n: int)
    requires |matched| == |g| && 0 <= j < |g| && 0 <= n < |g|
    ensures MarkedBefore(g, matched, similar, j, n + 1) <==>
            MarkedBefore(g, matched, similar, j, n) ||
            (n < j && matched[j] == 0 && Active(g, matched, similar, n) && similar(g[n], g[j]))
  {
    if n < j && matched[j] == 0 && Active(g, matched, similar, n) && similar(g[n], g[j]) {
      assert MarkedBefore(g, matched, similar, j, n + 1);
    }
  }

  lemma MarkedBeforeAll<T>(g: seq<T>, matched: seq<int>, similar: (T, T) -> bool, n: int)
    requires |matched| == |g| && 0 <= n < |g|
    ensures forall j :: 0 <= j < |g| ==>
              (MarkedBefore(g, matched, similar, j, n + 1) <==>
               MarkedBefore(g, matched, similar, j, n) ||
               (n < j && matched[j] == 0 && Active(g, matched, similar, n) && similar(g[n], g[j])))
  {
    forall j | 0 <= j < |g|
      ensures MarkedBefore(g, matched, similar, j, n + 1) <==>
              MarkedBefore(g, matched, similar, j, n) ||
              (n < j && matched[j] == 0 && Active(g, matched, similar, n) && similar(g[n], g[j]))
    {
      MarkedBeforeStep(g, matched, similar, j, n);
    }
  }

  /**
   * The inner scan from an active guess `ii`: marks the later unmatched guesses
   * similar to it and returns how many it marked.
   */
  method MarkSimilar<T>(guesses: seq<T>, matched: seq<int>, similar: (T, T) -> bool, ii: int, found: seq<bool>)
    returns (found': seq<bool>, added: int)
    requires |matched| == |guesses| == |found| && 0 <= ii < |guesses|
    ensures |found'| == |found|
    ensures forall j :: 0 <= j < |found| ==> found'[j] == (found[j] || (ii < j && matched[j] == 0 && similar(guesses[ii], guesses[j])))
    ensures added == SimilarAfter(guesses, matched, similar, ii, |guesses|)
  {
    found' := found;
    added := 0;
    var jj := ii + 1;
    while jj < |guesses|
      invariant ii + 1 <= jj <= |guesses|
      invariant |found'| == |found|
      invariant forall j :: 0 <= j < |found| ==> found'[j] == (found[j] || (ii < j < jj && matched[j] == 0 && similar(guesses[ii], guesses[j])))
      invariant added == SimilarAfter(guesses, matched, similar, ii, jj)
    {
      if matched[jj] == 0 && similar(guesses[ii], guesses[jj]) {
        found' := found'[jj := true];
        added := added + 1;
      }
      jj := jj + 1;
    }
  }

  /**
   * For each unmatched guess not already marked, counts the later unmatched
   * guesses similar to it, marking them. A later guess is counted once for
   * every active guess it resembles, so it can be counted several times.
   */
  method DuplicatesThatWereWrong<T>(guesses: seq<T>, matched: seq<int>, similar: (T, T) -> bool) returns (dups: int)
    requires |matched| == |guesses|
    ensures dups == DuplicateCount(guesses, matched, similar, ScanEnd(|guesses|))
  {
    var n := |guesses|;
    var found := seq(n, _ => false);
    dups := 0;
    var ii := 0;
    while ii < n - 1
      invariant 0 <= ii <= ScanEnd(n)
      invariant |found| == n
      invariant forall j :: 0 <= j < n ==> found[j] == MarkedBefore(guesses, matched, similar, j, ii)
      invariant dups == DuplicateCount(guesses, matched, similar, ii)
    {
      MarkedBeforeAll(guesses, matched, similar, ii);
      if matched[ii] == 0 && !found[ii] {
        assert Active(guesses, matched, similar, ii);
        var added;
        found, added := MarkSimilar(guesses, matched, similar, ii, found);
        dups := dups + added;
      } else {
        assert !Active(guesses, matched, similar, ii);
      }
      ii := ii + 1;
    }
  }

  /**
   * The count can exceed the number of unmatched guesses: with five unmatched
   * guesses where the first three each resemble the last two, six pairs are
   * counted, so the reported number of incorrect guesses becomes -1.
   */
  lemma {:induction false} DuplicatesCanExceedUnmatched<T>(g: seq<T>, similar: (T, T) -> bool)
    requires |g| == 5
    requires forall i, j :: 0 <= i < 3 && 3 <= j < 5 ==> similar(g[i], g[j])
    requires forall i, j :: 0 <= i < j < 3 ==> !similar(g[i], g[j])
    ensures DuplicateCount(g, [0, 0, 0, 0, 0], similar, ScanEnd(|g|)) == 6
  {
    var m := [0, 0, 0, 0, 0];
    assert !MarkedBefore(g, m, similar, 0, 0);
    assert Active(g, m, similar, 0);
    assert !MarkedBefore(g, m, similar, 1, 1);
    assert Active(g, m, similar, 1);
    assert !MarkedBefore(g, m, similar, 2, 2);
    assert Active(g, m, similar, 2);
    assert MarkedBefore(g, m, similar, 3, 3);
    assert !Active(g, m, similar, 3);
    assert SimilarAfter(g, m, similar, 0, 3) == 0;
    assert SimilarAfter(g, m, similar, 0, 5) == 2;
    assert SimilarAfter(g, m, similar, 1, 3) == 0;
    assert SimilarAfter(g, m, similar, 1, 5) == 2;
    assert SimilarAfter(g, m, similar, 2, 5) == 2;
    assert DuplicateCount(g, m, similar, 1) == 2;
    assert DuplicateCount(g, m, similar, 2) == 4;
    assert DuplicateCount(g, m, similar, 3) == 6;
    assert DuplicateCount(g, m, similar, 4) == 6;
  }

  /** Two different letters, each followed by "a", are not similar. */
  lemma DifferentFirstLetters(x: char, y: char)
    requires 'a' <= x <= 'z' && 'a' <= y <= 'z' && x != y
    ensures !SimilarStrings([x, 'a'], [y, 'a'])
  {
    assert ToLower([x, 'a'])[0] == x;
    assert ToLower([y, 'a'])[0] == y;
  }

  /**
   * Five unmatched guesses "ba", "ca", "da", "a", "a" count six duplicate pairs,
   * one more than there are unmatched guesses.
   */
  lemma StringDuplicatesExceedUnmatched()
    ensures DuplicateCount(["ba", "ca", "da", "a", "a"], [0, 0, 0, 0, 0], SimilarStrings, ScanEnd(5)) == 6
  {
    var g := ["ba", "ca", "da", "a", "a"];
    forall i, j | 0 <= i < 3 && 3 <= j < 5 ensures SimilarStrings(g[i], g[j]) {
      assert EndsWith(g[i], g[j]);
    }
    assert g[0] == ['b', 'a'] && g[1] == ['c', 'a'] && g[2] == ['d', 'a'];
    forall i, j | 0 <= i < j < 3 ensures !SimilarStrings(g[i], g[j]) {
      if i == 0 && j == 1 {
        DifferentFirstLetters('b', 'c');
      } else if i == 0 {
        DifferentFirstLetters('b', 'd');
      } else {
        DifferentFirstLetters('c', 'd');
      }
    }
    DuplicatesCanExceedUnmatched(g, SimilarStrings);
  }

  /** With no two similar unmatched guesses, nothing is counted. */
  lemma {:induction false} NoSimilarPairNoDuplicates<T>(g: seq<T>, matched: seq<int>, similar: (T, T) -> bool, n: int)
    requires |matched| == |g| && 0 <= n <= |g|
    requires forall i, j :: 0 <= i < j < |g| && matched[i] == 0 && matched[j] == 0 ==> !similar(g[i], g[j])
    ensures DuplicateCount(g, matched, similar, n) == 0
    decreases n
  {
    if n > 0 {
      NoSimilarPairNoDuplicates(g, matched, similar, n - 1);
      if Active(g, matched, similar, n - 1) {
        NoSimilarAfter(g, matched, similar, n - 1, |g|);
      }
    }
  }

  lemma {:induction false} NoSimilarAfter<T>(g: seq<T>, matched: seq<int>, similar: (T, T) -> bool, i: int, n: int)
    requires |matched| == |g| && 0 <= i < |g| && n <= |g| && matched[i] == 0
    requires forall j :: i < j < n && matched[j] == 0 ==> !similar(g[i], g[j])
    ensures SimilarAfter(g, matched, similar, i, n) == 0
    decreases n
  {
    if n > i + 1 {
      NoSimilarAfter(g, matched, similar, i, n - 1);
    }
  }

  // ---------------------------------------------------------------------------
  // The evaluation vector of one document

  /** The gold list, with an absent list read as empty. */
  function GoldList(golds: Option<seq<MUCEntity>>): seq<MUCEntity> {
    if golds.Some? then golds.value else []
  }

  /** The matcher the evaluation uses, as a relation between a gold and a guess. */
  function Matcher(editDistance: (string, string) -> int): (MUCEntity, string) -> bool {
    (gold: MUCEntity, guess: string) => StringMatchToMUCEntity(gold, guess, editDistance)
  }

  /** How many of the first `n` guesses match `gold`. */
  function MatchCount(gold: MUCEntity, guesses: seq<string>, matches: (MUCEntity, string) -> bool, n: int): nat
    requires 0 <= n <= |guesses|
  {
    if n == 0 then 0
    else MatchCount(gold, guesses, matches, n - 1) + (if matches(gold, guesses[n - 1]) then 1 else 0)
  }

  /** Some gold entity matches the guess. */
  predicate GuessMatched(golds: seq<MUCEntity>, guess: string, matches: (MUCEntity, string) -> bool) {
    exists j :: 0 <= j < |golds| && matches(golds[j], guess)
  }

  /** The number of positive entries. */
  function Positives(counts: seq<int>): nat {
    if |counts| == 0 then 0
    else Positives(counts[..|counts| - 1]) + (if counts[|counts| - 1] > 0 then 1 else 0)
  }

  /** The number of zero entries. */
  function Zeros(flags: seq<int>): nat {
    if |flags| == 0 then 0
    else Zeros(flags[..|flags| - 1]) + (if flags[|flags| - 1] == 0 then 1 else 0)
  }

  /** The golds that no guess matched and that the key does not mark optional. */
  function Missed(golds: seq<MUCEntity>, counts: seq<int>): nat
    requires |counts| == |golds|
  {
    if |counts| == 0 then 0
    else Missed(golds[..|golds| - 1], counts[..|counts| - 1]) +
         (if counts[|counts| - 1] <= 0 && !golds[|golds| - 1].optional then 1 else 0)
  }

  /** Per guess, 1 when it matched some gold and 0 otherwise. */
  function MatchedFlags(golds: seq<MUCEntity>, guesses: seq<string>, matches: (MUCEntity, string) -> bool): seq<int> {
    seq(|guesses|, i requires 0 <= i < |guesses| => if GuessMatched(golds, guesses[i], matches) then 1 else 0)
  }

  /** Per gold, the number of guesses that matched it. */
  function GoldMatchCounts(golds: seq<MUCEntity>, guesses: seq<string>, matches: (MUCEntity, string) -> bool): seq<int> {
    seq(|golds|, j requires 0 <= j < |golds| => MatchCount(golds[j], guesses, matches, |guesses|))
  }

  /**
   * The vector for one document under a given matcher and similarity:
   * correct, incorrect (unmatched guesses less their repeats) and missed; then
   * the per-guess flags; then the per-gold match counts.
   */
  function EvaluationWith(gs: seq<MUCEntity>, guesses: seq<string>, matches: (MUCEntity, string) -> bool,
                          similar: (string, string) -> bool): seq<int> {
    var flags := MatchedFlags(gs, guesses, matches);
    var counts := GoldMatchCounts(gs, guesses, matches);
    [Positives(counts),
     Zeros(flags) - DuplicateCount(guesses, flags, similar, ScanEnd(|guesses|)),
     Missed(gs, counts)] + flags + counts
  }

  /** The vector the evaluation computes, with the matching and similarity rules above. */
  function Evaluation(golds: Option<seq<MUCEntity>>, guesses: seq<string>, editDistance: (string, string) -> int): seq<int> {
    EvaluationWith(GoldList(golds), guesses, Matcher(editDistance), SimilarStrings)
  }

  /** Tests one guess against every gold (no early exit), counting each match. */
  method MatchGuess(golds: seq<MUCEntity>, guess: string, matches: (MUCEntity, string) -> bool, matched: seq<int>)
    returns (matched': seq<int>, foundmatch: bool)
    requires |matched| == |golds|
    ensures |matched'| == |golds|
    ensures forall j :: 0 <= j < |golds| ==>
              matched'[j] == matched[j] + (if matches(golds[j], guess) then 1 else 0)
    ensures foundmatch <==> GuessMatched(golds, guess, matches)
  {
    matched' := matched;
    foundmatch := false;
    var i := 0;
    while i < |golds|
      invariant 0 <= i <= |golds|
      invariant |matched'| == |golds|
      invariant forall j :: 0 <= j < |golds| ==>
                  matched'[j] == matched[j] + (if j < i && matches(golds[j], guess) then 1 else 0)
      invariant foundmatch <==> exists j :: 0 <= j < i && matches(golds[j], guess)
    {
      if matches(golds[i], guess) {
        matched' := matched'[i := matched'[i] + 1];
        foundmatch := true;
      }
      i := i + 1;
    }
  }

  /** Counts the golds matched at least once, and the non-optional golds never matched. */
  method CorrectAndMissed(golds: seq<MUCEntity>, matched: seq<int>) returns (correct: int, missed: int)
    requires |matched| == |golds|
    ensures correct == Positives(matched) && missed == Missed(golds, matched)
  {
    correct, missed := 0, 0;
    var ii := 0;
    while ii < |matched|
      invariant 0 <= ii <= |matched|
      invariant correct == Positives(matched[..ii]) && missed == Missed(golds[..ii], matched[..ii])
    {
      assert matched[..ii + 1][..ii] == matched[..ii];
      assert golds[..ii + 1][..ii] == golds[..ii];
      if matched[ii] > 0 {
        correct := correct + 1;
      } else if !golds[ii].optional {
        missed := missed + 1;
      }
      ii := ii + 1;
    }
    assert matched[..ii] == matched && golds[..ii] == golds;
  }

  /** Tests every guess against every gold, recording per-gold counts and per-guess flags. */
  method MatchAll(gs: seq<MUCEntity>, guesses: seq<string>, matches: (MUCEntity, string) -> bool)
    returns (matched: seq<int>, guessesMatched: seq<int>, notmatched: int)
    ensures matched == GoldMatchCounts(gs, guesses, matches)
    ensures guessesMatched == MatchedFlags(gs, guesses, matches)
    ensures notmatched == Zeros(guessesMatched)
  {
    matched := seq(|gs|, _ => 0);
    notmatched := 0;
    guessesMatched := seq(|guesses|, _ => 0);
    ghost var flags := MatchedFlags(gs, guesses, matches);
    var guessi := 0;
    while guessi < |guesses|
      invariant 0 <= guessi <= |guesses|
      invariant |matched| == |gs| && |guessesMatched| == |guesses|
      invariant forall j :: 0 <= j < |gs| ==> matched[j] == MatchCount(gs[j], guesses, matches, guessi)
      invariant forall i :: 0 <= i < |guesses| ==> guessesMatched[i] == if i < guessi then flags[i] else 0
      invariant notmatched == Zeros(flags[..guessi])
    {
      var foundmatch;
      matched, foundmatch := MatchGuess(gs, guesses[guessi], matches, matched);
      assert flags[..guessi + 1][..guessi] == flags[..guessi];
      if !foundmatch {
        notmatched := notmatched + 1;
      } else {
        guessesMatched := guessesMatched[guessi := 1];
      }
      guessi := guessi + 1;
    }
    assert flags[..guessi] == flags;
  }

  /** Scores the guesses of one document against its gold entities. */
  method EvaluateEntities(golds: Option<seq<MUCEntity>>, guesses: seq<string>, editDistance: (string, string) -> int)
    returns (counts: seq<int>)
    ensures counts == Evaluation(golds, guesses, editDistance)
  {
    var gs := GoldList(golds);
    var matched, guessesMatched, notmatched := MatchAll(gs, guesses, Matcher(editDistance));
    var correct, missed := CorrectAndMissed(gs, matched);
    var numdups := DuplicatesThatWereWrong(guesses, guessesMatched, SimilarStrings);
    var incorrect := notmatched - numdups;
    counts := [correct, incorrect, missed] + guessesMatched + matched;
  }

  /** A gold's count is positive exactly when some guess matches it. */
  lemma {:induction false} MatchCountPositive(gold: MUCEntity, guesses: seq<string>, matches: (MUCEntity, string) -> bool, n: int)
    requires 0 <= n <= |guesses|
    ensures MatchCount(gold, guesses, matches, n) > 0 <==> exists i :: 0 <= i < n && matches(gold, guesses[i])
    decreases n
  {
    if n > 0 {
      MatchCountPositive(gold, guesses, matches, n - 1);
    }
  }

  lemma {:induction false} PositivesPlusMissed(golds: seq<MUCEntity>, counts: seq<int>)
    requires |counts| == |golds|
    ensures Positives(counts) + Missed(golds, counts) <= |golds|
    decreases |golds|
  {
    if |golds| > 0 {
      PositivesPlusMissed(golds[..|golds| - 1], counts[..|counts| - 1]);
    }
  }

  /**
   * The vector has 3 + |guesses| + |golds| cells: cell 3 + i is 1 exactly when
   * guess i matched a gold (0 otherwise), cell 3 + |guesses| + j counts the
   * guesses matching gold j, and correct plus missed is at most the number of golds.
   */
  lemma EvaluationLayout(gs: seq<MUCEntity>, guesses: seq<string>, matches: (MUCEntity, string) -> bool,
                         similar: (string, string) -> bool)
    ensures var e := EvaluationWith(gs, guesses, matches, similar);
            |e| == 3 + |guesses| + |gs| &&
            (forall i :: 0 <= i < |guesses| ==>
               ((e[3 + i] == 1 <==> GuessMatched(gs, guesses[i], matches)) && (e[3 + i] == 0 || e[3 + i] == 1))) &&
            (forall j :: 0 <= j < |gs| ==> e[3 + |guesses| + j] == MatchCount(gs[j], guesses, matches, |guesses|)) &&
            e[0] + e[2] <= |gs|
  {
    PositivesPlusMissed(gs, GoldMatchCounts(gs, guesses, matches));
  }

  /**
   * A gold's cell is positive exactly when some guess matches it; since every
   * guess is compared with every gold, a guess matching two golds makes both
   * cells positive.
   */
  lemma GoldCellPositive(gs: seq<MUCEntity>, guesses: seq<string>, matches: (MUCEntity, string) -> bool,
                         similar: (string, string) -> bool, j: int)
    requires 0 <= j < |gs|
    ensures EvaluationWith(gs, guesses, matches, similar)[3 + |guesses| + j] > 0 <==>
            exists i :: 0 <= i < |guesses| && matches(gs[j], guesses[i])
  {
    MatchCountPositive(gs[j], guesses, matches, |guesses|);
  }

  lemma NoEarlyExit(gs: seq<MUCEntity>, guesses: seq<string>, matches: (MUCEntity, string) -> bool,
                    similar: (string, string) -> bool, i: int, j1: int, j2: int)
    requires 0 <= i < |guesses| && 0 <= j1 < |gs| && 0 <= j2 < |gs|
    requires matches(gs[j1], guesses[i]) && matches(gs[j2], guesses[i])
    ensures EvaluationWith(gs, guesses, matches, similar)[3 + |guesses| + j1] > 0
    ensures EvaluationWith(gs, guesses, matches, similar)[3 + |guesses| + j2] > 0
  {
    GoldCellPositive(gs, guesses, matches, similar, j1);
    GoldCellPositive(gs, guesses, matches, similar, j2);
  }

  /** One gold, the first of two guesses matching it: the vector is [1, 1, 0, 1, 0, 1]. */
  lemma OneOfTwoMatches(gold: MUCEntity, guesses: seq<string>, matches: (MUCEntity, string) -> bool,
                        similar: (string, string) -> bool)
    requires |guesses| == 2 && matches(gold, guesses[0]) && !matches(gold, guesses[1])
    ensures EvaluationWith([gold], guesses, matches, similar) == [1, 1, 0, 1, 0, 1]
  {
    var gs := [gold];
    assert gs[0] == gold;
    assert GuessMatched(gs, guesses[0], matches);
    assert !GuessMatched(gs, guesses[1], matches);
    var flags := MatchedFlags(gs, guesses, matches);
    assert flags == [1, 0];
    assert MatchCount(gold, guesses, matches, 1) == 1;
    assert MatchCount(gold, guesses, matches, 2) == 1;
    assert GoldMatchCounts(gs, guesses, matches) == [1];
    assert !Active(guesses, flags, similar, 0);
    assert DuplicateCount(guesses, flags, similar, ScanEnd(2)) == 0;
    assert Zeros(flags) == 1 by {
      assert flags[..|flags| - 1] == [1];
      assert Zeros([1]) == 0 by {
        assert [1][..0] == [];
      }
    }
    assert Positives([1]) == 1 by {
      assert [1][..0] == [];
    }
    assert Missed(gs, [1]) == 0 by {
      assert [1][..0] == [] && gs[..0] == [];
    }
    assert [1, 1, 0] + [1, 0] + [1] == [1, 1, 0, 1, 0, 1];
  }

  lemma CarNotInSmith()
    ensures CleanGuess("a car") == "a car"
    ensures RightmostWord("a car") == "car"
    ensures RightmostWord("john smith") == "smith"
    ensures IndexOf("john smith", "a car") == -1
  {
    NotContainsFirstChar("a car", "RB-");
    NotContainsFirstPair("a car", "rb-");
    assert "a car"[1] == ' ' && "a car"[2] != ' ' && "a car"[3] != ' ' && "a car"[4] != ' ';
    assert "john smith"[4] == ' ';
    assert forall j :: 4 < j < 10 ==> "john smith"[j] != ' ';
    NotContainsFirstChar("john smith", "a car");
  }

  /** "a car" shares nothing with "John Smith": no containment, short strings, other rightmost word. */
  lemma CarDoesNotMatchSmith(editDistance: (string, string) -> int)
    ensures !StringMatchToMUCEntity(MUCEntity(["John Smith"], false), "a car", editDistance)
  {
    SmithCleaned();
    CarNotInSmith();
    assert IndexOf("a car", "john smith") == -1;
    assert !MentionMatches("John Smith", "a car", editDistance);
  }

  /** Gold ["John Smith"] against guesses "Smith" and "a car" scores [1, 1, 0, 1, 0, 1]. */
  lemma SmithExample(editDistance: (string, string) -> int)
    ensures Evaluation(Some([MUCEntity(["John Smith"], false)]), ["Smith", "a car"], editDistance) == [1, 1, 0, 1, 0, 1]
  {
    var m := Matcher(editDistance);
    SurnameMatchesFullName(editDistance);
    CarDoesNotMatchSmith(editDistance);
    OneOfTwoMatches(MUCEntity(["John Smith"], false), ["Smith", "a car"], m, SimilarStrings);
  }

  // ---------------------------------------------------------------------------
  // List helpers

  /** The position of the first occurrence of `x` in `s`. */
  function FirstIndex<T(==)>(s: seq<T>, x: T): (r: nat)
    requires x in s
    ensures r < |s| && s[r] == x
    ensures forall j :: 0 <= j < r ==> s[j] != x
  {
    if s[0] == x then 0 else 1 + FirstIndex(s[1..], x)
  }

  /**
   * `merged` is `first` followed by the elements of `second` missing from
   * `first`, each once, in the order of their first occurrence in `second`.
   */
  ghost predicate IsMerge<T>(first: seq<T>, second: seq<T>, merged: seq<T>) {
    |first| <= |merged| && merged[..|first|] == first &&
    (forall k :: |first| <= k < |merged| ==> merged[k] !in first && merged[k] in second) &&
    (forall i :: 0 <= i < |second| ==> second[i] in merged) &&
    (forall a, b :: |first| <= a < b < |merged| ==> FirstIndex(second, merged[a]) < FirstIndex(second, merged[b]))
  }

  /** The merge after the first `k` elements of `second`: `IsMerge` with `second[..k]` for the appended part. */
  ghost predicate MergedUpTo<T>(first: seq<T>, second: seq<T>, k: int, merged: seq<T>) {
    0 <= k <= |second| &&
    |first| <= |merged| && merged[..|first|] == first &&
    (forall m :: |first| <= m < |merged| ==> merged[m] !in first && merged[m] in second[..k]) &&
    (forall i :: 0 <= i < k ==> second[i] in merged) &&
    (forall a, b :: |first| <= a < b < |merged| ==> FirstIndex(second, merged[a]) < FirstIndex(second, merged[b]))
  }

  /** Taking `second[k]` into the merge, when it is missing, keeps `MergedUpTo` one element further. */
  lemma MergeStep<T>(first: seq<T>, second: seq<T>, k: int, merged: seq<T>)
    requires MergedUpTo(first, second, k, merged) && k < |second|
    ensures MergedUpTo(first, second, k + 1, if second[k] in merged then merged else merged + [second[k]])
  {
    assert second[..k + 1] == second[..k] + [second[k]];
    if second[k] !in merged {
      MergeAppend(first, second, k, merged);
    }
  }

  /** The append case of `MergeStep`: `second[k]` comes after every element appended so far. */
  lemma MergeAppend<T>(first: seq<T>, second: seq<T>, k: int, merged: seq<T>)
    requires MergedUpTo(first, second, k, merged) && k < |second| && second[k] !in merged
    ensures MergedUpTo(first, second, k + 1, merged + [second[k]])
  {
    var obj := second[k];
    var merged' := merged + [obj];
    assert second[..k + 1] == second[..k] + [obj];
    assert FirstIndex(second, obj) == k;
    forall m | |first| <= m < |merged| ensures FirstIndex(second, merged[m]) < k {
      assert merged[m] in second[..k];
    }
    assert merged'[..|first|] == first;
    forall m | |first| <= m < |merged'| ensures merged'[m] !in first && merged'[m] in second[..k + 1] {
      if m < |merged| {
        assert merged'[m] == merged[m];
      }
    }
    forall a, b | |first| <= a < b < |merged'| ensures FirstIndex(second, merged'[a]) < FirstIndex(second, merged'[b]) {
      assert merged'[a] == merged[a];
    }
  }

  /** Appends to a copy of `first` each element of `second` not already in the copy. */
  method MergeLists<T(==)>(first: seq<T>, second: seq<T>) returns (merged: seq<T>)
    ensures IsMerge(first, second, merged)
  {
    merged := first;
    var k := 0;
    assert merged[..|first|] == first;
    while k < |second|
      invariant MergedUpTo(first, second, k, merged)
    {
      MergeStep(first, second, k, merged);
      var obj := second[k];
      if obj !in merged {
        merged := merged + [obj];
      }
      k := k + 1;
    }
    assert second[..k] == second;
  }

  /** Merged lists never repeat an element of the appended part. */
  lemma MergeTailDistinct<T>(first: seq<T>, second: seq<T>, merged: seq<T>, a: int, b: int)
    requires IsMerge(first, second, merged) && |first| <= a < b < |merged|
    ensures merged[a] != merged[b]
  {
  }

  /** Merging into a list without repeats gives a list without repeats holding exactly both lists' elements. */
  lemma MergeDistinct<T>(first: seq<T>, second: seq<T>, merged: seq<T>)
    requires IsMerge(first, second, merged)
    requires forall a, b :: 0 <= a < b < |first| ==> first[a] != first[b]
    ensures forall a, b :: 0 <= a < b < |merged| ==> merged[a] != merged[b]
    ensures forall k :: 0 <= k < |merged| ==> merged[k] in first || merged[k] in second
  {
    forall a, b | 0 <= a < b < |merged| ensures merged[a] != merged[b] {
      if b < |first| {
        assert merged[a] == first[a] && merged[b] == first[b];
      } else if a < |first| {
        assert merged[a] == first[a];
      } else {
        MergeTailDistinct(first, second, merged, a, b);
      }
    }
    forall k | 0 <= k < |first| ensures merged[k] in first {
      assert merged[k] == first[k];
    }
  }

  /** The union of the entities of all templates, each once, in first-seen order. */
  method GetGoldEntities(templates: Option<seq<seq<MUCEntity>>>) returns (gold: Option<seq<MUCEntity>>)
    ensures gold.None? <==> templates.None?
    ensures gold.Some? ==> forall a, b :: 0 <= a < b < |gold.value| ==> gold.value[a] != gold.value[b]
    ensures gold.Some? ==> forall t, e :: 0 <= t < |templates.value| && e in templates.value[t] ==> e in gold.value
    ensures gold.Some? ==> forall k :: 0 <= k < |gold.value| ==>
                             exists t :: 0 <= t < |templates.value| && gold.value[k] in templates.value[t]
  {
    if templates.None? {
      return None;
    }
    var ts := templates.value;
    var entities: seq<MUCEntity> := [];
    var t := 0;
    while t < |ts|
      invariant 0 <= t <= |ts|
      invariant forall a, b :: 0 <= a < b < |entities| ==> entities[a] != entities[b]
      invariant forall u, e :: 0 <= u < t && e in ts[u] ==> e in entities
      invariant forall k :: 0 <= k < |entities| ==> exists u :: 0 <= u < t && entities[k] in ts[u]
    {
      // The inner loop over the template's entities is the merge above.
      var merged := MergeLists(entities, ts[t]);
      MergeDistinct(entities, ts[t], merged);
      forall u, e | 0 <= u <= t && e in ts[u] ensures e in merged {
        if u == t {
          var i :| 0 <= i < |ts[t]| && ts[t][i] == e;
        } else {
          assert e in entities;
          var i :| 0 <= i < |entities| && entities[i] == e;
          assert merged[i] == e;
        }
      }
      forall k | 0 <= k < |merged| ensures exists u :: 0 <= u < t + 1 && merged[k] in ts[u] {
        if merged[k] !in ts[t] {
          var i :| 0 <= i < |entities| && entities[i] == merged[k];
          assert exists u :: 0 <= u < t && entities[i] in ts[u];
        }
      }
      entities := merged;
      t := t + 1;
    }
    forall k | 0 <= k < |entities| ensures exists u :: 0 <= u < |ts| && entities[k] in ts[u] {
      var u :| 0 <= u < t && entities[k] in ts[u];
    }
    gold := Some(entities);
  }

  /** Accepts a filler that is not one of the objects. */
  function NotAmong(objects: seq<string>): string -> bool {
    (x: string) => x !in objects
  }

  /**
   * The first `max` objects (all of them when `max` is negative or large);
   * when that leaves room, the fillers not among the objects, up to one more
   * than the room left.
   */
  function Filled(objects: seq<string>, filler: seq<string>, max: int): seq<string> {
    if 0 <= max < |objects| then objects[..max]
    else if max - |objects| < 1 then objects
    else
      var extra := Filter(filler, NotAmong(objects));
      var room := max - |objects| + 1;
      objects + (if |extra| <= room then extra else extra[..room])
  }

  /** Takes the first `max` objects and tops the list up from `filler`, skipping repeats of objects. */
  method FillN(objects: seq<string>, filler: seq<string>, max: int) returns (filled: seq<string>)
    ensures filled == Filled(objects, filler, max)
  {
    filled := [];
    var i := 0;
    while i < |objects| && i != max
      invariant 0 <= i <= |objects|
      invariant max >= 0 ==> i <= max
      invariant filled == objects[..i]
    {
      filled := filled + [objects[i]];
      i := i + 1;
    }
    var diff := max - |filled|;
    if diff < 1 {
      assert i == |objects| ==> objects[..i] == objects;
      return;
    }
    assert filled == objects;
    var extra := TopUp(objects, filler, diff);
    filled := filled + extra;
  }

  /**
   * The fillers not among the objects, in order, until `diff` has been counted
   * down past zero: at most `diff + 1` of them.
   */
  method TopUp(objects: seq<string>, filler: seq<string>, diff: int) returns (extra: seq<string>)
    requires diff >= 1
    ensures var all := Filter(filler, NotAmong(objects));
            extra == if |all| <= diff + 1 then all else all[..diff + 1]
  {
    ghost var room := diff + 1;
    var left := diff;
    extra := [];
    var k := 0;
    while k < |filler| && left != -1
      invariant 0 <= k <= |filler|
      invariant extra == Filter(filler[..k], NotAmong(objects))
      invariant left == room - 1 - |extra| && left >= -1
    {
      var obj := filler[k];
      assert filler[..k + 1] == filler[..k] + [obj];
      FilterSnoc(filler[..k], obj, NotAmong(objects));
      // The inner loop over `objects` is the membership test.
      if obj !in objects {
        extra := extra + [obj];
        left := left - 1;
      }
      k := k + 1;
    }
    FilterConcat(filler[..k], filler[k..], NotAmong(objects));
    assert filler[..k] + filler[k..] == filler;
    ghost var all := Filter(filler, NotAmong(objects));
    if left == -1 {
      assert all[..room] == extra;
    } else {
      assert filler[k..] == [];
      assert filler[..k] == filler;
    }
  }

  /** The list can grow one past `max`, and does so when there are enough new fillers. */
  lemma FilledLength(objects: seq<string>, filler: seq<string>, max: int)
    ensures max >= 0 ==> |Filled(objects, filler, max)| <= max + 1
    ensures |objects| < max && |Filter(filler, NotAmong(objects))| > max - |objects| ==>
            |Filled(objects, filler, max)| == max + 1
    ensures 0 <= max && max <= |objects| ==> Filled(objects, filler, max) == objects[..max]
  {
  }

  /** The fillers added are never among the objects, and come in filler order. */
  lemma {:induction false} FilledExtrasNew(objects: seq<string>, filler: seq<string>, max: int)
    requires |objects| < max
    ensures var f := Filled(objects, filler, max);
            |objects| <= |f| && f[..|objects|] == objects &&
            forall k :: |objects| <= k < |f| ==> f[k] !in objects && f[k] in filler
  {
    var extra := Filter(filler, NotAmong(objects));
    forall k | 0 <= k < |extra| ensures extra[k] !in objects && extra[k] in filler {
      assert NotAmong(objects)(extra[k]);
      FilterMembers(filler, NotAmong(objects), extra[k]);
    }
  }

  /** The number of positions where both vectors hold a 1 (0 when either is absent). */
  function BothCorrect(scores: Option<seq<int>>, filascores: Option<seq<int>>): nat
    requires scores.Some? && filascores.Some? ==> |filascores.value| >= |scores.value|
  {
    if scores.None? || filascores.None? then 0
    else |set i | 0 <= i < |scores.value| && scores.value[i] == 1 && filascores.value[i] == 1|
  }

  /** Counts the cells marked 1 in both score vectors. */
  method OverlapCorrect(scores: Option<seq<int>>, filascores: Option<seq<int>>) returns (overlap: int)
    requires scores.Some? && filascores.Some? ==> |filascores.value| >= |scores.value|
    ensures overlap == BothCorrect(scores, filascores)
  {
    overlap := 0;
    if scores.Some? && filascores.Some? {
      var a, b := scores.value, filascores.value;
      var i := 0;
      while i < |a|
        invariant 0 <= i <= |a|
        invariant overlap == |set j | 0 <= j < i && a[j] == 1 && b[j] == 1|
      {
        ghost var before := set j | 0 <= j < i && a[j] == 1 && b[j] == 1;
        if a[i] == 1 && b[i] == 1 {
          assert (set j | 0 <= j < i + 1 && a[j] == 1 && b[j] == 1) == before + {i};
          overlap := overlap + 1;
        } else {
          assert (set j | 0 <= j < i + 1 && a[j] == 1 && b[j] == 1) == before;
        }
        i := i + 1;
      }
    }
  }

  /** The overlap is at most the number of cells. */
  lemma BothCorrectBound(scores: seq<int>, filascores: seq<int>)
    requires |filascores| >= |scores|
    ensures BothCorrect(Some(scores), Some(filascores)) <= |scores|
  {
    BothOneBelow(scores, filascores, |scores|);
  }

  lemma {:induction false} BothOneBelow(a: seq<int>, b: seq<int>, n: int)
    requires 0 <= n <= |a| <= |b|
    ensures |set i | 0 <= i < n && a[i] == 1 && b[i] == 1| <= n
  {
    if n > 0 {
      BothOneBelow(a, b, n - 1);
      var below := set i | 0 <= i < n - 1 && a[i] == 1 && b[i] == 1;
      if a[n - 1] == 1 && b[n - 1] == 1 {
        assert (set i | 0 <= i < n && a[i] == 1 && b[i] == 1) == below + {n - 1};
      } else {
        assert (set i | 0 <= i < n && a[i] == 1 && b[i] == 1) == below;
      }
    }
  }

  // ---------------------------------------------------------------------------
  // Running totals

  /** Cell `i` of `s`, reading past the end as 0. */
  function Cell(s: seq<int>, i: int): int {
    if 0 <= i < |s| then s[i] else 0
  }

  /** `r` adds `results` cell by cell onto `scores`, growing to the longer of the two. */
  predicate IsElementwiseSum(scores: seq<int>, results: seq<int>, r: seq<int>) {
    |r| == (if |scores| < |results| then |results| else |scores|) &&
    forall i :: 0 <= i < |r| ==> r[i] == Cell(scores, i) + Cell(results, i)
  }

  /** Adds `results` onto `scores`, appending a cell whenever `scores` is too short. */
  method AddScores(scores: seq<int>, results: seq<int>) returns (r: seq<int>)
    ensures IsElementwiseSum(scores, results, r)
  {
    r := scores;
    var i := 0;
    while i < |results|
      invariant 0 <= i <= |results|
      invariant |r| == (if |scores| < i then i else |scores|)
      invariant forall k :: 0 <= k < |r| ==> r[k] == Cell(scores, k) + (if k < i then results[k] else 0)
    {
      if |r| < i + 1 {
        r := r + [results[i]];
      } else {
        r := r[i := r[i] + results[i]];
      }
      i := i + 1;
    }
  }

  /** Adding a second vector after a first equals adding their sum once. */
  lemma ElementwiseSumAssociates(scores: seq<int>, x: seq<int>, y: seq<int>, xy: seq<int>, r1: seq<int>, r2: seq<int>)
    requires IsElementwiseSum(x, y, xy)
    requires IsElementwiseSum(scores, x, r1) && IsElementwiseSum(r1, y, r2)
    ensures IsElementwiseSum(scores, xy, r2)
  {
    forall i | 0 <= i < |r2| ensures r2[i] == Cell(scores, i) + Cell(xy, i) {
      assert Cell(r1, i) == Cell(scores, i) + Cell(x, i);
      assert Cell(xy, i) == Cell(x, i) + Cell(y, i);
    }
  }

  /** Scores documents one at a time, keeping totals per evaluation type. */
  class Tester {
    /** Per evaluation type, the sum of the vectors recorded for it. */
    var totalScores: map<string, seq<int>>
    /** Per evaluation type, the guesses made for documents that had no gold entities. */
    var falsePositiveArgs: map<string, int>

    constructor ()
      ensures totalScores == map[] && falsePositiveArgs == map[]
    {
      totalScores := map[];
      falsePositiveArgs := map[];
    }

    /** The totals of one type, empty when nothing was recorded for it. */
    function Scores(evalType: string): seq<int>
      reads this
    {
      if evalType in totalScores then totalScores[evalType] else []
    }

    /** Adds a vector of counts onto the totals of its type; an absent vector changes nothing. */
    method RecordEvaluation(evalType: string, results: Option<seq<int>>)
      modifies this
      ensures falsePositiveArgs == old(falsePositiveArgs)
      ensures results.None? ==> totalScores == old(totalScores)
      ensures results.Some? ==>
                evalType in totalScores &&
                totalScores == old(totalScores)[evalType := totalScores[evalType]] &&
                IsElementwiseSum(old(Scores(evalType)), results.value, totalScores[evalType])
    {
      if results.Some? {
        var scores := Scores(evalType);
        var updated := AddScores(scores, results.value);
        totalScores := totalScores[evalType := updated];
      }
    }

    /**
     * Scores one document's guesses. Without gold entities every guess is a
     * false positive of the type; otherwise the document's vector is recorded.
     */
    method EvaluateForType(evalType: string, golds: Option<seq<MUCEntity>>, guesses: seq<string>,
                            editDistance: (string, string) -> int)
      modifies this
      ensures golds.None? || |golds.value| == 0 ==>
                totalScores == old(totalScores) &&
                falsePositiveArgs == old(falsePositiveArgs)[evalType := Get(old(falsePositiveArgs), evalType) + |guesses|]
      ensures golds.Some? && |golds.value| > 0 ==>
                falsePositiveArgs == old(falsePositiveArgs) &&
                evalType in totalScores &&
                totalScores == old(totalScores)[evalType := totalScores[evalType]] &&
                IsElementwiseSum(old(Scores(evalType)), Evaluation(golds, guesses, editDistance), totalScores[evalType])
    {
      if golds.None? || |golds.value| == 0 {
        falsePositiveArgs := falsePositiveArgs[evalType := Get(falsePositiveArgs, evalType) + |guesses|];
      } else {
        var results := EvaluateEntities(golds, guesses, editDistance);
        RecordEvaluation(evalType, Some(results));
      }
    }
  }
}
