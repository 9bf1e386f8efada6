/**
 * The `java.lang.String` operations the modelled code relies on, over `seq<char>`.
 * Case conversion is ASCII only.
 */
module Strings {

  function LowerChar(c: char): char {
    if 'A' <= c <= 'Z' then (c as int + 32) as char else c
  }

  /** `String.toLowerCase`, restricted to ASCII letters. */
  function ToLower(s: string): (r: string)
    ensures |r| == |s|
    ensures forall i :: 0 <= i < |s| ==> r[i] == LowerChar(s[i])
  {
    seq(|s|, i requires 0 <= i < |s| => LowerChar(s[i]))
  }

  lemma ToLowerIdempotent(s: string)
    ensures ToLower(ToLower(s)) == ToLower(s)
  {
  }

  lemma ToLowerAppend(a: string, b: string)
    ensures ToLower(a + b) == ToLower(a) + ToLower(b)
  {
  }

  /** `String.equalsIgnoreCase` on ASCII text. */
  predicate EqualsIgnoreCase(a: string, b: string) {
    ToLower(a) == ToLower(b)
  }

  predicate StartsWith(s: string, p: string) {
    |p| <= |s| && s[..|p|] == p
  }

  predicate EndsWith(s: string, p: string) {
    |p| <= |s| && s[|s| - |p|..] == p
  }

  /** `p` occurs in `s` starting at position `i`. */
  predicate OccursAt(s: string, p: string, i: int) {
    0 <= i && i + |p| <= |s| && s[i..i + |p|] == p
  }

  /** `String.contains`. */
  predicate Contains(s: string, p: string) {
    exists i :: 0 <= i <= |s| - |p| && OccursAt(s, p, i)
  }

  function IndexOfFrom(s: string, p: string, k: nat): (r: int)
    ensures r == -1 || (k <= r && OccursAt(s, p, r))
    ensures forall j :: k <= j && (r == -1 || j < r) ==> !OccursAt(s, p, j)
    decreases |s| - k
  {
    if k + |p| > |s| then -1
    else if s[k..k + |p|] == p then k
    else IndexOfFrom(s, p, k + 1)
  }

  /** `String.indexOf`: the first position of `p` in `s`, or -1. */
  function IndexOf(s: string, p: string): (r: int)
    ensures r == -1 <==> !Contains(s, p)
    ensures r >= 0 ==> OccursAt(s, p, r) && forall j :: 0 <= j < r ==> !OccursAt(s, p, j)
  {
    IndexOfFrom(s, p, 0)
  }

  lemma OccursAtContains(s: string, p: string, i: int)
    requires OccursAt(s, p, i)
    ensures Contains(s, p)
  {
  }

  lemma PrefixContains(s: string, p: string)
    requires StartsWith(s, p)
    ensures Contains(s, p) && IndexOf(s, p) == 0
  {
    assert OccursAt(s, p, 0);
  }

  lemma OccursAfterPrefix(a: string, b: string)
    ensures OccursAt(a + b, b, |a|)
  {
    assert (a + b)[|a|..|a| + |b|] == b;
  }

  /** A pattern whose first character never appears in `s` does not occur in it. */
  lemma NotContainsFirstChar(s: string, p: string)
    requires |p| > 0 && forall i :: 0 <= i < |s| ==> s[i] != p[0]
    ensures !Contains(s, p)
  {
    forall i | 0 <= i <= |s| - |p| ensures !OccursAt(s, p, i) {
      assert s[i..i + |p|][0] == s[i];
    }
  }

  /** A pattern whose first two characters never appear side by side in `s` does not occur in it. */
  lemma NotContainsFirstPair(s: string, p: string)
    requires |p| >= 2 && forall i :: 0 <= i < |s| - 1 ==> !(s[i] == p[0] && s[i + 1] == p[1])
    ensures !Contains(s, p)
  {
    forall i | 0 <= i <= |s| - |p| ensures !OccursAt(s, p, i) {
      assert s[i..i + |p|][0] == s[i] && s[i..i + |p|][1] == s[i + 1];
    }
  }

  /** An occurrence at `i` is the first when the pattern's first character does not appear before `i`. */
  lemma IndexOfFirstChar(s: string, p: string, i: int)
    requires |p| > 0 && OccursAt(s, p, i)
    requires forall j :: 0 <= j < i ==> s[j] != p[0]
    ensures IndexOf(s, p) == i
  {
    forall j | 0 <= j < i ensures !OccursAt(s, p, j) {
      if j + |p| <= |s| {
        assert s[j..j + |p|][0] == s[j];
      }
    }
    OccursAtContains(s, p, i);
  }

  /** An occurrence at `i` is the first when the pattern's first two characters are not adjacent before `i`. */
  lemma IndexOfFirstPair(s: string, p: string, i: int)
    requires |p| >= 2 && OccursAt(s, p, i)
    requires forall j :: 0 <= j < i ==> !(s[j] == p[0] && s[j + 1] == p[1])
    ensures IndexOf(s, p) == i
  {
    forall j | 0 <= j < i ensures !OccursAt(s, p, j) {
      if j + |p| <= |s| {
        assert s[j..j + |p|][0] == s[j] && s[j..j + |p|][1] == s[j + 1];
      }
    }
    OccursAtContains(s, p, i);
  }

  /** `String.lastIndexOf(char)`: the last position of `c` in `s`, or -1. */
  function LastIndexOfChar(s: string, c: char): (r: int)
    ensures -1 <= r < |s|
    ensures r >= 0 ==> s[r] == c
    ensures forall j :: r < j < |s| ==> s[j] != c
  {
    if |s| == 0 then -1
    else if s[|s| - 1] == c then |s| - 1
    else LastIndexOfChar(s[..|s| - 1], c)
  }

  /** `String.replaceFirst` for a pattern with no regular-expression metacharacters. */
  function ReplaceFirst(s: string, p: string, rep: string): (r: string)
    ensures !Contains(s, p) ==> r == s
  {
    var i := IndexOf(s, p);
    if i < 0 then s else s[..i] + rep + s[i + |p|..]
  }

  /** `String.replaceAll` for a non-empty pattern with no metacharacters: a left-to-right scan. */
  function ReplaceAll(s: string, p: string, rep: string): (r: string)
    requires |p| > 0
    decreases |s|
  {
    if |s| < |p| then s
    else if s[..|p|] == p then rep + ReplaceAll(s[|p|..], p, rep)
    else [s[0]] + ReplaceAll(s[1..], p, rep)
  }

  lemma {:induction false} ReplaceAllAbsent(s: string, p: string, rep: string)
    requires |p| > 0 && !Contains(s, p)
    ensures ReplaceAll(s, p, rep) == s
    decreases |s|
  {
    if |s| >= |p| {
      assert !OccursAt(s, p, 0);
      forall i | 0 <= i <= |s[1..]| - |p| && OccursAt(s[1..], p, i) ensures OccursAt(s, p, i + 1) {
        assert s[1..][i..i + |p|] == s[i + 1..i + 1 + |p|];
      }
      ReplaceAllAbsent(s[1..], p, rep);
    }
  }

  /** Every character of a `ReplaceAll` result comes from the input or from the replacement. */
  lemma {:induction false} ReplaceAllChars(s: string, p: string, rep: string)
    requires |p| > 0
    ensures forall i :: 0 <= i < |ReplaceAll(s, p, rep)| ==> ReplaceAll(s, p, rep)[i] in s || ReplaceAll(s, p, rep)[i] in rep
    decreases |s|
  {
    if |s| >= |p| {
      if s[..|p|] == p {
        ReplaceAllChars(s[|p|..], p, rep);
      } else {
        ReplaceAllChars(s[1..], p, rep);
      }
    }
  }

  /** Replacing one character by one character rewrites each position on its own. */
  lemma {:induction false} ReplaceCharPointwise(s: string, c: char, d: char)
    ensures |ReplaceAll(s, [c], [d])| == |s|
    ensures forall i :: 0 <= i < |s| ==> ReplaceAll(s, [c], [d])[i] == if s[i] == c then d else s[i]
    decreases |s|
  {
    if |s| >= 1 {
      ReplaceCharPointwise(s[1..], c, d);
    }
  }

  predicate IsDigit(c: char) { '0' <= c <= '9' }

  /** The regular expression `^\d+$`: a non-empty string of ASCII digits. */
  predicate AllDigits(s: string) {
    |s| > 0 && forall i :: 0 <= i < |s| ==> IsDigit(s[i])
  }

  /** The decimal value of a string of digits. */
  function DigitsValue(s: string): nat
    requires forall i :: 0 <= i < |s| ==> IsDigit(s[i])
  {
    if |s| == 0 then 0
    else
      assert IsDigit(s[|s| - 1]);
      DigitsValue(s[..|s| - 1]) * 10 + (s[|s| - 1] as int - '0' as int)
  }
}
