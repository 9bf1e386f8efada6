/**
 * The deterministic rules of the corpus parser: the document-type switch, the accepted
 * file names per type, and the segmentation of one sentence's named-entity tags into spans.
 */
module AllParser {
  import opened Wrappers
  import opened Strings

  const GIGAWORD: int := 0
  const ENVIRO: int := 1
  const MUC: int := 2
  const TEXT: int := 3

  /**
   * The input type named on the command line. `None` is the fatal exit for an unknown name.
   * The prefixes are pairwise exclusive, so the order of the comparisons does not matter.
   */
  function DocTypeToInt(str: string): (r: Option<int>)
    ensures r == Some(GIGAWORD) <==> StartsWith(ToLower(str), "giga")
    ensures r == Some(ENVIRO) <==> StartsWith(ToLower(str), "env")
    ensures r == Some(MUC) <==> StartsWith(ToLower(str), "muc")
    ensures r == Some(TEXT) <==> ToLower(str) == "text"
    ensures r.Some? ==> 0 <= r.value <= 3
  {
    var s := ToLower(str);
    assert StartsWith(s, "giga") ==> s[0] == 'g';
    assert StartsWith(s, "env") ==> s[0] == 'e';
    assert StartsWith(s, "muc") ==> s[0] == 'm';
    assert s == "text" ==> s[0] == 't';
    if StartsWith(s, "giga") then Some(GIGAWORD)
    else if StartsWith(s, "env") then Some(ENVIRO)
    else if StartsWith(s, "muc") then Some(MUC)
    else if s == "text" then Some(TEXT)
    else None
  }

  /** The type does not depend on letter case. */
  lemma DocTypeCaseInsensitive(a: string, b: string)
    requires EqualsIgnoreCase(a, b)
    ensures DocTypeToInt(a) == DocTypeToInt(b)
  {
  }

  /** Every type has a name that selects it. */
  lemma DocTypeNames()
    ensures DocTypeToInt("Gigaword") == Some(GIGAWORD)
    ensures DocTypeToInt("ENV") == Some(ENVIRO)
    ensures DocTypeToInt("muc4") == Some(MUC)
    ensures DocTypeToInt("Text") == Some(TEXT)
    ensures DocTypeToInt("texts") == None
  {
    assert ToLower("Gigaword")[..4] == "giga";
    assert ToLower("ENV")[..3] == "env";
    assert ToLower("muc4")[..3] == "muc";
    assert ToLower("Text") == "text";
    assert ToLower("texts") == "texts";
    assert ToLower("texts")[..4] == "text";
  }

  /** Whether a file (a name, not a path) is read for the given input type. */
  function ValidFilename(docType: int, file: string): (r: bool)
    ensures r ==> !StartsWith(file, ".") && GIGAWORD <= docType <= TEXT
  {
    !StartsWith(file, ".") &&
    if docType == GIGAWORD then EndsWith(file, ".gz") || EndsWith(file, ".txt")
    else if docType == ENVIRO then EndsWith(file, ".txt")
    else if docType == MUC then Contains(file, "-muc")
    else if docType == TEXT then Contains(file, "txt")
    else false
  }

  /** What the ENVIRO type reads, the GIGAWORD and TEXT types read too. */
  lemma {:induction false} EnviroFilesAreRead(file: string)
    requires ValidFilename(ENVIRO, file)
    ensures ValidFilename(GIGAWORD, file) && ValidFilename(TEXT, file)
  {
    assert OccursAt(file, "txt", |file| - 3);
  }

  lemma HiddenFilesSkipped(docType: int, file: string)
    requires StartsWith(file, ".")
    ensures forall t :: !ValidFilename(t, file)
  {
  }

  datatype NerType = Organization | Person | Location

  /** The tag string of each entity type. */
  function NerName(t: NerType): string {
    match t
    case Organization => "ORGANIZATION"
    case Person => "PERSON"
    case Location => "LOCATION"
  }

  /** Converts a pipeline tag to an entity type; `None` for every other tag (the Java `null`). */
  function NerStringToType(str: Option<string>): (r: Option<NerType>)
    ensures r.Some? <==> str.Some? && str.value in {"ORGANIZATION", "PERSON", "LOCATION"}
    ensures r.Some? ==> NerName(r.value) == str.value
  {
    match str
    case None => None
    case Some(s) =>
      if s == "ORGANIZATION" then Some(Organization)
      else if s == "PERSON" then Some(Person)
      else if s == "LOCATION" then Some(Location)
      else None
  }

  lemma NerNameRoundTrip(t: NerType)
    ensures NerStringToType(Some(NerName(t))) == Some(t)
  {
  }

  /** A span of tokens of one entity type: sentence id, 1-based first and last token. */
  datatype NERSpan = NERSpan(kind: NerType, sid: int, start: int, end: int)

  /*
   * The segmentation is stated for any tag type with a distinguished "outside" tag and a map
   * from tags to entity types; the parser uses string tags, "O" and NerStringToType.
   */

  /**
   * Tokens a .. b-1 (0-based) form a maximal run of one tag other than `out` that is
   * closed, that is, followed by a token with a different tag.
   */
  ghost predicate ClosedRun<T>(tags: seq<T>, out: T, a: int, b: int) {
    0 <= a < b < |tags| && tags[a] != out &&
    (forall k :: a <= k < b ==> tags[k] == tags[a]) &&
    (a == 0 || tags[a - 1] != tags[a]) && tags[b] != tags[a]
  }

  /** The span reports a closed run of a known type of sentence `sid`. */
  ghost predicate SpanOk<T>(tags: seq<T>, out: T, kind: T -> Option<NerType>, sid: int, sp: NERSpan) {
    sp.sid == sid && ClosedRun(tags, out, sp.start - 1, sp.end) &&
    kind(tags[sp.start - 1]) == Some(sp.kind)
  }

  ghost predicate HasSpan(spans: seq<NERSpan>, start: int, end: int) {
    exists k :: 0 <= k < |spans| && spans[k].start == start && spans[k].end == end
  }

  /** `spans` is exactly the ordered list of typed closed runs that end before token `upto`. */
  ghost predicate Reported<T>(tags: seq<T>, out: T, kind: T -> Option<NerType>, sid: int, spans: seq<NERSpan>, upto: int) {
    (forall k :: 0 <= k < |spans| ==> SpanOk(tags, out, kind, sid, spans[k]) && spans[k].end < upto) &&
    (forall k :: 0 <= k < |spans| - 1 ==> spans[k].end < spans[k + 1].start) &&
    (forall a, b :: ClosedRun(tags, out, a, b) && b < upto && kind(tags[a]).Some? ==>
      HasSpan(spans, a + 1, b))
  }

  /**
   * The loop state before token `i` (1-based): `prev` is the tag of the run that the previous
   * token belongs to, if that token is not `out`, and `start` is the first token of that run.
   */
  ghost predicate Tracking<T>(tags: seq<T>, out: T, prev: Option<T>, start: int, i: int) {
    1 <= i <= |tags| + 1 &&
    (prev.None? <==> (i == 1 || tags[i - 2] == out)) &&
    (prev.Some? ==> (prev.value == tags[i - 2] && 1 <= start <= i - 1 &&
      (forall k :: start - 1 <= k < i - 1 ==> tags[k] == prev.value) &&
      (start == 1 || tags[start - 2] != prev.value)))
  }

  /**
   * The named-entity spans of one sentence, in the order the parser adds them to the document.
   * Every span is a closed maximal run of a known type, reported with 1-based inclusive bounds;
   * spans are ordered and disjoint; and every closed run of a known type is reported. A run
   * that reaches the end of the sentence is never reported.
   */
  method SentenceSpans<T(==)>(sid: int, tags: seq<T>, out: T, kind: T -> Option<NerType>)
    returns (spans: seq<NERSpan>)
    ensures forall k :: 0 <= k < |spans| ==>
      spans[k].sid == sid && ClosedRun(tags, out, spans[k].start - 1, spans[k].end) &&
      kind(tags[spans[k].start - 1]) == Some(spans[k].kind)
    ensures forall k :: 0 <= k < |spans| - 1 ==> spans[k].end < spans[k + 1].start
    ensures forall a, b :: ClosedRun(tags, out, a, b) && kind(tags[a]).Some? ==>
      exists k :: 0 <= k < |spans| && spans[k].start == a + 1 && spans[k].end == b
    ensures forall k :: 0 <= k < |spans| ==> spans[k].end < |tags|
  {
    spans := [];
    var prev: Option<T> := None;
    var start := -1;
    var i := 1;
    while i <= |tags|
      invariant Scanning(tags, out, kind, sid, spans, prev, start, i)
    {
      spans, prev, start := ScanToken(tags, out, kind, sid, spans, prev, start, i);
      i := i + 1;
    }
    forall a, b | ClosedRun(tags, out, a, b) && kind(tags[a]).Some?
      ensures exists k :: 0 <= k < |spans| && spans[k].start == a + 1 && spans[k].end == b
    {
      assert HasSpan(spans, a + 1, b);
    }
  }

  /** The loop state of `SentenceSpans` before token `i` (1-based). */
  ghost predicate Scanning<T>(tags: seq<T>, out: T, kind: T -> Option<NerType>, sid: int, spans: seq<NERSpan>,
                              prev: Option<T>, start: int, i: int) {
    Tracking(tags, out, prev, start, i) &&
    (prev.Some? && |spans| > 0 ==> spans[|spans| - 1].end < start) &&
    Reported(tags, out, kind, sid, spans, i - 1)
  }

  /** Token `i`: it closes the open run when its tag differs, and opens a run unless it is outside. */
  method ScanToken<T(==)>(tags: seq<T>, out: T, kind: T -> Option<NerType>, sid: int, spans: seq<NERSpan>,
                          prev: Option<T>, start: int, i: int)
    returns (spans': seq<NERSpan>, prev': Option<T>, start': int)
    requires Scanning(tags, out, kind, sid, spans, prev, start, i) && i <= |tags|
    ensures Scanning(tags, out, kind, sid, spans', prev', start', i + 1)
  {
    var ne := tags[i - 1];
    if ne == out && prev.Some? {
      spans' := CloseRun(tags, out, kind, sid, spans, prev, start, i);
      OutsideStep(tags, out, i);
      prev' := None;
      start' := -1;
    } else if ne != out && prev.Some? && ne != prev.value {
      spans' := CloseRun(tags, out, kind, sid, spans, prev, start, i);
      RunOpens(tags, out, prev, start, i);
      prev' := Some(ne);
      start' := i;
    } else if ne != out && prev.None? {
      NoRunEndsAt(tags, out, kind, sid, spans, i - 1);
      RunOpens(tags, out, prev, start, i);
      spans' := spans;
      prev' := Some(ne);
      start' := i;
    } else {
      NoRunEndsAt(tags, out, kind, sid, spans, i - 1);
      RunContinues(tags, out, prev, start, i);
      spans', prev', start' := spans, prev, start;
    }
  }

  /** Token `i` ends the open run: it is reported when its type is known. */
  method CloseRun<T(==)>(tags: seq<T>, out: T, kind: T -> Option<NerType>, sid: int, spans: seq<NERSpan>,
                         prev: Option<T>, start: int, i: int)
    returns (spans': seq<NERSpan>)
    requires Tracking(tags, out, prev, start, i) && i <= |tags| && prev.Some? && tags[i - 1] != prev.value
    requires prev.Some? && |spans| > 0 ==> spans[|spans| - 1].end < start
    requires Reported(tags, out, kind, sid, spans, i - 1)
    ensures Reported(tags, out, kind, sid, spans', i)
    ensures |spans'| > 0 ==> spans'[|spans'| - 1].end < i
  {
    var t := kind(prev.value);
    RunCloses(tags, out, prev, start, i);
    if t.Some? {
      CloseTyped(tags, out, kind, sid, spans, start, i, t.value);
      spans' := spans + [NERSpan(t.value, sid, start, i - 1)];
    } else {
      CloseUntyped(tags, out, kind, sid, spans, start, i);
      spans' := spans;
    }
  }

  /** The type of a string tag. */
  function NerKind(tag: string): Option<NerType> {
    NerStringToType(Some(tag))
  }

  /** The parser's instance: string tags, "O" outside any entity, and the three known types. */
  method SentenceNerSpans(sid: int, tags: seq<string>) returns (spans: seq<NERSpan>)
    ensures forall k :: 0 <= k < |spans| ==>
      spans[k].sid == sid && ClosedRun(tags, "O", spans[k].start - 1, spans[k].end) &&
      NerStringToType(Some(tags[spans[k].start - 1])) == Some(spans[k].kind)
    ensures forall k :: 0 <= k < |spans| - 1 ==> spans[k].end < spans[k + 1].start
    ensures forall a, b :: ClosedRun(tags, "O", a, b) && NerStringToType(Some(tags[a])).Some? ==>
      exists k :: 0 <= k < |spans| && spans[k].start == a + 1 && spans[k].end == b
    ensures forall k :: 0 <= k < |spans| ==> spans[k].end < |tags|
  {
    spans := SentenceSpans(sid, tags, "O", NerKind);
  }

  /** A token with a tag other than the open run's closes that run. */
  lemma RunCloses<T>(tags: seq<T>, out: T, prev: Option<T>, start: int, i: int)
    requires Tracking(tags, out, prev, start, i) && i <= |tags| && prev.Some? && tags[i - 1] != prev.value
    requires prev.value != out
    ensures ClosedRun(tags, out, start - 1, i - 1) && tags[start - 1] == prev.value
  {
  }

  /** A token with a tag other than the open run's, and not outside, opens a run at that token. */
  lemma RunOpens<T>(tags: seq<T>, out: T, prev: Option<T>, start: int, i: int)
    requires Tracking(tags, out, prev, start, i) && i <= |tags| && tags[i - 1] != out
    requires prev.Some? ==> tags[i - 1] != prev.value
    ensures Tracking(tags, out, Some(tags[i - 1]), i, i + 1)
  {
  }

  /** An outside token leaves no run open. */
  lemma OutsideStep<T>(tags: seq<T>, out: T, i: int)
    requires 1 <= i <= |tags| && tags[i - 1] == out
    ensures Tracking(tags, out, None, -1, i + 1)
  {
  }

  /** A token that repeats the open run's tag, or an outside tag after an outside tag, keeps the state. */
  lemma RunContinues<T>(tags: seq<T>, out: T, prev: Option<T>, start: int, i: int)
    requires Tracking(tags, out, prev, start, i) && i <= |tags|
    requires prev.Some? ==> tags[i - 1] == prev.value
    requires prev.None? ==> tags[i - 1] == out
    ensures Tracking(tags, out, prev, start, i + 1)
  {
  }

  /** A token that continues the run before it, or follows an outside tag, closes no run. */
  lemma NoRunEndsAt<T>(tags: seq<T>, out: T, kind: T -> Option<NerType>, sid: int, spans: seq<NERSpan>, b: int)
    requires 0 <= b < |tags| && Reported(tags, out, kind, sid, spans, b)
    requires b == 0 || tags[b - 1] == out || tags[b - 1] == tags[b]
    ensures Reported(tags, out, kind, sid, spans, b + 1)
  {
    forall a | 0 <= a < b ensures !ClosedRun(tags, out, a, b) {
    }
  }

  /** Two closed runs that end at the same token start at the same token. */
  lemma RunStartUnique<T>(tags: seq<T>, out: T, a: int, st: int, b: int)
    requires ClosedRun(tags, out, a, b) && ClosedRun(tags, out, st, b)
    ensures a == st
  {
  }

  /** Closing a run of unknown type (1-based first token `start`) before token `i` reports nothing new. */
  lemma CloseUntyped<T>(tags: seq<T>, out: T, kind: T -> Option<NerType>, sid: int, spans: seq<NERSpan>, start: int, i: int)
    requires ClosedRun(tags, out, start - 1, i - 1) && kind(tags[start - 1]).None?
    requires Reported(tags, out, kind, sid, spans, i - 1)
    ensures Reported(tags, out, kind, sid, spans, i)
  {
    var b := i - 1;
    forall a | ClosedRun(tags, out, a, b) ensures a == start - 1 {
      RunStartUnique(tags, out, a, start - 1, b);
    }
  }

  /** Closing a run of known type (1-based first token `start`) before token `i` appends its span. */
  lemma CloseTyped<T>(tags: seq<T>, out: T, kind: T -> Option<NerType>, sid: int, was: seq<NERSpan>, start: int, i: int, t: NerType)
    requires ClosedRun(tags, out, start - 1, i - 1) && kind(tags[start - 1]) == Some(t)
    requires Reported(tags, out, kind, sid, was, i - 1)
    requires |was| > 0 ==> was[|was| - 1].end < start
    ensures Reported(tags, out, kind, sid, was + [NERSpan(t, sid, start, i - 1)], i)
  {
    var spans := was + [NERSpan(t, sid, start, i - 1)];
    assert SpanOk(tags, out, kind, sid, spans[|was|]);
    forall k | 0 <= k < |was| ensures spans[k] == was[k] { }
    forall a, c | ClosedRun(tags, out, a, c) && c < i && kind(tags[a]).Some?
      ensures HasSpan(spans, a + 1, c)
    {
      if c < i - 1 {
        assert HasSpan(was, a + 1, c);
        var k :| 0 <= k < |was| && was[k].start == a + 1 && was[k].end == c;
        assert spans[k] == was[k];
      } else {
        RunStartUnique(tags, out, a, start - 1, i - 1);
        assert spans[|was|].start == a + 1;
      }
    }
  }
}
