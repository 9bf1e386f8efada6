/**
 * What the entity Gibbs sampler builds from the corpus before sampling: the
 * string indices that number words, verbs and dependencies, the per-entity
 * integer encoding of its mentions and named-entity types, and the count
 * tables a topic assignment induces.
 */
module SamplerData {
  import opened Wrappers
  import opened Seqs
  import opened Counters
  import opened Entities
  import opened GibbsParams

  // ---------------------------------------------------------------------------
  // Indices (`HashIndex`)

  /** No value is indexed twice. */
  predicate Distinct<T(==)>(ix: seq<T>) {
    forall i, j :: 0 <= i < j < |ix| ==> ix[i] != ix[j]
  }

  /** `HashIndex.add`: appends a value that is not indexed yet. */
  function IndexAdd<T(==)>(ix: seq<T>, x: T): (r: seq<T>)
    ensures x in r && ix <= r && |r| <= |ix| + 1
    ensures Distinct(ix) ==> Distinct(r)
  {
    if x in ix then ix else ix + [x]
  }

  /** `HashIndex.indexOf`: the first position of a value, -1 when it is not indexed. */
  function PositionOf<T(==)>(ix: seq<T>, x: T): (r: int)
    ensures -1 <= r < |ix|
    ensures r == -1 <==> x !in ix
    ensures r >= 0 ==> ix[r] == x && x !in ix[..r]
    decreases |ix|
  {
    if |ix| == 0 then -1
    else if ix[0] == x then 0
    else
      var k := PositionOf(ix[1..], x);
      if k < 0 then -1
      else
        assert ix[..k + 1] == [ix[0]] + ix[1..][..k];
        k + 1
  }

  /** In an index without duplicates, the value at position `i` is found at `i`. */
  lemma PositionOfDistinct<T>(ix: seq<T>, i: int)
    requires Distinct(ix) && 0 <= i < |ix|
    ensures PositionOf(ix, ix[i]) == i
  {
  }

  /** Adding values never moves a value that was already indexed. */
  lemma PositionStable<T>(ix: seq<T>, ix': seq<T>, x: T)
    requires ix <= ix' && x in ix
    ensures PositionOf(ix', x) == PositionOf(ix, x)
  {
  }

  // ---------------------------------------------------------------------------
  // Encoding the corpus

  /** The switches and the size of the type enumeration the sampler was built with. */
  datatype Config = Config(includeVerbs: bool, includeEntityFeatures: bool, numFeats: nat)

  /** The word, verb and dependency indices. */
  datatype Indices = Indices(words: seq<string>, verbs: seq<string>, deps: seq<string>)

  const NoIndices := Indices([], [], [])

  predicate IndicesDistinct(ix: Indices) {
    Distinct(ix.words) && Distinct(ix.verbs) && Distinct(ix.deps)
  }

  /** `ix'` holds `ix` as a prefix of each of its indices. */
  predicate Extends(ix: Indices, ix': Indices) {
    ix.words <= ix'.words && ix.verbs <= ix'.verbs && ix.deps <= ix'.deps
  }

  /**
   * One entity as the sampler holds it: per mention the word, dependency,
   * inverse-dependency (-1 for none) and verb indices; per type a 0/1 flag.
   * Without verbs, or without features, the corresponding list is empty.
   */
  datatype EntityData = EntityData(words: seq<int>, deps: seq<int>, inverseDeps: seq<int>, verbs: seq<int>, feats: seq<int>)

  /** Every dependency of the entity has the length `inverseDep` takes apart. */
  predicate EntityDepsDefined(e: TextEntity) {
    forall i :: 0 <= i < |e.mentions| ==> InverseDepDefined(e.mentions[i].dep)
  }

  predicate DocDepsDefined(doc: seq<TextEntity>) {
    forall e :: 0 <= e < |doc| ==> EntityDepsDefined(doc[e])
  }

  predicate CorpusDepsDefined(docs: seq<seq<TextEntity>>) {
    forall d :: 0 <= d < |docs| ==> DocDepsDefined(docs[d])
  }

  /**
   * One mention of an entity with core token `token`: the token, the governor
   * of the dependency, the dependency and its inverse are indexed, in that
   * order, and their positions recorded.
   */
  function AddMention(ix: Indices, ed: EntityData, token: string, dep: string, includeVerbs: bool): (r: (Indices, EntityData))
    requires InverseDepDefined(dep)
  {
    var words := IndexAdd(ix.words, token);
    var verb := Governor(dep);
    var verbs := IndexAdd(ix.verbs, verb);
    var deps1 := IndexAdd(ix.deps, dep);
    var inv := InverseDep(dep);
    var deps := if inv.Some? then IndexAdd(deps1, inv.value) else deps1;
    var invIndex := if inv.Some? then PositionOf(deps, inv.value) else -1;
    (Indices(words, verbs, deps),
     EntityData(ed.words + [PositionOf(words, token)], ed.deps + [PositionOf(deps1, dep)], ed.inverseDeps + [invIndex],
                if includeVerbs then ed.verbs + [PositionOf(verbs, verb)] else ed.verbs, ed.feats))
  }

  /** The mentions of one entity, in order. */
  function EncodeMentions(ix: Indices, token: string, ms: seq<Mention>, includeVerbs: bool): (r: (Indices, EntityData))
    requires forall i :: 0 <= i < |ms| ==> InverseDepDefined(ms[i].dep)
    decreases |ms|
  {
    if |ms| == 0 then (ix, EntityData([], [], [], [], []))
    else
      var prev := EncodeMentions(ix, token, ms[..|ms| - 1], includeVerbs);
      AddMention(prev.0, prev.1, token, ms[|ms| - 1].dep, includeVerbs)
  }

  /** The 0/1 flag of every type position: 1 when the entity carries that type. */
  function FeatureFlags(types: set<int>, numFeats: nat): (r: seq<int>)
    ensures |r| == numFeats
    ensures forall f :: 0 <= f < numFeats ==> r[f] == if f in types then 1 else 0
  {
    seq(numFeats, f => if f in types then 1 else 0)
  }

  /** One entity: its type flags (when features are on) and the mentions under its core token. */
  function EncodeEntity(ix: Indices, e: TextEntity, cfg: Config): (r: (Indices, EntityData))
    requires EntityDepsDefined(e)
  {
    var m := EncodeMentions(ix, e.coreToken, e.mentions, cfg.includeVerbs);
    (m.0, m.1.(feats := if cfg.includeEntityFeatures then FeatureFlags(e.types, cfg.numFeats) else []))
  }

  /** The entities of one document, in order. */
  function EncodeDoc(ix: Indices, doc: seq<TextEntity>, cfg: Config): (r: (Indices, seq<EntityData>))
    requires DocDepsDefined(doc)
    ensures |r.1| == |doc|
    decreases |doc|
  {
    if |doc| == 0 then (ix, [])
    else
      var prev := EncodeDoc(ix, doc[..|doc| - 1], cfg);
      var last := EncodeEntity(prev.0, doc[|doc| - 1], cfg);
      (last.0, prev.1 + [last.1])
  }

  /** The documents, in order. */
  function EncodeCorpus(ix: Indices, docs: seq<seq<TextEntity>>, cfg: Config): (r: (Indices, seq<seq<EntityData>>))
    requires CorpusDepsDefined(docs)
    ensures |r.1| == |docs|
    decreases |docs|
  {
    if |docs| == 0 then (ix, [])
    else
      assert CorpusDepsDefined(docs[..|docs| - 1]) by {
        forall d | 0 <= d < |docs| - 1 ensures docs[..|docs| - 1][d] == docs[d] { }
      }
      var prev := EncodeCorpus(ix, docs[..|docs| - 1], cfg);
      var last := EncodeDoc(prev.0, docs[|docs| - 1], cfg);
      (last.0, prev.1 + [last.1])
  }

  // ---------------------------------------------------------------------------
  // Well-formed encodings

  /** Every index in the list denotes an entry of an index of length `n`. */
  predicate Below(s: seq<int>, n: int) {
    forall i :: 0 <= i < |s| ==> 0 <= s[i] < n
  }

  /**
   * The mention lists of an entity with `numMentions` mentions: one word,
   * dependency and inverse per mention, verbs exactly when they are on, every
   * position inside the indices (an inverse may be -1).
   */
  predicate MentionsFit(ed: EntityData, numMentions: int, ix: Indices, includeVerbs: bool) {
    |ed.words| == numMentions && |ed.deps| == numMentions && |ed.inverseDeps| == numMentions &&
    |ed.verbs| == (if includeVerbs then numMentions else 0) &&
    Below(ed.words, |ix.words|) && Below(ed.verbs, |ix.verbs|) && Below(ed.deps, |ix.deps|) &&
    InverseBelow(ed.inverseDeps, |ix.deps|)
  }

  /** Every inverse position is -1 or inside an index of length `n`. */
  predicate InverseBelow(s: seq<int>, n: int) {
    forall i :: 0 <= i < |s| ==> -1 <= s[i] < n
  }

  /** One 0/1 flag per type exactly when features are on. */
  predicate FeatsFit(ed: EntityData, cfg: Config) {
    |ed.feats| == (if cfg.includeEntityFeatures then cfg.numFeats else 0) &&
    forall f :: 0 <= f < |ed.feats| ==> ed.feats[f] == 0 || ed.feats[f] == 1
  }

  /** The encoding of an entity with `numMentions` mentions fits the indices. */
  predicate EntityFits(ed: EntityData, numMentions: int, ix: Indices, cfg: Config) {
    MentionsFit(ed, numMentions, ix, cfg.includeVerbs) && FeatsFit(ed, cfg)
  }

  /** Each document's entities fit the indices. */
  predicate CorpusFits(data: seq<seq<EntityData>>, docs: seq<seq<TextEntity>>, ix: Indices, cfg: Config) {
    |data| == |docs| &&
    forall d :: 0 <= d < |data| ==>
      (|data[d]| == |docs[d]| &&
       forall e :: 0 <= e < |data[d]| ==> EntityFits(data[d][e], |docs[d][e].mentions|, ix, cfg))
  }

  lemma BelowSnoc(s: seq<int>, x: int, n: int, m: int)
    requires Below(s, n) && n <= m && 0 <= x < m
    ensures Below(s + [x], m)
  {
  }

  /** The position of a value just added lies below any bound the grown index meets. */
  lemma IndexAddBelow<T>(ix: seq<T>, x: T, s: seq<int>, m: int)
    requires Below(s, |ix|) && |IndexAdd(ix, x)| <= m
    ensures Below(s + [PositionOf(IndexAdd(ix, x), x)], m)
  {
    BelowSnoc(s, PositionOf(IndexAdd(ix, x), x), |ix|, m);
  }

  lemma InverseBelowSnoc(s: seq<int>, x: int, n: int, m: int)
    requires InverseBelow(s, n) && n <= m && -1 <= x < m
    ensures InverseBelow(s + [x], m)
  {
  }

  lemma PrefixTrans<T>(a: seq<T>, b: seq<T>, c: seq<T>)
    requires a <= b && b <= c
    ensures a <= c
  {
    assert c[..|a|] == b[..|a|];
  }

  lemma ExtendsTrans(a: Indices, b: Indices, c: Indices)
    requires Extends(a, b) && Extends(b, c)
    ensures Extends(a, c)
  {
    PrefixTrans(a.words, b.words, c.words);
    PrefixTrans(a.verbs, b.verbs, c.verbs);
    PrefixTrans(a.deps, b.deps, c.deps);
  }

  /** Growing the indices keeps an encoding inside them. */
  lemma EntityFitsExtends(ed: EntityData, n: int, ix: Indices, ix': Indices, cfg: Config)
    requires EntityFits(ed, n, ix, cfg) && Extends(ix, ix')
    ensures EntityFits(ed, n, ix', cfg)
  {
  }

  /** One mention only appends to the indices, and adds in-range positions. */
  lemma AddMentionFits(ix: Indices, ed: EntityData, n: int, token: string, dep: string, includeVerbs: bool)
    requires InverseDepDefined(dep)
    requires MentionsFit(ed, n, ix, includeVerbs)
    ensures var r := AddMention(ix, ed, token, dep, includeVerbs);
            Extends(ix, r.0) && r.1.feats == ed.feats && MentionsFit(r.1, n + 1, r.0, includeVerbs)
  {
    var words := IndexAdd(ix.words, token);
    var verbs := IndexAdd(ix.verbs, Governor(dep));
    var deps1 := IndexAdd(ix.deps, dep);
    var inv := InverseDep(dep);
    var deps := if inv.Some? then IndexAdd(deps1, inv.value) else deps1;
    IndexAddBelow(ix.words, token, ed.words, |words|);
    if includeVerbs {
      IndexAddBelow(ix.verbs, Governor(dep), ed.verbs, |verbs|);
    }
    IndexAddBelow(ix.deps, dep, ed.deps, |deps|);
    var invIndex := if inv.Some? then PositionOf(deps, inv.value) else -1;
    InverseBelowSnoc(ed.inverseDeps, invIndex, |ix.deps|, |deps|);
  }

  /** One mention keeps the indices free of duplicates. */
  lemma AddMentionDistinct(ix: Indices, ed: EntityData, token: string, dep: string, includeVerbs: bool)
    requires InverseDepDefined(dep) && IndicesDistinct(ix)
    ensures IndicesDistinct(AddMention(ix, ed, token, dep, includeVerbs).0)
  {
  }

  /** The mentions before position `n` have dependencies `inverseDep` accepts when all of them do. */
  lemma MentionDepsPrefix(ms: seq<Mention>, n: int)
    requires 0 <= n <= |ms| && forall i :: 0 <= i < |ms| ==> InverseDepDefined(ms[i].dep)
    ensures forall i :: 0 <= i < |ms[..n]| ==> InverseDepDefined(ms[..n][i].dep)
  {
  }

  lemma {:induction false} EncodeMentionsFits(ix: Indices, token: string, ms: seq<Mention>, includeVerbs: bool)
    requires forall i :: 0 <= i < |ms| ==> InverseDepDefined(ms[i].dep)
    ensures var r := EncodeMentions(ix, token, ms, includeVerbs);
            Extends(ix, r.0) && r.1.feats == [] && MentionsFit(r.1, |ms|, r.0, includeVerbs)
    decreases |ms|
  {
    if |ms| > 0 {
      var n := |ms| - 1;
      MentionDepsPrefix(ms, n);
      var prev := EncodeMentions(ix, token, ms[..n], includeVerbs);
      EncodeMentionsFits(ix, token, ms[..n], includeVerbs);
      var last := AddMention(prev.0, prev.1, token, ms[n].dep, includeVerbs);
      assert EncodeMentions(ix, token, ms, includeVerbs) == last;
      AddMentionFits(prev.0, prev.1, n, token, ms[n].dep, includeVerbs);
      ExtendsTrans(ix, prev.0, last.0);
    }
  }

  lemma {:induction false} EncodeMentionsDistinct(ix: Indices, token: string, ms: seq<Mention>, includeVerbs: bool)
    requires forall i :: 0 <= i < |ms| ==> InverseDepDefined(ms[i].dep)
    requires IndicesDistinct(ix)
    ensures IndicesDistinct(EncodeMentions(ix, token, ms, includeVerbs).0)
    decreases |ms|
  {
    if |ms| > 0 {
      var n := |ms| - 1;
      MentionDepsPrefix(ms, n);
      var prev := EncodeMentions(ix, token, ms[..n], includeVerbs);
      EncodeMentionsDistinct(ix, token, ms[..n], includeVerbs);
      assert EncodeMentions(ix, token, ms, includeVerbs) == AddMention(prev.0, prev.1, token, ms[n].dep, includeVerbs);
      AddMentionDistinct(prev.0, prev.1, token, ms[n].dep, includeVerbs);
    }
  }

  /** Encoding an entity only appends to the indices, and fits the entity. */
  lemma EncodeEntityFits(ix: Indices, e: TextEntity, cfg: Config)
    requires EntityDepsDefined(e)
    ensures var r := EncodeEntity(ix, e, cfg);
            Extends(ix, r.0) && EntityFits(r.1, |e.mentions|, r.0, cfg)
  {
    EncodeMentionsFits(ix, e.coreToken, e.mentions, cfg.includeVerbs);
  }

  /** Appending one fitting entity to fitting entities, as the indices grow. */
  lemma SnocFits(ix0: Indices, ix1: Indices, ix2: Indices, prev: seq<EntityData>, last: EntityData,
                 doc: seq<TextEntity>, cfg: Config)
    requires |doc| == |prev| + 1
    requires Extends(ix0, ix1) && Extends(ix1, ix2)
    requires forall e :: 0 <= e < |prev| ==> EntityFits(prev[e], |doc[..|prev|][e].mentions|, ix1, cfg)
    requires EntityFits(last, |doc[|prev|].mentions|, ix2, cfg)
    ensures Extends(ix0, ix2)
    ensures forall e :: 0 <= e < |doc| ==> EntityFits((prev + [last])[e], |doc[e].mentions|, ix2, cfg)
  {
    ExtendsTrans(ix0, ix1, ix2);
    forall e | 0 <= e < |doc| ensures EntityFits((prev + [last])[e], |doc[e].mentions|, ix2, cfg) {
      if e < |prev| {
        assert doc[..|prev|][e] == doc[e];
        EntityFitsExtends(prev[e], |doc[e].mentions|, ix1, ix2, cfg);
      }
    }
  }

  lemma {:induction false} EncodeDocFits(ix: Indices, doc: seq<TextEntity>, cfg: Config)
    requires DocDepsDefined(doc)
    ensures var r := EncodeDoc(ix, doc, cfg);
            Extends(ix, r.0) && forall e :: 0 <= e < |doc| ==> EntityFits(r.1[e], |doc[e].mentions|, r.0, cfg)
    decreases |doc|
  {
    if |doc| > 0 {
      var n := |doc| - 1;
      var prev := EncodeDoc(ix, doc[..n], cfg);
      EncodeDocFits(ix, doc[..n], cfg);
      EncodeEntityFits(prev.0, doc[n], cfg);
      var last := EncodeEntity(prev.0, doc[n], cfg);
      SnocFits(ix, prev.0, last.0, prev.1, last.1, doc, cfg);
    }
  }

  lemma {:induction false} EncodeDocDistinct(ix: Indices, doc: seq<TextEntity>, cfg: Config)
    requires DocDepsDefined(doc) && IndicesDistinct(ix)
    ensures IndicesDistinct(EncodeDoc(ix, doc, cfg).0)
    decreases |doc|
  {
    if |doc| > 0 {
      var n := |doc| - 1;
      EncodeDocDistinct(ix, doc[..n], cfg);
      var prev := EncodeDoc(ix, doc[..n], cfg);
      EncodeMentionsDistinct(prev.0, doc[n].coreToken, doc[n].mentions, cfg.includeVerbs);
    }
  }

  /** Encoding a corpus only appends to the indices, and every entity's encoding fits the final indices. */
  lemma {:induction false} EncodeCorpusFits(ix: Indices, docs: seq<seq<TextEntity>>, cfg: Config)
    requires CorpusDepsDefined(docs)
    ensures var r := EncodeCorpus(ix, docs, cfg);
            Extends(ix, r.0) && CorpusFits(r.1, docs, r.0, cfg)
    decreases |docs|
  {
    if |docs| > 0 {
      var n := |docs| - 1;
      var prev := EncodeCorpus(ix, docs[..n], cfg);
      EncodeCorpusFits(ix, docs[..n], cfg);
      EncodeDocFits(prev.0, docs[n], cfg);
      var last := EncodeDoc(prev.0, docs[n], cfg);
      ExtendsTrans(ix, prev.0, last.0);
      var r := EncodeCorpus(ix, docs, cfg);
      assert r == (last.0, prev.1 + [last.1]);
      forall d | 0 <= d < |docs|
        ensures |r.1[d]| == |docs[d]|
        ensures forall e :: 0 <= e < |r.1[d]| ==> EntityFits(r.1[d][e], |docs[d][e].mentions|, r.0, cfg)
      {
        if d < n {
          assert docs[..n][d] == docs[d] && r.1[d] == prev.1[d];
          forall e | 0 <= e < |r.1[d]| ensures EntityFits(r.1[d][e], |docs[d][e].mentions|, r.0, cfg) {
            EntityFitsExtends(prev.1[d][e], |docs[d][e].mentions|, prev.0, r.0, cfg);
          }
        } else {
          assert r.1[d] == last.1;
        }
      }
    }
  }

  /** The indices built from a corpus never hold a value twice. */
  lemma {:induction false} EncodeCorpusDistinct(ix: Indices, docs: seq<seq<TextEntity>>, cfg: Config)
    requires CorpusDepsDefined(docs) && IndicesDistinct(ix)
    ensures IndicesDistinct(EncodeCorpus(ix, docs, cfg).0)
    decreases |docs|
  {
    if |docs| > 0 {
      var n := |docs| - 1;
      EncodeCorpusDistinct(ix, docs[..n], cfg);
      EncodeDocDistinct(EncodeCorpus(ix, docs[..n], cfg).0, docs[n], cfg);
    }
  }

  // ---------------------------------------------------------------------------
  // Count tables

  /** The four per-topic count tables. */
  datatype Table = WordTable | DepTable | VerbTable | FeatTable

  /** The type positions flagged 1, in order. */
  function OnFeatures(feats: seq<int>): (r: seq<int>)
    ensures |r| <= |feats| && Below(r, |feats|)
    ensures forall f :: f in r <==> 0 <= f < |feats| && feats[f] == 1
    decreases |feats|
  {
    if |feats| == 0 then []
    else OnFeatures(feats[..|feats| - 1]) + (if feats[|feats| - 1] == 1 then [|feats| - 1] else [])
  }

  /** The keys an entity adds to a table: one per mention for words, deps and verbs, one per flagged type for features. */
  function TableKeys(tab: Table, ed: EntityData): seq<int> {
    match tab
    case WordTable => ed.words
    case DepTable => ed.deps
    case VerbTable => ed.verbs
    case FeatTable => OnFeatures(ed.feats)
  }

  /** The same number of topics as entities, document by document. */
  predicate SameShape<A, B>(data: seq<seq<A>>, topics: seq<seq<B>>) {
    |data| == |topics| && forall d :: 0 <= d < |data| ==> |data[d]| == |topics[d]|
  }

  /** The counter `c` after the entities of one row assigned topic `t` added their keys, in order. */
  function TallyRow(c: Counter, row: seq<EntityData>, zrow: seq<int>, t: int, tab: Table): Counter
    requires |row| == |zrow|
    decreases |row|
  {
    if |row| == 0 then c
    else
      var n := |row| - 1;
      var prev := TallyRow(c, row[..n], zrow[..n], t, tab);
      if zrow[n] == t then IncrementAll(prev, TableKeys(tab, row[n])) else prev
  }

  /** The table of topic `t` the whole corpus induces under the assignment `topics`. */
  function TallyCorpus(data: seq<seq<EntityData>>, topics: seq<seq<int>>, t: int, tab: Table): Counter
    requires SameShape(data, topics)
    decreases |data|
  {
    if |data| == 0 then EmptyCounter
    else
      var n := |data| - 1;
      TallyRow(TallyCorpus(data[..n], topics[..n], t, tab), data[n], topics[n], t, tab)
  }

  /** The keys the entities of one row assigned topic `t` add. */
  function KeyMassRow(row: seq<EntityData>, zrow: seq<int>, t: int, tab: Table): int
    requires |row| == |zrow|
    decreases |row|
  {
    if |row| == 0 then 0
    else
      var n := |row| - 1;
      KeyMassRow(row[..n], zrow[..n], t, tab) + (if zrow[n] == t then |TableKeys(tab, row[n])| else 0)
  }

  /** The mentions of the entities of one document assigned topic `t`. */
  function MentionsOfTopicRow(doc: seq<TextEntity>, zrow: seq<int>, t: int): int
    requires |doc| == |zrow|
    decreases |doc|
  {
    if |doc| == 0 then 0
    else
      var n := |doc| - 1;
      MentionsOfTopicRow(doc[..n], zrow[..n], t) + (if zrow[n] == t then |doc[n].mentions| else 0)
  }

  /** The mentions of all entities assigned topic `t`. */
  function MentionsOfTopic(docs: seq<seq<TextEntity>>, topics: seq<seq<int>>, t: int): int
    requires SameShape(docs, topics)
    decreases |docs|
  {
    if |docs| == 0 then 0
    else
      var n := |docs| - 1;
      MentionsOfTopic(docs[..n], topics[..n], t) + MentionsOfTopicRow(docs[n], topics[n], t)
  }

  /** A row's tally adds its key mass to the total, and keeps the counter consistent. */
  lemma {:induction false} TallyRowTotal(c: Counter, row: seq<EntityData>, zrow: seq<int>, t: int, tab: Table)
    requires |row| == |zrow|
    ensures TallyRow(c, row, zrow, t, tab).total == c.total + KeyMassRow(row, zrow, t, tab)
    ensures Consistent(c) ==> Consistent(TallyRow(c, row, zrow, t, tab))
    decreases |row|
  {
    if |row| > 0 {
      var n := |row| - 1;
      var prev := TallyRow(c, row[..n], zrow[..n], t, tab);
      TallyRowTotal(c, row[..n], zrow[..n], t, tab);
      IncrementAllCounts(prev, TableKeys(tab, row[n]));
      if Consistent(c) {
        IncrementAllConsistent(prev, TableKeys(tab, row[n]));
      }
    }
  }

  /** A row of words or dependencies tallies one key per mention of the entities assigned `t`. */
  lemma {:induction false} KeyMassRowIsMentions(row: seq<EntityData>, doc: seq<TextEntity>, zrow: seq<int>, t: int,
                                                tab: Table, ix: Indices, cfg: Config)
    requires tab == WordTable || tab == DepTable
    requires |row| == |doc| == |zrow|
    requires forall e :: 0 <= e < |doc| ==> EntityFits(row[e], |doc[e].mentions|, ix, cfg)
    ensures KeyMassRow(row, zrow, t, tab) == MentionsOfTopicRow(doc, zrow, t)
    decreases |row|
  {
    if |row| > 0 {
      var n := |row| - 1;
      assert forall e :: 0 <= e < n ==> row[..n][e] == row[e] && doc[..n][e] == doc[e];
      KeyMassRowIsMentions(row[..n], doc[..n], zrow[..n], t, tab, ix, cfg);
    }
  }

  /**
   * After the corpus is counted, a topic's word table and its dependency table
   * each hold one count per mention of the entities assigned that topic (the
   * core token is counted once per mention), and the tables keep their totals.
   */
  lemma {:induction false} TallyIsMentions(data: seq<seq<EntityData>>, docs: seq<seq<TextEntity>>, topics: seq<seq<int>>,
                                           t: int, tab: Table, ix: Indices, cfg: Config)
    requires tab == WordTable || tab == DepTable
    requires CorpusFits(data, docs, ix, cfg) && SameShape(docs, topics)
    ensures SameShape(data, topics)
    ensures TallyCorpus(data, topics, t, tab).total == MentionsOfTopic(docs, topics, t)
    ensures Consistent(TallyCorpus(data, topics, t, tab))
    decreases |data|
  {
    if |data| > 0 {
      var n := |data| - 1;
      assert CorpusFits(data[..n], docs[..n], ix, cfg) by {
        forall d | 0 <= d < n ensures data[..n][d] == data[d] && docs[..n][d] == docs[d] { }
      }
      TallyIsMentions(data[..n], docs[..n], topics[..n], t, tab, ix, cfg);
      TallyRowTotal(TallyCorpus(data[..n], topics[..n], t, tab), data[n], topics[n], t, tab);
      KeyMassRowIsMentions(data[n], docs[n], topics[n], t, tab, ix, cfg);
    } else {
      ConsistentEmpty();
    }
  }

  /** Every table the corpus induces keeps its total. */
  lemma {:induction false} TallyConsistent(data: seq<seq<EntityData>>, topics: seq<seq<int>>, t: int, tab: Table)
    requires SameShape(data, topics)
    ensures Consistent(TallyCorpus(data, topics, t, tab))
    decreases |data|
  {
    if |data| > 0 {
      var n := |data| - 1;
      TallyConsistent(data[..n], topics[..n], t, tab);
      TallyRowTotal(TallyCorpus(data[..n], topics[..n], t, tab), data[n], topics[n], t, tab);
    } else {
      ConsistentEmpty();
    }
  }

  // ---------------------------------------------------------------------------
  // Topic counts

  /** The entities of all documents assigned topic `t`. */
  function TopicTotal(topics: seq<seq<int>>, t: int): int
    decreases |topics|
  {
    if |topics| == 0 then 0 else TopicTotal(topics[..|topics| - 1], t) + Count(topics[|topics| - 1], t)
  }

  /** The number of entities in all documents. */
  function EntityTotal(topics: seq<seq<int>>): int
    decreases |topics|
  {
    if |topics| == 0 then 0 else EntityTotal(topics[..|topics| - 1]) + |topics[|topics| - 1]|
  }

  lemma {:induction false} EntityTotalNonNegative(topics: seq<seq<int>>)
    ensures EntityTotal(topics) >= 0
    decreases |topics|
  {
    if |topics| > 0 {
      EntityTotalNonNegative(topics[..|topics| - 1]);
    }
  }

  /** Every assignment is a topic in `[0, n)`. */
  predicate TopicsBelow(topics: seq<seq<int>>, n: int) {
    forall d :: 0 <= d < |topics| ==> Below(topics[d], n)
  }

  lemma IntSumUpdate(s: seq<int>, n: int, x: int, v: int)
    requires 0 <= x < n <= |s|
    ensures IntSum(s[x := v], n) == IntSum(s, n) - s[x] + v
    decreases n
  {
    if n - 1 != x {
      IntSumUpdate(s, n - 1, x, v);
    } else {
      IntSumAgree(s[x := v], s, n - 1);
    }
  }

  lemma {:induction false} IntSumAgree(a: seq<int>, b: seq<int>, n: int)
    requires n <= |a| && n <= |b|
    requires forall i :: 0 <= i < n ==> a[i] == b[i]
    ensures IntSum(a, n) == IntSum(b, n)
    decreases n
  {
    if n > 0 {
      IntSumAgree(a, b, n - 1);
    }
  }

  lemma {:induction false} IntSumPointwise(a: seq<int>, b: seq<int>, c: seq<int>, n: int)
    requires n <= |a| && n <= |b| && n <= |c|
    requires forall i :: 0 <= i < n ==> a[i] == b[i] + c[i]
    ensures IntSum(a, n) == IntSum(b, n) + IntSum(c, n)
    decreases n
  {
    if n > 0 {
      IntSumPointwise(a, b, c, n - 1);
    }
  }

  lemma {:induction false} IntSumZero(s: seq<int>, n: int)
    requires n <= |s| && forall i :: 0 <= i < n ==> s[i] == 0
    ensures IntSum(s, n) == 0
    decreases n
  {
    if n > 0 {
      IntSumZero(s, n - 1);
    }
  }

  /**
   * A per-topic tally of a list of topics in `[0, n)` sums, over the topics, to
   * the length of the list.
   */
  lemma {:induction false} CountsSumToLength(zrow: seq<int>, s: seq<int>, n: int)
    requires n <= |s| && Below(zrow, n)
    requires forall t :: 0 <= t < n ==> s[t] == Count(zrow, t)
    ensures IntSum(s, n) == |zrow|
    decreases |zrow|
  {
    if |zrow| == 0 {
      IntSumZero(s, n);
    } else {
      var m := |zrow| - 1;
      var x := zrow[m];
      var s' := s[x := s[x] - 1];
      assert forall t :: 0 <= t < n ==> s'[t] == Count(zrow[..m], t);
      CountsSumToLength(zrow[..m], s', n);
      IntSumUpdate(s, n, x, s[x] - 1);
    }
  }

  /** The global topic counts sum, over the topics, to the number of entities. */
  lemma {:induction false} TopicTotalsSum(topics: seq<seq<int>>, s: seq<int>, n: int)
    requires n <= |s| && TopicsBelow(topics, n)
    requires forall t :: 0 <= t < n ==> s[t] == TopicTotal(topics, t)
    ensures IntSum(s, n) == EntityTotal(topics)
    decreases |topics|
  {
    if |topics| == 0 {
      IntSumZero(s, n);
    } else {
      var m := |topics| - 1;
      var front := seq(|s|, t requires 0 <= t < |s| => if t < n then TopicTotal(topics[..m], t) else 0);
      var last := seq(|s|, t requires 0 <= t < |s| => if t < n then Count(topics[m], t) else 0);
      assert TopicsBelow(topics[..m], n) by {
        forall d | 0 <= d < m ensures topics[..m][d] == topics[d] { }
      }
      TopicTotalsSum(topics[..m], front, n);
      CountsSumToLength(topics[m], last, n);
      IntSumPointwise(s, front, last, n);
    }
  }

  // ---------------------------------------------------------------------------
  // Mention totals and key bounds

  /** The mentions of the entities of one document. */
  function DocMentionTotal(doc: seq<TextEntity>): int
    decreases |doc|
  {
    if |doc| == 0 then 0 else DocMentionTotal(doc[..|doc| - 1]) + |doc[|doc| - 1].mentions|
  }

  /** The mentions of all entities of the corpus. */
  function MentionTotal(docs: seq<seq<TextEntity>>): int
    decreases |docs|
  {
    if |docs| == 0 then 0 else MentionTotal(docs[..|docs| - 1]) + DocMentionTotal(docs[|docs| - 1])
  }

  /** Every key a table of `data` receives lies in `[0, n)`. */
  predicate KeysOfDataBelow(data: seq<seq<EntityData>>, tab: Table, n: int) {
    forall d, e :: 0 <= d < |data| && 0 <= e < |data[d]| ==> Below(TableKeys(tab, data[d][e]), n)
  }

  /** Incrementing keys in `[0, n)` keeps every key of a counter in `[0, n)`. */
  lemma IncrementAllKeysBelow(c: Counter, ks: seq<int>, n: int)
    requires KeysBelow(c, n) && Below(ks, n)
    ensures KeysBelow(IncrementAll(c, ks), n)
  {
    IncrementAllCounts(c, ks);
  }

  /** Decrementing keys in `[0, n)` keeps every key of a counter in `[0, n)`. */
  lemma DecrementAllKeysBelow(c: Counter, ks: seq<int>, prune: bool, n: int)
    requires KeysBelow(c, n) && Below(ks, n)
    ensures KeysBelow(DecrementAll(c, ks, prune), n)
  {
    DecrementAllCounts(c, ks, prune);
  }

  lemma {:induction false} TallyRowKeysBelow(c: Counter, row: seq<EntityData>, zrow: seq<int>, t: int, tab: Table, n: int)
    requires |row| == |zrow| && KeysBelow(c, n)
    requires forall e :: 0 <= e < |row| ==> Below(TableKeys(tab, row[e]), n)
    ensures KeysBelow(TallyRow(c, row, zrow, t, tab), n)
    decreases |row|
  {
    if |row| > 0 {
      var m := |row| - 1;
      assert forall e :: 0 <= e < m ==> row[..m][e] == row[e];
      TallyRowKeysBelow(c, row[..m], zrow[..m], t, tab, n);
      IncrementAllKeysBelow(TallyRow(c, row[..m], zrow[..m], t, tab), TableKeys(tab, row[m]), n);
    }
  }

  /** A table the corpus induces holds only keys the entities carry. */
  lemma {:induction false} TallyKeysBelow(data: seq<seq<EntityData>>, topics: seq<seq<int>>, t: int, tab: Table, n: int)
    requires SameShape(data, topics) && KeysOfDataBelow(data, tab, n)
    ensures KeysBelow(TallyCorpus(data, topics, t, tab), n)
    decreases |data|
  {
    if |data| > 0 {
      var m := |data| - 1;
      assert forall d :: 0 <= d < m ==> data[..m][d] == data[d];
      TallyKeysBelow(data[..m], topics[..m], t, tab, n);
      TallyRowKeysBelow(TallyCorpus(data[..m], topics[..m], t, tab), data[m], topics[m], t, tab, n);
    }
  }
}
