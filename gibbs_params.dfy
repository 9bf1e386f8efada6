/**
 * The arithmetic of the entity Gibbs sampler that does not touch its state:
 * the topic/template layout fixed by the constructor, the inverse of a
 * subject/object dependency, the topics of one template, the junk tests, and
 * the smoothed distributions the sampler draws from, over `real`.
 */
module GibbsParams {
  import opened Wrappers
  import opened Strings
  import opened Counters

  const TopicSmoothing: real := 0.1
  const JunkTopicSmoothing: real := 20.0
  const WordSmoothing: real := 3.0
  const DepSmoothing: real := 0.1
  const VerbSmoothing: real := 0.1
  const FeatSmoothing: real := 1.0

  /** Java's `/` on `int`: the quotient rounded toward zero. */
  function JavaDiv(a: int, b: int): (q: int)
    requires b != 0
    ensures a >= 0 && b > 0 ==> q == a / b
  {
    if (a >= 0) == (b > 0) then (if a >= 0 then a / b else (-a) / (-b))
    else -((if a >= 0 then a else -a) / (if b > 0 then b else -b))
  }

  /** The layout the constructor fixes. */
  datatype Params = Params(numTopics: int, numJunkTopics: int, numTemplates: int, numJunkTemplates: int,
                           numTopicsPerTemplate: int, topicSmoothingTimesNumTopics: real)

  /** The constructor exits when the topics do not split evenly into the templates. */
  predicate ConstructorExits(numTopics: int, numTemplates: int) {
    numTopics > 0 && numTemplates > 0 && numTopics % numTemplates != 0
  }

  /** The layout the constructor computes. */
  function MakeParams(numTopics: int, numJunkTopics: int, numTemplates: int, numJunkTemplates: int): Params {
    var perTemplate := if numTemplates == 0 then 0 else JavaDiv(numTopics, numTemplates);
    var junkTopics := if numJunkTemplates > 0 then perTemplate * numJunkTemplates else numJunkTopics;
    Params(numTopics, junkTopics, numTemplates, numJunkTemplates, perTemplate,
           (numTopics - junkTopics) as real * TopicSmoothing + junkTopics as real * JunkTopicSmoothing)
  }

  /** The quotient and remainder of a division by a positive number. */
  lemma DivBounds(a: int, q: int)
    requires q > 0
    ensures a / q * q <= a < a / q * q + q
    ensures a == a / q * q + a % q
  {
  }

  /**
   * When the constructor does not exit: with templates, the topics split into
   * `numTopicsPerTemplate` per template; with junk templates, their topics are
   * the junk topics; the summed smoothing gives each junk topic the junk
   * smoothing; without templates there are no topics per template.
   */
  lemma MakeParamsLayout(numTopics: int, numJunkTopics: int, numTemplates: int, numJunkTemplates: int)
    requires !ConstructorExits(numTopics, numTemplates)
    ensures var p := MakeParams(numTopics, numJunkTopics, numTemplates, numJunkTemplates);
            p.numTopics == numTopics && p.numTemplates == numTemplates && p.numJunkTemplates == numJunkTemplates &&
            (numTemplates == 0 ==> p.numTopicsPerTemplate == 0) &&
            (numTemplates > 0 && numTopics > 0 ==> p.numTopicsPerTemplate > 0 && numTopics == p.numTopicsPerTemplate * numTemplates) &&
            (numJunkTemplates > 0 ==> p.numJunkTopics == p.numTopicsPerTemplate * numJunkTemplates) &&
            (numJunkTemplates <= 0 ==> p.numJunkTopics == numJunkTopics) &&
            p.topicSmoothingTimesNumTopics ==
              (p.numTopics - p.numJunkTopics) as real * TopicSmoothing + p.numJunkTopics as real * JunkTopicSmoothing
  {
    if numTemplates > 0 && numTopics > 0 {
      DivBounds(numTopics, numTemplates);
      var q := numTopics / numTemplates;
      assert numTopics == q * numTemplates;
      if q <= 0 {
        MulMonotone(q, 0, numTemplates);
      }
    }
  }

  /** The constructor exits exactly when the topics do not divide evenly among the templates. */
  lemma ConstructorExitsIff(numTopics: int, numTemplates: int)
    requires numTopics > 0 && numTemplates > 0
    ensures ConstructorExits(numTopics, numTemplates) <==> numTopics != numTopics / numTemplates * numTemplates
  {
    DivBounds(numTopics, numTemplates);
  }

  // ---------------------------------------------------------------------------
  // Dependencies

  /** `substring` needs the prefix and its "--" to be there. */
  predicate InverseDepDefined(dep: string) {
    (StartsWith(dep, "nsubj") ==> |dep| >= 7) && (StartsWith(dep, "dobj") ==> |dep| >= 6)
  }

  /**
   * The object dependency of a subject one and the other way round, keeping
   * what follows the (assumed) "--"; nothing for other relations.
   */
  function InverseDep(dep: string): (r: Option<string>)
    requires InverseDepDefined(dep)
    ensures r.None? <==> !StartsWith(dep, "nsubj") && !StartsWith(dep, "dobj")
    ensures StartsWith(dep, "nsubj") ==> r == Some("dobj--" + dep[7..])
    ensures !StartsWith(dep, "nsubj") && StartsWith(dep, "dobj") ==> r == Some("nsubj--" + dep[6..])
  {
    if StartsWith(dep, "nsubj") then Some("dobj--" + dep[7..])
    else if StartsWith(dep, "dobj") then Some("nsubj--" + dep[6..])
    else None
  }

  /** Subject and object forms of one governor invert to each other. */
  lemma InverseDepInvolution(g: string)
    ensures InverseDepDefined("nsubj--" + g) && InverseDep("nsubj--" + g) == Some("dobj--" + g)
    ensures InverseDepDefined("dobj--" + g) && InverseDep("dobj--" + g) == Some("nsubj--" + g)
    ensures InverseDep(InverseDep("nsubj--" + g).value) == Some("nsubj--" + g)
    ensures InverseDep(InverseDep("dobj--" + g).value) == Some("dobj--" + g)
  {
    var s := "nsubj--" + g;
    var o := "dobj--" + g;
    assert s[..5] == "nsubj" && s[7..] == g;
    assert o[..4] == "dobj" && o[6..] == g;
    assert !StartsWith(o, "nsubj") by {
      assert o[1] != "nsubj"[1];
    }
  }

  // ---------------------------------------------------------------------------
  // Topics and templates

  /** The topics `[start, end)` of the template `topic` belongs to. */
  function SiblingTopics(p: Params, topic: int): (r: (int, int))
    requires p.numTopicsPerTemplate > 0 && topic >= 0
    ensures r.1 - r.0 == p.numTopicsPerTemplate
    ensures r.0 <= topic < r.1
  {
    var m := topic % p.numTopicsPerTemplate;
    (topic - m, topic + (p.numTopicsPerTemplate - m))
  }

  /** The first sibling is the template's number times `numTopicsPerTemplate`: a multiple of it. */
  lemma SiblingTopicsStart(p: Params, topic: int)
    requires p.numTopicsPerTemplate > 0 && topic >= 0
    ensures SiblingTopics(p, topic).0 == topic / p.numTopicsPerTemplate * p.numTopicsPerTemplate
  {
    DivBounds(topic, p.numTopicsPerTemplate);
  }

  /** Topics of one template have the same siblings. */
  lemma SiblingsOfOneTemplate(p: Params, t1: int, t2: int)
    requires p.numTopicsPerTemplate > 0 && t1 >= 0 && t2 >= 0
    requires t1 / p.numTopicsPerTemplate == t2 / p.numTopicsPerTemplate
    ensures SiblingTopics(p, t1) == SiblingTopics(p, t2)
  {
  }

  /** The junk topics are the last ones. */
  predicate IsJunkTopic(p: Params, tt: int) {
    tt >= p.numTopics - p.numJunkTopics
  }

  /** The junk templates are the last ones. */
  predicate IsInJunkTemplate(p: Params, topic: int)
    requires p.numTopicsPerTemplate != 0
  {
    JavaDiv(topic, p.numTopicsPerTemplate) >= p.numTemplates - p.numJunkTemplates
  }

  /** With the junk topics those of the junk templates, the two junk tests agree. */
  lemma JunkTestsAgree(p: Params, topic: int)
    requires p.numTopicsPerTemplate > 0 && p.numTopics == p.numTopicsPerTemplate * p.numTemplates
    requires p.numJunkTopics == p.numTopicsPerTemplate * p.numJunkTemplates
    requires 0 <= topic
    ensures IsJunkTopic(p, topic) <==> IsInJunkTemplate(p, topic)
  {
    var q := p.numTopicsPerTemplate;
    var b := topic / q;
    var k := p.numTemplates - p.numJunkTemplates;
    DivBounds(topic, q);
    assert p.numTopics - p.numJunkTopics == k * q;
    if b >= k {
      MulMonotone(k, b, q);
    } else {
      MulCompare(b, k, q);
    }
  }

  lemma MulCompare(a: int, b: int, q: int)
    requires q > 0 && a < b
    ensures a * q + q <= b * q
  {
    var d := b - a;
    MulMonotone(1, d, q);
    assert b * q == a * q + d * q;
  }

  lemma MulMonotone(a: int, b: int, q: int)
    requires q > 0 && a <= b
    ensures a * q <= b * q
  {
  }

  // ---------------------------------------------------------------------------
  // Topic priors

  function TopicSmoothingOf(p: Params, topic: int): real {
    if IsJunkTopic(p, topic) then JunkTopicSmoothing else TopicSmoothing
  }

  function TemplateSmoothingOf(p: Params, topic: int): real
    requires p.numTopicsPerTemplate != 0
  {
    if IsInJunkTemplate(p, topic) then JunkTopicSmoothing else TopicSmoothing
  }

  /** The sum of the first `n` counts. */
  function IntSum(s: seq<int>, n: int): int
    requires n <= |s|
  {
    if n <= 0 then 0 else IntSum(s, n - 1) + s[n - 1]
  }

  /** `probOfTopic`: the global prior of a topic. */
  function ProbOfTopic(p: Params, topicCounts: seq<int>, numEntities: int, topic: int): real
    requires 0 <= topic < |topicCounts|
    requires numEntities as real + p.topicSmoothingTimesNumTopics != 0.0
  {
    (topicCounts[topic] as real + TopicSmoothingOf(p, topic)) / (numEntities as real + p.topicSmoothingTimesNumTopics)
  }

  /** `probOfTemplateTopicGivenDoc`: a uniform share of the smoothed template prior. */
  function ProbOfTemplateTopicGivenDoc(p: Params, docCounts: seq<int>, topic: int): real
    requires p.numTopicsPerTemplate > 0 && 0 <= topic && p.numTopics <= |docCounts|
    requires SiblingTopics(p, topic).1 <= |docCounts|
    requires IntSum(docCounts, p.numTopics) as real + p.topicSmoothingTimesNumTopics != 0.0
  {
    var (start, end) := SiblingTopics(p, topic);
    var templateCount := IntSum(docCounts, end) - IntSum(docCounts, start);
    (1.0 / p.numTopicsPerTemplate as real) *
      ((templateCount as real + TemplateSmoothingOf(p, topic) * p.numTopicsPerTemplate as real) /
       (IntSum(docCounts, p.numTopics) as real + p.topicSmoothingTimesNumTopics))
  }

  /** `probOfTopicGivenDoc`: the per-document prior of a topic, through its template when there are templates. */
  function ProbOfTopicGivenDoc(p: Params, docCounts: seq<int>, topic: int): real
    requires 0 <= topic < |docCounts| && p.numTopics <= |docCounts|
    requires p.numTemplates > 0 ==> p.numTopicsPerTemplate > 0 && SiblingTopics(p, topic).1 <= |docCounts|
    requires IntSum(docCounts, p.numTopics) as real + p.topicSmoothingTimesNumTopics != 0.0
  {
    if p.numTemplates > 0 then ProbOfTemplateTopicGivenDoc(p, docCounts, topic)
    else
      (docCounts[topic] as real + TopicSmoothingOf(p, topic)) /
      (IntSum(docCounts, p.numTopics) as real + p.topicSmoothingTimesNumTopics)
  }

  /** The junk topics are a tail of the topics. */
  predicate JunkLayout(p: Params) {
    0 <= p.numJunkTopics <= p.numTopics
  }

  /** The smoothing of the first `n` topics. */
  function SmoothingSum(p: Params, n: int): real {
    if n <= 0 then 0.0 else SmoothingSum(p, n - 1) + TopicSmoothingOf(p, n - 1)
  }

  lemma {:induction false} SmoothingSumAll(p: Params, n: int)
    requires JunkLayout(p) && 0 <= n <= p.numTopics
    ensures SmoothingSum(p, n) ==
              if n <= p.numTopics - p.numJunkTopics then n as real * TopicSmoothing
              else (p.numTopics - p.numJunkTopics) as real * TopicSmoothing +
                   (n - (p.numTopics - p.numJunkTopics)) as real * JunkTopicSmoothing
    decreases n
  {
    if n > 0 {
      SmoothingSumAll(p, n - 1);
    }
  }

  /** The global priors of the first `n` topics. */
  function GlobalPriorSum(p: Params, topicCounts: seq<int>, numEntities: int, n: int): real
    requires n <= |topicCounts|
    requires numEntities as real + p.topicSmoothingTimesNumTopics != 0.0
  {
    if n <= 0 then 0.0 else GlobalPriorSum(p, topicCounts, numEntities, n - 1) + ProbOfTopic(p, topicCounts, numEntities, n - 1)
  }

  /** A ratio of two equal non-zero values is one. */
  lemma RatioOfEquals(v: real, num: real, den: real)
    requires den != 0.0 && v == num / den && num == den
    ensures v == 1.0
  {
  }

  lemma DivSelf(d: real)
    requires d != 0.0
    ensures d / d == 1.0
  {
  }

  lemma AddFractions(a: real, b: real, d: real)
    requires d != 0.0
    ensures a / d + b / d == (a + b) / d
  {
  }

  lemma {:induction false} GlobalPriorSumClosed(p: Params, topicCounts: seq<int>, numEntities: int, n: int)
    requires 0 <= n <= |topicCounts|
    requires numEntities as real + p.topicSmoothingTimesNumTopics != 0.0
    ensures GlobalPriorSum(p, topicCounts, numEntities, n) ==
              (IntSum(topicCounts, n) as real + SmoothingSum(p, n)) / (numEntities as real + p.topicSmoothingTimesNumTopics)
    decreases n
  {
    if n > 0 {
      GlobalPriorSumClosed(p, topicCounts, numEntities, n - 1);
      AddFractions(IntSum(topicCounts, n - 1) as real + SmoothingSum(p, n - 1),
                   topicCounts[n - 1] as real + TopicSmoothingOf(p, n - 1),
                   numEntities as real + p.topicSmoothingTimesNumTopics);
    }
  }

  /**
   * The global topic priors sum to one when the entity count is the sum of the
   * topic counts and the junk topics are the last ones.
   */
  lemma GlobalPriorSumsToOne(p: Params, topicCounts: seq<int>, numEntities: int)
    requires |topicCounts| == p.numTopics && JunkLayout(p)
    requires p.topicSmoothingTimesNumTopics ==
               (p.numTopics - p.numJunkTopics) as real * TopicSmoothing + p.numJunkTopics as real * JunkTopicSmoothing
    requires numEntities == IntSum(topicCounts, p.numTopics)
    requires numEntities as real + p.topicSmoothingTimesNumTopics != 0.0
    ensures GlobalPriorSum(p, topicCounts, numEntities, p.numTopics) == 1.0
  {
    GlobalPriorSumClosed(p, topicCounts, numEntities, p.numTopics);
    SmoothingSumAll(p, p.numTopics);
    var d := numEntities as real + p.topicSmoothingTimesNumTopics;
    assert IntSum(topicCounts, p.numTopics) as real + SmoothingSum(p, p.numTopics) == d;
    DivSelf(d);
  }

  /** The per-document priors of the first `n` topics. */
  function DocPriorSum(p: Params, docCounts: seq<int>, n: int): real
    requires n <= p.numTopics <= |docCounts|
    requires p.numTemplates > 0 ==> p.numTopicsPerTemplate > 0 && p.numTopics <= p.numTopicsPerTemplate * p.numTemplates <= |docCounts|
    requires IntSum(docCounts, p.numTopics) as real + p.topicSmoothingTimesNumTopics != 0.0
  {
    if n <= 0 then 0.0
    else
      SiblingsInside(p, n - 1, |docCounts|);
      DocPriorSum(p, docCounts, n - 1) + ProbOfTopicGivenDoc(p, docCounts, n - 1)
  }

  /** The siblings of a topic below `numTopicsPerTemplate * numTemplates` stay below it. */
  lemma SiblingsInside(p: Params, topic: int, bound: int)
    requires p.numTemplates > 0 ==> p.numTopicsPerTemplate > 0 && p.numTopicsPerTemplate * p.numTemplates <= bound
    requires 0 <= topic < bound
    ensures p.numTemplates > 0 && topic < p.numTopicsPerTemplate * p.numTemplates ==> SiblingTopics(p, topic).1 <= bound
  {
    if p.numTemplates > 0 && topic < p.numTopicsPerTemplate * p.numTemplates {
      var q := p.numTopicsPerTemplate;
      var b := topic / q;
      DivBounds(topic, q);
      if b >= p.numTemplates {
        MulMonotone(p.numTemplates, b, q);
      }
      MulCompare(b, p.numTemplates, q);
    }
  }

  /** Without templates, a document's topic priors sum to one. */
  lemma {:induction false} FlatDocPriorSumsToOne(p: Params, docCounts: seq<int>)
    requires p.numTemplates <= 0 && |docCounts| == p.numTopics && JunkLayout(p)
    requires p.topicSmoothingTimesNumTopics ==
               (p.numTopics - p.numJunkTopics) as real * TopicSmoothing + p.numJunkTopics as real * JunkTopicSmoothing
    requires IntSum(docCounts, p.numTopics) as real + p.topicSmoothingTimesNumTopics != 0.0
    ensures DocPriorSum(p, docCounts, p.numTopics) == 1.0
  {
    var d := IntSum(docCounts, p.numTopics) as real + p.topicSmoothingTimesNumTopics;
    forall n | 0 <= n <= p.numTopics
      ensures DocPriorSum(p, docCounts, n) == (IntSum(docCounts, n) as real + SmoothingSum(p, n)) / d
    {
      FlatDocPriorSumClosed(p, docCounts, n);
    }
    SmoothingSumAll(p, p.numTopics);
    assert IntSum(docCounts, p.numTopics) as real + SmoothingSum(p, p.numTopics) == d;
    DivSelf(d);
  }

  lemma {:induction false} FlatDocPriorSumClosed(p: Params, docCounts: seq<int>, n: int)
    requires p.numTemplates <= 0 && |docCounts| == p.numTopics && 0 <= n <= p.numTopics
    requires IntSum(docCounts, p.numTopics) as real + p.topicSmoothingTimesNumTopics != 0.0
    ensures DocPriorSum(p, docCounts, n) ==
              (IntSum(docCounts, n) as real + SmoothingSum(p, n)) / (IntSum(docCounts, p.numTopics) as real + p.topicSmoothingTimesNumTopics)
    decreases n
  {
    if n > 0 {
      FlatDocPriorSumClosed(p, docCounts, n - 1);
      AddFractions(IntSum(docCounts, n - 1) as real + SmoothingSum(p, n - 1),
                   docCounts[n - 1] as real + TopicSmoothingOf(p, n - 1),
                   IntSum(docCounts, p.numTopics) as real + p.topicSmoothingTimesNumTopics);
    }
  }

  // ---------------------------------------------------------------------------
  // The templated per-document prior

  /** A topic in the block of template `b` belongs to template `b`. */
  lemma DivOfBlock(t: int, b: int, q: int)
    requires q > 0 && b * q <= t < b * q + q
    ensures t / q == b
  {
    var c := t / q;
    DivBounds(t, q);
    if c < b {
      MulCompare(c, b, q);
    } else if c > b {
      MulCompare(b, c, q);
    }
  }

  /** The smoothing every topic of template `b` gets from its template. */
  function BlockSmoothing(p: Params, b: int): real {
    if b >= p.numTemplates - p.numJunkTemplates then JunkTopicSmoothing else TopicSmoothing
  }

  /** The smoothing of template `b` summed over its topics. */
  function SmoothingMass(p: Params, b: int): real {
    BlockSmoothing(p, b) * p.numTopicsPerTemplate as real
  }

  /** The smoothing mass of the first `b` templates, `numTopicsPerTemplate` shares each. */
  function TemplateSmoothingSum(p: Params, b: int): real
    decreases b
  {
    if b <= 0 then 0.0 else TemplateSmoothingSum(p, b - 1) + SmoothingMass(p, b - 1)
  }

  lemma {:induction false} TemplateSmoothingSumClosed(p: Params, b: int)
    requires 0 <= p.numJunkTemplates <= p.numTemplates && 0 <= b <= p.numTemplates
    ensures var k := p.numTemplates - p.numJunkTemplates;
            TemplateSmoothingSum(p, b) ==
              (if b <= k then b else k) as real * p.numTopicsPerTemplate as real * TopicSmoothing +
              (if b <= k then 0 else b - k) as real * p.numTopicsPerTemplate as real * JunkTopicSmoothing
    decreases b
  {
    if b > 0 {
      TemplateSmoothingSumClosed(p, b - 1);
      var k := p.numTemplates - p.numJunkTemplates;
      var q := p.numTopicsPerTemplate as real;
      if b <= k {
        assert SmoothingMass(p, b - 1) == q * TopicSmoothing;
        AddShare(b, q * TopicSmoothing);
      } else {
        assert SmoothingMass(p, b - 1) == q * JunkTopicSmoothing;
        AddShare(b - k, q * JunkTopicSmoothing);
      }
    }
  }

  lemma CastMul(a: int, b: int)
    ensures (a * b) as real == a as real * b as real
  {
  }

  lemma ShareTimesCount(q: int, y: real)
    requires q > 0
    ensures q as real * ((1.0 / q as real) * y) == y
  {
  }

  lemma AddShare(k: int, w: real)
    ensures (k - 1) as real * w + w == k as real * w
  {
  }


  /** Every topic satisfies the layout the templated sums need. */
  predicate TemplatedLayout(p: Params, docCounts: seq<int>) {
    p.numTemplates > 0 && p.numTopicsPerTemplate > 0 &&
    p.numTopics == p.numTopicsPerTemplate * p.numTemplates && |docCounts| == p.numTopics &&
    IntSum(docCounts, p.numTopics) as real + p.topicSmoothingTimesNumTopics != 0.0
  }

  /** The counts of the topics `[start, end)` of template `b` plus the template's smoothing for each of its topics. */
  function SiblingMass(p: Params, docCounts: seq<int>, b: int, start: int, end: int): real
    requires 0 <= start <= end <= |docCounts|
  {
    (IntSum(docCounts, end) - IntSum(docCounts, start)) as real + SmoothingMass(p, b)
  }

  /** The per-topic prior of every topic of the template whose topics are `[start, end)`. */
  function BlockShare(p: Params, docCounts: seq<int>, b: int, start: int, end: int): real
    requires TemplatedLayout(p, docCounts) && 0 <= start <= end <= p.numTopics
  {
    (1.0 / p.numTopicsPerTemplate as real) *
      (SiblingMass(p, docCounts, b, start, end) / (IntSum(docCounts, p.numTopics) as real + p.topicSmoothingTimesNumTopics))
  }

  /** A topic of template `b` has the block's share as its prior. */
  lemma TopicShareInBlock(p: Params, docCounts: seq<int>, b: int, start: int, t: int)
    requires TemplatedLayout(p, docCounts)
    requires 0 <= b && start == b * p.numTopicsPerTemplate && start + p.numTopicsPerTemplate <= p.numTopics
    requires start <= t < start + p.numTopicsPerTemplate
    ensures SiblingTopics(p, t) == (start, start + p.numTopicsPerTemplate)
    ensures ProbOfTopicGivenDoc(p, docCounts, t) == BlockShare(p, docCounts, b, start, start + p.numTopicsPerTemplate)
  {
    var q := p.numTopicsPerTemplate;
    DivOfBlock(t, b, q);
    DivBounds(t, q);
    assert t % q == t - start;
    assert TemplateSmoothingOf(p, t) == BlockSmoothing(p, b);
  }

  /** The sum of the first `n` reals. */
  function RealSum(s: seq<real>, n: int): real
    requires n <= |s|
  {
    if n <= 0 then 0.0 else RealSum(s, n - 1) + s[n - 1]
  }

  /** `w` added to itself `k` times. */
  function Repeat(k: int, w: real): real
    decreases k
  {
    if k <= 0 then 0.0 else Repeat(k - 1, w) + w
  }

  lemma {:induction false} RepeatIsProduct(k: int, w: real)
    requires k >= 0
    ensures Repeat(k, w) == k as real * w
    decreases k
  {
    if k > 0 {
      RepeatIsProduct(k - 1, w);
      AddShare(k, w);
    }
  }

  /** Adding `k` equal terms adds the term repeated `k` times. */
  lemma {:induction false} ConstantRun(s: seq<real>, start: int, k: int, w: real)
    requires 0 <= start && 0 <= k && start + k <= |s|
    requires forall t :: start <= t < start + k ==> s[t] == w
    ensures RealSum(s, start + k) == RealSum(s, start) + Repeat(k, w)
    decreases k
  {
    if k > 0 {
      ConstantRun(s, start, k - 1, w);
      assert start + (k - 1) + 1 == start + k;
    }
  }

  /** The per-document prior of every topic, in order. */
  function DocPriors(p: Params, docCounts: seq<int>): (r: seq<real>)
    requires TemplatedLayout(p, docCounts)
    ensures |r| == p.numTopics
  {
    seq(p.numTopics, t requires 0 <= t < p.numTopics =>
      SiblingsInside(p, t, |docCounts|); ProbOfTopicGivenDoc(p, docCounts, t))
  }

  lemma {:induction false} DocPriorSumIsRealSum(p: Params, docCounts: seq<int>, n: int)
    requires TemplatedLayout(p, docCounts) && n <= p.numTopics
    ensures DocPriorSum(p, docCounts, n) == RealSum(DocPriors(p, docCounts), n)
    decreases n
  {
    if n > 0 {
      DocPriorSumIsRealSum(p, docCounts, n - 1);
    }
  }

  /** The first topic of template `b`, by repeated addition. */
  function BlockStart(q: int, b: int): (r: int)
    ensures q >= 0 ==> 0 <= r
  {
    if b <= 0 then 0 else BlockStart(q, b - 1) + q
  }

  lemma {:induction false} BlockStartProduct(q: int, b: int)
    requires b >= 0
    ensures BlockStart(q, b) == b * q
    decreases b
  {
    if b > 0 {
      BlockStartProduct(q, b - 1);
      assert (b - 1) * q + q == b * q;
    }
  }

  /** Every template's topics lie inside the topics. */
  lemma BlockInside(p: Params, c: int)
    requires p.numTopicsPerTemplate > 0 && p.numTopics == p.numTopicsPerTemplate * p.numTemplates
    requires 0 <= c < p.numTemplates
    ensures 0 <= BlockStart(p.numTopicsPerTemplate, c) &&
            BlockStart(p.numTopicsPerTemplate, c) + p.numTopicsPerTemplate <= p.numTopics
  {
    BlockStartProduct(p.numTopicsPerTemplate, c);
    MulCompare(c, p.numTemplates, p.numTopicsPerTemplate);
    MulMonotone(0, c, p.numTopicsPerTemplate);
  }

  /** The `q` elements from `start` on all equal the first of them. */
  predicate UniformBlock(s: seq<real>, start: int, q: int) {
    0 <= start && start + q <= |s| && forall t :: start <= t < start + q ==> s[t] == s[start]
  }

  /** A block before the `n`-th ends no later than the `n`-th starts. */
  lemma {:induction false} BlockBefore(q: int, c: int, n: int)
    requires q >= 0 && 0 <= c < n
    ensures BlockStart(q, c) + q <= BlockStart(q, n)
    decreases n
  {
    if c < n - 1 {
      BlockBefore(q, c, n - 1);
    }
  }

  /** The first `n` blocks of `q > 0` topics fit into `bound` topics. */
  predicate BlocksFit(q: int, n: int, bound: int) {
    q > 0 && 0 <= n && BlockStart(q, n) <= bound
  }

  /** With templates, the templates' blocks exactly cover the topics. */
  lemma LayoutBlocksFit(p: Params, docCounts: seq<int>)
    requires TemplatedLayout(p, docCounts)
    ensures BlocksFit(p.numTopicsPerTemplate, p.numTemplates, |docCounts|)
    ensures BlockStart(p.numTopicsPerTemplate, p.numTemplates) == p.numTopics
  {
    BlockStartProduct(p.numTopicsPerTemplate, p.numTemplates);
  }

  /** The prior mass of template `c`: its topics' counts plus its smoothing. */
  function BlockMass(p: Params, docCounts: seq<int>, c: int): real
    requires p.numTopicsPerTemplate >= 0 && 0 <= c && BlockStart(p.numTopicsPerTemplate, c) + p.numTopicsPerTemplate <= |docCounts|
  {
    var q := p.numTopicsPerTemplate;
    SiblingMass(p, docCounts, c, BlockStart(q, c), BlockStart(q, c) + q)
  }

  /** The prior masses of the templates, in order. */
  function Masses(p: Params, docCounts: seq<int>): (r: seq<real>)
    requires BlocksFit(p.numTopicsPerTemplate, p.numTemplates, |docCounts|)
    ensures |r| == p.numTemplates
  {
    seq(p.numTemplates, c requires 0 <= c < p.numTemplates =>
      BlockBefore(p.numTopicsPerTemplate, c, p.numTemplates); BlockMass(p, docCounts, c))
  }

  /** The masses telescope to the counts of the first `b` templates plus their smoothing. */
  lemma {:induction false} MassesClosed(p: Params, docCounts: seq<int>, b: int)
    requires BlocksFit(p.numTopicsPerTemplate, p.numTemplates, |docCounts|) && 0 <= b <= p.numTemplates
    ensures BlockStart(p.numTopicsPerTemplate, b) <= |docCounts|
    ensures RealSum(Masses(p, docCounts), b) ==
              IntSum(docCounts, BlockStart(p.numTopicsPerTemplate, b)) as real + TemplateSmoothingSum(p, b)
    decreases b
  {
    if b > 0 {
      var q := p.numTopicsPerTemplate;
      var c := b - 1;
      BlockBefore(q, c, p.numTemplates);
      MassesClosed(p, docCounts, c);
      var ms := Masses(p, docCounts);
      assert ms[c] == SiblingMass(p, docCounts, c, BlockStart(q, c), BlockStart(q, b));
      Telescope(RealSum(ms, b), RealSum(ms, c), ms[c],
                IntSum(docCounts, BlockStart(q, b)) as real, IntSum(docCounts, BlockStart(q, c)) as real,
                TemplateSmoothingSum(p, b), TemplateSmoothingSum(p, c), SmoothingMass(p, c));
    }
  }

  lemma Telescope(r: real, rPrev: real, m: real, iNext: real, iPrev: real, tNext: real, tPrev: real, sm: real)
    requires r == rPrev + m && rPrev == iPrev + tPrev && m == (iNext - iPrev) + sm && tNext == tPrev + sm
    ensures r == iNext + tNext
  {
  }

  /** The block of `q` elements from `start` holds `mass` over `d` in all. */
  predicate HoldsMass(s: seq<real>, q: int, start: int, mass: real, d: real) {
    0 <= start < |s| && d != 0.0 && Repeat(q, s[start]) == mass / d
  }

  /** Block `c` of `s` is uniform and holds `m` over `d`. */
  predicate BlockHolds(s: seq<real>, q: int, start: int, m: real, d: real) {
    UniformBlock(s, start, q) && HoldsMass(s, q, start, m, d)
  }

  /**
   * When each block of `q` elements is uniform and holds its mass over `d`, the
   * first `b` blocks sum to the masses' sum over `d`.
   */
  lemma {:induction false} BlockwiseSum(s: seq<real>, q: int, ms: seq<real>, b: int, d: real)
    requires q > 0 && 0 <= b <= |ms| && d != 0.0
    requires forall c {:trigger ms[c]} :: 0 <= c < b ==> BlockHolds(s, q, BlockStart(q, c), ms[c], d)
    ensures BlockStart(q, b) <= |s|
    ensures RealSum(s, BlockStart(q, b)) == RealSum(ms, b) / d
    decreases b
  {
    if b == 0 {
      DivZero(d);
    } else {
      var prev := BlockStart(q, b - 1);
      BlockwiseSum(s, q, ms, b - 1, d);
      assert BlockHolds(s, q, prev, ms[b - 1], d);
      ConstantRun(s, prev, q, s[prev]);
      FracStep(RealSum(s, prev + q), RealSum(s, prev), Repeat(q, s[prev]),
               RealSum(ms, b - 1), ms[b - 1], RealSum(ms, b), d);
    }
  }

  /** One step of a sum of fractions over a common denominator. */
  lemma FracStep(total: real, prev: real, w: real, a: real, m: real, r: real, d: real)
    requires d != 0.0 && total == prev + w && prev == a / d && w == m / d && r == a + m
    ensures total == r / d
  {
    AddFractions(a, m, d);
  }

  lemma DivZero(d: real)
    requires d != 0.0
    ensures 0.0 / d == 0.0
  {
  }

  /** `k` times `y` is `m` over a non-zero `d`. */
  predicate Scales(k: int, y: real, m: real, d: real) {
    d != 0.0 && k as real * y == m / d
  }

  /** Template `c`'s share times its number of topics is its mass over the denominator. */
  lemma ShareIsMass(p: Params, docCounts: seq<int>, c: int)
    requires TemplatedLayout(p, docCounts) && 0 <= c < p.numTemplates
    ensures 0 <= BlockStart(p.numTopicsPerTemplate, c) && BlockStart(p.numTopicsPerTemplate, c) + p.numTopicsPerTemplate <= p.numTopics
    ensures Scales(p.numTopicsPerTemplate,
                   BlockShare(p, docCounts, c, BlockStart(p.numTopicsPerTemplate, c), BlockStart(p.numTopicsPerTemplate, c) + p.numTopicsPerTemplate),
                   BlockMass(p, docCounts, c), IntSum(docCounts, p.numTopics) as real + p.topicSmoothingTimesNumTopics)
  {
    var q := p.numTopicsPerTemplate;
    BlockInside(p, c);
    ScalesOfShare(q, BlockShare(p, docCounts, c, BlockStart(q, c), BlockStart(q, c) + q), BlockMass(p, docCounts, c),
                  IntSum(docCounts, p.numTopics) as real + p.topicSmoothingTimesNumTopics);
  }

  lemma ScalesOfShare(q: int, share: real, mass: real, d: real)
    requires q > 0 && d != 0.0 && share == (1.0 / q as real) * (mass / d)
    ensures Scales(q, share, mass, d)
  {
    ShareTimesCount(q, mass / d);
  }

  /** Every topic of template `c` has the template's share as its prior. */
  lemma PriorIsShare(p: Params, docCounts: seq<int>, c: int, t: int)
    requires TemplatedLayout(p, docCounts) && 0 <= c < p.numTemplates
    requires BlockStart(p.numTopicsPerTemplate, c) <= t < BlockStart(p.numTopicsPerTemplate, c) + p.numTopicsPerTemplate
    ensures 0 <= BlockStart(p.numTopicsPerTemplate, c) && BlockStart(p.numTopicsPerTemplate, c) + p.numTopicsPerTemplate <= p.numTopics
    ensures DocPriors(p, docCounts)[t] ==
              BlockShare(p, docCounts, c, BlockStart(p.numTopicsPerTemplate, c), BlockStart(p.numTopicsPerTemplate, c) + p.numTopicsPerTemplate)
  {
    var q := p.numTopicsPerTemplate;
    BlockInside(p, c);
    BlockStartProduct(q, c);
    TopicShareInBlock(p, docCounts, c, BlockStart(q, c), t);
  }

  /** The priors are uniform on the topics of each template. */
  lemma PriorsUniform(p: Params, docCounts: seq<int>, c: int)
    requires TemplatedLayout(p, docCounts) && 0 <= c < p.numTemplates
    ensures UniformBlock(DocPriors(p, docCounts), BlockStart(p.numTopicsPerTemplate, c), p.numTopicsPerTemplate)
  {
    var q := p.numTopicsPerTemplate;
    var start := BlockStart(q, c);
    var s := DocPriors(p, docCounts);
    PriorIsShare(p, docCounts, c, start);
    forall t | start <= t < start + q
      ensures s[t] == s[start]
    {
      PriorIsShare(p, docCounts, c, t);
    }
  }

  /** A block whose first element is its template's share holds the template's mass over the denominator. */
  lemma ShareHoldsMass(p: Params, docCounts: seq<int>, s: seq<real>, c: int)
    requires TemplatedLayout(p, docCounts) && 0 <= c < p.numTemplates
    requires BlocksFit(p.numTopicsPerTemplate, p.numTemplates, |docCounts|)
    requires BlockStart(p.numTopicsPerTemplate, c) + p.numTopicsPerTemplate <= p.numTopics <= |s|
    requires s[BlockStart(p.numTopicsPerTemplate, c)] ==
               BlockShare(p, docCounts, c, BlockStart(p.numTopicsPerTemplate, c), BlockStart(p.numTopicsPerTemplate, c) + p.numTopicsPerTemplate)
    ensures HoldsMass(s, p.numTopicsPerTemplate, BlockStart(p.numTopicsPerTemplate, c), Masses(p, docCounts)[c],
                      IntSum(docCounts, p.numTopics) as real + p.topicSmoothingTimesNumTopics)
  {
    ShareIsMass(p, docCounts, c);
    assert Masses(p, docCounts)[c] == BlockMass(p, docCounts, c);
    HoldsMassIntro(s, p.numTopicsPerTemplate, BlockStart(p.numTopicsPerTemplate, c), Masses(p, docCounts)[c], BlockMass(p, docCounts, c),
                   IntSum(docCounts, p.numTopics) as real + p.topicSmoothingTimesNumTopics,
                   BlockShare(p, docCounts, c, BlockStart(p.numTopicsPerTemplate, c), BlockStart(p.numTopicsPerTemplate, c) + p.numTopicsPerTemplate));
  }

  lemma HoldsMassIntro(s: seq<real>, q: int, start: int, m: real, bm: real, d: real, y: real)
    requires 0 <= start < |s| && s[start] == y && Scales(q, y, bm, d) && m == bm && q >= 0
    ensures HoldsMass(s, q, start, m, d)
  {
    RepeatIsProduct(q, y);
  }

  /** The summed smoothing of all templates is the constructor's summed smoothing. */
  lemma TemplateSmoothingTotal(p: Params)
    requires p.numTopicsPerTemplate > 0 && p.numTopics == p.numTopicsPerTemplate * p.numTemplates
    requires 0 <= p.numJunkTemplates <= p.numTemplates
    requires p.numJunkTopics == p.numTopicsPerTemplate * p.numJunkTemplates
    requires p.topicSmoothingTimesNumTopics ==
               (p.numTopics - p.numJunkTopics) as real * TopicSmoothing + p.numJunkTopics as real * JunkTopicSmoothing
    ensures TemplateSmoothingSum(p, p.numTemplates) == p.topicSmoothingTimesNumTopics
  {
    var q := p.numTopicsPerTemplate;
    var k := p.numTemplates - p.numJunkTemplates;
    TemplateSmoothingSumClosed(p, p.numTemplates);
    Distribute(q, p.numTemplates, p.numJunkTemplates);
    CastMul(k, q);
    CastMul(p.numJunkTemplates, q);
  }

  lemma Distribute(q: int, t: int, j: int)
    ensures q * t - q * j == (t - j) * q && q * j == j * q
  {
  }

  /**
   * With templates, a document's topic priors sum to one when the topics split
   * evenly into the templates, the junk topics are exactly those of the junk
   * templates, and the summed smoothing is the per-topic smoothing summed.
   */
  lemma TemplatedDocPriorSumsToOne(p: Params, docCounts: seq<int>)
    requires TemplatedLayout(p, docCounts)
    requires 0 <= p.numJunkTemplates <= p.numTemplates
    requires p.numJunkTopics == p.numTopicsPerTemplate * p.numJunkTemplates
    requires p.topicSmoothingTimesNumTopics ==
               (p.numTopics - p.numJunkTopics) as real * TopicSmoothing + p.numJunkTopics as real * JunkTopicSmoothing
    ensures DocPriorSum(p, docCounts, p.numTopics) == 1.0
  {
    var q := p.numTopicsPerTemplate;
    var d := IntSum(docCounts, p.numTopics) as real + p.topicSmoothingTimesNumTopics;
    LayoutBlocksFit(p, docCounts);
    PriorsSumToMasses(p, docCounts);
    MassesClosed(p, docCounts, p.numTemplates);
    DocPriorSumIsRealSum(p, docCounts, p.numTopics);
    TemplateSmoothingTotal(p);
    RatioOfEquals(DocPriorSum(p, docCounts, p.numTopics),
                  IntSum(docCounts, BlockStart(q, p.numTemplates)) as real + TemplateSmoothingSum(p, p.numTemplates), d);
  }

  /** The priors of all topics sum to the templates' masses over the denominator. */
  lemma PriorsSumToMasses(p: Params, docCounts: seq<int>)
    requires TemplatedLayout(p, docCounts)
    requires BlocksFit(p.numTopicsPerTemplate, p.numTemplates, |docCounts|)
    requires BlockStart(p.numTopicsPerTemplate, p.numTemplates) == p.numTopics
    ensures RealSum(DocPriors(p, docCounts), p.numTopics) ==
              RealSum(Masses(p, docCounts), p.numTemplates) / (IntSum(docCounts, p.numTopics) as real + p.topicSmoothingTimesNumTopics)
  {
    var q := p.numTopicsPerTemplate;
    var s := DocPriors(p, docCounts);
    var d := IntSum(docCounts, p.numTopics) as real + p.topicSmoothingTimesNumTopics;
    var ms := Masses(p, docCounts);
    forall c {:trigger ms[c]} | 0 <= c < p.numTemplates
      ensures BlockHolds(s, q, BlockStart(q, c), ms[c], d)
    {
      PriorsUniform(p, docCounts, c);
      PriorIsShare(p, docCounts, c, BlockStart(q, c));
      ShareHoldsMass(p, docCounts, s, c);
    }
    BlockwiseSum(s, q, ms, p.numTemplates, d);
  }

  // ---------------------------------------------------------------------------
  // Verb distributions

  /** The count of verb `v` summed over the topics `[start, end)`. */
  function SiblingVerbCount(verbCounts: seq<Counter>, start: int, end: int, v: int): int
    requires 0 <= start && end <= |verbCounts|
    decreases end - start
  {
    if end <= start then 0 else SiblingVerbCount(verbCounts, start, end - 1, v) + GetCount(verbCounts[end - 1], v)
  }

  /** The verb totals of the topics `[start, end)`. */
  function SiblingVerbTotal(verbCounts: seq<Counter>, start: int, end: int): int
    requires 0 <= start && end <= |verbCounts|
    decreases end - start
  {
    if end <= start then 0 else SiblingVerbTotal(verbCounts, start, end - 1) + verbCounts[end - 1].total
  }

  /** `probOfVerbGivenNestedTopic`: the verb distribution shared by the topics of one template. */
  function ProbOfVerbGivenNestedTopic(p: Params, verbCounts: seq<Counter>, verbSmoothingTimesNumVerbs: real, v: int, topic: int): real
    requires p.numTopicsPerTemplate > 0 && 0 <= topic && SiblingTopics(p, topic).1 <= |verbCounts|
    requires SiblingVerbTotal(verbCounts, SiblingTopics(p, topic).0, SiblingTopics(p, topic).1) as real + verbSmoothingTimesNumVerbs != 0.0
  {
    var (start, end) := SiblingTopics(p, topic);
    SharedVerbProb(verbCounts, verbSmoothingTimesNumVerbs, start, end, v)
  }

  /** The smoothed share of verb `v` in the pooled counts of the topics `[start, end)`. */
  function SharedVerbProb(verbCounts: seq<Counter>, sv: real, start: int, end: int, v: int): real
    requires 0 <= start && end <= |verbCounts|
    requires SiblingVerbTotal(verbCounts, start, end) as real + sv != 0.0
  {
    (SiblingVerbCount(verbCounts, start, end, v) as real + VerbSmoothing) / (SiblingVerbTotal(verbCounts, start, end) as real + sv)
  }

  /** The pooled probabilities of the verbs `[0, n)`. */
  function SharedVerbSum(verbCounts: seq<Counter>, sv: real, start: int, end: int, n: int): real
    requires 0 <= start && end <= |verbCounts|
    requires SiblingVerbTotal(verbCounts, start, end) as real + sv != 0.0
    decreases n
  {
    if n <= 0 then 0.0 else SharedVerbSum(verbCounts, sv, start, end, n - 1) + SharedVerbProb(verbCounts, sv, start, end, n - 1)
  }

  /** The denominator `probOfVerbGivenTopic` divides by is not zero. */
  predicate VerbDenominatorNonZero(p: Params, verbCounts: seq<Counter>, verbSmoothingTimesNumVerbs: real, topic: int) {
    0 <= topic < |verbCounts| &&
    if p.numTemplates > 0 then
      p.numTopicsPerTemplate > 0 && SiblingTopics(p, topic).1 <= |verbCounts| &&
      SiblingVerbTotal(verbCounts, SiblingTopics(p, topic).0, SiblingTopics(p, topic).1) as real + verbSmoothingTimesNumVerbs != 0.0
    else verbCounts[topic].total as real + verbSmoothingTimesNumVerbs != 0.0
  }

  /** `probOfVerbGivenTopic`: nested through the template when there are templates. */
  function ProbOfVerbGivenTopic(p: Params, verbCounts: seq<Counter>, verbSmoothingTimesNumVerbs: real, v: int, topic: int): real
    requires VerbDenominatorNonZero(p, verbCounts, verbSmoothingTimesNumVerbs, topic)
  {
    if p.numTemplates > 0 then ProbOfVerbGivenNestedTopic(p, verbCounts, verbSmoothingTimesNumVerbs, v, topic)
    else (GetCount(verbCounts[topic], v) as real + VerbSmoothing) / (verbCounts[topic].total as real + verbSmoothingTimesNumVerbs)
  }

  /** With templates, the verb distribution is the same for every topic of one template. */
  lemma NestedVerbSameForSiblings(p: Params, verbCounts: seq<Counter>, sv: real, v: int, t1: int, t2: int)
    requires p.numTemplates > 0 && p.numTopicsPerTemplate > 0 && t1 >= 0 && t2 >= 0
    requires t1 / p.numTopicsPerTemplate == t2 / p.numTopicsPerTemplate
    requires VerbDenominatorNonZero(p, verbCounts, sv, t1)
    ensures VerbDenominatorNonZero(p, verbCounts, sv, t2)
    ensures ProbOfVerbGivenTopic(p, verbCounts, sv, v, t1) == ProbOfVerbGivenTopic(p, verbCounts, sv, v, t2)
  {
    SiblingsOfOneTemplate(p, t1, t2);
    var r := SiblingTopics(p, t2);
    assert t2 < r.1;
  }

  /** The probabilities of the verbs `[0, n)` given a topic. */
  function VerbSum(p: Params, verbCounts: seq<Counter>, sv: real, topic: int, n: int): real
    requires VerbDenominatorNonZero(p, verbCounts, sv, topic)
    decreases n
  {
    if n <= 0 then 0.0 else VerbSum(p, verbCounts, sv, topic, n - 1) + ProbOfVerbGivenTopic(p, verbCounts, sv, n - 1, topic)
  }

  /** The sibling counts of the verbs `[0, n)`. */
  function SiblingRangeSum(verbCounts: seq<Counter>, start: int, end: int, n: int): int
    requires 0 <= start && end <= |verbCounts|
    decreases n
  {
    if n <= 0 then 0 else SiblingRangeSum(verbCounts, start, end, n - 1) + SiblingVerbCount(verbCounts, start, end, n - 1)
  }

  /** Summing over verbs and over sibling topics commute. */
  lemma {:induction false} SiblingRangeSumStep(verbCounts: seq<Counter>, start: int, end: int, n: int)
    requires 0 <= start < end <= |verbCounts|
    ensures SiblingRangeSum(verbCounts, start, end, n) ==
              SiblingRangeSum(verbCounts, start, end - 1, n) + RangeSum(verbCounts[end - 1], n)
    decreases n
  {
    if n > 0 {
      SiblingRangeSumStep(verbCounts, start, end, n - 1);
    }
  }

  /** Every counter of the topics `[start, end)` totals its counts, on keys below `n`. */
  ghost predicate VerbCountersWellFormed(verbCounts: seq<Counter>, start: int, end: int, n: int)
    requires 0 <= start && end <= |verbCounts|
  {
    forall t :: start <= t < end ==> Consistent(verbCounts[t]) && KeysBelow(verbCounts[t], n)
  }

  lemma {:induction false} SiblingRangeSumIsTotal(verbCounts: seq<Counter>, start: int, end: int, n: int)
    requires 0 <= start && end <= |verbCounts|
    requires VerbCountersWellFormed(verbCounts, start, end, n)
    ensures SiblingRangeSum(verbCounts, start, end, n) == SiblingVerbTotal(verbCounts, start, end)
    decreases end - start
  {
    if end <= start {
      SiblingRangeSumEmpty(verbCounts, start, end, n);
    } else {
      SiblingRangeSumStep(verbCounts, start, end, n);
      SiblingRangeSumIsTotal(verbCounts, start, end - 1, n);
      RangeSumIsMapSum(verbCounts[end - 1], n);
    }
  }

  lemma {:induction false} SiblingRangeSumEmpty(verbCounts: seq<Counter>, start: int, end: int, n: int)
    requires 0 <= start && end <= |verbCounts| && end <= start
    ensures SiblingRangeSum(verbCounts, start, end, n) == 0
    decreases n
  {
    if n > 0 {
      SiblingRangeSumEmpty(verbCounts, start, end, n - 1);
    }
  }

  lemma {:induction false} FlatVerbSumClosed(p: Params, verbCounts: seq<Counter>, sv: real, topic: int, n: int)
    requires p.numTemplates <= 0 && VerbDenominatorNonZero(p, verbCounts, sv, topic) && n >= 0
    ensures VerbSum(p, verbCounts, sv, topic, n) ==
              (RangeSum(verbCounts[topic], n) as real + n as real * VerbSmoothing) / (verbCounts[topic].total as real + sv)
    decreases n
  {
    if n > 0 {
      FlatVerbSumClosed(p, verbCounts, sv, topic, n - 1);
      AddFractions(RangeSum(verbCounts[topic], n - 1) as real + (n - 1) as real * VerbSmoothing,
                   GetCount(verbCounts[topic], n - 1) as real + VerbSmoothing,
                   verbCounts[topic].total as real + sv);
    }
  }

  lemma {:induction false} SharedVerbSumClosed(verbCounts: seq<Counter>, sv: real, start: int, end: int, n: int)
    requires 0 <= start && end <= |verbCounts| && n >= 0
    requires SiblingVerbTotal(verbCounts, start, end) as real + sv != 0.0
    ensures SharedVerbSum(verbCounts, sv, start, end, n) ==
              (SiblingRangeSum(verbCounts, start, end, n) as real + n as real * VerbSmoothing) /
              (SiblingVerbTotal(verbCounts, start, end) as real + sv)
    decreases n
  {
    if n > 0 {
      SharedVerbSumClosed(verbCounts, sv, start, end, n - 1);
      AddFractions(SiblingRangeSum(verbCounts, start, end, n - 1) as real + (n - 1) as real * VerbSmoothing,
                   SiblingVerbCount(verbCounts, start, end, n - 1) as real + VerbSmoothing,
                   SiblingVerbTotal(verbCounts, start, end) as real + sv);
    }
  }

  lemma {:induction false} NestedVerbSumIsShared(p: Params, verbCounts: seq<Counter>, sv: real, topic: int, n: int, start: int, end: int)
    requires p.numTemplates > 0 && VerbDenominatorNonZero(p, verbCounts, sv, topic)
    requires (start, end) == SiblingTopics(p, topic)
    ensures VerbSum(p, verbCounts, sv, topic, n) == SharedVerbSum(verbCounts, sv, start, end, n)
    decreases n
  {
    if n > 0 {
      NestedVerbSumIsShared(p, verbCounts, sv, topic, n - 1, start, end);
    }
  }

  /** With templates, the nested verb probabilities sum to one over the verb index. */
  lemma NestedVerbSumsToOne(p: Params, verbCounts: seq<Counter>, numVerbs: int, topic: int)
    requires numVerbs >= 0 && p.numTemplates > 0
    requires VerbDenominatorNonZero(p, verbCounts, VerbSmoothing * numVerbs as real, topic)
    requires VerbCountersWellFormed(verbCounts, SiblingTopics(p, topic).0, SiblingTopics(p, topic).1, numVerbs)
    ensures VerbSum(p, verbCounts, VerbSmoothing * numVerbs as real, topic, numVerbs) == 1.0
  {
    var sv := VerbSmoothing * numVerbs as real;
    var (start, end) := SiblingTopics(p, topic);
    NestedVerbSumIsShared(p, verbCounts, sv, topic, numVerbs, start, end);
    SharedVerbSumClosed(verbCounts, sv, start, end, numVerbs);
    SiblingRangeSumIsTotal(verbCounts, start, end, numVerbs);
    RatioOfEquals(VerbSum(p, verbCounts, sv, topic, numVerbs),
                  SiblingRangeSum(verbCounts, start, end, numVerbs) as real + numVerbs as real * VerbSmoothing,
                  SiblingVerbTotal(verbCounts, start, end) as real + sv);
  }

  /** Without templates, a topic's verb probabilities sum to one over the verb index. */
  lemma FlatVerbSumsToOne(p: Params, verbCounts: seq<Counter>, numVerbs: int, topic: int)
    requires numVerbs >= 0 && p.numTemplates <= 0
    requires VerbDenominatorNonZero(p, verbCounts, VerbSmoothing * numVerbs as real, topic)
    requires Consistent(verbCounts[topic]) && KeysBelow(verbCounts[topic], numVerbs)
    ensures VerbSum(p, verbCounts, VerbSmoothing * numVerbs as real, topic, numVerbs) == 1.0
  {
    var sv := VerbSmoothing * numVerbs as real;
    FlatVerbSumClosed(p, verbCounts, sv, topic, numVerbs);
    RangeSumIsMapSum(verbCounts[topic], numVerbs);
    RatioOfEquals(VerbSum(p, verbCounts, sv, topic, numVerbs),
                  RangeSum(verbCounts[topic], numVerbs) as real + numVerbs as real * VerbSmoothing,
                  verbCounts[topic].total as real + sv);
  }

  /**
   * For every topic, the verb probabilities over the verb index sum to one, in
   * the flat and in the nested form, when every counter keeps its total and
   * counts only indexed verbs, and the summed smoothing is the smoothing times
   * the number of verbs.
   */
  lemma VerbDistributionSumsToOne(p: Params, verbCounts: seq<Counter>, numVerbs: int, topic: int)
    requires numVerbs >= 0
    requires VerbDenominatorNonZero(p, verbCounts, VerbSmoothing * numVerbs as real, topic)
    requires p.numTemplates > 0 ==>
               VerbCountersWellFormed(verbCounts, SiblingTopics(p, topic).0, SiblingTopics(p, topic).1, numVerbs)
    requires p.numTemplates <= 0 ==> Consistent(verbCounts[topic]) && KeysBelow(verbCounts[topic], numVerbs)
    ensures VerbSum(p, verbCounts, VerbSmoothing * numVerbs as real, topic, numVerbs) == 1.0
  {
    if p.numTemplates > 0 {
      NestedVerbSumsToOne(p, verbCounts, numVerbs, topic);
    } else {
      FlatVerbSumsToOne(p, verbCounts, numVerbs, topic);
    }
  }
}
