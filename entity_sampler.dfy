/**
 * The entity Gibbs sampler as an object (`GibbsSamplerEntities`): its layout
 * fixed at construction, the corpus encoding and count tables filled by
 * `initializeModelFromData`, the in-place `unlabel`/`relabel` around each draw,
 * the likelihood-based stopping rule that keeps a best-so-far snapshot, and the
 * reload of that snapshot.
 *
 * The random draws and the data likelihood are inputs. `includeVerbs`,
 * `includeEntityFeatures` and `thetasInDoc`, public fields set before
 * initialization in the source, are fixed when the object is built.
 */
module EntitySampler {
  import opened Wrappers
  import opened Seqs
  import opened Strings
  import opened Counters
  import opened Entities
  import opened GibbsParams
  import opened SamplerData
  import opened Snapshots
  import opened GibbsSampler
  import opened Sweeps

  // ---------------------------------------------------------------------------
  // The stopping rule

  /** The likelihood history the stopping rule keeps. */
  datatype Progress = Progress(lastLikelihood: real, lastLikelihoodDelta: real, bestLikelihood: real, bestLikelihoodStep: int)

  /** All three likelihoods start at `-Double.MAX_VALUE`, the best step at 0. */
  const InitialProgress: Progress := Progress(MinusMaxDouble, MinusMaxDouble, MinusMaxDouble, 0)

  /** The data likelihood is stable: late enough, and both the last change and this one are small. */
  predicate Stable(pr: Progress, like: real, step: int) {
    step > 1000 && Abs(pr.lastLikelihood - like) < 20.0 && pr.lastLikelihoodDelta < 20.0
  }

  /** A better likelihood was found a long time ago, absolutely or relative to the current step. */
  predicate Regressed(pr: Progress, like: real, step: int) {
    var stepsAgo := step - pr.bestLikelihoodStep;
    step > 400 && pr.bestLikelihood > like && (stepsAgo > 1000 || stepsAgo as real / step as real > 0.4)
  }

  /** What one evaluation of the stopping rule decides: stop, store a snapshot, and the new history. */
  datatype Verdict = Verdict(stop: bool, store: bool, next: Progress)

  /** `stoppingCriterionLikelihoodMet` on the history `pr`, the likelihood `like` and the step `step`. */
  function StoppingStep(pr: Progress, like: real, step: int): Verdict {
    if Stable(pr, like, step) || Regressed(pr, like, step) then Verdict(true, false, pr)
    else
      var better := like > pr.bestLikelihood;
      var kept := if better then pr.(bestLikelihood := like, bestLikelihoodStep := step) else pr;
      Verdict(false, better, kept.(lastLikelihoodDelta := Abs(pr.lastLikelihood - like), lastLikelihood := like))
  }

  /** The rule stops exactly on the stability test or the regression test, and then changes nothing. */
  lemma StopsIff(pr: Progress, like: real, step: int)
    ensures var r := StoppingStep(pr, like, step);
            (r.stop <==> Stable(pr, like, step) || Regressed(pr, like, step)) &&
            (r.stop ==> r.next == pr && !r.store)
  {
  }

  /**
   * A snapshot is stored exactly when the likelihood beats the best one and
   * neither test fired; it then becomes the best, at this step.
   */
  lemma StoresIff(pr: Progress, like: real, step: int)
    ensures var r := StoppingStep(pr, like, step);
            (r.store <==> like > pr.bestLikelihood && !Stable(pr, like, step) && !Regressed(pr, like, step)) &&
            (r.store ==> r.next.bestLikelihood == like && r.next.bestLikelihoodStep == step) &&
            (!r.store ==> r.next.bestLikelihood == pr.bestLikelihood && r.next.bestLikelihoodStep == pr.bestLikelihoodStep)
  {
  }

  /**
   * The best likelihood never decreases; when the rule goes on it is at least
   * the current likelihood, which becomes the last one.
   */
  lemma BestNeverDecreases(pr: Progress, like: real, step: int)
    ensures var r := StoppingStep(pr, like, step);
            r.next.bestLikelihood >= pr.bestLikelihood &&
            (!r.stop ==> r.next.bestLikelihood >= like && r.next.lastLikelihood == like &&
                         r.next.lastLikelihoodDelta == Abs(pr.lastLikelihood - like))
  {
  }

  /** The rule applied to a run of likelihoods, one per evaluated step, up to the first stop. */
  function StoppingRun(pr: Progress, likes: seq<real>, steps: seq<int>): (r: (bool, Progress))
    requires |likes| == |steps|
    decreases |likes|
  {
    if |likes| == 0 then (false, pr)
    else
      var v := StoppingStep(pr, likes[0], steps[0]);
      if v.stop then (true, v.next) else StoppingRun(v.next, likes[1..], steps[1..])
  }

  /** Over a run that did not stop, the best likelihood is at least every likelihood seen and never below the start. */
  lemma {:induction false} RunKeepsBest(pr: Progress, likes: seq<real>, steps: seq<int>)
    requires |likes| == |steps|
    ensures var r := StoppingRun(pr, likes, steps);
            r.1.bestLikelihood >= pr.bestLikelihood &&
            (!r.0 ==> forall i :: 0 <= i < |likes| ==> r.1.bestLikelihood >= likes[i])
    decreases |likes|
  {
    if |likes| > 0 {
      var v := StoppingStep(pr, likes[0], steps[0]);
      BestNeverDecreases(pr, likes[0], steps[0]);
      if !v.stop {
        RunKeepsBest(v.next, likes[1..], steps[1..]);
        var r := StoppingRun(v.next, likes[1..], steps[1..]);
        if !r.0 {
          forall i | 0 <= i < |likes| ensures r.1.bestLikelihood >= likes[i] {
            if i > 0 {
              assert likes[i] == likes[1..][i - 1];
            }
          }
        }
      }
    }
  }

  /** A run one evaluation longer: unchanged once stopped, otherwise one more step of the rule. */
  lemma {:induction false} StoppingRunSnoc(pr: Progress, likes: seq<real>, steps: seq<int>, like: real, step: int)
    requires |likes| == |steps|
    ensures var r := StoppingRun(pr, likes, steps);
            var v := StoppingStep(r.1, like, step);
            StoppingRun(pr, likes + [like], steps + [step]) == if r.0 then r else (v.stop, v.next)
    decreases |likes|
  {
    if |likes| > 0 {
      var v := StoppingStep(pr, likes[0], steps[0]);
      assert (likes + [like])[1..] == likes[1..] + [like];
      assert (steps + [step])[1..] == steps[1..] + [step];
      if !v.stop {
        StoppingRunSnoc(v.next, likes[1..], steps[1..], like, step);
      }
    }
  }

  /** The `i`-th iteration at which `runSampler` evaluates the stopping rule: 14, 29, 44, ... */
  function CheckpointAt(i: int): int {
    15 * i + 14
  }

  /**
   * The stopping rule over the first `n` checkpoints of a run whose data
   * likelihood at iteration `iter` is `likelihood(iter)`.
   */
  function CheckpointRun(pr: Progress, likelihood: int -> real, n: nat): (bool, Progress) {
    StoppingRun(pr, seq(n, i => likelihood(CheckpointAt(i))), seq(n, i => CheckpointAt(i)))
  }

  /** The checkpoints reached by a loop that made `sweeps` sweeps and then went on or was halted. */
  function CheckpointsReached(sweeps: nat, halted: bool): nat {
    if halted then sweeps / 15 + 1 else sweeps / 15
  }

  /**
   * Iteration `iter` is a checkpoint exactly when it is `CheckpointAt(iter / 15)`;
   * then a halt there has reached one checkpoint more than the sweeps before
   * it, as many as going on would; otherwise going on reaches no new one.
   */
  lemma CheckpointsAdvance(iter: nat)
    ensures iter % 15 == 14 ==>
              iter == CheckpointAt(iter / 15) && CheckpointsReached(iter, true) == iter / 15 + 1 &&
              CheckpointsReached(iter + 1, false) == iter / 15 + 1 && CheckpointsReached(iter, false) == iter / 15
    ensures iter % 15 != 14 ==> CheckpointsReached(iter + 1, false) == CheckpointsReached(iter, false)
  {
  }

  /**
   * Iteration `iter`, after the checkpoints before it went through the rule
   * from `p0` without a stop and left the history `before`: off a checkpoint
   * nothing changes; at one, the rule's verdict on `likelihood(iter)` is the
   * stop and the history `after`. The checkpoints reached then go one
   * further exactly when `iter` is a checkpoint.
   */
  lemma CheckpointRunAdvances(p0: Progress, likelihood: int -> real, iter: nat, before: Progress, after: Progress,
                              stop: bool, exited: bool)
    requires CheckpointRun(p0, likelihood, CheckpointsReached(iter, false)) == (false, before)
    requires iter % 15 != 14 ==> !stop && !exited && after == before
    requires iter % 15 == 14 ==>
               stop == StoppingStep(before, likelihood(iter), iter).stop && after == StoppingStep(before, likelihood(iter), iter).next
    requires !(stop && exited)
    ensures var sweeps := if stop || exited then iter else iter + 1;
            CheckpointRun(p0, likelihood, CheckpointsReached(sweeps, stop || exited)) == (stop, after) &&
            CheckpointRun(p0, likelihood, CheckpointsReached(sweeps, exited)) == (false, after)
  {
    CheckpointsAdvance(iter);
    if iter % 15 == 14 {
      CheckpointRunStep(p0, likelihood, iter / 15);
      StopsIff(before, likelihood(iter), iter);
    }
  }

  /** One more checkpoint: unchanged once stopped, otherwise one more step of the rule at iteration `CheckpointAt(n)`. */
  lemma CheckpointRunStep(pr: Progress, likelihood: int -> real, n: nat)
    ensures var r := CheckpointRun(pr, likelihood, n);
            var v := StoppingStep(r.1, likelihood(CheckpointAt(n)), CheckpointAt(n));
            CheckpointRun(pr, likelihood, n + 1) == if r.0 then r else (v.stop, v.next)
  {
    var likes := seq(n, i => likelihood(CheckpointAt(i)));
    var steps := seq(n, i => CheckpointAt(i));
    assert seq(n + 1, i => likelihood(CheckpointAt(i))) == likes + [likelihood(CheckpointAt(n))];
    assert seq(n + 1, i => CheckpointAt(i)) == steps + [CheckpointAt(n)];
    StoppingRunSnoc(pr, likes, steps, likelihood(CheckpointAt(n)), CheckpointAt(n));
  }

  /** Over checkpoints the rule went through without stopping, the best likelihood is at least each one's likelihood. */
  lemma CheckpointRunKeepsBest(pr: Progress, likelihood: int -> real, n: nat)
    ensures var r := CheckpointRun(pr, likelihood, n);
            r.1.bestLikelihood >= pr.bestLikelihood &&
            (!r.0 ==> forall i :: 0 <= i < n ==> r.1.bestLikelihood >= likelihood(CheckpointAt(i)))
  {
    var likes := seq(n, i => likelihood(CheckpointAt(i)));
    RunKeepsBest(pr, likes, seq(n, i => CheckpointAt(i)));
    assert forall i :: 0 <= i < n ==> likes[i] == likelihood(CheckpointAt(i));
  }

  // ---------------------------------------------------------------------------
  // The sampler

  /**
   * What `initializeModelFromData` fixes: the document names, the indices, the
   * encoded corpus (words, dependencies, inverses, verbs and type flags per
   * entity), the entity and mention totals, and the smoothing totals of the
   * three indices.
   */
  datatype Corpus = Corpus(docNames: seq<string>, ix: Indices, data: seq<seq<EntityData>>,
                           numEntitiesInAllDocs: int, numMentionsInAllDocs: int,
                           wSmoothingTimesNumW: real, depSmoothingTimesNumDeps: real, verbSmoothingTimesNumVerbs: real)

  /** The state before `initializeModelFromData`: nothing encoded, nothing counted. */
  const NoCorpus: Corpus := Corpus([], NoIndices, [], 0, 0, 0.0, 0.0, 0.0)

  /** How `runSampler` ends: normally, by a failed distribution check, or on a snapshot never stored. */
  datatype RunOutcome = Finished | Exited | NoSnapshot

  class Sampler {
    const params: Params
    const cfg: Config
    const thetasInDoc: bool
    const featSmoothingTimesNumFeats: real
    const best: ModelInstance

    var corpus: Corpus
    var tables: Tables
    var progress: Progress

    /**
     * The tables are separate containers of the sampler's shape, one topic row
     * per document and one counter of each kind per topic, holding only
     * indexed positions.
     */
    ghost predicate Ready()
      reads this, Repr(tables)
    {
      Separate(tables) && Fits(Values(tables), corpus.data, corpus.ix, cfg, params.numTopics)
    }

    /** The counts agree with the topic assignments, globally and per document. */
    ghost predicate Agrees()
      reads this, Repr(tables)
    {
      TopicCountsAgree(Values(tables)) && DocCountsAgree(Values(tables))
    }

    /**
     * The dependency, verb and feature counters hold, per topic, what the
     * entities assigned that topic contribute.
     */
    ghost predicate Tallied()
      reads this, Repr(tables)
    {
      TablesAreTallies(Values(tables), corpus.data)
    }

    /**
     * Against the history `pr` and the snapshot `saved`, `likelihood`, `step`
     * of an earlier state: a stored snapshot stays stored, the best
     * likelihood never falls, and either nothing about the best changed or
     * the snapshot is the one of the current best likelihood and step.
     */
    ghost predicate BestKept(pr: Progress, saved: Option<Tables>, likelihood: real, step: int)
      reads this, best
    {
      (saved.Some? ==> best.saved.Some?) &&
      progress.bestLikelihood >= pr.bestLikelihood &&
      ((best.saved == saved && best.likelihood == likelihood && best.samplingStep == step &&
        progress.bestLikelihood == pr.bestLikelihood && progress.bestLikelihoodStep == pr.bestLikelihoodStep) ||
       (best.saved.Some? && best.likelihood == progress.bestLikelihood && best.samplingStep == progress.bestLikelihoodStep))
    }

    /**
     * The four-argument constructor without its exit: the layout of
     * `MakeParams`, no corpus yet and an empty snapshot.
     */
    constructor(numTopics: int, numJunkTopics: int, numTemplates: int, numJunkTemplates: int,
                cfg: Config, thetasInDoc: bool)
      ensures params == MakeParams(numTopics, numJunkTopics, numTemplates, numJunkTemplates)
      ensures this.cfg == cfg && this.thetasInDoc == thetasInDoc
      ensures featSmoothingTimesNumFeats == cfg.numFeats as real * FeatSmoothing
      ensures fresh(best) && best.saved.None? && corpus == NoCorpus && progress == InitialProgress
    {
      params := MakeParams(numTopics, numJunkTopics, numTemplates, numJunkTemplates);
      this.cfg := cfg;
      this.thetasInDoc := thetasInDoc;
      featSmoothingTimesNumFeats := cfg.numFeats as real * FeatSmoothing;
      best := new ModelInstance();
      corpus := NoCorpus;
      progress := InitialProgress;
      new;
      var t := AllocateTables(0, 0);
      tables := t;
    }

    /** Construction, which exits when the topics do not split evenly into the templates. */
    static method Create(numTopics: int, numJunkTopics: int, numTemplates: int, numJunkTemplates: int,
                         cfg: Config, thetasInDoc: bool) returns (s: Option<Sampler>)
      ensures s.None? <==> ConstructorExits(numTopics, numTemplates)
      ensures s.Some? ==> fresh(s.value) && fresh(s.value.best) && s.value.best.saved.None? &&
                          s.value.params == MakeParams(numTopics, numJunkTopics, numTemplates, numJunkTemplates) &&
                          s.value.cfg == cfg && s.value.thetasInDoc == thetasInDoc &&
                          s.value.corpus == NoCorpus && s.value.progress == InitialProgress
    {
      if ConstructorExits(numTopics, numTemplates) {
        s := None;
      } else {
        var sampler := new Sampler(numTopics, numJunkTopics, numTemplates, numJunkTemplates, cfg, thetasInDoc);
        s := Some(sampler);
      }
    }

    /** The two distribution checks pass on the current tables (see `ChecksPass`). */
    ghost predicate DistributionsPass()
      reads this, Repr(tables)
    {
      ChecksHold(params, thetasInDoc, Values(tables), corpus.numEntitiesInAllDocs,
                 corpus.verbSmoothingTimesNumVerbs, |corpus.ix.verbs|)
    }

    /**
     * The encoding and counting loop of `initializeModelFromData`, with the
     * initial topic of every entity given in `topics`: new indices and new
     * tables holding exactly the counts of the encoded corpus under those
     * topics, and the smoothing totals of the new indices.
     */
    method FillFromData(docnames: seq<string>, docs: seq<seq<TextEntity>>, topics: seq<seq<int>>)
      requires params.numTopics >= 0 && CorpusDepsDefined(docs) && SameShape(docs, topics)
      requires TopicsBelow(topics, params.numTopics)
      modifies this
      ensures corpus.docNames == docnames && Encoded(docs, cfg, corpus.ix, corpus.data)
      ensures SameShape(corpus.data, topics)
      ensures fresh(Repr(tables)) && Values(tables) == InitialValues(corpus.data, topics, params.numTopics)
      ensures corpus.numEntitiesInAllDocs == old(corpus.numEntitiesInAllDocs) + EntityTotal(topics)
      ensures corpus.numMentionsInAllDocs == old(corpus.numMentionsInAllDocs) + MentionTotal(docs)
      ensures corpus.wSmoothingTimesNumW == WordSmoothing * |corpus.ix.words| as real
      ensures corpus.depSmoothingTimesNumDeps == DepSmoothing * |corpus.ix.deps| as real
      ensures corpus.verbSmoothingTimesNumVerbs == VerbSmoothing * |corpus.ix.verbs| as real
      ensures progress == old(progress)
      ensures Ready() && Agrees()
    {
      var t, ix, data, entities, mentions :=
        BuildTables(docs, topics, cfg, params.numTopics, corpus.numEntitiesInAllDocs, corpus.numMentionsInAllDocs);
      corpus := Corpus(docnames, ix, data, entities, mentions,
                       WordSmoothing * |ix.words| as real, DepSmoothing * |ix.deps| as real, VerbSmoothing * |ix.verbs| as real);
      tables := t;
    }

    /**
     * `initializeModelFromData`: the tables filled as `FillFromData` says,
     * then the verb and topic distribution checks, where a failure is the
     * source's `System.exit(1)`: `exited`. On a fresh sampler with a sound
     * layout and defined verb priors the checks pass.
     */
    method InitializeModelFromData(docnames: seq<string>, docs: seq<seq<TextEntity>>, topics: seq<seq<int>>)
      returns (exited: bool)
      requires params.numTopics >= 0 && CorpusDepsDefined(docs) && SameShape(docs, topics)
      requires TopicsBelow(topics, params.numTopics)
      modifies this
      ensures corpus.docNames == docnames && Encoded(docs, cfg, corpus.ix, corpus.data)
      ensures SameShape(corpus.data, topics)
      ensures fresh(Repr(tables)) && Values(tables) == InitialValues(corpus.data, topics, params.numTopics)
      ensures corpus.numEntitiesInAllDocs == old(corpus.numEntitiesInAllDocs) + EntityTotal(topics)
      ensures corpus.numMentionsInAllDocs == old(corpus.numMentionsInAllDocs) + MentionTotal(docs)
      ensures corpus.wSmoothingTimesNumW == WordSmoothing * |corpus.ix.words| as real
      ensures corpus.depSmoothingTimesNumDeps == DepSmoothing * |corpus.ix.deps| as real
      ensures corpus.verbSmoothingTimesNumVerbs == VerbSmoothing * |corpus.ix.verbs| as real
      ensures progress == old(progress)
      ensures Ready() && Agrees()
      ensures exited <==> !DistributionsPass()
      ensures (old(corpus.numEntitiesInAllDocs) == 0 && SoundLayout(params) && params.numTopics > 0 &&
               VerbPriorsDefined(params, Values(tables).verbCounts, corpus.verbSmoothingTimesNumVerbs)) ==> !exited
    {
      ghost var entities0 := corpus.numEntitiesInAllDocs;
      FillFromData(docnames, docs, topics);
      if entities0 == 0 && SoundLayout(params) && params.numTopics > 0 &&
         VerbPriorsDefined(params, Values(tables).verbCounts, corpus.verbSmoothingTimesNumVerbs) {
        InitialChecksHold(params, thetasInDoc, corpus.data, topics, corpus.ix, cfg, Values(tables),
                          corpus.numEntitiesInAllDocs, corpus.verbSmoothingTimesNumVerbs);
      }
      var ok := ChecksPass();
      exited := !ok;
    }

    /**
     * `unlabel(d, e)`: the entity's contributions taken off its topic, in
     * place; the assignments and every other topic and document untouched.
     */
    method Unlabel(d: int, e: int)
      requires Ready() && HasEntity(Values(tables), corpus.data, d, e)
      modifies tables.topicCounts, tables.topicCountsByDoc, tables.wCounts, tables.verbCounts, tables.depCounts, tables.featCounts
      ensures Values(tables) == UnlabelValues(old(Values(tables)), corpus.data, d, e, cfg)
      ensures Ready()
    {
      ghost var v := Values(tables);
      assert EntityFits(corpus.data[d][e], |corpus.data[d][e].words|, corpus.ix, cfg);
      UnlabelTables(tables, corpus.data, d, e, cfg, v);
      UnlabelKeepsFit(v, corpus.data, d, e, corpus.ix, cfg);
    }

    /**
     * `relabel(d, e, z)`: the entity assigned `z`, and its contributions added
     * to `z` in place.
     */
    method Relabel(d: int, e: int, z: int)
      requires Ready() && HasEntity(Values(tables), corpus.data, d, e) && 0 <= z < params.numTopics
      modifies tables.zs, tables.topicCounts, tables.topicCountsByDoc, tables.wCounts, tables.verbCounts, tables.depCounts, tables.featCounts
      ensures Values(tables) == RelabelValues(old(Values(tables)), corpus.data, d, e, z, cfg)
      ensures Ready()
    {
      ghost var v := Values(tables);
      assert EntityFits(corpus.data[d][e], |corpus.data[d][e].words|, corpus.ix, cfg);
      RelabelTables(tables, corpus.data, d, e, z, cfg, v);
      RelabelKeepsFit(v, corpus.data, d, e, z, corpus.ix, cfg);
    }

    /**
     * The body of the sampling loop for one entity, with the drawn topic `z`
     * given: `unlabel` then `relabel`. The tables stay well formed, and counts
     * that agreed with the assignments still agree.
     */
    method Resample(d: int, e: int, z: int)
      requires Ready() && HasEntity(Values(tables), corpus.data, d, e) && 0 <= z < params.numTopics
      modifies tables.zs, tables.topicCounts, tables.topicCountsByDoc, tables.wCounts, tables.verbCounts, tables.depCounts, tables.featCounts
      ensures Values(tables) == RelabelValues(UnlabelValues(old(Values(tables)), corpus.data, d, e, cfg), corpus.data, d, e, z, cfg)
      ensures Values(tables) == ResampleValues(old(Values(tables)), corpus.data, d, e, z, cfg)
      ensures Ready()
      ensures old(Agrees()) ==> Agrees()
    {
      ghost var v := Values(tables);
      UnlabelKeepsShape(v, corpus.data, d, e, cfg);
      Unlabel(d, e);
      ghost var u := Values(tables);
      Relabel(d, e, z);
      ResampleKeepsAgreement(v, u, corpus.data, d, e, z, cfg);
    }

    /**
     * `stoppingCriterionLikelihoodMet` with the data likelihood `like` given:
     * the verdict of the rule on the history, and when the rule says so a new
     * snapshot of the tables with this likelihood and step.
     */
    method StoppingCriterionLikelihoodMet(like: real, currentStep: int) returns (stop: bool)
      requires Ready()
      modifies this, best
      ensures var r := StoppingStep(old(progress), like, currentStep);
              stop == r.stop && progress == r.next
      ensures corpus == old(corpus) && tables == old(tables) && Values(tables) == old(Values(tables))
      ensures StoppingStep(old(progress), like, currentStep).store ==>
                best.saved.Some? && fresh(Repr(best.saved.value)) && Separate(best.saved.value) &&
                Values(best.saved.value) == Values(tables) &&
                best.likelihood == like && best.samplingStep == currentStep && SnapshotFits(best)
      ensures !StoppingStep(old(progress), like, currentStep).store ==>
                best.saved == old(best.saved) && best.likelihood == old(best.likelihood) &&
                best.samplingStep == old(best.samplingStep)
      ensures Ready()
    {
      var r := StoppingStep(progress, like, currentStep);
      if r.store {
        best.StoreAll(tables);
        best.likelihood := like;
        best.samplingStep := currentStep;
        CopiesOfFitting(Values(best.saved.value), Values(tables), corpus.data, corpus.ix, cfg, params.numTopics);
      }
      progress := r.next;
      stop := r.stop;
    }

    /** The snapshot `b` holds tables of the sampler's shape, in arrays that are not the sampler's. */
    ghost predicate SnapshotFits(b: ModelInstance)
      reads this, b, if b.saved.Some? then Repr(b.saved.value) else {}
    {
      SnapshotFor(b, corpus.data, corpus.ix, cfg, params.numTopics, tables)
    }

    /**
     * `loadBestModelInstance(b)`: the snapshot's assignment rows and document
     * count rows copied into the sampler's arrays, and new copies of its four
     * counter arrays. The global topic counts are not restored: they stay as
     * they were.
     */
    method LoadBestModelInstance(b: ModelInstance)
      requires Ready() && SnapshotFits(b)
      modifies this, tables.zs, tables.topicCountsByDoc
      ensures corpus == old(corpus) && progress == old(progress)
      ensures tables.zs == old(tables.zs) && tables.topicCounts == old(tables.topicCounts) &&
              tables.topicCountsByDoc == old(tables.topicCountsByDoc)
      ensures fresh(tables.wCounts) && fresh(tables.verbCounts) && fresh(tables.depCounts) && fresh(tables.featCounts)
      ensures Values(tables) == Values(b.saved.value).(topicCounts := old(Values(tables)).topicCounts)
      ensures Ready()
    {
      var s := b.saved.value;
      ghost var sv := Values(s);
      CopyRows(tables.zs, s.zs);
      CopyRows(tables.topicCountsByDoc, s.topicCountsByDoc);
      var w := CloneCounter(s.wCounts);
      var vc := CloneCounter(s.verbCounts);
      var dc := CloneCounter(s.depCounts);
      var fc := CloneCounter(s.featCounts);
      tables := tables.(wCounts := w, verbCounts := vc, depCounts := dc, featCounts := fc);
      ghost var u := Values(tables);
      ClonesOfFitting(u, sv, corpus.data, corpus.ix, cfg, params.numTopics);
    }

    /**
     * One sweep of `runSampler` over every entity of every document, in order:
     * the entity unlabelled and relabelled with the topic drawn for it,
     * `draw(iter, d, e)`. The new tables are those of the sweep, whose
     * assignments are the draws; they stay well formed, counts that agreed
     * with the assignments still agree, and dependency, verb and feature
     * counters that tallied the assignments still do.
     */
    method Sweep(iter: int, draw: (int, int, int) -> int)
      requires Ready() && AllHaveMentions(corpus.data)
      requires forall d, e :: 0 <= draw(iter, d, e) < params.numTopics
      modifies tables.zs, tables.topicCounts, tables.topicCountsByDoc, tables.wCounts, tables.verbCounts, tables.depCounts, tables.featCounts
      ensures Ready()
      ensures TopicsBelow(DrawsAt(draw, iter, corpus.data), |old(Values(tables)).topicCounts|)
      ensures Values(tables) == SweepValues(old(Values(tables)), corpus.data, DrawsAt(draw, iter, corpus.data), cfg)
      ensures Values(tables).zs == DrawsAt(draw, iter, corpus.data)
      ensures old(Agrees()) ==> Agrees()
      ensures old(Tallied()) ==> Tallied()
    {
      hide ResampleValues;
      hide SweepDoc;
      hide SweepDocs;
      ghost var v0 := Values(tables);
      var zs := DrawsAt(draw, iter, corpus.data);
      DrawsAtBelow(draw, iter, corpus.data, params.numTopics);
      SweepCorpus(zs);
      SweepAssigns(v0, corpus.data, zs, cfg);
      if old(Tallied()) {
        SweepKeepsTallies(v0, corpus.data, zs, cfg, corpus.ix);
      }
    }

    /** The sweep with the topics drawn for every entity given as `zs`, document by document. */
    method SweepCorpus(zs: seq<seq<int>>)
      requires Ready() && Sweepable(Values(tables), corpus.data, zs)
      modifies tables.zs, tables.topicCounts, tables.topicCountsByDoc, tables.wCounts, tables.verbCounts, tables.depCounts, tables.featCounts
      ensures Ready()
      ensures Values(tables) == SweepValues(old(Values(tables)), corpus.data, zs, cfg)
      ensures old(Agrees()) ==> Agrees()
    {
      hide ResampleValues;
      hide SweepDoc;
      ghost var v0 := Values(tables);
      for d := 0 to |corpus.data|
        invariant Ready()
        invariant Values(tables) == SweepDocs(v0, corpus.data, zs, d, cfg)
        invariant old(Agrees()) ==> Agrees()
      {
        SweepNextDocument(v0, zs, d);
      }
    }

    /** Document `d` swept with the drawn topics `zs[d]`: the sweep over the corpus one document further. */
    method SweepNextDocument(ghost v0: TableValues, zs: seq<seq<int>>, d: int)
      requires Ready() && Sweepable(v0, corpus.data, zs) && 0 <= d < |corpus.data|
      requires Values(tables) == SweepDocs(v0, corpus.data, zs, d, cfg)
      modifies tables.zs, tables.topicCounts, tables.topicCountsByDoc, tables.wCounts, tables.verbCounts, tables.depCounts, tables.featCounts
      ensures Ready()
      ensures Values(tables) == SweepDocs(v0, corpus.data, zs, d + 1, cfg)
      ensures old(Agrees()) ==> Agrees()
    {
      hide ResampleValues;
      hide SweepDoc;
      SweepDocsStep(v0, corpus.data, zs, d + 1, cfg);
      SweepDocument(d, zs[d]);
    }

    /**
     * The entities of document `d` resampled in order, entity `e` given the
     * topic `zrow[e]`: the tables become those of the sweep over the document.
     */
    method SweepDocument(d: int, zrow: seq<int>)
      requires Ready() && DocSweepable(Values(tables), corpus.data, d, zrow)
      modifies tables.zs, tables.topicCounts, tables.topicCountsByDoc, tables.wCounts, tables.verbCounts, tables.depCounts, tables.featCounts
      ensures Ready()
      ensures Values(tables) == SweepDoc(old(Values(tables)), corpus.data, d, zrow, |zrow|, cfg)
      ensures old(Agrees()) ==> Agrees()
    {
      hide ResampleValues;
      ghost var vd := Values(tables);
      for e := 0 to |zrow|
        invariant Ready()
        invariant Values(tables) == SweepDoc(vd, corpus.data, d, zrow, e, cfg)
        invariant old(Agrees()) ==> Agrees()
      {
        ResampleNext(vd, d, zrow, e);
      }
    }

    /** Entity `e` of document `d` resampled with `zrow[e]`: the sweep over the document one entity further. */
    method ResampleNext(ghost vd: TableValues, d: int, zrow: seq<int>, e: int)
      requires Ready() && DocSweepable(vd, corpus.data, d, zrow) && 0 <= e < |zrow|
      requires Values(tables) == SweepDoc(vd, corpus.data, d, zrow, e, cfg)
      modifies tables.zs, tables.topicCounts, tables.topicCountsByDoc, tables.wCounts, tables.verbCounts, tables.depCounts, tables.featCounts
      ensures Ready()
      ensures Values(tables) == SweepDoc(vd, corpus.data, d, zrow, e + 1, cfg)
      ensures old(Agrees()) ==> Agrees()
    {
      hide ResampleValues;
      SweepDocStep(vd, corpus.data, d, zrow, e + 1, cfg);
      Resample(d, e, zrow[e]);
    }

    /**
     * The two distribution checks of `runSampler`, which exits when one fails.
     * A zero denominator makes a sum infinite in the source; the model counts
     * that as a failed check.
     */
    method ChecksPass() returns (ok: bool)
      ensures ok <==> DistributionsPass()
    {
      if TopicPriorsDefined(params, thetasInDoc, tables.topicCounts[..], tables.topicCountsByDoc[..], corpus.numEntitiesInAllDocs) &&
         VerbPriorsDefined(params, tables.verbCounts[..], corpus.verbSmoothingTimesNumVerbs) {
        ok := CheckDistributions();
      } else {
        ok := false;
      }
    }

    /**
     * The step of `runSampler` taken every fifteenth iteration: the stopping
     * rule on the likelihood `like`, and when it does not stop, the
     * distribution checks. A snapshot that fit the sampler still does; the
     * best likelihood never falls, and either nothing about the best changed
     * or the snapshot is the one of the new best likelihood and step. At
     * iteration 14 the rule never stops, and a likelihood above the best
     * stores a snapshot.
     */
    method Checkpoint(like: real, iter: int) returns (stop: bool, ok: bool)
      requires Ready()
      requires best.saved.Some? ==> SnapshotFor(best, corpus.data, corpus.ix, cfg, params.numTopics, tables)
      modifies this, best
      ensures Ready() && corpus == old(corpus) && tables == old(tables) && Values(tables) == old(Values(tables))
      ensures best.saved.Some? ==> SnapshotFor(best, corpus.data, corpus.ix, cfg, params.numTopics, tables)
      ensures iter == 14 ==> !stop && (like > old(progress).bestLikelihood ==> best.saved.Some?)
      ensures stop == StoppingStep(old(progress), like, iter).stop && progress == StoppingStep(old(progress), like, iter).next
      ensures stop ==> ok
      ensures old(best.saved).Some? ==> best.saved.Some?
      ensures progress.bestLikelihood >= old(progress).bestLikelihood
      ensures (best.saved == old(best.saved) && best.likelihood == old(best.likelihood) &&
               best.samplingStep == old(best.samplingStep) &&
               progress.bestLikelihood == old(progress).bestLikelihood &&
               progress.bestLikelihoodStep == old(progress).bestLikelihoodStep) ||
              (best.saved.Some? && best.likelihood == progress.bestLikelihood &&
               best.samplingStep == progress.bestLikelihoodStep)
    {
      StopsIff(progress, like, iter);
      StoresIff(progress, like, iter);
      BestNeverDecreases(progress, like, iter);
      stop := StoppingCriterionLikelihoodMet(like, iter);
      ok := true;
      if !stop {
        ok := ChecksPass();
      }
    }

    /** A sweep leaves the snapshot, whose arrays are not the sampler's, as it was. */
    method SweepBesideSnapshot(iter: int, draw: (int, int, int) -> int, ghost v: TableValues)
      requires Ready() && AllHaveMentions(corpus.data) && Values(tables) == v
      requires forall d, e :: 0 <= draw(iter, d, e) < params.numTopics
      requires best.saved.Some? ==> SnapshotFor(best, corpus.data, corpus.ix, cfg, params.numTopics, tables)
      modifies tables.zs, tables.topicCounts, tables.topicCountsByDoc, tables.wCounts, tables.verbCounts, tables.depCounts, tables.featCounts
      ensures Ready()
      ensures TopicsBelow(DrawsAt(draw, iter, corpus.data), |v.topicCounts|)
      ensures Values(tables) == SweepValues(v, corpus.data, DrawsAt(draw, iter, corpus.data), cfg)
      ensures Values(tables).zs == DrawsAt(draw, iter, corpus.data)
      ensures old(Agrees()) ==> Agrees()
      ensures best.saved.Some? ==> SnapshotFor(best, corpus.data, corpus.ix, cfg, params.numTopics, tables)
    {
      hide ResampleValues;
      hide SweepDoc;
      hide SweepDocs;
      hide SweepValues;
      Sweep(iter, draw);
    }

    /**
     * Iteration `iter` of the sampling loop: on every fifteenth one the
     * checkpoint, then, unless it stops the loop or a check fails, the sweep
     * with the topics drawn at `iter`; when it stops or exits the tables are
     * as they were.
     */
    method Iteration(iter: int, draw: (int, int, int) -> int, like: real, ghost v: TableValues) returns (stop: bool, exited: bool)
      requires Ready() && AllHaveMentions(corpus.data) && Values(tables) == v
      requires forall d, e :: 0 <= draw(iter, d, e) < params.numTopics
      requires best.saved.Some? ==> SnapshotFor(best, corpus.data, corpus.ix, cfg, params.numTopics, tables)
      modifies this, best, tables.zs, tables.topicCounts, tables.topicCountsByDoc, tables.wCounts, tables.verbCounts, tables.depCounts, tables.featCounts
      ensures Ready() && corpus == old(corpus) && tables == old(tables)
      ensures TopicsBelow(DrawsAt(draw, iter, corpus.data), |v.topicCounts|)
      ensures !stop && !exited ==>
                Values(tables) == SweepValues(v, corpus.data, DrawsAt(draw, iter, corpus.data), cfg)
      ensures stop || exited ==> Values(tables) == v
      ensures best.saved.Some? ==> SnapshotFor(best, corpus.data, corpus.ix, cfg, params.numTopics, tables)
      ensures old(Agrees()) ==> Agrees()
      ensures iter % 15 != 14 ==> !stop && !exited && best.saved == old(best.saved) && progress == old(progress)
      ensures iter % 15 == 14 ==>
                stop == StoppingStep(old(progress), like, iter).stop && progress == StoppingStep(old(progress), like, iter).next
      ensures !(stop && exited)
      ensures iter == 14 ==> !stop && (like > old(progress).bestLikelihood ==> best.saved.Some?)
      ensures BestKept(old(progress), old(best.saved), old(best.likelihood), old(best.samplingStep))
    {
      hide ResampleValues;
      hide SweepDoc;
      hide SweepDocs;
      hide SweepValues;
      var ok;
      stop, ok := CheckpointIfDue(like, iter);
      if !stop && ok {
        SweepBesideSnapshot(iter, draw, v);
      }
      exited := !ok;
    }

    /** The checkpoint when `iter` is one of 14, 29, ...; otherwise nothing happens and the loop goes on. */
    method CheckpointIfDue(like: real, iter: int) returns (stop: bool, ok: bool)
      requires Ready()
      requires best.saved.Some? ==> SnapshotFor(best, corpus.data, corpus.ix, cfg, params.numTopics, tables)
      modifies this, best
      ensures Ready() && corpus == old(corpus) && tables == old(tables) && Values(tables) == old(Values(tables))
      ensures best.saved.Some? ==> SnapshotFor(best, corpus.data, corpus.ix, cfg, params.numTopics, tables)
      ensures iter % 15 != 14 ==> !stop && ok && best.saved == old(best.saved) && progress == old(progress)
      ensures iter % 15 == 14 ==>
                stop == StoppingStep(old(progress), like, iter).stop && progress == StoppingStep(old(progress), like, iter).next
      ensures stop ==> ok
      ensures iter == 14 ==> !stop && (like > old(progress).bestLikelihood ==> best.saved.Some?)
      ensures BestKept(old(progress), old(best.saved), old(best.likelihood), old(best.samplingStep))
    {
      stop, ok := false, true;
      if iter % 15 == 14 {
        stop, ok := Checkpoint(like, iter);
      }
    }

    /**
     * What the sampling loop keeps from the best likelihood `p0`, the snapshot
     * `s0` and the count agreement `agreed` it started with: a stored snapshot
     * stays stored, the best likelihood never drops, a changed snapshot is the
     * one of the current best likelihood and step, and agreeing counts stay so.
     */
    ghost predicate SampleKept(p0: Progress, s0: Option<Tables>, agreed: bool)
      reads this, best, Repr(tables)
    {
      (s0.Some? ==> best.saved.Some?) &&
      progress.bestLikelihood >= p0.bestLikelihood &&
      (best.saved != s0 ==> best.likelihood == progress.bestLikelihood && best.samplingStep == progress.bestLikelihoodStep) &&
      (agreed ==> Agrees())
    }

    /**
     * Iteration `iter` of the sampling loop after `iter` sweeps of the run from
     * `v0`, the checkpoints before it having gone through the stopping rule
     * from `p0` without a stop: one more sweep unless it stops or exits, which
     * only happens at a checkpoint, and the checkpoint run one further when
     * `iter` is a checkpoint.
     */
    method NextIteration(iter: nat, draw: (int, int, int) -> int, likelihood: int -> real, ghost v0: TableValues, ghost sweeps: nat,
                         ghost p0: Progress, ghost s0: Option<Tables>, ghost agreed: bool)
      returns (stop: bool, exited: bool, ghost sweeps': nat)
      requires Ready() && AllHaveMentions(corpus.data) && sweeps == iter
      requires AllDrawsBelow(draw, |v0.topicCounts|) && forall d, e :: 0 <= draw(iter, d, e) < params.numTopics
      requires Shaped(v0, corpus.data)
      requires Values(tables) == SweepRun(v0, corpus.data, sweeps, draw, cfg)
      requires best.saved.Some? ==> SnapshotFor(best, corpus.data, corpus.ix, cfg, params.numTopics, tables)
      requires SampleKept(p0, s0, agreed)
      requires CheckpointRun(p0, likelihood, CheckpointsReached(sweeps, false)) == (false, progress)
      modifies this, best, tables.zs, tables.topicCounts, tables.topicCountsByDoc, tables.wCounts, tables.verbCounts, tables.depCounts, tables.featCounts
      ensures Ready() && corpus == old(corpus) && tables == old(tables)
      ensures Values(tables) == SweepRun(v0, corpus.data, sweeps', draw, cfg)
      ensures sweeps' == if stop || exited then sweeps else sweeps + 1
      ensures best.saved.Some? ==> SnapshotFor(best, corpus.data, corpus.ix, cfg, params.numTopics, tables)
      ensures old(best.saved).Some? ==> best.saved.Some?
      ensures iter < 14 ==> !stop && !exited && best.saved == old(best.saved) && progress == old(progress)
      ensures iter == 14 ==> !stop && (likelihood(iter) > old(progress).bestLikelihood ==> best.saved.Some?)
      ensures SampleKept(p0, s0, agreed)
      ensures stop || exited ==> iter % 15 == 14 && !(stop && exited)
      ensures CheckpointRun(p0, likelihood, CheckpointsReached(sweeps', stop || exited)) == (stop, progress)
      ensures CheckpointRun(p0, likelihood, CheckpointsReached(sweeps', exited)) == (false, progress)
    {
      ghost var before := progress;
      hide ResampleValues; hide SweepDoc; hide SweepDocs; hide SweepValues; hide SweepRun; hide Ready; hide Agrees;
      hide SnapshotFor; hide Fits; hide Separate; hide Apart; hide Shaped; hide TopicsBelow; hide DrawsAt;
      hide CheckpointRun; hide StoppingRun; hide StoppingStep;
      hide CheckpointsReached; hide CheckpointAt;
      stop, exited := Iteration(iter, draw, likelihood(iter), Values(tables));
      CheckpointRunAdvances(p0, likelihood, iter, before, progress, stop, exited);
      sweeps' := sweeps;
      if !stop && !exited {
        SweepRunStep(v0, corpus.data, sweeps + 1, draw, cfg);
        sweeps' := sweeps + 1;
      }
    }

    /**
     * The iterations of the sampling loop from the tables `v0`, the best
     * likelihood `p0`, the snapshot `s0` and the count agreement `agreed`.
     */
    method SampleLoop(numIterations: int, draw: (int, int, int) -> int, likelihood: int -> real,
                      ghost v0: TableValues, ghost p0: Progress, ghost s0: Option<Tables>, ghost agreed: bool)
      returns (exited: bool, ghost stopped: bool, ghost sweeps: nat)
      requires Ready() && AllHaveMentions(corpus.data)
      requires forall i, d, e :: 0 <= draw(i, d, e) < params.numTopics
      requires Shaped(v0, corpus.data) && AllDrawsBelow(draw, |v0.topicCounts|)
      requires Values(tables) == SweepRun(v0, corpus.data, 0, draw, cfg)
      requires best.saved.Some? ==> SnapshotFor(best, corpus.data, corpus.ix, cfg, params.numTopics, tables)
      requires best.saved == s0 && progress == p0 && SampleKept(p0, s0, agreed)
      modifies this, best, tables.zs, tables.topicCounts, tables.topicCountsByDoc, tables.wCounts, tables.verbCounts, tables.depCounts, tables.featCounts
      ensures Ready() && corpus == old(corpus) && tables == old(tables)
      ensures Values(tables) == SweepRun(v0, corpus.data, sweeps, draw, cfg)
      ensures sweeps == 0 || sweeps <= numIterations
      ensures numIterations < 15 ==> sweeps == (if numIterations < 0 then 0 else numIterations)
      ensures best.saved.Some? ==> SnapshotFor(best, corpus.data, corpus.ix, cfg, params.numTopics, tables)
      ensures numIterations < 15 ==> !exited && best.saved == s0 && progress == p0
      ensures numIterations >= 15 && likelihood(14) > p0.bestLikelihood ==> best.saved.Some?
      ensures SampleKept(p0, s0, agreed)
      ensures !stopped && !exited ==> sweeps == (if numIterations < 0 then 0 else numIterations)
      ensures stopped || exited ==> sweeps < numIterations && sweeps % 15 == 14 && !(stopped && exited)
      ensures CheckpointRun(p0, likelihood, CheckpointsReached(sweeps, stopped || exited)) == (stopped, progress)
      ensures CheckpointRun(p0, likelihood, CheckpointsReached(sweeps, exited)) == (false, progress)
    {
      assert CheckpointRun(p0, likelihood, CheckpointsReached(0, false)) == (false, progress);
      hide *;
      exited, sweeps := false, 0;
      var iter, stop := 0, false;
      while iter < numIterations && !stop && !exited
        invariant 0 <= iter && (iter == 0 || iter <= numIterations)
        invariant tables == old(tables) && Ready() && corpus == old(corpus)
        invariant Values(tables) == SweepRun(v0, corpus.data, sweeps, draw, cfg)
        invariant sweeps <= iter && (!stop && !exited ==> sweeps == iter)
        invariant stop || exited ==> iter == sweeps + 1 && sweeps % 15 == 14 && !(stop && exited)
        invariant CheckpointRun(p0, likelihood, CheckpointsReached(sweeps, stop || exited)) == (stop, progress)
        invariant CheckpointRun(p0, likelihood, CheckpointsReached(sweeps, exited)) == (false, progress)
        invariant best.saved.Some? ==> SnapshotFor(best, corpus.data, corpus.ix, cfg, params.numTopics, tables)
        invariant iter <= 14 ==> !stop && !exited && best.saved == s0 && progress == p0
        invariant iter > 14 && likelihood(14) > p0.bestLikelihood ==> best.saved.Some?
        invariant SampleKept(p0, s0, agreed)
      {
        stop, exited, sweeps := NextIteration(iter, draw, likelihood, v0, sweeps, p0, s0, agreed);
        iter := iter + 1;
      }
      stopped := stop;
    }

    /**
     * The sampling loop of `runSampler(numIterations)`, with the topic drawn
     * for entity `e` of document `d` at iteration `iter` given as
     * `draw(iter, d, e)` and the data likelihood at that iteration as
     * `likelihood(iter)`. Every fifteenth iteration (14, 29, ...) the stopping
     * rule runs and may end the loop, and then the distribution checks run;
     * then every entity is resampled. The source lowers the entity total by
     * one while it samples and restores it for the checks and at the end; the
     * lowered total only enters the sampling distribution, which the given
     * draws stand for, so the model leaves the total as it is. `exited` is a
     * failed check (`System.exit`).
     * Fewer than 15 iterations never reach the stopping rule, so no snapshot
     * is stored; from 15 on, a first likelihood above the best stores one.
     * Unless the rule stops the loop (`stopped`) or a check fails, every
     * iteration sweeps; both happen only at a checkpoint, and the history is
     * the stopping rule's over the checkpoints reached. Its best likelihood is
     * at least that of every checkpoint the rule went through without a stop.
     */
    method Sample(numIterations: int, draw: (int, int, int) -> int, likelihood: int -> real)
      returns (exited: bool, ghost stopped: bool, ghost sweeps: nat)
      requires Ready() && AllHaveMentions(corpus.data)
      requires forall i, d, e :: 0 <= draw(i, d, e) < params.numTopics
      requires best.saved.Some? ==> SnapshotFits(best)
      modifies this, best, tables.zs, tables.topicCounts, tables.topicCountsByDoc, tables.wCounts, tables.verbCounts, tables.depCounts, tables.featCounts
      ensures Ready() && corpus == old(corpus) && tables == old(tables)
      ensures Values(tables) == SweepRun(old(Values(tables)), corpus.data, sweeps, draw, cfg)
      ensures sweeps == 0 || sweeps <= numIterations
      ensures numIterations < 15 ==> sweeps == (if numIterations < 0 then 0 else numIterations)
      ensures old(Agrees()) ==> Agrees()
      ensures old(Tallied()) ==> Tallied()
      ensures best.saved.Some? ==> SnapshotFor(best, corpus.data, corpus.ix, cfg, params.numTopics, tables)
      ensures old(best.saved).Some? ==> best.saved.Some?
      ensures numIterations < 15 ==> !exited && best.saved == old(best.saved) && progress == old(progress)
      ensures numIterations >= 15 && likelihood(14) > old(progress).bestLikelihood ==> best.saved.Some?
      ensures progress.bestLikelihood >= old(progress).bestLikelihood
      ensures best.saved != old(best.saved) ==>
                best.likelihood == progress.bestLikelihood && best.samplingStep == progress.bestLikelihoodStep
      ensures !stopped && !exited ==> sweeps == (if numIterations < 0 then 0 else numIterations)
      ensures stopped || exited ==> sweeps < numIterations && sweeps % 15 == 14 && !(stopped && exited)
      ensures CheckpointRun(old(progress), likelihood, CheckpointsReached(sweeps, stopped || exited)) == (stopped, progress)
      ensures forall i :: 0 <= i < CheckpointsReached(sweeps, exited) ==> progress.bestLikelihood >= likelihood(CheckpointAt(i))
    {
      ghost var p0 := progress;
      ghost var v0 := Values(tables);
      assert AllDrawsBelow(draw, |v0.topicCounts|) && Shaped(v0, corpus.data) && Values(tables) == SweepRun(v0, corpus.data, 0, draw, cfg);
      assert best.saved.Some? ==> SnapshotFor(best, corpus.data, corpus.ix, cfg, params.numTopics, tables);
      assert DataFits(corpus.data, corpus.ix, cfg) && (Tallied() ==> TablesAreTallies(v0, corpus.data));
      hide SweepRun; hide CheckpointRun; hide CheckpointsReached; hide CheckpointAt;
      exited, stopped, sweeps := SampleLoop(numIterations, draw, likelihood, v0, progress, best.saved, Agrees());
      if old(Tallied()) {
        SweepRunKeepsTallies(v0, corpus.data, sweeps, draw, cfg, corpus.ix);
      }
      CheckpointRunKeepsBest(p0, likelihood, CheckpointsReached(sweeps, exited));
    }

    /**
     * `runSampler(numIterations)`: the sampling loop, then the best snapshot
     * loaded. Outcomes: `Exited` when a distribution check fails; `NoSnapshot`
     * when no snapshot was ever stored, where the source dereferences the
     * empty snapshot; `Finished` otherwise, with the tables holding the
     * snapshot except the global topic counts, which stay as the last sweep
     * left them. The sweeps, the stop and the history are those of `Sample`.
     */
    method RunSampler(numIterations: int, draw: (int, int, int) -> int, likelihood: int -> real)
      returns (outcome: RunOutcome, ghost stopped: bool, ghost sweeps: nat)
      requires Ready() && AllHaveMentions(corpus.data)
      requires forall i, d, e :: 0 <= draw(i, d, e) < params.numTopics
      requires best.saved.Some? ==> SnapshotFits(best)
      modifies this, best, tables.zs, tables.topicCounts, tables.topicCountsByDoc, tables.wCounts, tables.verbCounts, tables.depCounts, tables.featCounts
      ensures Ready() && corpus == old(corpus)
      ensures outcome.NoSnapshot? <==> best.saved.None? && !outcome.Exited?
      ensures old(best.saved).None? && numIterations < 15 ==> outcome.NoSnapshot?
      ensures numIterations >= 15 && likelihood(14) > old(progress).bestLikelihood ==> !outcome.NoSnapshot?
      ensures progress.bestLikelihood >= old(progress).bestLikelihood
      ensures best.saved != old(best.saved) ==>
                best.likelihood == progress.bestLikelihood && best.samplingStep == progress.bestLikelihoodStep
      ensures outcome.Finished? ==>
                best.saved.Some? && tables.topicCounts == old(tables.topicCounts) &&
                Values(tables) == Values(best.saved.value).(topicCounts := SweepRun(old(Values(tables)), corpus.data, sweeps, draw, cfg).topicCounts)
      ensures !outcome.Finished? ==> tables == old(tables) && (old(Agrees()) ==> Agrees())
      ensures !outcome.Finished? ==> Values(tables) == SweepRun(old(Values(tables)), corpus.data, sweeps, draw, cfg)
      ensures !stopped && !outcome.Exited? ==> sweeps == (if numIterations < 0 then 0 else numIterations)
      ensures stopped || outcome.Exited? ==> sweeps < numIterations && sweeps % 15 == 14 && !(stopped && outcome.Exited?)
      ensures CheckpointRun(old(progress), likelihood, CheckpointsReached(sweeps, stopped || outcome.Exited?)) == (stopped, progress)
      ensures forall i :: 0 <= i < CheckpointsReached(sweeps, outcome.Exited?) ==>
                progress.bestLikelihood >= likelihood(CheckpointAt(i))
    {
      hide ResampleValues; hide SweepDoc; hide SweepDocs; hide SweepValues; hide SweepRun;
      hide CheckpointRun; hide CheckpointsReached; hide CheckpointAt;
      var exited;
      exited, stopped, sweeps := Sample(numIterations, draw, likelihood);
      if exited {
        outcome := Exited;
      } else if best.saved.None? {
        outcome := NoSnapshot;
      } else {
        LoadBestModelInstance(best);
        outcome := Finished;
      }
    }

    /** `countTopicOccurrences`: a new array with the number of entities assigned each topic. */
    method CountTopicOccurrences() returns (counts: array<int>)
      requires Ready()
      ensures fresh(counts) && counts.Length == params.numTopics
      ensures forall t :: 0 <= t < counts.Length ==> counts[t] == TopicTotal(Values(tables).zs, t)
      ensures Agrees() ==> counts[..] == Values(tables).topicCounts
    {
      counts := CountTopics(tables.zs, params.numTopics);
    }

    /** `docnameToIndex`: the first document whose name matches ignoring case, or -1 when none does. */
    method DocnameToIndex(docname: string) returns (doci: int)
      ensures doci == FirstMatch(corpus.docNames, docname)
    {
      doci := 0;
      while doci < |corpus.docNames|
        invariant 0 <= doci <= |corpus.docNames|
        invariant forall j :: 0 <= j < doci ==> !EqualsIgnoreCase(corpus.docNames[j], docname)
      {
        if EqualsIgnoreCase(corpus.docNames[doci], docname) {
          return;
        }
        doci := doci + 1;
      }
      doci := -1;
    }

    /**
     * The sanity check `initializeModelFromData` runs before it returns (and
     * exits on failure): `checkTopicDistributions` and `checkVerbDistributions`
     * on the current tables.
     */
    method CheckDistributions() returns (ok: bool)
      requires TopicPriorsDefined(params, thetasInDoc, Values(tables).topicCounts, Values(tables).topicCountsByDoc,
                                  corpus.numEntitiesInAllDocs)
      requires VerbPriorsDefined(params, Values(tables).verbCounts, corpus.verbSmoothingTimesNumVerbs)
      ensures ok <==> TopicPriorsNormalized(params, thetasInDoc, Values(tables).topicCounts, Values(tables).topicCountsByDoc,
                                            corpus.numEntitiesInAllDocs) &&
                      VerbPriorsNormalized(params, Values(tables).verbCounts, corpus.verbSmoothingTimesNumVerbs, |corpus.ix.verbs|)
    {
      var topicOk := CheckTopicDistributions(params, thetasInDoc, tables.topicCounts[..], tables.topicCountsByDoc[..],
                                             corpus.numEntitiesInAllDocs);
      var verbOk := CheckVerbDistributions(params, tables.verbCounts[..], corpus.verbSmoothingTimesNumVerbs, |corpus.ix.verbs|);
      ok := topicOk && verbOk;
    }
  }

  /**
   * The values of well-formed tables: shaped like the corpus with `n` topics,
   * counters holding only indexed positions, and a corpus fitting the indices.
   */
  ghost predicate Fits(v: TableValues, data: seq<seq<EntityData>>, ix: Indices, cfg: Config, n: int) {
    Shaped(v, data) && |v.topicCounts| == n && CountersFit(v, ix, cfg) && DataFits(data, ix, cfg)
  }

  /**
   * The snapshot `b` holds separate tables of the shape `Fits` gives for the
   * corpus `data`, in arrays none of which is one of `t`'s.
   */
  ghost predicate SnapshotFor(b: ModelInstance, data: seq<seq<EntityData>>, ix: Indices, cfg: Config, n: int, t: Tables)
    reads b, if b.saved.Some? then Repr(b.saved.value) else {}
  {
    b.saved.Some? && Separate(b.saved.value) && Fits(Values(b.saved.value), data, ix, cfg, n) &&
    Apart(b.saved.value, t)
  }

  /** The tables `initializeModelFromData` fills are well formed and agree with the topics. */
  lemma InitialState(docs: seq<seq<TextEntity>>, topics: seq<seq<int>>, n: nat, cfg: Config, ix: Indices, data: seq<seq<EntityData>>)
    requires CorpusDepsDefined(docs) && SameShape(docs, topics) && TopicsBelow(topics, n)
    requires (ix, data) == EncodeCorpus(NoIndices, docs, cfg) && SameShape(data, topics)
    ensures Fits(InitialValues(data, topics, n), data, ix, cfg, n)
    ensures TopicCountsAgree(InitialValues(data, topics, n)) && DocCountsAgree(InitialValues(data, topics, n))
  {
    EncodeCorpusFits(NoIndices, docs, cfg);
    CorpusFitsData(data, docs, ix, cfg);
    InitialTopicCounts(data, topics, n);
    InitialCountersFit(data, topics, n, ix, cfg);
  }

  /** `ix` and `data` are the indices and the encoding of the corpus `docs`. */
  ghost predicate Encoded(docs: seq<seq<TextEntity>>, cfg: Config, ix: Indices, data: seq<seq<EntityData>>) {
    CorpusDepsDefined(docs) && (ix, data) == EncodeCorpus(NoIndices, docs, cfg)
  }

  /** The allocation and the document loop of `initializeModelFromData`. */
  method BuildTables(docs: seq<seq<TextEntity>>, topics: seq<seq<int>>, cfg: Config, n: nat, entities: int, mentions: int)
    returns (t: Tables, ix: Indices, data: seq<seq<EntityData>>, entities': int, mentions': int)
    requires CorpusDepsDefined(docs) && SameShape(docs, topics) && TopicsBelow(topics, n)
    ensures fresh(Repr(t)) && Separate(t)
    ensures Encoded(docs, cfg, ix, data) && SameShape(data, topics)
    ensures Values(t) == InitialValues(data, topics, n)
    ensures Fits(Values(t), data, ix, cfg, n) && TopicCountsAgree(Values(t)) && DocCountsAgree(Values(t))
    ensures entities' == entities + EntityTotal(topics) && mentions' == mentions + MentionTotal(docs)
  {
    t := AllocateTables(|docs|, n);
    ix, data, entities', mentions' := FillTables(t, docs, topics, cfg, entities, mentions);
    InitialState(docs, topics, n, cfg, ix, data);
  }

  /** Counts that agreed with the assignments before a sampling step agree after it. */
  lemma ResampleKeepsAgreement(v: TableValues, u: TableValues, data: seq<seq<EntityData>>, d: int, e: int, z: int, cfg: Config)
    requires HasEntity(v, data, d, e) && 0 <= z < |v.topicCounts| && u == UnlabelValues(v, data, d, e, cfg)
    requires HasEntity(u, data, d, e)
    ensures TopicCountsAgree(v) && DocCountsAgree(v) ==>
              TopicCountsAgree(RelabelValues(u, data, d, e, z, cfg)) && DocCountsAgree(RelabelValues(u, data, d, e, z, cfg))
  {
    if TopicCountsAgree(v) && DocCountsAgree(v) {
      SamplingStepKeepsTopicCounts(v, data, d, e, z, cfg);
    }
  }

  /** Copies of well-formed tables are the tables themselves: their counters keep their totals. */
  lemma CopiesOfFitting(copy: TableValues, v: TableValues, data: seq<seq<EntityData>>, ix: Indices, cfg: Config, n: int)
    requires CopyOf(copy, v) && Fits(v, data, ix, cfg, n)
    ensures copy == v
  {
    ClonesOfConsistent(copy.wCounts, v.wCounts);
    ClonesOfConsistent(copy.verbCounts, v.verbCounts);
    ClonesOfConsistent(copy.depCounts, v.depCounts);
    ClonesOfConsistent(copy.featCounts, v.featCounts);
  }

  /**
   * Tables holding the rows of a well-formed snapshot and copies of its
   * counters, with topic counts of the right length of their own, are the
   * snapshot with those topic counts, and are well formed.
   */
  lemma ClonesOfFitting(u: TableValues, sv: TableValues, data: seq<seq<EntityData>>, ix: Indices, cfg: Config, n: int)
    requires u.zs == sv.zs && u.topicCountsByDoc == sv.topicCountsByDoc && |u.topicCounts| == n
    requires ClonesOf(u.wCounts, sv.wCounts) && ClonesOf(u.verbCounts, sv.verbCounts)
    requires ClonesOf(u.depCounts, sv.depCounts) && ClonesOf(u.featCounts, sv.featCounts)
    requires Fits(sv, data, ix, cfg, n)
    ensures u == sv.(topicCounts := u.topicCounts)
    ensures Fits(u, data, ix, cfg, n)
  {
    ClonesOfConsistent(u.wCounts, sv.wCounts);
    ClonesOfConsistent(u.verbCounts, sv.verbCounts);
    ClonesOfConsistent(u.depCounts, sv.depCounts);
    ClonesOfConsistent(u.featCounts, sv.featCounts);
  }

  /** The row-by-row `Arrays.copyOf` loop of `loadBestModelInstance`: the first rows of `dst` become those of `src`. */
  method CopyRows(dst: array<seq<int>>, src: array<seq<int>>)
    requires dst != src && src.Length <= dst.Length
    modifies dst
    ensures dst[..] == src[..] + old(dst[..])[src.Length..]
  {
    for xx := 0 to src.Length
      invariant forall i :: 0 <= i < xx ==> dst[i] == src[i]
      invariant forall i :: xx <= i < dst.Length ==> dst[i] == old(dst[i])
    {
      dst[xx] := src[xx];
    }
  }

  /** The position of the first name equal to `name` ignoring case, or -1 when there is none. */
  function FirstMatch(names: seq<string>, name: string): (r: int)
    ensures -1 <= r < |names|
    ensures r >= 0 ==> EqualsIgnoreCase(names[r], name)
    ensures forall j :: 0 <= j < |names| && (r < 0 || j < r) ==> !EqualsIgnoreCase(names[j], name)
    decreases |names|
  {
    if |names| == 0 then -1
    else
      var k := FirstMatch(names[..|names| - 1], name);
      assert forall j :: 0 <= j < |names| - 1 ==> names[..|names| - 1][j] == names[j];
      if k >= 0 then k else if EqualsIgnoreCase(names[|names| - 1], name) then |names| - 1 else -1
  }

  /** The counting loop of `countTopicOccurrences` over the assignment rows. */
  method CountTopics(zs: array<seq<int>>, n: nat) returns (counts: array<int>)
    requires forall d :: 0 <= d < zs.Length ==> Below(zs[d], n)
    ensures fresh(counts) && counts.Length == n
    ensures forall t :: 0 <= t < n ==> counts[t] == TopicTotal(zs[..], t)
  {
    counts := new int[n](_ => 0);
    for doci := 0 to zs.Length
      invariant forall t :: 0 <= t < n ==> counts[t] == TopicTotal(zs[..doci], t)
    {
      CountRowInto(counts, zs[doci]);
      assert zs[..doci + 1][..doci] == zs[..doci];
    }
    assert zs[..zs.Length] == zs[..];
  }

  /** The inner loop of `countTopicOccurrences`: one more count for the topic of every entity of a row. */
  method CountRowInto(counts: array<int>, row: seq<int>)
    requires Below(row, counts.Length)
    modifies counts
    ensures forall t :: 0 <= t < counts.Length ==> counts[t] == old(counts[t]) + Count(row, t)
  {
    for entityi := 0 to |row|
      invariant forall t :: 0 <= t < counts.Length ==> counts[t] == old(counts[t]) + Count(row[..entityi], t)
    {
      assert row[..entityi + 1] == row[..entityi] + [row[entityi]];
      counts[row[entityi]] := counts[row[entityi]] + 1;
    }
    assert row[..|row|] == row;
  }

  // ---------------------------------------------------------------------------
  // The distribution checks

  /** The tolerance of both checks. */
  const Tolerance: real := 0.00001

  /** A sum the checks accept: within the tolerance of one. */
  predicate Normalized(sum: real) {
    Abs(sum - 1.0) <= Tolerance
  }

  /** With templates, or with per-document thetas, the topic prior is per document. */
  predicate PriorPerDoc(p: Params, thetasInDoc: bool) {
    p.numTemplates > 0 || thetasInDoc
  }

  /** The topic prior of a document with these counts is defined: no zero denominator and enough topics. */
  predicate DocPriorDefined(p: Params, row: seq<int>) {
    0 <= p.numTopics <= |row| &&
    (p.numTemplates > 0 ==> p.numTopicsPerTemplate > 0 && p.numTopics <= p.numTopicsPerTemplate * p.numTemplates <= |row|) &&
    IntSum(row, p.numTopics) as real + p.topicSmoothingTimesNumTopics != 0.0
  }

  /** Every topic prior the topic check sums is defined. */
  predicate TopicPriorsDefined(p: Params, thetasInDoc: bool, tc: seq<int>, tcd: seq<seq<int>>, numEntities: int) {
    if PriorPerDoc(p, thetasInDoc) then forall d :: 0 <= d < |tcd| ==> DocPriorDefined(p, tcd[d])
    else 0 <= p.numTopics <= |tc| && numEntities as real + p.topicSmoothingTimesNumTopics != 0.0
  }

  /** The topic check's verdict: every document's prior, or the global prior, sums to one within the tolerance. */
  predicate TopicPriorsNormalized(p: Params, thetasInDoc: bool, tc: seq<int>, tcd: seq<seq<int>>, numEntities: int)
    requires TopicPriorsDefined(p, thetasInDoc, tc, tcd, numEntities)
  {
    if PriorPerDoc(p, thetasInDoc) then forall d :: 0 <= d < |tcd| ==> Normalized(DocPriorSum(p, tcd[d], p.numTopics))
    else Normalized(GlobalPriorSum(p, tc, numEntities, p.numTopics))
  }

  /** Every verb distribution the verb check sums is defined. */
  predicate VerbPriorsDefined(p: Params, verbCounts: seq<Counter>, sv: real) {
    forall topic :: 0 <= topic < p.numTopics ==> VerbDenominatorNonZero(p, verbCounts, sv, topic)
  }

  /** The verb check's verdict: the distribution of every topic over the `numVerbs` verbs sums to one within the tolerance. */
  predicate VerbPriorsNormalized(p: Params, verbCounts: seq<Counter>, sv: real, numVerbs: int)
    requires VerbPriorsDefined(p, verbCounts, sv)
  {
    forall topic :: 0 <= topic < p.numTopics ==> Normalized(VerbSum(p, verbCounts, sv, topic, numVerbs))
  }

  /**
   * `checkTopicDistributions`: per document (stopping at the first failure)
   * or globally, the sum of the topic priors compared with one.
   */
  method CheckTopicDistributions(p: Params, thetasInDoc: bool, tc: seq<int>, tcd: seq<seq<int>>, numEntities: int)
    returns (ok: bool)
    requires TopicPriorsDefined(p, thetasInDoc, tc, tcd, numEntities)
    ensures ok <==> TopicPriorsNormalized(p, thetasInDoc, tc, tcd, numEntities)
  {
    if PriorPerDoc(p, thetasInDoc) {
      for doci := 0 to |tcd|
        invariant forall d :: 0 <= d < doci ==> Normalized(DocPriorSum(p, tcd[d], p.numTopics))
      {
        var sum := 0.0;
        for xx := 0 to p.numTopics
          invariant sum == DocPriorSum(p, tcd[doci], xx)
        {
          SiblingsInside(p, xx, |tcd[doci]|);
          sum := sum + ProbOfTopicGivenDoc(p, tcd[doci], xx);
        }
        if !Normalized(sum) {
          return false;
        }
      }
      ok := true;
    } else {
      var sum := 0.0;
      for xx := 0 to p.numTopics
        invariant sum == GlobalPriorSum(p, tc, numEntities, xx)
      {
        sum := sum + ProbOfTopic(p, tc, numEntities, xx);
      }
      ok := Normalized(sum);
    }
  }

  /** `checkVerbDistributions`: every topic's verb distribution summed and compared with one, without stopping early. */
  method CheckVerbDistributions(p: Params, verbCounts: seq<Counter>, sv: real, numVerbs: nat) returns (allgood: bool)
    requires VerbPriorsDefined(p, verbCounts, sv)
    ensures allgood <==> VerbPriorsNormalized(p, verbCounts, sv, numVerbs)
  {
    allgood := true;
    var topic := 0;
    while topic < p.numTopics
      invariant 0 <= topic && (topic == 0 || topic <= p.numTopics)
      invariant allgood <==> forall t :: 0 <= t < topic ==> Normalized(VerbSum(p, verbCounts, sv, t, numVerbs))
    {
      var sum := 0.0;
      for v := 0 to numVerbs
        invariant sum == VerbSum(p, verbCounts, sv, topic, v)
      {
        sum := sum + ProbOfVerbGivenTopic(p, verbCounts, sv, v, topic);
      }
      if !Normalized(sum) {
        allgood := false;
      }
      topic := topic + 1;
    }
    assert allgood <==> forall t :: 0 <= t < p.numTopics ==> Normalized(VerbSum(p, verbCounts, sv, t, numVerbs));
  }

  /**
   * A layout under which the topic priors are distributions: the junk topics
   * are a part of the topics, the smoothing total is the per-topic smoothing
   * summed, and with templates the topics and the junk topics are whole
   * templates.
   */
  predicate SoundLayout(p: Params) {
    JunkLayout(p) &&
    p.topicSmoothingTimesNumTopics ==
      (p.numTopics - p.numJunkTopics) as real * TopicSmoothing + p.numJunkTopics as real * JunkTopicSmoothing &&
    (p.numTemplates > 0 ==>
       p.numTopicsPerTemplate > 0 && p.numTopics == p.numTopicsPerTemplate * p.numTemplates &&
       0 <= p.numJunkTemplates <= p.numTemplates && p.numJunkTopics == p.numTopicsPerTemplate * p.numJunkTemplates)
  }

  /**
   * The constructor gives a sound layout when there are topics, the junk
   * templates are among the templates, and junk topics given directly are
   * among the topics (and absent when there are templates).
   */
  lemma MakeParamsSound(numTopics: int, numJunkTopics: int, numTemplates: int, numJunkTemplates: int)
    requires !ConstructorExits(numTopics, numTemplates) && numTopics > 0
    requires 0 <= numJunkTemplates <= numTemplates
    requires numJunkTemplates == 0 ==> 0 <= numJunkTopics <= numTopics && (numTemplates > 0 ==> numJunkTopics == 0)
    ensures SoundLayout(MakeParams(numTopics, numJunkTopics, numTemplates, numJunkTemplates))
  {
    MakeParamsLayout(numTopics, numJunkTopics, numTemplates, numJunkTemplates);
    var p := MakeParams(numTopics, numJunkTopics, numTemplates, numJunkTemplates);
    if numJunkTemplates > 0 {
      MulMonotone(numJunkTemplates, numTemplates, p.numTopicsPerTemplate);
      MulMonotone(0, numJunkTemplates, p.numTopicsPerTemplate);
    }
  }

  /**
   * Under a sound layout every defined topic prior sums to one, the global one
   * when the entity total is the sum of the topic counts: the topic check
   * passes.
   */
  lemma TopicChecksPass(p: Params, thetasInDoc: bool, tc: seq<int>, tcd: seq<seq<int>>, numEntities: int)
    requires SoundLayout(p) && |tc| == p.numTopics && forall d :: 0 <= d < |tcd| ==> |tcd[d]| == p.numTopics
    requires TopicPriorsDefined(p, thetasInDoc, tc, tcd, numEntities)
    requires !PriorPerDoc(p, thetasInDoc) ==> numEntities == IntSum(tc, p.numTopics)
    ensures TopicPriorsNormalized(p, thetasInDoc, tc, tcd, numEntities)
  {
    if PriorPerDoc(p, thetasInDoc) {
      forall d | 0 <= d < |tcd|
        ensures DocPriorSum(p, tcd[d], p.numTopics) == 1.0
      {
        if p.numTemplates > 0 {
          TemplatedDocPriorSumsToOne(p, tcd[d]);
        } else {
          FlatDocPriorSumsToOne(p, tcd[d]);
        }
      }
    } else {
      GlobalPriorSumsToOne(p, tc, numEntities);
    }
  }

  /** With counters that keep their totals and hold only indexed verbs, every defined verb distribution sums to one. */
  lemma VerbChecksPass(p: Params, verbCounts: seq<Counter>, numVerbs: nat)
    requires TableFits(verbCounts, numVerbs)
    requires VerbPriorsDefined(p, verbCounts, VerbSmoothing * numVerbs as real)
    ensures VerbPriorsNormalized(p, verbCounts, VerbSmoothing * numVerbs as real, numVerbs)
  {
    var sv := VerbSmoothing * numVerbs as real;
    forall topic | 0 <= topic < p.numTopics
      ensures Normalized(VerbSum(p, verbCounts, sv, topic, numVerbs))
    {
      VerbTopicNormalized(p, verbCounts, numVerbs, topic);
    }
  }

  /** The verb distribution of one topic with a defined denominator sums to one. */
  lemma VerbTopicNormalized(p: Params, verbCounts: seq<Counter>, numVerbs: nat, topic: int)
    requires TableFits(verbCounts, numVerbs)
    requires VerbDenominatorNonZero(p, verbCounts, VerbSmoothing * numVerbs as real, topic)
    ensures Normalized(VerbSum(p, verbCounts, VerbSmoothing * numVerbs as real, topic, numVerbs))
  {
    if p.numTemplates > 0 {
      var r := SiblingTopics(p, topic);
      assert VerbCountersWellFormed(verbCounts, r.0, r.1, numVerbs) by {
        forall t | r.0 <= t < r.1 ensures Consistent(verbCounts[t]) && KeysBelow(verbCounts[t], numVerbs) {
          assert 0 <= t < |verbCounts|;
        }
      }
    }
    VerbDistributionSumsToOne(p, verbCounts, numVerbs, topic);
  }

  /** Both distribution checks pass on the tables `v`. */
  ghost predicate ChecksHold(p: Params, thetasInDoc: bool, v: TableValues, numEntities: int, sv: real, numVerbs: int) {
    TopicPriorsDefined(p, thetasInDoc, v.topicCounts, v.topicCountsByDoc, numEntities) &&
    VerbPriorsDefined(p, v.verbCounts, sv) &&
    TopicPriorsNormalized(p, thetasInDoc, v.topicCounts, v.topicCountsByDoc, numEntities) &&
    VerbPriorsNormalized(p, v.verbCounts, sv, numVerbs)
  }

  /** Right after initialization, under a sound layout with defined verb priors, both checks pass. */
  lemma InitialChecksHold(p: Params, thetasInDoc: bool, data: seq<seq<EntityData>>, topics: seq<seq<int>>,
                          ix: Indices, cfg: Config, v: TableValues, numEntities: int, sv: real)
    requires SoundLayout(p) && p.numTopics > 0
    requires SameShape(data, topics) && TopicsBelow(topics, p.numTopics) && DataFits(data, ix, cfg)
    requires v == InitialValues(data, topics, p.numTopics) && numEntities == EntityTotal(topics)
    requires sv == VerbSmoothing * |ix.verbs| as real && VerbPriorsDefined(p, v.verbCounts, sv)
    ensures ChecksHold(p, thetasInDoc, v, numEntities, sv, |ix.verbs|)
  {
    InitialDistributionsNormalized(p, thetasInDoc, data, topics, ix, cfg);
  }

  /**
   * Right after `initializeModelFromData`, under a sound layout with topics,
   * every topic prior is defined and sums to one, and so does every defined
   * verb distribution: the sanity check never makes initialization exit.
   */
  lemma InitialDistributionsNormalized(p: Params, thetasInDoc: bool, data: seq<seq<EntityData>>, topics: seq<seq<int>>,
                                       ix: Indices, cfg: Config)
    requires SoundLayout(p) && p.numTopics > 0
    requires SameShape(data, topics) && TopicsBelow(topics, p.numTopics) && DataFits(data, ix, cfg)
    requires VerbPriorsDefined(p, InitialValues(data, topics, p.numTopics).verbCounts, VerbSmoothing * |ix.verbs| as real)
    ensures var v := InitialValues(data, topics, p.numTopics);
            TopicPriorsDefined(p, thetasInDoc, v.topicCounts, v.topicCountsByDoc, EntityTotal(topics)) &&
            TopicPriorsNormalized(p, thetasInDoc, v.topicCounts, v.topicCountsByDoc, EntityTotal(topics)) &&
            VerbPriorsNormalized(p, v.verbCounts, VerbSmoothing * |ix.verbs| as real, |ix.verbs|)
  {
    var v := InitialValues(data, topics, p.numTopics);
    InitialTopicCounts(data, topics, p.numTopics);
    InitialCountersFit(data, topics, p.numTopics, ix, cfg);
    assert p.topicSmoothingTimesNumTopics > 0.0;
    EntityTotalNonNegative(topics);
    TopicChecksPass(p, thetasInDoc, v.topicCounts, v.topicCountsByDoc, EntityTotal(topics));
    VerbChecksPass(p, v.verbCounts, |ix.verbs|);
  }
}
