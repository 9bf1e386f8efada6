# Event-template learner: a verified model

This project models the core of `probschemas`, a Java system that learns event templates
(kidnapping, bombing, attack, ...) and their slots (perpetrator, victim, target,
instrument) from news text with no supervision, and scores the learned slots against the
MUC-4 answer keys. It is written in Dafny 4.11.

- **The entity sampler** (`GibbsSamplerEntities`).
  - A collapsed Gibbs sampler over coreference entities. Each entity carries one topic, its "slot".
  - It keeps global and per-document topic counts, plus four tables of counters per topic: words, verbs, dependencies and entity types.
  - The model is a class `Sampler` over arrays: `unlabel`, `relabel`, the sampling loop, the stopping rule on the data likelihood, the snapshot of the best state and its reload, and the two distribution checks.
  - The prior and verb probabilities are pure functions. The proofs show that these are distributions: they sum to one.
- **`EntityModelInstance`**: the snapshot. It is a class whose `storeAll` replaces its containers by new copies.
- **`Inference`**: labelling a document's entities with their best roles. Each role labels at most its `maxEntitiesPerRole` most probable candidates above a threshold.
- **`EvaluateModel`**:
  - Per-slot precision, recall and F1 of a labelling against gold answers.
  - The greedy role-to-slot alignments.
  - The permutation helpers.
- **`TemplateTester`**: matching guessed strings against gold answer strings (containment at a word start, rightmost word, edit distance), counting correct, wrong and missed answers with optional answers, counting repeated wrong guesses, and keeping per-type totals. It also merges and pads lists.
- **`DataSimplifier`**:
  - Normalising dependency relations (passive and controlled subjects).
  - Removing mentions and entities: reporting and common verbs, rare dependencies, too few mentions, stray numbers.
  - Pruning duplicate mentions that share an end token.
  - Choosing an entity's core mention, and naming cache files.
- **`Learner`**:
  - Sorting topics by probability above a cutoff.
  - Labelling test entities with their top topic from a trained sampler, which is restored afterwards.
  - Removing labels whose template appears only once in a document.
  - Merging document lists without repeats, and drawing random training documents.
- **The two baselines**:
  - `BaselineMentionCount` gives roles by decreasing mention count, starting from the maximum count less one, so the entities with the most mentions are never labelled.
  - `BaselineBestVerb` gives roles to entities whose mentions match the top dependency patterns.
- **`AllParser`**: the segmentation of per-token named-entity tags into spans.

The model stands apart from its environment in these ways:

- **Random draws** are inputs. A draw is a function from iteration, document and entity to a topic, or an index given by the caller.
- **Log-likelihoods and F1 scores** computed elsewhere are inputs.
- **Probabilities** are modelled in linear space.
- **Reading and writing files**, the parsers, WordNet and the console output are outside the model.
- **`ClassicCounter` and `HashIndex`**: the model gives them value types of its own, a map from keys to counts with a cached total and a duplicate-free sequence, with the operations the core uses.

## Model

| member | source | states |
|---|---|---|
| EntitySampler.StopsIff | src/main/java/nate/probschemas/GibbsSamplerEntities.java:636-646 | The stopping rule stops exactly when the likelihood is stable (after step 1000, last change and current change under 20) or the best likelihood was found long ago (after step 400, more than 1000 steps or more than 40% of the run); a stop changes no history and stores nothing |
| EntitySampler.StoresIff | src/main/java/nate/probschemas/GibbsSamplerEntities.java:636-656 | A snapshot is stored exactly when the rule does not stop and the likelihood beats the best one; the best likelihood and its step then become the current ones, and otherwise stay |
| EntitySampler.BestNeverDecreases | src/main/java/nate/probschemas/GibbsSamplerEntities.java:649-660 | One evaluation never lowers the best likelihood; when the rule goes on, the best is at least the current likelihood, which becomes the last one, with the absolute change as the last delta |
| EntitySampler.RunKeepsBest | src/main/java/nate/probschemas/GibbsSamplerEntities.java:626-661 | Over a sequence of evaluations, the best likelihood never falls below its start, and over one that did not stop it is at least every likelihood seen |
| EntitySampler.StoppingRunSnoc | src/main/java/nate/probschemas/GibbsSamplerEntities.java:626-661 | Running the stopping criterion over one more evaluation continues from where the shorter run ended, and adds nothing once that run has stopped |
| EntitySampler.CheckpointRunStep | src/main/java/nate/probschemas/GibbsSamplerEntities.java:504-516 | The stopping criterion over the first n + 1 checkpoints is the run over n followed by the criterion at iteration 15n + 14, unless it had already stopped |
| EntitySampler.CheckpointRunKeepsBest | src/main/java/nate/probschemas/GibbsSamplerEntities.java:504-516 | Over the checkpoints 14, 29, ..., the best likelihood never falls below its start, and when no checkpoint stopped the run it is at least the likelihood of every checkpoint |
| EntitySampler.CheckpointRunAdvances | src/main/java/nate/probschemas/GibbsSamplerEntities.java:504-522 | One iteration advances the checkpoint run: off a checkpoint nothing changes; at a checkpoint the stop decision and the new history are the criterion's; the checkpoints reached count the sweeps performed |
| EntitySampler.Sampler.constructor | src/main/java/nate/probschemas/GibbsSamplerEntities.java:105-125 | The sampler holds the topic layout the constructor computes, the feature smoothing total and an empty best snapshot, with no corpus yet |
| EntitySampler.Sampler.InitializeModelFromData | src/main/java/nate/probschemas/GibbsSamplerEntities.java:144-286 | New indices and tables holding exactly the counts of the encoded corpus under the given initial topics; entity and mention totals grow by the corpus's; the three smoothing totals are the smoothing times the index sizes; the tables are well formed and agree with the topics; `exited` (the `System.exit` after the two distribution checks) holds exactly when a check fails, and never for a fresh sampler with a sound layout and defined verb priors |
| EntitySampler.Sampler.Unlabel | src/main/java/nate/probschemas/GibbsSamplerEntities.java:417-455 | The tables become those of the unlabel specification: the entity's contributions taken off its topic, in place, and the tables stay well formed |
| EntitySampler.Sampler.Relabel | src/main/java/nate/probschemas/GibbsSamplerEntities.java:457-487 | The tables become those of the relabel specification: the entity assigned the new topic, with its contributions added to it |
| EntitySampler.Sampler.Resample | src/main/java/nate/probschemas/GibbsSamplerEntities.java:529-580 | One sampling step is unlabel followed by relabel with the drawn topic; counts that agreed with the topic assignments still agree afterwards |
| EntitySampler.Sampler.StoppingCriterionLikelihoodMet | src/main/java/nate/probschemas/GibbsSamplerEntities.java:626-661 | The answer and the new history are the stopping rule's; corpus and tables are untouched; when the rule stores, the snapshot holds new separate copies of the current tables with the likelihood and step, and otherwise the snapshot is unchanged |
| EntitySampler.Sampler.LoadBestModelInstance | src/main/java/nate/probschemas/GibbsSamplerEntities.java:667-685 | The sampler's tables become the snapshot's, in the sampler's own row arrays and new counter arrays, except the global topic counts, which are left as they were |
| EntitySampler.Sampler.Sweep | src/main/java/nate/probschemas/GibbsSamplerEntities.java:524-608 | The tables become those of the sweep specification: every entity of every document, in order, unlabelled and relabelled with the topic drawn for it at this iteration, so the assignments become exactly the draws; counts that agreed with the assignments still agree, and dependency, verb and feature tables that were the corpus tallies still are |
| EntitySampler.Sampler.ChecksPass | src/main/java/nate/probschemas/GibbsSamplerEntities.java:517-522 | When the two checks pass, every topic prior and every verb distribution is defined and sums to one within the tolerance |
| EntitySampler.Sampler.Checkpoint | src/main/java/nate/probschemas/GibbsSamplerEntities.java:515-522 | The fifteenth-iteration step never stops at iteration 14 and then stores a snapshot when the likelihood beats the best; the best likelihood never decreases; either the snapshot is untouched or it holds the best likelihood and step |
| EntitySampler.Sampler.SweepBesideSnapshot | src/main/java/nate/probschemas/GibbsSamplerEntities.java:524-608 | The tables become the sweep specification's with this iteration's draws, agreement is kept, and a separate snapshot stays as it was and fitting |
| EntitySampler.Sampler.Iteration | src/main/java/nate/probschemas/GibbsSamplerEntities.java:504-608 | An iteration that goes on leaves the tables those of one sweep with its draws, one that stops or exits leaves them as they were; one that is not a fifteenth one neither stops nor changes the snapshot or the history; otherwise the checkpoint's guarantees hold; the snapshot stays separate and fitting |
| EntitySampler.Sampler.Sample | src/main/java/nate/probschemas/GibbsSamplerEntities.java:504-609 | The tables become those of the run of `sweeps` consecutive sweeps with the draws of iterations 0, 1, ...; the run stops or exits only at a checkpoint iteration 14, 29, ... below the iteration count, never both, and otherwise performs every iteration; the stop decision and the final history are those of the stopping criterion run over the likelihoods of the checkpoints reached; the best likelihood is at least every checkpoint likelihood seen before an exit; fewer than 15 iterations change no snapshot and no history; a likelihood at iteration 14 above the starting best leaves a snapshot; a new snapshot holds the best likelihood and its step; agreement and the dependency, verb and feature tallies are kept |
| EntitySampler.Sampler.RunSampler | src/main/java/nate/probschemas/GibbsSamplerEntities.java:497-617 | The run finishes with the best snapshot's tables loaded and the global topic counts as the last sweep left them, exits on a failed check, or ends without a snapshot exactly when none was ever stored; otherwise the tables are those of the run of sweeps; the run stops or exits only at a checkpoint iteration 14, 29, ... below the iteration count, never both, and otherwise performs every iteration; the stop decision and the final history are those of the stopping criterion run over the likelihoods of the checkpoints reached; a run of 15 or more iterations whose fifteenth likelihood beats the starting best always has a snapshot |
| EntitySampler.Sampler.ResampleNext | src/main/java/nate/probschemas/GibbsSamplerEntities.java:526-580 | Resampling the next entity of a document advances the tables from the first `e` entities resampled to the first `e + 1`, keeping agreement |
| EntitySampler.Sampler.SweepDocument | src/main/java/nate/probschemas/GibbsSamplerEntities.java:526-607 | The tables become those of every entity of the document resampled in order with its drawn topic; agreement is kept |
| EntitySampler.Sampler.SweepNextDocument | src/main/java/nate/probschemas/GibbsSamplerEntities.java:524-608 | Sweeping the next document advances the tables from the first `d` documents swept to the first `d + 1`, keeping agreement |
| EntitySampler.Sampler.SweepCorpus | src/main/java/nate/probschemas/GibbsSamplerEntities.java:524-608 | The tables become the sweep specification's for the given topics; agreement is kept |
| EntitySampler.Sampler.CheckpointIfDue | src/main/java/nate/probschemas/GibbsSamplerEntities.java:515-522 | Tables untouched; off the fifteenth iterations nothing stops and nothing changes; at iteration 14 a likelihood above the best leaves a snapshot; the best never drops and a changed snapshot is the best one |
| EntitySampler.Sampler.NextIteration | src/main/java/nate/probschemas/GibbsSamplerEntities.java:504-608 | After `sweeps` sweeps of the run, an iteration that goes on leaves the tables those of one more sweep; one that stops or exits does so only at a checkpoint, not both, and leaves them; the checkpoint run advances with the stopping criterion at this iteration's likelihood; the snapshot bookkeeping of the loop is kept |
| EntitySampler.Sampler.SampleLoop | src/main/java/nate/probschemas/GibbsSamplerEntities.java:504-609 | The loop ends with the tables those of the run of `sweeps` sweeps; the run stops or exits only at a checkpoint iteration 14, 29, ... below the iteration count, never both, and otherwise performs every iteration; the stop decision and the final history are those of the stopping criterion run over the likelihoods of the checkpoints reached; below 15 iterations the snapshot and history are untouched; a fifteenth likelihood above the starting best leaves a snapshot; the bookkeeping is kept |
| EntitySampler.Sampler.CountTopicOccurrences | src/main/java/nate/probschemas/GibbsSamplerEntities.java:993-999 | A new array holding, per topic, the number of entities assigned it; when the counts agree, exactly the global topic counts |
| EntitySampler.Sampler.DocnameToIndex | src/main/java/nate/probschemas/GibbsSamplerEntities.java:1011-1019 | The position of the first document name equal to the argument ignoring case, or -1 when none is |
| EntitySampler.Sampler.CheckDistributions | src/main/java/nate/probschemas/GibbsSamplerEntities.java:285-286 | The check passes exactly when every topic prior and every topic's verb distribution sums to one within the tolerance |
| EntitySampler.InitialState | src/main/java/nate/probschemas/GibbsSamplerEntities.java:144-283 | The initial tables fit the corpus and its indices and agree with the initial topics, globally and per document |
| EntitySampler.BuildTables | src/main/java/nate/probschemas/GibbsSamplerEntities.java:158-276 | New separate containers holding the initial tables of the encoded corpus, well formed and in agreement; entity and mention totals grow by the corpus's |
| EntitySampler.ResampleKeepsAgreement | src/main/java/nate/probschemas/GibbsSamplerEntities.java:529-580 | Counts that agree with the topic assignments still agree after an unlabel and a relabel with any topic |
| EntitySampler.CopiesOfFitting | src/main/java/nate/probschemas/EntityModelInstance.java:36-72 | Copies of well-formed tables equal the tables |
| EntitySampler.ClonesOfFitting | src/main/java/nate/probschemas/GibbsSamplerEntities.java:667-685 | Tables holding a fitting snapshot's rows and clones of its counters are the snapshot except for their own global topic counts, and are themselves well formed |
| EntitySampler.CopyRows | src/main/java/nate/probschemas/GibbsSamplerEntities.java:672-676 | The first rows of the destination become the source's rows; the rest stay |
| EntitySampler.FirstMatch | src/main/java/nate/probschemas/GibbsSamplerEntities.java:1011-1019 | The result is -1 or a position whose name matches ignoring case, and no earlier name (no name at all, for -1) matches |
| EntitySampler.CountTopics | src/main/java/nate/probschemas/GibbsSamplerEntities.java:993-999 | A new array with, per topic, the number of assignments to it over all rows |
| EntitySampler.CountRowInto | src/main/java/nate/probschemas/GibbsSamplerEntities.java:997-998 | Each topic's count grows by its number of occurrences in the row |
| EntitySampler.CheckTopicDistributions | src/main/java/nate/probschemas/GibbsSamplerEntities.java:1151-1178 | The check passes exactly when every document's topic prior (with templates or per-document thetas) or the global prior sums to one within the tolerance |
| EntitySampler.CheckVerbDistributions | src/main/java/nate/probschemas/GibbsSamplerEntities.java:1180-1195 | The check passes exactly when every topic's verb distribution over the verb index sums to one within the tolerance |
| EntitySampler.MakeParamsSound | src/main/java/nate/probschemas/GibbsSamplerEntities.java:105-122 | With topics, junk templates among the templates, and direct junk topics among the topics (none when there are templates), the layout is sound: junk topics are the tail, the smoothing total is the per-topic smoothing summed, and templates split the topics evenly |
| EntitySampler.TopicChecksPass | src/main/java/nate/probschemas/GibbsSamplerEntities.java:1151-1178 | Under a sound layout, every defined topic prior sums to one (the global one when the entity total is the sum of the topic counts), so the topic check passes |
| EntitySampler.VerbChecksPass | src/main/java/nate/probschemas/GibbsSamplerEntities.java:1180-1195 | With counters that keep their totals and count only indexed verbs, every defined verb distribution sums to one, so the verb check passes |
| EntitySampler.VerbTopicNormalized | src/main/java/nate/probschemas/GibbsSamplerEntities.java:762-788 | The verb distribution of a topic with a non-zero denominator sums to one within the tolerance |
| EntitySampler.InitialDistributionsNormalized | src/main/java/nate/probschemas/GibbsSamplerEntities.java:285-286 | Right after initialization under a sound layout, every topic prior is defined and sums to one, and every defined verb distribution sums to one: the checks at the end of initialization pass |
| Sweeps.DrawsAt | src/main/java/nate/probschemas/GibbsSamplerEntities.java:524-526 | One row per document and one topic per entity, each the one drawn for that entity at that iteration |
| Sweeps.DrawsAtBelow | src/main/java/nate/probschemas/GibbsSamplerEntities.java:571-572 | Draws below the topic count give assignments below it |
| Sweeps.ResampleKeepsShape | src/main/java/nate/probschemas/GibbsSamplerEntities.java:529-580 | Resampling an entity with a topic in range keeps the tables well formed and the topic count, and changes exactly that entity's assignment to the drawn topic |
| Sweeps.SweepDocKeepsShape | src/main/java/nate/probschemas/GibbsSamplerEntities.java:526-607 | Resampling the first entities of a document keeps the tables well formed and the topic count |
| Sweeps.SweepDocStep | src/main/java/nate/probschemas/GibbsSamplerEntities.java:526-607 | The first `m` entities resampled are the first `m - 1` resampled, then entity `m - 1` resampled with its draw, which is present and in range |
| Sweeps.SweepDocsKeepShape | src/main/java/nate/probschemas/GibbsSamplerEntities.java:524-608 | Sweeping the first documents keeps the tables well formed and the topic count |
| Sweeps.SweepDocsStep | src/main/java/nate/probschemas/GibbsSamplerEntities.java:524-608 | The first `k` documents swept are the first `k - 1` swept, then document `k - 1` swept with its row of draws, which fits |
| Sweeps.SweepKeepsShape | src/main/java/nate/probschemas/GibbsSamplerEntities.java:524-608 | A sweep keeps the tables well formed and the topic count |
| Sweeps.SweepRunKeepsShape | src/main/java/nate/probschemas/GibbsSamplerEntities.java:504-608 | Any number of consecutive sweeps keeps the tables well formed and the topic count |
| Sweeps.SweepRunStep | src/main/java/nate/probschemas/GibbsSamplerEntities.java:504-608 | `k` sweeps are `k - 1` sweeps followed by the sweep with iteration `k - 1`'s draws, which fit |
| Sweeps.SweepDocAssigns | src/main/java/nate/probschemas/GibbsSamplerEntities.java:526-607 | After the first `m` entities of a document are resampled, their assignments are the first `m` draws and every other assignment is unchanged |
| Sweeps.SweepDocsAssign | src/main/java/nate/probschemas/GibbsSamplerEntities.java:524-608 | After the first `k` documents are swept, their rows are the draws and the other rows unchanged |
| Sweeps.SweepAssigns | src/main/java/nate/probschemas/GibbsSamplerEntities.java:524-608 | After a sweep the assignments are exactly the draws |
| Sweeps.SweepRunAssigns | src/main/java/nate/probschemas/GibbsSamplerEntities.java:504-608 | After `k > 0` sweeps the assignments are the draws of iteration `k - 1` |
| Sweeps.ResampleKeepsCountsAgreeing | src/main/java/nate/probschemas/GibbsSamplerEntities.java:529-580 | Global and per-document topic counts that agreed with the assignments still agree after one entity is resampled |
| Sweeps.SweepDocKeepsAgreement | src/main/java/nate/probschemas/GibbsSamplerEntities.java:526-607 | Agreeing counts stay agreeing while a document's entities are resampled |
| Sweeps.SweepDocsKeepAgreement | src/main/java/nate/probschemas/GibbsSamplerEntities.java:524-608 | Agreeing counts stay agreeing while documents are swept |
| Sweeps.SweepKeepsAgreement | src/main/java/nate/probschemas/GibbsSamplerEntities.java:524-608 | Agreeing counts stay agreeing over a sweep |
| Sweeps.SweepRunKeepsAgreement | src/main/java/nate/probschemas/GibbsSamplerEntities.java:504-608 | Agreeing counts stay agreeing over any number of sweeps |
| Sweeps.TallyRowWeight | src/main/java/nate/probschemas/GibbsSamplerEntities.java:256-258 | Counting a row into a counter adds each key's weight of the row's entities with the topic, and the total grows by the row's key mass |
| Sweeps.TallyCorpusWeight | src/main/java/nate/probschemas/GibbsSamplerEntities.java:256-258 | A topic's table counted from the corpus holds each key's weight over the corpus, and its total is the corpus's key mass |
| Sweeps.RowWeightUpdate | src/main/java/nate/probschemas/GibbsSamplerEntities.java:433-487 | Reassigning one entity of a row moves its weight from the old topic to the new one and changes no other topic's weight |
| Sweeps.CorpusWeightUpdate | src/main/java/nate/probschemas/GibbsSamplerEntities.java:433-487 | Reassigning one entity of the corpus moves its weight from the old topic to the new one and changes no other topic's weight |
| Sweeps.InitialTablesAreTallies | src/main/java/nate/probschemas/GibbsSamplerEntities.java:256-258 | The dependency, verb and feature tables of initialization are the corpus tallies of the initial topics |
| Sweeps.MoveKeepsTally | src/main/java/nate/probschemas/GibbsSamplerEntities.java:429-487 | Taking an entity's keys off its old topic and adding them to the new topic keeps a table that was the corpus tally the tally under the new assignment |
| Sweeps.NoKeysKeepTally | src/main/java/nate/probschemas/GibbsSamplerEntities.java:429-487 | An entity with no keys in a table can change topic without that table ceasing to be the tally |
| Sweeps.ResampleKeepsTallies | src/main/java/nate/probschemas/GibbsSamplerEntities.java:529-580 | Resampling one entity keeps the dependency, verb and feature tables the corpus tallies |
| Sweeps.SweepDocKeepsTallies | src/main/java/nate/probschemas/GibbsSamplerEntities.java:526-607 | The tallies are kept while a document's entities are resampled |
| Sweeps.SweepDocsKeepTallies | src/main/java/nate/probschemas/GibbsSamplerEntities.java:524-608 | The tallies are kept while documents are swept |
| Sweeps.SweepKeepsTallies | src/main/java/nate/probschemas/GibbsSamplerEntities.java:524-608 | The tallies are kept over a sweep |
| Sweeps.SweepRunKeepsTallies | src/main/java/nate/probschemas/GibbsSamplerEntities.java:504-608 | The tallies are kept over any number of sweeps |
| Sweeps.WordsMoveOnce | src/main/java/nate/probschemas/GibbsSamplerEntities.java:429-469 | Resampling an entity to another topic moves its first word, once, from the old topic's word table to the new one's, in count and in total |
| Sweeps.WordTallyBreaks | src/main/java/nate/probschemas/GibbsSamplerEntities.java:256-469 | With an entity of two or more words, a word table that was the per-mention tally stops being one after that entity moves topic, since only its first word moves |
| GibbsSampler.RelabelUndoesUnlabel | src/main/java/nate/probschemas/GibbsSamplerEntities.java:417-487 | Relabelling an entity with the topic it had before unlabelling restores its topic, both kinds of topic counts, and every count and total of every counter |
| GibbsSampler.SamplingStepKeepsTopicCounts | src/main/java/nate/probschemas/GibbsSamplerEntities.java:426-427 | After an unlabel and a relabel with any topic in range, the global and per-document topic counts still equal the number of entities assigned each topic |
| GibbsSampler.SamplingStepKeepsGlobalCounts | src/main/java/nate/probschemas/GibbsSamplerEntities.java:426-466 | An unlabel and a relabel keep the global topic counts equal to the topic totals of the assignments |
| GibbsSampler.SamplingStepKeepsDocCounts | src/main/java/nate/probschemas/GibbsSamplerEntities.java:427-467 | An unlabel and a relabel keep every document's topic counts equal to the occurrences of each topic among its entities |
| GibbsSampler.MoveKeepsTotals | src/main/java/nate/probschemas/GibbsSamplerEntities.java:425-466 | Moving one entity from its topic to another, with one count off the old and one onto the new, keeps the global counts equal to the topic totals |
| GibbsSampler.MoveKeepsRowCounts | src/main/java/nate/probschemas/GibbsSamplerEntities.java:427-467 | Moving one entity of a row keeps the row's per-topic counts equal to the occurrences in the row |
| GibbsSampler.MoveKeepsDocCounts | src/main/java/nate/probschemas/GibbsSamplerEntities.java:427-467 | Moving one entity of a document keeps every document's per-topic counts equal to its occurrences |
| GibbsSampler.TopicTotalUpdate | src/main/java/nate/probschemas/GibbsSamplerEntities.java:465 | Replacing one document's topic row changes a topic's total by the difference of that row's counts |
| GibbsSampler.EntityTotalUpdate | src/main/java/nate/probschemas/GibbsSamplerEntities.java:465 | Reassigning topics leaves the number of entities unchanged |
| GibbsSampler.UnlabelLeavesEntityOut | src/main/java/nate/probschemas/GibbsSamplerEntities.java:425-427 | After an unlabel, the entity's old topic has one entity fewer than it is assigned, globally and in the document; every other topic agrees |
| GibbsSampler.UnlabelRemovesOneEntity | src/main/java/nate/probschemas/GibbsSamplerEntities.java:417-455 | Unlabel changes only the old topic: one entity off globally and in the document, the first mention's word once, each dependency once per mention, each verb once per mention when verbs are on, each flagged type once when features are on |
| GibbsSampler.UnlabelKeepsFit | src/main/java/nate/probschemas/GibbsSamplerEntities.java:417-455 | Unlabelling keeps the tables shaped like the corpus and the counters within the indices |
| GibbsSampler.RelabelKeepsFit | src/main/java/nate/probschemas/GibbsSamplerEntities.java:457-487 | Relabelling with a topic in range keeps the tables shaped like the corpus and the counters within the indices |
| GibbsSampler.CountRow | src/main/java/nate/probschemas/GibbsSamplerEntities.java:195-213 | The per-topic counts of one document's topic row: each topic's entry is its number of occurrences |
| GibbsSampler.InitialTopicCounts | src/main/java/nate/probschemas/GibbsSamplerEntities.java:210-213 | After initialization each document's counts sum to its number of entities, the global counts sum to the corpus's, and both agree with the topics |
| GibbsSampler.InitialMentionCounts | src/main/java/nate/probschemas/GibbsSamplerEntities.java:227-259 | After initialization each topic's dependency table and word table total one count per mention of the entities assigned that topic |
| GibbsSampler.InitialCountersFit | src/main/java/nate/probschemas/GibbsSamplerEntities.java:216-259 | The initial counters keep their totals and count only positions the indices give out |
| GibbsSampler.CorpusFitsData | src/main/java/nate/probschemas/GibbsSamplerEntities.java:183-276 | An encoded corpus fits its indices entity by entity |
| GibbsSampler.CountMentions | src/main/java/nate/probschemas/GibbsSamplerEntities.java:227-259 | The mention loop indexes each mention's token, governor, dependency and inverse in order, records the positions, adds each word, verb (when on) and dependency to the topic's counters, and counts the mentions |
| GibbsSampler.CountFeatures | src/main/java/nate/probschemas/GibbsSamplerEntities.java:216-223 | One 0/1 flag per type, 1 exactly for the types the entity carries, and the topic's feature counter incremented at every flagged type |
| GibbsSampler.EntityFeatures | src/main/java/nate/probschemas/GibbsSamplerEntities.java:205-223 | With features on, the flags and counter of the type loop; with features off, no flags and the counter unchanged |
| GibbsSampler.CountEntity | src/main/java/nate/probschemas/GibbsSamplerEntities.java:198-264 | One entity is encoded against the growing indices and its words, verbs, dependencies and flagged types are added to its topic's counters; the mention total grows by its mentions |
| GibbsSampler.AllocateTables | src/main/java/nate/probschemas/GibbsSamplerEntities.java:158-180 | New separate containers: one row per document, one count and one empty counter of each kind per topic, every count zero |
| GibbsSampler.FillDoc | src/main/java/nate/probschemas/GibbsSamplerEntities.java:186-265 | The entity loop of one document encodes each entity, stores its topic, counts it per topic and into its topic's counters, and adds its mentions to the mention total |
| GibbsSampler.FillEntity | src/main/java/nate/probschemas/GibbsSamplerEntities.java:198-264 | One more entity encoded and counted keeps the entity-loop invariant one entity further on |
| GibbsSampler.FillTables | src/main/java/nate/probschemas/GibbsSamplerEntities.java:183-276 | The document loop over zeroed containers yields exactly the initial tables of the encoded corpus, and the totals grow by the corpus's entities and mentions |
| GibbsSampler.UncountMentions | src/main/java/nate/probschemas/GibbsSamplerEntities.java:433-447 | Each mention's dependency, and its verb when verbs are on, is decremented once, with counts that reach zero removed |
| GibbsSampler.RecountMentions | src/main/java/nate/probschemas/GibbsSamplerEntities.java:470-479 | Each mention's dependency, and its verb when verbs are on, is incremented once |
| GibbsSampler.UncountFeatures | src/main/java/nate/probschemas/GibbsSamplerEntities.java:449-454 | Every flagged type is decremented once, with no removal |
| GibbsSampler.RecountFeatures | src/main/java/nate/probschemas/GibbsSamplerEntities.java:481-486 | Every flagged type is incremented once |
| GibbsSampler.UncountEntity | src/main/java/nate/probschemas/GibbsSamplerEntities.java:429-454 | The topic's counters lose the entity's first word once (pruned at zero), its dependencies and verbs once per mention (pruned), and its flagged types when features are on (not pruned) |
| GibbsSampler.RecountEntity | src/main/java/nate/probschemas/GibbsSamplerEntities.java:469-486 | The topic's counters gain the entity's first word once, its dependencies and verbs once per mention, and its flagged types when features are on |
| GibbsSampler.UnlabelTables | src/main/java/nate/probschemas/GibbsSamplerEntities.java:417-455 | On arrays holding the tables, unlabel leaves exactly the tables of the unlabel specification |
| GibbsSampler.RelabelTables | src/main/java/nate/probschemas/GibbsSamplerEntities.java:457-487 | On arrays holding the tables, relabel leaves exactly the tables of the relabel specification |
| GibbsParams.JavaDiv | src/main/java/nate/probschemas/GibbsSamplerEntities.java:108 | Java integer division: for a non-negative dividend and a positive divisor, the floor quotient |
| GibbsParams.MakeParamsLayout | src/main/java/nate/probschemas/GibbsSamplerEntities.java:105-111 | When the constructor does not exit: no templates means no topics per template; with templates, the topics split evenly into them; junk templates give their topics as junk topics, and otherwise the junk topics are those given; the smoothing total is the per-topic smoothing summed |
| GibbsParams.ConstructorExitsIff | src/main/java/nate/probschemas/GibbsSamplerEntities.java:119-122 | The constructor exits exactly when the topics are not a multiple of the templates |
| GibbsParams.InverseDep | src/main/java/nate/probschemas/GibbsSamplerEntities.java:1143-1149 | A subject dependency inverts to the object dependency with the same governor, an object one to the subject one, and nothing else has an inverse |
| GibbsParams.InverseDepInvolution | src/main/java/nate/probschemas/GibbsSamplerEntities.java:1143-1149 | The subject and object forms of one governor invert to each other, so inverting twice returns the original |
| GibbsParams.SiblingTopics | src/main/java/nate/probschemas/GibbsSamplerEntities.java:796-802 | The siblings of a topic form a range of exactly the topics per template, containing the topic |
| GibbsParams.SiblingTopicsStart | src/main/java/nate/probschemas/GibbsSamplerEntities.java:796-802 | The siblings start at the topic's template number times the topics per template |
| GibbsParams.SiblingsOfOneTemplate | src/main/java/nate/probschemas/GibbsSamplerEntities.java:796-802 | Topics of the same template have the same siblings |
| GibbsParams.JunkTestsAgree | src/main/java/nate/probschemas/GibbsSamplerEntities.java:687-696 | When the junk topics are those of the junk templates, a topic is junk exactly when it lies in a junk template |
| GibbsParams.GlobalPriorSumsToOne | src/main/java/nate/probschemas/GibbsSamplerEntities.java:698-702 | When the entity total is the sum of the topic counts and the junk topics are the last ones, the global topic priors sum to one |
| GibbsParams.SiblingsInside | src/main/java/nate/probschemas/GibbsSamplerEntities.java:796-802 | The siblings of a topic in the template layout never reach past the topics |
| GibbsParams.FlatDocPriorSumsToOne | src/main/java/nate/probschemas/GibbsSamplerEntities.java:704-716 | Without templates, a document's topic priors sum to one |
| GibbsParams.TemplatedDocPriorSumsToOne | src/main/java/nate/probschemas/GibbsSamplerEntities.java:726-750 | With templates, a document's topic priors sum to one when the topics split evenly into the templates and the junk topics are exactly those of the junk templates |
| GibbsParams.NestedVerbSameForSiblings | src/main/java/nate/probschemas/GibbsSamplerEntities.java:765-788 | With templates, every topic of one template has the same verb distribution, defined for all of them when for one |
| GibbsParams.NestedVerbSumsToOne | src/main/java/nate/probschemas/GibbsSamplerEntities.java:777-788 | With templates, the pooled verb probabilities of a topic sum to one over the verb index when the sibling counters keep their totals and count only indexed verbs |
| GibbsParams.FlatVerbSumsToOne | src/main/java/nate/probschemas/GibbsSamplerEntities.java:765-770 | Without templates, a topic's verb probabilities sum to one over the verb index when its counter keeps its total and counts only indexed verbs |
| GibbsParams.VerbDistributionSumsToOne | src/main/java/nate/probschemas/GibbsSamplerEntities.java:762-788 | For every topic, flat or nested, the verb probabilities over the verb index sum to one |
| SamplerData.IndexAdd | src/main/java/nate/probschemas/GibbsSamplerEntities.java:229 | Adding a value keeps the index as a prefix, grows it by at most one, leaves the value in it, and keeps it free of duplicates |
| SamplerData.PositionOf | src/main/java/nate/probschemas/GibbsSamplerEntities.java:230 | The position is -1 exactly when the value is not indexed, and otherwise the first position holding it |
| SamplerData.PositionOfDistinct | src/main/java/nate/probschemas/GibbsSamplerEntities.java:229-230 | In an index without duplicates, the value at a position is found at that position |
| SamplerData.PositionStable | src/main/java/nate/probschemas/GibbsSamplerEntities.java:229-248 | Adding values never moves a value already indexed |
| SamplerData.FeatureFlags | src/main/java/nate/probschemas/GibbsSamplerEntities.java:217-219 | One flag per type, 1 exactly for the types the entity carries |
| SamplerData.OnFeatures | src/main/java/nate/probschemas/GibbsSamplerEntities.java:450-452 | The flagged positions are exactly the positions holding 1 |
| SamplerData.EncodeCorpusFits | src/main/java/nate/probschemas/GibbsSamplerEntities.java:183-276 | Encoding a corpus only appends to the indices, and every entity's encoding fits the final indices: one word, dependency and inverse per mention, verbs exactly when on, flags exactly when features are on |
| SamplerData.EncodeCorpusDistinct | src/main/java/nate/probschemas/GibbsSamplerEntities.java:170-248 | The indices built from a corpus never hold a value twice |
| SamplerData.AddMentionFits | src/main/java/nate/probschemas/GibbsSamplerEntities.java:227-254 | One mention only appends to the indices and records in-range positions |
| SamplerData.EncodeEntityFits | src/main/java/nate/probschemas/GibbsSamplerEntities.java:198-262 | Encoding an entity only appends to the indices and fits the entity |
| SamplerData.TallyIsMentions | src/main/java/nate/probschemas/GibbsSamplerEntities.java:256-258 | After the corpus is counted, each topic's word table and dependency table hold one count per mention of the entities assigned that topic, and keep their totals |
| SamplerData.TallyConsistent | src/main/java/nate/probschemas/GibbsSamplerEntities.java:256-258 | Every table the corpus induces keeps its total equal to the sum of its counts |
| SamplerData.TopicTotalsSum | src/main/java/nate/probschemas/GibbsSamplerEntities.java:212 | Global counts that equal the topic totals sum, over the topics, to the number of entities |
| SamplerData.CountsSumToLength | src/main/java/nate/probschemas/GibbsSamplerEntities.java:213 | A document's per-topic counts sum to its number of entities |
| SamplerData.TallyKeysBelow | src/main/java/nate/probschemas/GibbsSamplerEntities.java:256-258 | A table the corpus induces holds only keys the entities carry |
| Snapshots.CloneOfCounts | src/main/java/nate/probschemas/EntityModelInstance.java:63-72 | A cloned counter has the same keys and counts, and its total is the sum of its counts |
| Snapshots.CloneOfConsistent | src/main/java/nate/probschemas/EntityModelInstance.java:63-72 | Cloning a counter whose total is the sum of its counts gives the same counter |
| Snapshots.ClonesOfConsistent | src/main/java/nate/probschemas/EntityModelInstance.java:63-72 | Clones of consistent counters are those counters |
| Snapshots.CloneOne | src/main/java/nate/probschemas/EntityModelInstance.java:66-70 | The key-by-key loop builds a counter with the source's counts and their sum as its total |
| Snapshots.CloneCounter | src/main/java/nate/probschemas/EntityModelInstance.java:63-72 | A new array whose counters are, position by position, clones of the source's |
| Snapshots.CopyTables | src/main/java/nate/probschemas/EntityModelInstance.java:36-58 | New separate containers holding the topic rows and counts and clones of the counters of the given tables |
| Snapshots.ModelInstance.constructor | src/main/java/nate/probschemas/EntityModelInstance.java:32-34 | A new snapshot holds no tables, likelihood zero and step zero |
| Snapshots.ModelInstance.StoreAll | src/main/java/nate/probschemas/EntityModelInstance.java:36-58 | The snapshot holds newly allocated copies of all seven containers, so nothing of an earlier snapshot or of the sampler is shared; likelihood and step are left to the caller |
| Counters.IncrementCount | src/main/java/nate/probschemas/GibbsSamplerEntities.java:221 | The key's count grows by the amount and the total with it; every other key keeps its count |
| Counters.Remove | src/main/java/nate/probschemas/GibbsSamplerEntities.java:430-431 | The key is gone and its count is taken off the total; every other key keeps its count |
| Counters.DecrementCount | src/main/java/nate/probschemas/GibbsSamplerEntities.java:429-431 | The key's count and the total drop by one; with pruning the key is removed exactly when its count was one |
| Counters.DecrementAllCounts | src/main/java/nate/probschemas/GibbsSamplerEntities.java:433-447 | Decrementing a list of keys takes each key's multiplicity off its count and the list's length off the total |
| Counters.IncrementAllCounts | src/main/java/nate/probschemas/GibbsSamplerEntities.java:470-479 | Incrementing a list of keys adds each key's multiplicity to its count and the list's length to the total |
| Counters.DecrementThenIncrement | src/main/java/nate/probschemas/GibbsSamplerEntities.java:417-487 | Incrementing the keys a decrement removed restores every count and the total, and the very counter when every key was present |
| Counters.RangeSumIsMapSum | src/main/java/nate/probschemas/GibbsSamplerEntities.java:765-770 | For a counter whose keys are all indexed, summing counts over the index equals the sum of all counts |
| Inference.GetVerbsInEntity | src/main/java/nate/probschemas/Inference.java:60-68 | The set is exactly the governors (what follows "--") of the entity's mention dependencies |
| Inference.GetVerbsInDocFromDeps | src/main/java/nate/probschemas/Inference.java:75-80 | The set is exactly the governors of every mention of every entity of the document: the union over entities |
| Inference.PredicateOverlap | src/main/java/nate/probschemas/Inference.java:108-113 | True exactly when one of the first five predicates of the list is in the set |
| Inference.ClearEntityLabels | src/main/java/nate/probschemas/Inference.java:133-138 | Every entity of every document ends with an empty label set, and nothing else about it changes |
| Inference.BestTopic | src/main/java/nate/probschemas/Inference.java:216-235 | The chosen role is the first index holding the largest probability, since only a strictly larger value replaces the best |
| Inference.CollectCandidates | src/main/java/nate/probschemas/Inference.java:214-268 | For each role, the candidates recorded are exactly the entities, in order, whose best role it is with a probability strictly above the threshold |
| Inference.CollectStep | src/main/java/nate/probschemas/Inference.java:262-267 | Recording one more entity under its best role, when it clears the threshold, extends the collection one entity further |
| Inference.CandidatesStep | src/main/java/nate/probschemas/Inference.java:262-267 | A role's candidates among one more entity are the earlier ones, then the new entity when its best role is this one above the threshold |
| Inference.LabelTop | src/main/java/nate/probschemas/Inference.java:286-290 | The chosen entities of one role get that label; entities whose best role comes earlier keep their labels, and the rest stay unlabelled |
| Inference.TopOfRole | src/main/java/nate/probschemas/Inference.java:271-293 | A role that applies labels its first maxEntitiesPerRole candidates in sorted order; one that does not apply labels none; every chosen entity has this role as its best |
| Inference.LabelEntities | src/main/java/nate/probschemas/Inference.java:187-297 | Each entity of the document ends with exactly the label set the selection rule gives it (cleared first, then its best role if that role chose it), and is otherwise unchanged |
| Inference.ChosenIsCandidate | src/main/java/nate/probschemas/Inference.java:262-290 | An entity is chosen for a role only if that role is its best and its probability clears the threshold |
| Inference.LabelIsBestAboveThreshold | src/main/java/nate/probschemas/Inference.java:262-290 | Every entity ends with at most one label, its best role; an entity whose best probability does not exceed the threshold ends with none; a label's role applies to the document |
| Inference.LabelledIsChosen | src/main/java/nate/probschemas/Inference.java:262-290 | An entity carries a role's label exactly when that role is its best, applies to the document, and chose it |
| Inference.LabelsPerRoleCapped | src/main/java/nate/probschemas/Inference.java:286-290 | No role labels more than maxEntitiesPerRole entities (none when the cap is negative) |
| Inference.LabelledOutrankUnlabelled | src/main/java/nate/probschemas/Inference.java:286-290 | Within a role that applies, a candidate is left unlabelled only when the role is full, and every labelled entity is at least as probable as that candidate |
| Inference.SkippedRoleUnused | src/main/java/nate/probschemas/Inference.java:274-293 | A role that does not apply to the document labels nothing |
| EvaluateModel.HowManyOn | src/main/java/nate/probschemas/EvaluateModel.java:86-91 | The number of perm entries greater than -1 |
| EvaluateModel.NumOnBounds | src/main/java/nate/probschemas/EvaluateModel.java:86-91 | No more roles are mapped than there are roles, and none exactly when every entry is at most -1 |
| EvaluateModel.PermContainsAtIndex | src/main/java/nate/probschemas/EvaluateModel.java:518-522 | The first role mapped to the slot, or -1 exactly when no role is |
| EvaluateModel.PermContains | src/main/java/nate/probschemas/EvaluateModel.java:524-528 | True exactly when some role is mapped to the slot |
| EvaluateModel.NumTimesSlotIsMapped | src/main/java/nate/probschemas/EvaluateModel.java:535-541 | The number of roles mapped to the slot |
| EvaluateModel.ScoreOfPerm | src/main/java/nate/probschemas/EvaluateModel.java:504-516 | The sum of the pair scores of the mapped roles that have a score |
| EvaluateModel.PermScoreMonotone | src/main/java/nate/probschemas/EvaluateModel.java:504-516 | With non-negative pair scores, mapping one more role never lowers a perm's score |
| EvaluateModel.BlockSize | src/main/java/nate/probschemas/EvaluateModel.java:101-147 | When the roles divide evenly into templates, a block is a positive number of roles, and the blocks cover the roles exactly |
| EvaluateModel.RoleTemplate | src/main/java/nate/probschemas/EvaluateModel.java:101-109 | A role's template is one of the templates |
| EvaluateModel.RoleInBlock | src/main/java/nate/probschemas/EvaluateModel.java:101-109 | A role lies in its own template's block, at its offset there |
| EvaluateModel.RoleTemplateAlreadyInUse | src/main/java/nate/probschemas/EvaluateModel.java:101-109 | True exactly when some role of the role's template is mapped |
| EvaluateModel.RoleTemplateMapsToSlot | src/main/java/nate/probschemas/EvaluateModel.java:120-127 | True exactly when some role of the role's template is mapped to the slot |
| EvaluateModel.NumTemplatesInUse | src/main/java/nate/probschemas/EvaluateModel.java:135-147 | The number of templates with at least one mapped role, between 0 and the number of templates |
| EvaluateModel.BlocksInUseBound | src/main/java/nate/probschemas/EvaluateModel.java:135-147 | Among the first k templates at most k are in use |
| EvaluateModel.BlocksInUseUpdate | src/main/java/nate/probschemas/EvaluateModel.java:135-147 | Mapping a role adds one template in use exactly when its template had no mapped role |
| EvaluateModel.DistinctInBlocksUpdate | src/main/java/nate/probschemas/EvaluateModel.java:318-348 | Mapping a role to a slot no role of its template holds keeps every template's slots distinct |
| EvaluateModel.AllPairsComplete | src/main/java/nate/probschemas/EvaluateModel.java:224-236 | Every (slot, role) pair in range is scored |
| EvaluateModel.ScoreRow | src/main/java/nate/probschemas/EvaluateModel.java:226-236 | One slot's pairs, role by role, keeping exactly the admitted ones (a numeric F1, above the cutoff when it applies) |
| EvaluateModel.ScorePairs | src/main/java/nate/probschemas/EvaluateModel.java:224-236 | Every pair, slot by slot, keeping exactly the admitted ones |
| EvaluateModel.RankPairs | src/main/java/nate/probschemas/EvaluateModel.java:238-239 | Ranking draws only from the scored pairs |
| EvaluateModel.RankPairsSorted | src/main/java/nate/probschemas/EvaluateModel.java:238-239 | The ranked pairs are in non-increasing order of individual F1 |
| EvaluateModel.RankPairsMembers | src/main/java/nate/probschemas/EvaluateModel.java:238-239 | Ranking keeps exactly the scored pairs |
| EvaluateModel.RankedPairsExactly | src/main/java/nate/probschemas/EvaluateModel.java:224-239 | The ranked pairs are exactly the admitted (slot, role) pairs in range |
| EvaluateModel.RankedPairsValid | src/main/java/nate/probschemas/EvaluateModel.java:224-239 | Every ranked pair is an admitted pair of a slot and a role in range |
| EvaluateModel.RunningF1NeverDecreases | src/main/java/nate/probschemas/EvaluateModel.java:250-272 | Along the accepted steps the running F1 never decreases |
| EvaluateModel.AcceptedStepsExtend | src/main/java/nate/probschemas/EvaluateModel.java:250-272 | A step accepted under the rule extends a trace of accepted steps |
| EvaluateModel.TryMapping | src/main/java/nate/probschemas/EvaluateModel.java:250-272 | A mapping of an unmapped role is kept only when it strictly raises the running F1 (always, the first time); a remap only when it does not lower it; otherwise the perm is restored; the new perm and F1 are those of `TryMap` |
| EvaluateModel.GreedyStep | src/main/java/nate/probschemas/EvaluateModel.java:242-275 | One ranked pair tried under the acceptance rule gives the perm and F1 of `TryMap` and keeps the greedy invariant: only admitted pairs mapped, the trace accepted and ending at the running F1 |
| EvaluateModel.TryMapKeepsMapped | src/main/java/nate/probschemas/EvaluateModel.java:250-272 | Trying a pair never unmaps a mapped role and never loses the running F1; the first pair tried is always kept |
| EvaluateModel.Ranked | src/main/java/nate/probschemas/EvaluateModel.java:217-233 | Every ranked pair names a slot and a role in range |
| EvaluateModel.Unmapped | src/main/java/nate/probschemas/EvaluateModel.java:235-237 | Every role starts unmapped (-1) |
| EvaluateModel.UnmappedStart | src/main/java/nate/probschemas/EvaluateModel.java:235-240 | The unmapped perm with no running F1 and no steps meets the greedy invariant and the per-slot cap |
| EvaluateModel.SlotsRunKeepsTop | src/main/java/nate/probschemas/EvaluateModel.java:240-275 | In the fold over the ranked pairs with a positive cap, once the first pair is tried its role stays mapped and a running F1 exists |
| EvaluateModel.GreedySlotsMapsTop | src/main/java/nate/probschemas/EvaluateModel.java:217-279 | With a ranked pair and a positive cap, `greedyMultipleSlots` maps the top-ranked pair's role |
| EvaluateModel.SlotsLoop | src/main/java/nate/probschemas/EvaluateModel.java:240-276 | The greedy loop leaves the perm and F1 of the fold over all ranked pairs, keeping the greedy invariant and the per-slot cap |
| EvaluateModel.TrySlotsPair | src/main/java/nate/probschemas/EvaluateModel.java:241-275 | One iteration advances the array and F1 from the fold over `index` pairs to the fold over `index + 1`, keeping the invariant and the cap |
| EvaluateModel.GreedyMultipleSlots | src/main/java/nate/probschemas/EvaluateModel.java:217-279 | A new perm mapping only admitted pairs (individual F1 above 0.003) to slots in range, no slot mapped by more than maxRolesPerSlot roles, built by accepted steps whose last F1 is the perm's; the perm is the greedy fold `GreedySlots` over the ranked pairs; a run with some accepted step exactly when the fold ends with a running F1; with at least one ranked pair and a positive cap, the top-ranked pair's role ends mapped |
| EvaluateModel.SlotsCappedUpdate | src/main/java/nate/probschemas/EvaluateModel.java:244-248 | Mapping a role to a slot still below its cap keeps every slot capped |
| EvaluateModel.GreedyMultipleTemplates | src/main/java/nate/probschemas/EvaluateModel.java:289-353 | A new perm mapping only admitted pairs, with roles of at most maxTemplatesToMap templates in use and no two roles of one template on the same slot, built by accepted steps; the perm is the greedy fold `GreedyTemplates` over the ranked pairs; with at least one ranked pair and a positive template cap, the top-ranked pair's role ends mapped |
| EvaluateModel.UnmappedHoldsNoSlot | src/main/java/nate/probschemas/EvaluateModel.java:319-320 | In the unmapped perm no template maps any slot |
| EvaluateModel.TemplatesRunKeepsTop | src/main/java/nate/probschemas/EvaluateModel.java:312-347 | In the fold over the ranked pairs with a positive template cap, once the first pair is tried its role stays mapped and a running F1 exists |
| EvaluateModel.GreedyTemplatesMapsTop | src/main/java/nate/probschemas/EvaluateModel.java:289-353 | With a ranked pair and a positive template cap, `greedyMultipleTemplates` maps the top-ranked pair's role |
| EvaluateModel.TemplatesLoop | src/main/java/nate/probschemas/EvaluateModel.java:312-348 | The greedy loop leaves the perm and F1 of the fold over all ranked pairs, keeping the greedy invariant, the template cap and distinct slots within a template |
| EvaluateModel.TryTemplatesPair | src/main/java/nate/probschemas/EvaluateModel.java:313-347 | One iteration advances the array and F1 from the fold over `index` pairs to the fold over `index + 1`, keeping the invariant, the template cap and distinct slots within a template |
| EvaluateModel.AlignStep | src/main/java/nate/probschemas/EvaluateModel.java:376-392 | A pair is taken only when its slot and its role are both free; the used sets grow and afterwards cover the pair |
| EvaluateModel.GreedySlotAlignment | src/main/java/nate/probschemas/EvaluateModel.java:362-393 | A new perm that is a partial injection of roles into slots over pairs with a numeric score, and maximal: every ranked pair has its slot used or its role mapped |
| EvaluateModel.CoveredStep | src/main/java/nate/probschemas/EvaluateModel.java:376-392 | Once a pair has its slot or role used it stays so, and the pair just visited joins |
| EvaluateModel.CoveredInPerm | src/main/java/nate/probschemas/EvaluateModel.java:376-392 | When every ranked pair is covered, each has its slot in the perm or its role mapped |
| EvaluateModel.ComposeTypeChosen | src/main/java/nate/probschemas/EvaluateModel.java:694-705 | Each composed entry is the earlier one or a slot the role was chosen for |
| EvaluateModel.ComposePermChosen | src/main/java/nate/probschemas/EvaluateModel.java:690-705 | Each entry of the composed perm is -1 or a slot for which some template type chose that role |
| EvaluateModel.Trimmed | src/main/java/nate/probschemas/EvaluateModel.java:711-724 | The trimming pass changes only the roles it has visited |
| EvaluateModel.TrimOnlyRemoves | src/main/java/nate/probschemas/EvaluateModel.java:711-724 | Trimming only removes mappings: each entry is its old slot or -1 |
| EvaluateModel.TrimDecided | src/main/java/nate/probschemas/EvaluateModel.java:711-724 | A role's entry is settled once the pass has visited it |
| EvaluateModel.TrimKeepsIff | src/main/java/nate/probschemas/EvaluateModel.java:711-724 | A mapped role keeps its slot exactly when removing it, at its turn, drops the F1 below the initial F1 minus 0.001 |
| EvaluateModel.TrimMappings | src/main/java/nate/probschemas/EvaluateModel.java:708-727 | A new perm equal to the trimming pass over all roles, against the F1 the untrimmed perm had |
| EvaluateModel.PermWithTemplateMapping | src/main/java/nate/probschemas/EvaluateModel.java:682-736 | The perm composed from the roles chosen per gold template type, then trimmed |
| EvaluateModel.RoleGuesses | src/main/java/nate/probschemas/EvaluateModel.java:956-961 | One guess per entity carrying the role's label |
| EvaluateModel.CountLabelled | src/main/java/nate/probschemas/EvaluateModel.java:916-920 | The number of entities carrying the role's label |
| EvaluateModel.LabelledGuesses | src/main/java/nate/probschemas/EvaluateModel.java:956-961 | The raw core tokens of the entities carrying the role's label, in order |
| EvaluateModel.AddFalsePositives | src/main/java/nate/probschemas/EvaluateModel.java:911-926 | Each slot gains, as false positives, the labelled entities of every role mapped to it |
| EvaluateModel.AddFalseNegatives | src/main/java/nate/probschemas/EvaluateModel.java:937-944 | Each slot gains its non-optional gold entities as missed |
| EvaluateModel.SlotGuessStrings | src/main/java/nate/probschemas/EvaluateModel.java:953-964 | The slot's guesses are those of every role mapped to it, and the slot is checked exactly when some role is mapped to it |
| EvaluateModel.ScoreSlotGuesses | src/main/java/nate/probschemas/EvaluateModel.java:952-971 | One slot's guesses are evaluated against its golds; checked exactly when some role maps to it |
| EvaluateModel.EvaluateSlotGuesses | src/main/java/nate/probschemas/EvaluateModel.java:949-979 | Each slot gains the evaluation of its guesses, and the checked slots are exactly those some role maps to |
| EvaluateModel.AddMatches | src/main/java/nate/probschemas/EvaluateModel.java:948-1019 | Each slot gains the evaluation of its guesses and, when no role maps to it, its non-optional golds once more as missed |
| EvaluateModel.EvaluateEntityCounts | src/main/java/nate/probschemas/EvaluateModel.java:968 | The first three cells of the tester's entity evaluation |
| EvaluateModel.SumScoredSlots | src/main/java/nate/probschemas/EvaluateModel.java:1034-1041 | The totals over exactly the slots with a correct or missed entity |
| EvaluateModel.AddDocument | src/main/java/nate/probschemas/EvaluateModel.java:891-1021 | Each slot gains exactly what the document contributes to it under the rules for documents with or without templates and guesses |
| EvaluateModel.EvaluateSlotsIgnoringEventTypes | src/main/java/nate/probschemas/EvaluateModel.java:883-1053 | The counts of the perm over every document, per slot, summed over the slots that have a gold entity |
| EvaluateModel.NoTemplateDocFalsePositivesOnly | src/main/java/nate/probschemas/EvaluateModel.java:897-927 | A document without templates adds no correct and no missed entities, and adds false positives (the labelled entities of mapped roles) only when it is a TST3 or TST4 story, guesses exist and evaluation is not restricted to template documents |
| EvaluateModel.UnscoredSlotsIgnored | src/main/java/nate/probschemas/EvaluateModel.java:1034-1041 | Slots that no document gives a correct or missed entity leave the totals untouched, false positives included |
| EvaluateModel.AddDocumentForRole | src/main/java/nate/probschemas/EvaluateModel.java:754-867 | The role's count of one document added |
| EvaluateModel.EvaluateSlot | src/main/java/nate/probschemas/EvaluateModel.java:754-867 | The counts of one role against one slot over every document |
| EvaluateModel.OnlyRoleGuesses | src/main/java/nate/probschemas/EvaluateModel.java:754-867 | Under the perm that maps only one role, a slot's guesses are that role's |
| EvaluateModel.DocSlotIsOneRole | src/main/java/nate/probschemas/EvaluateModel.java:754-867 | Per document, evaluating one role against one slot counts what the perm mapping only that role there counts |
| EvaluateModel.EvaluateSlotIsOneRolePerm | src/main/java/nate/probschemas/EvaluateModel.java:754-1053 | Evaluating one role against one slot totals, for that slot, what the perm mapping only that role to that slot totals |
| EvaluateModel.NoGuessesEvaluation | src/main/java/nate/probschemas/EvaluateModel.java:968 | Evaluating no guesses finds nothing correct or incorrect and misses every non-optional gold |
| EvaluateModel.EntityEvaluatorProperties | src/main/java/nate/probschemas/EvaluateModel.java:968 | The tester's evaluation misses every non-optional gold when there are no guesses, and counts each gold at most once as correct or missed |
| EvaluateModel.UnmappedSlotNoGuesses | src/main/java/nate/probschemas/EvaluateModel.java:953-964 | A slot no role maps to has no guesses |
| EvaluateModel.UnmappedSlotMissedTwice | src/main/java/nate/probschemas/EvaluateModel.java:968-1019 | As written, a document with templates and guesses counts each non-optional gold of a slot no role maps to as missed twice |
| EvaluateModel.OneGoldDocMissedTwice | src/main/java/nate/probschemas/EvaluateModel.java:968-1019 | As written, the one document of that corpus counts its one required gold as missed twice |
| EvaluateModel.OneGoldMissedTwice | src/main/java/nate/probschemas/EvaluateModel.java:968-1053 | On a one-document corpus with one required gold and no role mapped, the totals are one gold missed twice |
| EvaluateModel.CorrectedAgreesWhenMapped | src/main/java/nate/probschemas/EvaluateModel.java:948-1019 | For a slot some role maps to, the corrected document counts equal the as-written ones |
| EvaluateModel.CorrectedGoldCountedOnce | src/main/java/nate/probschemas/EvaluateModel.java:948-1019 | With the correction, a document counts each gold of a slot at most once as correct or missed, and an unmapped slot's non-optional golds exactly once |
| TemplateTester.ReplaceParentheses | src/main/java/nate/probschemas/TemplateTester.java:122-130 | A string without the parser's bracket tokens comes back unchanged |
| TemplateTester.SimilarStringsReflexive | src/main/java/nate/probschemas/TemplateTester.java:132-148 | Every guess is similar to itself |
| TemplateTester.SimilarWhenSuffix | src/main/java/nate/probschemas/TemplateTester.java:132-148 | When one guess ends with the other they are similar, in both orders |
| TemplateTester.SimilarStringsNotSymmetric | src/main/java/nate/probschemas/TemplateTester.java:132-148 | The similarity is not symmetric: "CATS" is similar to "cat" but not the reverse, since the plural test reads only the first argument as the plural |
| TemplateTester.RightmostWord | src/main/java/nate/probschemas/TemplateTester.java:313-362 | The last word is a suffix of the string and holds no space |
| TemplateTester.ExactMatchMatches | src/main/java/nate/probschemas/TemplateTester.java:310-371 | A gold description equal to the guess up to case always matches it |
| TemplateTester.SurnameMatchesFullName | src/main/java/nate/probschemas/TemplateTester.java:336-347 | "Smith" matches the gold "John Smith", by containment at a word start |
| TemplateTester.OfMatchDisablesRightmost | src/main/java/nate/probschemas/TemplateTester.java:310-370 | When the gold description occurs in the guess right after "of ", and the guess is short and not inside the description, that description does not match, even though the rightmost words agree |
| TemplateTester.PartyOfOhioDoesNotMatch | src/main/java/nate/probschemas/TemplateTester.java:310-370 | "Party of Ohio" does not match the gold "Ohio" |
| TemplateTester.CarDoesNotMatchSmith | src/main/java/nate/probschemas/TemplateTester.java:310-370 | "a car" does not match the gold "John Smith" |
| TemplateTester.MarkSimilar | src/main/java/nate/probschemas/TemplateTester.java:161-171 | From one active guess, each later unmatched guess similar to it is marked, and the count is the number of such guesses |
| TemplateTester.DuplicatesThatWereWrong | src/main/java/nate/probschemas/TemplateTester.java:150-175 | The number of (i, j) pairs, i < j, of unmatched similar guesses where i was not itself marked by an earlier guess; the last guess never starts a scan |
| TemplateTester.DuplicatesCanExceedUnmatched | src/main/java/nate/probschemas/TemplateTester.java:150-175 | Whatever the similarity, five unmatched guesses where each of the first three resembles the last two count six pairs, more than there are unmatched guesses |
| TemplateTester.StringDuplicatesExceedUnmatched | src/main/java/nate/probschemas/TemplateTester.java:132-175 | With the string similarity, "ba", "ca", "da", "a", "a" count six pairs |
| TemplateTester.NoSimilarPairNoDuplicates | src/main/java/nate/probschemas/TemplateTester.java:150-175 | With no two similar unmatched guesses, nothing is counted |
| TemplateTester.MatchGuess | src/main/java/nate/probschemas/TemplateTester.java:229-249 | One guess is compared with every gold, adding one to each gold it matches, and reports whether it matched any |
| TemplateTester.CorrectAndMissed | src/main/java/nate/probschemas/TemplateTester.java:255-266 | Correct counts the golds matched at least once; missed counts the non-optional golds never matched |
| TemplateTester.MatchAll | src/main/java/nate/probschemas/TemplateTester.java:222-253 | Per gold, the number of guesses matching it; per guess, whether it matched any gold; and the number of guesses that matched none |
| TemplateTester.EvaluateEntities | src/main/java/nate/probschemas/TemplateTester.java:207-290 | The evaluation vector: correct, incorrect (unmatched guesses less their counted repeats) and missed, then a flag per guess and a count per gold; no gold list counts as empty |
| TemplateTester.MatchCountPositive | src/main/java/nate/probschemas/TemplateTester.java:229-266 | A gold counts as correct exactly when some guess matches it |
| TemplateTester.PositivesPlusMissed | src/main/java/nate/probschemas/TemplateTester.java:255-266 | Correct plus missed never exceeds the number of golds |
| TemplateTester.EvaluationLayout | src/main/java/nate/probschemas/TemplateTester.java:199-289 | The vector has 3 + guesses + golds cells; each guess cell is 0 or 1, and 1 exactly when the guess matched a gold; each gold cell counts the guesses matching it; correct plus missed is at most the number of golds |
| TemplateTester.GoldCellPositive | src/main/java/nate/probschemas/TemplateTester.java:229-266 | A gold's cell is positive exactly when some guess matches it |
| TemplateTester.NoEarlyExit | src/main/java/nate/probschemas/TemplateTester.java:229-249 | A guess matching two golds makes both golds' cells positive |
| TemplateTester.OneOfTwoMatches | src/main/java/nate/probschemas/TemplateTester.java:207-290 | One gold and two guesses, only the first matching: the vector is [1, 1, 0, 1, 0, 1] |
| TemplateTester.SmithExample | src/main/java/nate/probschemas/TemplateTester.java:207-371 | Gold "John Smith" against guesses "Smith" and "a car" gives [1, 1, 0, 1, 0, 1] |
| TemplateTester.FirstIndex | src/main/java/nate/probschemas/TemplateTester.java:519-530 | The position of the first occurrence of the element |
| TemplateTester.MergeStep | src/main/java/nate/probschemas/TemplateTester.java:373-380 | Taking the next element of the second list into the merge keeps the merge invariant |
| TemplateTester.MergeLists | src/main/java/nate/probschemas/TemplateTester.java:373-380 | The first list followed by the elements of the second that are missing from it, each once, in the order they first appear |
| TemplateTester.MergeTailDistinct | src/main/java/nate/probschemas/TemplateTester.java:373-380 | The appended part never repeats an element |
| TemplateTester.MergeDistinct | src/main/java/nate/probschemas/TemplateTester.java:373-380 | Merging into a list without repeats gives a list without repeats, holding exactly the elements of both |
| TemplateTester.GetGoldEntities | src/main/java/nate/probschemas/TemplateTester.java:519-530 | No templates give no list; otherwise the list holds every entity of every template, each once, and nothing else |
| TemplateTester.FillN | src/main/java/nate/probschemas/TemplateTester.java:382-412 | The first max objects, topped up from the fillers not among them |
| TemplateTester.TopUp | src/main/java/nate/probschemas/TemplateTester.java:393-409 | The fillers not among the objects, in order, at most diff + 1 of them |
| TemplateTester.FilledLength | src/main/java/nate/probschemas/TemplateTester.java:382-412 | The list never exceeds max + 1 entries, reaches max + 1 when enough new fillers exist, and is the first max objects when there are enough objects |
| TemplateTester.FilledExtrasNew | src/main/java/nate/probschemas/TemplateTester.java:382-412 | The objects come first and in order; every added entry is a filler not among the objects |
| TemplateTester.OverlapCorrect | src/main/java/nate/probschemas/TemplateTester.java:535-543 | The number of cells marked 1 in both vectors, or 0 when either is absent |
| TemplateTester.BothCorrectBound | src/main/java/nate/probschemas/TemplateTester.java:535-543 | The overlap is at most the length of the first vector |
| TemplateTester.AddScores | src/main/java/nate/probschemas/TemplateTester.java:459-466 | The vectors are added cell by cell, and the totals grow to the longer of the two |
| TemplateTester.ElementwiseSumAssociates | src/main/java/nate/probschemas/TemplateTester.java:454-468 | Recording two vectors one after the other gives the same totals as recording their sum once |
| TemplateTester.Tester.constructor | src/main/java/nate/probschemas/TemplateTester.java:93-96 | A new tester starts with no totals and no false positives |
| TemplateTester.Tester.RecordEvaluation | src/main/java/nate/probschemas/TemplateTester.java:454-468 | The vector is added onto the totals of its type and no other type changes; an absent vector changes nothing |
| TemplateTester.Tester.EvaluateForType | src/main/java/nate/probschemas/TemplateTester.java:184-195 | Without golds, every guess is added to the type's false positives and the totals stay; otherwise the document's evaluation is added to the type's totals and the false positives stay |
| DataSimplifier.NormalizeDep | src/main/java/nate/probschemas/DataSimplifier.java:957-967 | A missing dependency stays missing; one containing none of "nsubjpass", "agent--" and "xsubj--" is returned unchanged |
| DataSimplifier.NormalizePassive | src/main/java/nate/probschemas/DataSimplifier.java:957-967 | A passive subject becomes a direct object of the same governor |
| DataSimplifier.NormalizeAgent | src/main/java/nate/probschemas/DataSimplifier.java:957-967 | An agent becomes a subject of the same governor |
| DataSimplifier.NormalizeXsubj | src/main/java/nate/probschemas/DataSimplifier.java:957-967 | A controlled subject becomes a subject of the same governor |
| DataSimplifier.NormalizedDepsAreImportant | src/main/java/nate/probschemas/DataSimplifier.java:957-973 | Every rewritten dependency is one of the relations the learner keeps |
| DataSimplifier.RemoveEntitiesWithNMentions | src/main/java/nate/probschemas/DataSimplifier.java:530-538 | Exactly the entities with more than n mentions survive, in their order |
| DataSimplifier.FirstRejected | src/main/java/nate/probschemas/DataSimplifier.java:479-492 | The first mention failing the test, or -1 when all pass |
| DataSimplifier.StripMentions | src/main/java/nate/probschemas/DataSimplifier.java:479-492 | Removing the first failing mention and starting over leaves exactly the passing mentions, in order |
| DataSimplifier.RemoveMentions | src/main/java/nate/probschemas/DataSimplifier.java:467-524 | Every entity keeps exactly its passing mentions, then the entities left empty are dropped |
| DataSimplifier.RemoveReportingMentions | src/main/java/nate/probschemas/DataSimplifier.java:499-524 | No surviving mention hangs off a reporting verb; only the emptied entities are dropped |
| DataSimplifier.RemoveCommonMentions | src/main/java/nate/probschemas/DataSimplifier.java:467-492 | No surviving mention hangs off "be", "have" or "do"; only the emptied entities are dropped |
| DataSimplifier.DropRareMentions | src/main/java/nate/probschemas/DataSimplifier.java:590-607 | Exactly the mentions whose dependency occurs at least the threshold number of times survive, in order |
| DataSimplifier.StripRareMentions | src/main/java/nate/probschemas/DataSimplifier.java:586-608 | Every entity of a document keeps exactly its frequent mentions |
| DataSimplifier.RemoveLowOccurringMentions | src/main/java/nate/probschemas/DataSimplifier.java:577-614 | Frequency is counted over the whole corpus first; each document keeps its entities with their frequent mentions, less those left empty |
| DataSimplifier.NarrowestUnique | src/main/java/nate/probschemas/DataSimplifier.java:429-459 | Two mentions with the same end that are both the narrowest (earliest on ties) are the same mention |
| DataSimplifier.NarrowestExists | src/main/java/nate/probschemas/DataSimplifier.java:429-459 | Every end index has a narrowest mention |
| DataSimplifier.ExactlyOneSurvivorPerEnd | src/main/java/nate/probschemas/DataSimplifier.java:429-459 | After pruning, every end index of the sentence has exactly one surviving mention |
| DataSimplifier.ScanFirstOfEnd | src/main/java/nate/probschemas/DataSimplifier.java:436-452 | A mention with a new end index becomes the remembered one |
| DataSimplifier.ScanNarrower | src/main/java/nate/probschemas/DataSimplifier.java:436-452 | A strictly narrower mention displaces the remembered one, which is removed |
| DataSimplifier.ScanNotNarrower | src/main/java/nate/probschemas/DataSimplifier.java:436-452 | A mention no narrower than the remembered one is removed |
| DataSimplifier.DuplicatePositions | src/main/java/nate/probschemas/DataSimplifier.java:429-456 | A mention is marked for removal exactly when it is not the narrowest, earliest-on-ties mention of its end index |
| DataSimplifier.RemoveDuplicatesInSentence | src/main/java/nate/probschemas/DataSimplifier.java:429-459 | The sentence keeps exactly its surviving mentions, in order |
| DataSimplifier.RemoveDuplicateMentions | src/main/java/nate/probschemas/DataSimplifier.java:429-459 | Every sentence is pruned on its own |
| DataSimplifier.ParseInt | src/main/java/nate/probschemas/DataSimplifier.java:564 | A digit string parses exactly when its value fits in a signed 32-bit integer, and then to that value |
| DataSimplifier.RemoveNumberEntitiesAsWritten | src/main/java/nate/probschemas/DataSimplifier.java:559-575 | The pass fails exactly when some single-number entity overflows the 32-bit parse; otherwise it keeps exactly the entities that are not single numbers outside 1900..2020 |
| DataSimplifier.LongNumberAbortsPass | src/main/java/nate/probschemas/DataSimplifier.java:563-566 | An eleven-digit token overflows the parse although the pass means to drop it |
| DataSimplifier.RemoveNumberEntities | src/main/java/nate/probschemas/DataSimplifier.java:559-575 | Exactly the entities that are not single numbers outside 1900..2020 survive, whatever the number's length |
| DataSimplifier.CoreMentionUnique | src/main/java/nate/probschemas/DataSimplifier.java:734-756 | The selection rule picks one mention |
| DataSimplifier.CoreForm | src/main/java/nate/probschemas/DataSimplifier.java:760-763 | A digit string becomes "NUMBER"; any other token is kept |
| DataSimplifier.SetCoreEntityMention | src/main/java/nate/probschemas/DataSimplifier.java:734-763 | The core token is taken from the first mention, replaced only by a strictly longer one that passes the pronoun tests; the rest of the entity is unchanged |
| DataSimplifier.CollapseDashes | src/main/java/nate/probschemas/DataSimplifier.java:380 | Runs of dashes shrink to one: no two dashes in a row, nothing new added, and the first character kept |
| DataSimplifier.DashSeparators | src/main/java/nate/probschemas/DataSimplifier.java:376-379 | No separator and no slash remains |
| DataSimplifier.CacheName | src/main/java/nate/probschemas/DataSimplifier.java:376-382 | The name holds no dot, slash or separator, and no double dash |
| DataSimplifier.CacheNameOfPlainName | src/main/java/nate/probschemas/DataSimplifier.java:370-382 | A name with no dot, slash, separator or dash is used as it is |
| DataSimplifier.CreateCachePath | src/main/java/nate/probschemas/DataSimplifier.java:360-385 | A path made only of dots and separators has no cache path (the source fails on it); otherwise the path is "cache", the separator, and the rewritten name of the path without its leading and trailing dots and separators |
| Learner.TopicsAbove | src/main/java/nate/probschemas/Learner.java:446-454 | Exactly the topics below n whose probability reaches the cutoff, in increasing order |
| Learner.SortedTopics | src/main/java/nate/probschemas/Learner.java:446-454 | Exactly the topics whose probability reaches the cutoff, each once, in non-increasing order of probability |
| Learner.SortedTopicsFacts | src/main/java/nate/probschemas/Learner.java:446-454 | Sorting distinct topics by probability keeps them distinct, keeps exactly them, and orders them by non-increasing probability |
| Learner.GetSortedTopics | src/main/java/nate/probschemas/Learner.java:446-454 | The topics at or above the cutoff, sorted by non-increasing probability |
| Learner.SortedHeadIsTop | src/main/java/nate/probschemas/Learner.java:559-563 | The head of a non-empty sorted list is a top topic: it reaches the cutoff and no topic is more probable |
| Learner.CountLabels | src/main/java/nate/probschemas/Learner.java:466-471 | Each template's count grows by the number of the entity's labels whose topic divides (truncating) to that template |
| Learner.CountTemplates | src/main/java/nate/probschemas/Learner.java:464-472 | A template's count is the number of labels over the document whose topic divides to it |
| Learner.RemoveIsolatedTemplateLabels | src/main/java/nate/probschemas/Learner.java:463-489 | Every entity keeps exactly the labels whose template is counted more than once in the document; with no templates, a document with a label gives no result (the division by zero throws) and one with none is unchanged |
| Learner.TemplateCountPositive | src/main/java/nate/probschemas/Learner.java:464-472 | A template is counted exactly when some label of the document divides to it |
| Learner.TemplateCountShared | src/main/java/nate/probschemas/Learner.java:464-481 | A label's template is counted more than once exactly when another label (of this or another entity) divides to the same template |
| Learner.IsolatedRemovedKeepsShared | src/main/java/nate/probschemas/Learner.java:463-489 | Only labels change, only by removal, unlabelled entities are untouched, and a label stays exactly when another label shares its template |
| Learner.Pick | src/main/java/nate/probschemas/Learner.java:378-429 | The elements at the given positions, in that order |
| Learner.ContainsIgnoreCase | src/main/java/nate/probschemas/Learner.java:416-420 | True exactly when some name equals the document name up to case |
| Learner.AddDocsNoRepeats | src/main/java/nate/probschemas/Learner.java:413-429 | Without new names nothing changes; otherwise names and entities are appended together, position by position, for exactly the new names not already present up to case, counting names added earlier in the same call |
| Learner.AddedNamesAreNew | src/main/java/nate/probschemas/Learner.java:413-429 | No appended name equals, up to case, any name before it |
| Learner.DrawnBelow | src/main/java/nate/probschemas/Learner.java:378-406 | The drawn positions below k, in increasing order |
| Learner.AllDrawnTaken | src/main/java/nate/probschemas/Learner.java:378-406 | When every draw is in range, every draw is taken |
| Learner.GetRandomDocsFromTrain | src/main/java/nate/probschemas/Learner.java:378-406 | Asking for at least as many as there are gives every document in order; otherwise the drawn documents in their original order, names and entities aligned |
| Learner.RandomDocsCount | src/main/java/nate/probschemas/Learner.java:378-406 | With num distinct draws below the corpus size, exactly num documents are taken, in increasing position and so without repeats |
| Learner.TopLabel | src/main/java/nate/probschemas/Learner.java:559-585 | No label when no topic reaches the cutoff; otherwise one label, a top topic |
| Learner.LabelledByTopAddsTop | src/main/java/nate/probschemas/Learner.java:541-588 | Labelling by top topic only adds labels, at most one per entity, a top topic, added exactly when some topic reaches the cutoff |
| Learner.ChooseTopLabel | src/main/java/nate/probschemas/Learner.java:556-585 | The label chosen from the sorted topics is the top label |
| Learner.LabelEntity | src/main/java/nate/probschemas/Learner.java:541-588 | One entity gets the top label, and the sampler's tables are as they were after the unlabel and relabel |
| Learner.LabelAll | src/main/java/nate/probschemas/Learner.java:540-588 | Every entity of the document gets its top label, and the sampler is restored |
| Learner.LabelDocFromSampler | src/main/java/nate/probschemas/Learner.java:533-595 | A document the sampler does not know gives no result (the source exits); otherwise its entities are labelled by top topic and, when isolated labels are ignored, pruned, with no result when there are no templates and some label (the division throws); the sampler is restored |
| Learner.InferUsingSampledData | src/main/java/nate/probschemas/Learner.java:511-596 | No result exactly when some test document is unknown to the sampler or its pruning divides by zero templates; otherwise every document is labelled as above; the sampler's tables end as they began |
| BaselineMentionCount.MaxMentions | src/main/java/nate/probschemas/BaselineMentionCount.java:118-121 | The largest mention count of the document, attained by some entity, and 0 for an empty document |
| BaselineMentionCount.BucketOf | src/main/java/nate/probschemas/BaselineMentionCount.java:126-130 | Exactly the entities with the given mention count, in document order |
| BaselineMentionCount.MaxLength | src/main/java/nate/probschemas/BaselineMentionCount.java:118-121 | The loop finds the largest mention count |
| BaselineMentionCount.Buckets | src/main/java/nate/probschemas/BaselineMentionCount.java:126-130 | A new array with one bucket per mention count from 0 to the maximum, each holding exactly the entities of that count |
| BaselineMentionCount.CountsAfterLabel | src/main/java/nate/probschemas/BaselineMentionCount.java:139-148 | Labelling an unlabelled entity adds one to its slot's count and to the number labelled, and no other slot's count changes |
| BaselineMentionCount.TallyStep | src/main/java/nate/probschemas/BaselineMentionCount.java:141-146 | After a label the slot counter advances exactly when the slot has received its quota |
| BaselineMentionCount.TallyBound | src/main/java/nate/probschemas/BaselineMentionCount.java:139-148 | No more than numSlots times numPerSlot entities are labelled |
| BaselineMentionCount.TallyAtMost | src/main/java/nate/probschemas/BaselineMentionCount.java:139-148 | No slot receives more than numPerSlot entities |
| BaselineMentionCount.RemovedMembers | src/main/java/nate/probschemas/BaselineMentionCount.java:147 | Removing the chosen entity from its bucket leaves exactly the other entities |
| BaselineMentionCount.FillStep | src/main/java/nate/probschemas/BaselineMentionCount.java:139-148 | One random pick from the bucket labels an unlabelled entity of that length with the current slot and keeps the bucket invariant |
| BaselineMentionCount.FillFromBucket | src/main/java/nate/probschemas/BaselineMentionCount.java:137-149 | One bucket is drained until it is empty or the slots run out; every entity of that length is labelled or left because no slot remains |
| BaselineMentionCount.OrderedStep | src/main/java/nate/probschemas/BaselineMentionCount.java:133-151 | Labelling an entity no longer than every labelled one, with a slot no smaller than theirs, keeps more mentions ahead of higher slots |
| BaselineMentionCount.OuterStep | src/main/java/nate/probschemas/BaselineMentionCount.java:135-151 | Moving down one bucket keeps the labelling invariant |
| BaselineMentionCount.VisitBuckets | src/main/java/nate/probschemas/BaselineMentionCount.java:133-151 | The buckets are visited from the maximum count less one down to 1, ending in the labelling invariant |
| BaselineMentionCount.OuterDone | src/main/java/nate/probschemas/BaselineMentionCount.java:118-151 | When the visit ends: slots are in range and capped per slot and in total, only entities between 1 and the maximum less one mentions are labelled, more mentions never get a higher slot, and an eligible entity is unlabelled only when every slot is full |
| BaselineMentionCount.AddSlots | src/main/java/nate/probschemas/BaselineMentionCount.java:140 | Each entity gains its chosen slot as a label and nothing else changes |
| BaselineMentionCount.LabelEntities | src/main/java/nate/probschemas/BaselineMentionCount.java:117-156 | Every entity gains at most one label, a slot in range; no slot gets more than numPerSlot entities and at most numSlots times numPerSlot are labelled; entities with the maximum count or no mentions stay unlabelled; more mentions never get a higher slot; with numPerSlot below 1 every visited entity gets slot 0 |
| BaselineBestVerb.ComputeSlotPatterns | src/main/java/nate/probschemas/BaselineBestVerb.java:198-223 | At most 50 top words are kept; there are min(numSlots, 2 x words) patterns, pattern i carries slot i, and even patterns pair word i/2 with the subject relation, odd ones with the object relation |
| BaselineBestVerb.MentionSlots | src/main/java/nate/probschemas/BaselineBestVerb.java:264-268 | One "v-" verb ":" relation string per mention |
| BaselineBestVerb.FirstPatternOf | src/main/java/nate/probschemas/BaselineBestVerb.java:270-277 | The first pattern equal to the string, or -1 when none is |
| BaselineBestVerb.AsWrittenChoice | src/main/java/nate/probschemas/BaselineBestVerb.java:262-278 | As written: the first pattern matching the first mention that matches any pattern, or -1 when no mention matches |
| BaselineBestVerb.ScanPatternsAsWritten | src/main/java/nate/probschemas/BaselineBestVerb.java:269-277 | As written, with the position counter stuck at 0: the first match found claims the entity and later matches never replace it |
| BaselineBestVerb.ChooseSlotAsWritten | src/main/java/nate/probschemas/BaselineBestVerb.java:257-279 | As written: the slot of the first pattern matching the first matching mention |
| BaselineBestVerb.AsWrittenMissesLowerPattern | src/main/java/nate/probschemas/BaselineBestVerb.java:262-278 | With patterns "a" (slot 0) and "b" (slot 1) and mentions "b" then "a", the code as written picks slot 1 although slot 0 is the lowest matching pattern |
| BaselineBestVerb.LowestPattern | src/main/java/nate/probschemas/BaselineBestVerb.java:255-278 | The lowest-indexed pattern equal to some mention's string, or -1 when none is |
| BaselineBestVerb.LowestUnique | src/main/java/nate/probschemas/BaselineBestVerb.java:255-278 | Any position meeting the lowest-pattern description is the lowest pattern |
| BaselineBestVerb.LowestPrefixStep | src/main/java/nate/probschemas/BaselineBestVerb.java:262-278 | Taking one more mention into account replaces the best pattern only by a strictly lower matching one |
| BaselineBestVerb.ScanPatterns | src/main/java/nate/probschemas/BaselineBestVerb.java:269-277 | Corrected: with the position counted, a match replaces the best only when its pattern is strictly lower |
| BaselineBestVerb.ChooseSlot | src/main/java/nate/probschemas/BaselineBestVerb.java:257-279 | Corrected: the slot of the lowest-indexed pattern matching any mention |
| BaselineBestVerb.LabelEntities | src/main/java/nate/probschemas/BaselineBestVerb.java:257-285 | Every entity gets the corrected choice of slot as a label, when there is one, and is otherwise unchanged |
| BaselineBestVerb.LabelIsLowestFilledSlot | src/main/java/nate/probschemas/BaselineBestVerb.java:257-285 | At most one label per entity; no label when no pattern matches; a label is the slot of a matching pattern with no lower pattern matching |
| AllParser.DocTypeToInt | src/main/java/nate/AllParser.java:106-121 | Up to case: a "giga" prefix gives the Gigaword type, "env" the environment type, "muc" the MUC type, exactly "text" the text type; anything else has no type (the source exits) |
| AllParser.DocTypeCaseInsensitive | src/main/java/nate/AllParser.java:106-121 | Names equal up to case get the same type |
| AllParser.DocTypeNames | src/main/java/nate/AllParser.java:106-121 | "Gigaword", "ENV", "muc4" and "Text" name the four types; "texts" names none |
| AllParser.ValidFilename | src/main/java/nate/AllParser.java:530-547 | A file that is read never starts with "." and has one of the four types |
| AllParser.HiddenFilesSkipped | src/main/java/nate/AllParser.java:530-547 | A file whose name starts with "." is read by no type |
| AllParser.EnviroFilesAreRead | src/main/java/nate/AllParser.java:530-547 | A file the environment type reads is also read by the Gigaword and text types |
| AllParser.NerStringToType | src/main/java/nate/AllParser.java:273-279 | Exactly the tags ORGANIZATION, PERSON and LOCATION convert, each to the type with that name; anything else, absent included, converts to nothing |
| AllParser.NerNameRoundTrip | src/main/java/nate/AllParser.java:273-279 | Converting a type's name gives the type back |
| AllParser.SentenceSpans | src/main/java/nate/AllParser.java:212-246 | Each span is a run of one identical non-outside tag of a convertible kind, 1-based and inclusive, closed by a different tag; spans are in order and disjoint; every such closed run is reported; a run still open at the sentence end is not |
| AllParser.SentenceNerSpans | src/main/java/nate/AllParser.java:212-246 | The same for the tagger's strings, "O" being the outside tag |
| AllParser.ScanToken | src/main/java/nate/AllParser.java:219-244 | One token of the scan keeps the scan invariant |
| AllParser.CloseRun | src/main/java/nate/AllParser.java:222-236 | Closing a run reports it when its tag converts, keeps the reported spans in order, and loses none |
| AllParser.RunStartUnique | src/main/java/nate/AllParser.java:212-246 | A closed run has one start |
| AllParser.CloseTyped | src/main/java/nate/AllParser.java:222-236 | A closed run of a convertible tag is appended as a span |
| AllParser.CloseUntyped | src/main/java/nate/AllParser.java:222-236 | A closed run of a tag that does not convert is skipped |
| Ranking.FirstMax | src/main/java/nate/probschemas/Inference.java:216-235 | The first index holding the largest value: no value is larger, and every earlier one is smaller |
| Ranking.FirstMaxUnique | src/main/java/nate/probschemas/Inference.java:216-235 | Any index meeting that description is the first maximum |
| Ranking.InsertByValue | src/main/java/nate/probschemas/Inference.java:286 | Inserting a key adds exactly it to the keys |
| Ranking.InsertKeepsSorted | src/main/java/nate/probschemas/Inference.java:286 | Inserting into keys sorted by non-increasing score keeps them sorted |
| Ranking.SortKeysByValues | src/main/java/nate/probschemas/Inference.java:286 | The sorted keys are a permutation of the keys |
| Ranking.SortKeysSorted | src/main/java/nate/probschemas/Inference.java:286 | The sorted keys are in non-increasing order of score |
| Ranking.SortKeysMembers | src/main/java/nate/probschemas/Inference.java:286 | A key is in the sorted list exactly when it is in the input |
| Ranking.Take | src/main/java/nate/probschemas/Inference.java:286-290 | A prefix of at most n elements, exactly n when there are enough |
| Ranking.TakeOutranksRest | src/main/java/nate/probschemas/Inference.java:286-290 | A key cut off a sorted list is cut only when n keys were kept, and every kept key scores at least as much |
| Entities.Governor | src/main/java/nate/probschemas/Inference.java:63-64 | With a "--" in the dependency, the governor is exactly what follows its first occurrence; without one, everything after the first character |
| Entities.MentionGovernors | src/main/java/nate/probschemas/Inference.java:62-66 | The governor of each mention, in mention order |
| Strings.ToLower | src/main/java/nate/probschemas/TemplateTester.java:311 | Same length, each character lowered |
| Strings.IndexOf | src/main/java/nate/probschemas/TemplateTester.java:310-371 | -1 exactly when the pattern does not occur; otherwise its first occurrence |
| Strings.LastIndexOfChar | src/main/java/nate/probschemas/TemplateTester.java:313 | The last position holding the character, or -1 |
| Strings.ReplaceFirst | src/main/java/nate/probschemas/DataSimplifier.java:957-967 | A string without the pattern is unchanged |
| Strings.ReplaceAllChars | src/main/java/nate/probschemas/DataSimplifier.java:376-382 | Replacing introduces no character outside the string and the replacement |
| Seqs.Count | src/main/java/nate/probschemas/DataSimplifier.java:577-588 | The number of occurrences, its multiplicity |
| Seqs.Tally | src/main/java/nate/probschemas/DataSimplifier.java:577-588 | The counter holds each element's number of occurrences, and exactly the elements that occur |

## Left out

- Reading and writing: `toFile`/`fromFile`, the entity caches and their loaders, `KeywordTokenizer`, and `AllParser`'s parsing through CoreNLP and its output files. Only the cache file name is modelled.
- Random numbers: every draw is a parameter. This covers the sampler's topic draws and initial topics, `BaselineMentionCount.getRandom` (a pick function), and the document draws of `Learner.getRandomDocsFromTrain`.
- `getTopicDistribution`, in both the sampler and `Inference`: the per-topic probabilities arrive as inputs. They are compared in linear space where the source compares logarithms; the logarithm is monotone, so every comparison agrees. NaN and infinities are out of scope.
- The data log-likelihood and the permutation F1 are abstract inputs. This covers `computeDataLikelihood` and the `permF1` that the greedy alignments call.
- `EntitySampler.Sampler.ChecksPass`: a distribution whose denominator is zero counts as failing the check. In the source the smoothing constants are positive, so the division makes the sum infinite, and the check then fails too.
- The sampler lowers the entity total by one while an entity is unlabelled and restores it afterwards (`GibbsSamplerEntities.java` lines 502, 518-521, 611). The model leaves the total unchanged: it only enters the sampling distribution, for which the draws stand.
- Mention dependencies are strings in the model, never null. The source's null check during initialisation (lines 237-240) comes after the dependency has already been read at line 232, so a null would fail there first. The model leaves that case out. It also requires each dependency to have the form `inverseDep` splits, where the source would throw.
- `Entities.Governor`: an empty dependency string, on which the source throws, gives "".
- `EntitySampler.Sampler.LoadBestModelInstance`: the global topic counts are left as they were, as the source leaves them.
- `runSampler` reloads the best snapshot at its end even when none was stored (line 616), which fails in the source. The model returns a NoSnapshot outcome instead.
- `runSamplerConstrained`, `checkDataStructures` and the reporting code are not part of this model. The reporting code is `print*`, `getTopVerbs*` and `getTopPredicatesBasedOnDeps`.
- `KeywordDetector`, WordNet, the IDF tables and the other linguistic wrappers are not part of this model. Their pronoun and relation tests are parameters.
- `EvaluateModel`: the no-argument `evaluateSlotsIgnoringEventTypes` and the `evaluateSlots*` drivers are not part of this model. Neither are `greedyBestSoFarAlignment`, `permWithSingleRolePerTemplateSlot` and `bestLearnedSchemaForMUCTemplate`.
- `TemplateTester`: `recordFalseNegativeArguments`, `stringMatchToMUCEntities` and `printEvaluationResults` are not part of this model. The edit-distance test of long strings uses the edit distance as a parameter.
- `DataSimplifier.SetCoreEntityMention`: the optional replacement of the core token by an NER label (PERSON, ORG) is not modelled, and the pronoun tests are a parameter.
- `DataSimplifier`: `removePronounEntities`, `removeLowIDFChange`, `getTopVerbs` and the entity-list builders that parse text are not part of this model.
- `Learner`: `learn`, `learnAndInferAvg`, `learnAndInferSampledAvg`, `runInference`, `load`, `expandDocumentsWithIR` and option parsing are not part of this model. The evaluation step of `inferUsingSampledData` is not modelled either.
- `Learner.RemoveIsolatedTemplateLabels` follows the source in dividing a topic by the number of templates, not by the number of topics per template. The two agree only when they are equal. This is kept as written, because the intent cannot be told from the source.
- `Sampler.java`, `KeyReader`, `ProcessedDocument`, `MUCKeyReader` and the baselines' `load`/`inferAndEvaluate` drivers are not part of this model.
- `TemplateTester.ReplaceParentheses`: only the case with no bracket tokens is stated. The rewriting itself is the definition.
- `AllParser.ValidFilename`: the contract states only that hidden files and unknown types are rejected. The suffix rules are the definition.
- `Strings.ReplaceFirst`: only the absent-pattern case is stated. The rewritten forms are proved where they are used (`DataSimplifier.NormalizePassive`, `NormalizeAgent`, `NormalizeXsubj`).
- Ties in the sorted orders: `EvaluateModel.RankPairs`, `Inference.TopOfRole` (with `Inference.Chosen`) and `Learner.SortedTopics` break ties between equal scores by scoring or entity order. The source sorts through `Util.sortKeysByValues` and `Util.sortCounterKeys` over a `HashMap`, so its tie order follows hash iteration (`EvaluateModel.java` lines 219-233 and 305, `Inference.java` line 286, `Learner.java` line 452). `Util` is not part of this model. The greedy alignments and the labelling can differ between equal-scoring candidates. The sortedness, membership and cut-off properties proved about these orders hold whatever the tie order; the equalities that pin a greedy perm to `GreedySlots` or `GreedyTemplates` describe the model's tie order.
- `EvaluateModel.RankPairs`: the function states membership only. Order and completeness are `RankPairsSorted`, `RankPairsMembers` and `RankedPairsExactly`.
- `EvaluateModel.EvaluateSlotsIgnoringEventTypes` models the code as written, including the double count listed under Findings. Nothing in the model consumes its counts, since the F1 the alignments use is an input.
- `Strings.ToLower` folds only the ASCII letters A-Z, where Java's `toLowerCase` follows Unicode. Every comparison that ignores case inherits this: `EqualsIgnoreCase`, `ContainsIgnoreCase`, `EntitySampler.FirstMatch` and `Sampler.DocnameToIndex`, `AddDocsNoRepeats`, and the template-string matching in `TemplateTester`. Names and answer strings outside ASCII may compare differently from the source.
- The word tables are not covered by `Sweeps.TablesAreTallies`. Initialization counts every mention's word (line 256), while unlabel and relabel move only the first word (lines 429-431 and 469). After an entity with two or more words changes topic, the word table is no longer the per-mention tally (`Sweeps.WordTallyBreaks`). The model keeps this as written. The dependency, verb and feature tables stay tallies throughout a run.
- `Sweeps.ResampleValues` leaves the tables unchanged for an entity that does not exist or a topic out of range. Those cases fail with an index error in the source, and no sweep reaches them (`Sweeps.SweepDocStep`).
- The number of sweeps a run performs is a ghost output of `Sample` and `RunSampler`; the source keeps no such count.
- `BaselineMentionCount.LabelEntities` visits the mention-count buckets from the maximum count less one down to 1 (`BaselineMentionCount.java` line 135), as the source does. The comment at line 132 and the array of maxlength + 1 buckets suggest the top bucket was meant to be visited too; the model keeps the code as written and proves that the entities with the most mentions stay unlabelled (`OuterDone`).

## Findings

| source | as written | input that shows it | evidently intended | confidence | as-written member | corrected member |
|---|---|---|---|---|---|---|
| src/main/java/nate/probschemas/BaselineBestVerb.java:269-277 | The pattern position `patterni` is never incremented, so the first match found claims the entity | patterns "a" (slot 0) and "b" (slot 1); one entity whose mentions give "b" then "a" | The lowest-numbered matching pattern, as the method comment says: slot 0 | not executed | BaselineBestVerb.AsWrittenMissesLowerPattern | BaselineBestVerb.ChooseSlot |
| src/main/java/nate/probschemas/EvaluateModel.java:968-1019 | Every slot is scored with `evaluateEntities`, which already counts an unmapped slot's required golds as missed; the loop added later then counts them as missed again | one document with templates and an empty guess list; one slot with one required gold, "john smith"; no role mapped | Each gold counted once: 0 correct, 0 wrong, 1 missed (the code gives 2 missed) | not executed | EvaluateModel.OneGoldMissedTwice | EvaluateModel.CorrectedGoldCountedOnce |
| src/main/java/nate/probschemas/DataSimplifier.java:559-575 | A single-mention entity whose token is all digits is parsed with `Integer.parseInt`, which throws on values above 2147483647 and aborts the pass | one entity with the single mention "12345678901" | The entity is removed, as every number outside 1900..2020 is | not executed | DataSimplifier.LongNumberAbortsPass | DataSimplifier.RemoveNumberEntities |
