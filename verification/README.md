# Model of the CPE operator's benchmark-sweep engine

The CPE operator runs a benchmark over every combination of its iteration items, builds and
repetitions. It names and starts the jobs, feeds the results of auto-tuned jobs back to a bayesian
optimizer, and keeps averages and best results in the benchmark's status. These Dafny files model that
engine (`controllers/job_tracker.go`, `controllers/bayesopt.go`, `controllers/common.go`,
`controllers/iteration.go`) and prove what holds over whole runs of it.

`dafny verify dfyconfig.toml` checks everything.

## Parts

- `Optimizer`, `Protocol`, `SweepRuns`: one sequential sweep as a step system with three actors: an
  optimizer goroutine per auto-tuned job, the job tracker, and the cluster that completes running jobs.
  Every assignment that another actor can observe is a step of its own. `Protocol.Inv` is kept by every
  step of every interleaving; `SweepRuns` states what follows for whole runs.
- `ParallelRuns`: a sweep that is not sequential, with many jobs in flight, on top of the tracker's tables.
- `Tracker`, `TrackerSteps`: the tracker, the optimizer and job creation as classes that change their
  fields in place, for any number of benchmarks; and the lemma that they do what the step system does.
- `Creations`: every creation of one job over any history of attempts, completions and optimizer steps.
- `Aggregation`, `ResultHistory`, `SweepStatus`: result groups, running means, best results and the
  completed count, first for one update in place, then for every history of updates.
- `JobIdentity`, `JobDetail`, `Fnv`: from a label, a build and a repetition to a job name and back.
- `Combination`, `Sweep`: the expansion of the iteration items and the start of a sweep.
- `Tokens`, `SpecTree`, `SpecFrame`, `SpecPlaces`: locations in a job spec, reading and writing there, and which
  place of the tree a location's text stands for.
- `SearchSpace`: the parameters of node tuning, the check of a sample, and its conversion to a profile.
- `Text`, `Lists`, `Arithmetic`, `Ranking`, `Wrappers`: strings, lists without repetition, facts about products and
  quotients, the order on results, options.

## How to read it

A method is proved equal to a function of its inputs or of the old state, and the lemmas speak about
that function. Where a function follows the source, `None` stands for a Go panic or, in `SearchSpace`, for
a returned error (`SearchSpace.ConvertToProfile` tells error and panic apart). `real` stands for `float64`; one `char` stands for one byte.

What `SweepRuns` and `ParallelRuns` take for granted: the cluster holds no job of the benchmark at the
start, job names are distinct, calls to the cluster succeed, the jobs' first pod succeeds, the parser key
is not empty, a log that is parsed again gives the same response, the sweep is subscribed before its
first job completes, and node tuning is available. The optimizer library is any caller that evaluates its
objective at most `rounds` times, with samples inside or outside the search space, and then returns.
These assumptions appear as the initial state and the steps of the models and as `requires` clauses.

## Where the code does not do what it promises

- `iteration/README.md:86` says best results compare averages over all runs. The code compares running
  averages as they come in, and a value once reached stays. `ResultHistory.BestAverageOverHistory` and
  `ResultHistory.BestAverageInGeneral` say for which histories the entry is the best average,
  `ResultHistory.NextRunExactly` which next run keeps it so, and
  `ResultHistory.BestNeedNotBeBestAverage` gives a history of three runs that fails.
- A job name is split at `-cpeh-` from the left, so the tracker finds a job's hash exactly for benchmark
  names that end in `-cpeh` an even number of times (`JobDetail.HashReadsBack`).
- A sweep of one auto-tuned job is never tuned: with nothing waiting, its optimizer is not registered
  (`SweepRuns.LoneJobIsNotTuned`).
- The label suffix reads back exactly for labels whose keys hold no `;` and whose values hold no `=`
  (`JobIdentity.LabelDecodes`; `JobIdentity.SuffixCollides` shows two labels with one suffix).
- An item without values drops every item before it (`Combination.CombinationsAreProduct`), and as the last
  item it makes the start panic (`Sweep.LabelsShareKeys`).
- The upper bound of a set parameter passes the check and selects an empty string behind the listed
  values (`SearchSpace.SetLookup`); an accepted integer can leave its bounds unless the bounds fit the
  step (`SearchSpace.BoundsFitExactly`). A step of zero is accepted and turns every integer into 0.

## Model

| member | source | states |
|---|---|---|
| Optimizer.OptStepKeepsInv | controllers/bayesopt.go:343-407 | Every step of the optimizer goroutine keeps: no second close and no send after close, samples posted, taken, reported and heard in FIFO order with at most one outstanding, the final profile set before the queues close, flags and closes in their order |
| Optimizer.FinalizeOnce | controllers/bayesopt.go:351-354 | Finalizing closes both queues without losing their content, never panics in whatever order it is called, and a second call changes nothing |
| Optimizer.PanicsAreRecorded | controllers/bayesopt.go:401-407 | A panic is recorded exactly when Go panics, at a send on a closed queue or a second close, nothing goes through then, and it stays recorded |
| Optimizer.PostedComesOutLast | controllers/bayesopt.go:379-391 | One more sample comes out of its queue behind those already in it and before the final profile |
| Optimizer.HeardInOrder | controllers/bayesopt.go:383-390 | A goroutine hears the results in the order they were sent, and zero from an empty closed queue |
| Optimizer.FinalProfileOnce | controllers/common.go:432-440 | Receiving from a closed queue until nothing comes gives the samples left, in order, and then the final profile once, unless it was applied before |
| Protocol.InitInv | controllers/common.go:531-642 | The state right after a sequential start and subscription satisfies the invariant of the whole protocol |
| Protocol.GoroutineKeepsInv | controllers/bayesopt.go:375-399 | Any goroutine step of any job, at any moment, keeps the protocol invariant |
| Protocol.CompletionKeepsInv | controllers/job_tracker.go:492-516 | The completion of a running job, with any value, keeps the protocol invariant |
| Protocol.ReportKeepsInv | controllers/job_tracker.go:330-335 | Sending the value to the optimizer keeps the invariant, so it never goes to a closed queue |
| Protocol.RecordKeepsInv | controllers/job_tracker.go:336-359 | Keeping the better of the recorded and the new run, and publishing if finalized, keeps the invariant, with the recorded run always the earliest best so far |
| Protocol.DeployComputes | controllers/job_tracker.go:178-234 | In every reachable state deployWaitingResource amounts to one of three outcomes: try the same job again, stop, or hand on the head of the waiting list; no missing interface, no empty list, no job without optimizer |
| Protocol.DeployKeepsInv | controllers/job_tracker.go:178-234 | ... and that keeps the invariant |
| Protocol.TakeKeepsInv | controllers/common.go:428-461 | The receive of a sample, or of the closed queue, and the creation that follows keep the invariant |
| Protocol.StepKeepsInv | controllers/job_tracker.go:178-361 | Every step of every actor keeps the protocol invariant |
| Protocol.StepUsesWork | controllers/job_tracker.go:178-361 | Every step of every actor strictly decreases one measure of the work left |
| Protocol.RunKeepsInv | controllers/job_tracker.go:178-361 | Over any sequence of steps the invariant holds at the end, and the number of steps is at most the work they used up |
| Protocol.SomeoneMoves | controllers/bayesopt.go:343-407 | No reachable state short of the finished sweep is a deadlock: it gives a step that is enabled |
| SweepRuns.HandshakeSafety | controllers/bayesopt.go:343-407 | In every interleaving no queue is closed twice or sent to after its close, each holds at most one element in order, sent is at least taken, reported and heard, and while a sampled job runs its optimizer waits for exactly that run's value |
| SweepRuns.TunedShape | controllers/common.go:428-461 | An auto-tuned job is created once per posted sample and once more, last, under the final profile, which is set by then; that is SamplingCount + 1 creations, at most rounds + 1; it is published only after the last one |
| SweepRuns.SequentialOrder | controllers/job_tracker.go:206-224 | In every reachable state the jobs taken off the list followed by the waiting list are the enumeration, and only the newest of them can be running |
| SweepRuns.PublishedIsBest | controllers/job_tracker.go:295-361 | Jobs are published in enumeration order, each at most once; the run published has the least value of all runs of that job if minimizing and the greatest otherwise, and is the earliest such run |
| SweepRuns.Termination | controllers/bayesopt.go:375-399 | No run takes more than jobs * (20 * rounds + 21) steps, whatever the interleaving |
| SweepRuns.StuckRunIsComplete | controllers/job_tracker.go:178-361 | A run that cannot go on has published every job, each auto-tuned one after its final run with its goroutine stopped, every other one after its single run, and has left no waiting list, interface, optimizer or best run in the tables |
| SweepRuns.RunGrows | controllers/bayesopt.go:343-407 | Along every run, between any earlier and any later moment: creations, runs, samples and reports of a job only get appended to, closed queues stay closed, raised flags stay raised, and once the final profile of an auto-tuned job is applied it stays the same and the job is not created again |
| SweepRuns.AppliedOnce | controllers/common.go:432-440 | In every run that ends with the final profile of an auto-tuned job applied, exactly one step applied it: before it the flag is down, from it on it is up |
| SweepRuns.LoneJobIsNotTuned | controllers/job_tracker.go:549-560 | A list of one auto-tuned job: no result ever reaches its optimizer and the job is created at most once; in a run that cannot go on it ran once, that run is published, and its goroutine is blocked for good exactly if the run was a sample |
| ParallelRuns.StepKeepsInv | controllers/job_tracker.go:178-234 | Every completion and every tracker step of a sweep with many jobs in flight keeps its invariant and is one step of progress |
| ParallelRuns.TrackTakesNext | controllers/job_tracker.go:206-224 | While jobs wait, dealing with a completed job forgets its optimizer and creates exactly the head of the waiting list |
| ParallelRuns.ParallelSafety | controllers/job_tracker.go:178-234 | In every reachable state nothing panics, created and waiting jobs are the plan with no job twice, no job is published twice, and as many jobs are in flight as were created at the start for as long as any wait; run length is exactly the progress made |
| ParallelRuns.ParallelRunIsComplete | controllers/job_tracker.go:178-234 | A run that cannot go on has published every job exactly once and has none waiting |
| Tracker.BaysesOptimizer.Finalize | controllers/bayesopt.go:401-407 | In place: marks the optimizer ready and closes both queues, only the first time |
| Tracker.BaysesOptimizer.SetFinalizedApplied | controllers/bayesopt.go:351-354 | In place: finalizes, then marks the final profile applied |
| Tracker.BaysesOptimizer.PutResult | controllers/job_tracker.go:332-335 | In place: the value is queued unless the optimizer is finalized |
| Tracker.BaysesOptimizer.NextUse | controllers/common.go:432-440 | In place: the oldest sample; on the closed queue the final profile once, then nothing |
| Tracker.Cluster.CreateIfNotExists | controllers/common.go:411-466 | In place: the outcome for a job with a result, a missing interface, a running, a complete and an absent job, tuned or not; what is created, under which profile, and what is returned |
| Tracker.TryOutcome | controllers/common.go:411-466 | When an attempt reports a new job and when an error, and exactly what it creates: nothing for a job with a result or one that runs, an untuned job only if it is absent, an auto-tuned one under the oldest sample, or under the final profile if the closed queue is empty |
| Creations.CreatedUnderSamples | controllers/common.go:428-461 | Over every history of attempts, completions and optimizer steps an auto-tuned job is created exactly under the samples posted and taken so far, each once and in order, followed by the final profile once it was applied |
| Creations.CreatedAtMostOnce | controllers/common.go:411-466 | Over every such history any other job is created, untuned, at the first attempt that finds it absent and never again |
| Creations.StepEvolves | controllers/bayesopt.go:343-407 | Every step of an optimizer goroutine is one that those histories allow |
| Creations.ResultEvolves | controllers/job_tracker.go:332-335 | ... and so is the sending of a result |
| Tracker.FailedTryKeepsOptimizer | controllers/common.go:411-466 | An attempt that creates nothing takes nothing from the optimizer and leaves the cluster as it was; it panics exactly for a job without a result and without an interface |
| Tracker.JobTracker.IndexOf | controllers/job_tracker.go:539-547 | The first position of the benchmark, or the number of subscribers |
| Tracker.JobTracker.IsExist | controllers/job_tracker.go:158-161 | True exactly for subscribed benchmarks |
| Tracker.JobTracker.Subscribe | controllers/job_tracker.go:549-564 | In place: a new benchmark is appended; list, interface and optimizers are kept only if jobs wait; a known one changes nothing |
| Tracker.JobTracker.Unsubscribe | controllers/job_tracker.go:566-589 | In place: the benchmark leaves the subscribers in order, with its list and interface if jobs wait; optimizers stay |
| Tracker.JobTracker.ProcessResult | controllers/job_tracker.go:295-361 | In place: the kept run and the table of best runs are those of Protocol.RecordCell, the kept run is at least as low as this one and the one kept before if minimizing, at least as high otherwise, the older one on a tie; the optimizer gets the value unless finalized; published exactly without an optimizer or with the final profile applied |
| Tracker.JobTracker.DeployWaitingResource | controllers/job_tracker.go:178-234 | In place: tables, cluster and optimizers after one call, as Deployed and TryCreate say, for the retry, the next job and neither |
| Tracker.SubscribeKeepsInv | controllers/job_tracker.go:549-564 | New distinct jobs keep the tables in order: no empty list, every waiting job with an optimizer and a name of its own, every listed benchmark with an interface and subscribed once; other benchmarks untouched |
| Tracker.UnsubscribeKeepsInv | controllers/job_tracker.go:566-589 | The tables stay in order without the benchmark, the other subscribers keep their order; other benchmarks untouched |
| Tracker.DeployKeepsInv | controllers/job_tracker.go:178-234 | The tables stay in order; a list only loses its head, which is the job handed on and has an interface; never an empty list; the finished job loses its optimizer exactly if its final profile was applied and it was not created again; other benchmarks untouched |
| Tracker.TablesInOrder | controllers/job_tracker.go:178-234 | After any history of subscriptions, completions and unsubscriptions of any number of benchmarks the tables are in order; a benchmark that was deleted may come back under job names it used before |
| Tracker.SubscribedIsServed | controllers/job_tracker.go:549-564 | A new subscription starts such a service: the whole list waits, and only the jobs created at the start were handed on |
| Tracker.ServedInOrder | controllers/job_tracker.go:178-234 | Over any history, whatever the other benchmarks do, a subscribed benchmark is served in the order of its list: the jobs handed on are a first part of it and the rest waits in its order |
| Tracker.SubscribeAgain | controllers/job_tracker.go:549-589 | Such histories exist: a benchmark just unsubscribed, whatever its first life was, may be subscribed again under any job names no other benchmark uses |
| TrackerSteps.TablesAgree | controllers/job_tracker.go:178-234 | In every reachable state of the protocol, the tracker's steps change tables, cluster and optimizers as one whole call of deployWaitingResource does, and the one creation it makes, if any, is of that job under exactly the profile its history of uses gained |
| Ranking.BetterIsStrict | controllers/job_tracker.go:481-486 | A value is better exactly if the other one is not as good: not as low if minimizing, not as high otherwise |
| Ranking.BestExtends | controllers/job_tracker.go:481-486 | The earliest of the least values, or of the greatest if not minimizing, stays so with one more run unless isBetterResult prefers the newcomer |
| Ranking.EarliestBestUnique | controllers/job_tracker.go:481-486 | There is only one earliest best |
| Aggregation.Benchmark.UpdateBenchmarkStatus | controllers/job_tracker.go:382-478 | In place: result groups, best results and the completed count after one published run; its item, with its own fields, is the last of its group: the name, pod, key, value and message given, the repetition found |
| Aggregation.Benchmark.PutResult | controllers/job_tracker.go:409-437 | In place: the item joins the first matching group or starts one, and the loop's sum over count is the mean of that group |
| Aggregation.Benchmark.PutBest | controllers/job_tracker.go:439-470 | In place: the entry of the key is added, replaced by a strictly better mean, or kept; it is never above the new mean if minimizing, never below it otherwise |
| Aggregation.Benchmark.PatchBenchmarkStatus | controllers/common.go:302-316 | In place: a new hash is recorded once, and the count is brought up to date only then |
| Aggregation.Benchmark.GetJobCompletedStatus | controllers/common.go:318-324 | The number of items in all groups, and the number of recorded hashes |
| ResultHistory.GroupsAreRepetitions | controllers/job_tracker.go:409-437 | After every history: group keys are unique and in first-arrival order, and each group holds exactly the items of its own events in arrival order |
| ResultHistory.CompletedCounts | controllers/common.go:318-324 | The completed count is the number of published runs |
| ResultHistory.BestOverHistory | controllers/job_tracker.go:439-470 | After every history each build, scenario and performance key has at most one best result: the earliest best of all running means ever offered for it, with the configuration that reached it |
| ResultHistory.EntryIsBestOffer | controllers/job_tracker.go:439-470 | After every history an entry has the least running mean ever offered for its key if minimizing, the greatest otherwise, and the configuration that reached it first |
| ResultHistory.GroupsShowMaps | controllers/job_tracker.go:409-437 | After every history a group shows the scenario values and the configuration of its first run, and, if that run had a tuned profile, the texts of all its runs one below the other |
| ResultHistory.EntriesUnbeaten | controllers/job_tracker.go:439-470 | After every history with one performance key per build and scenario no group averages better than an entry of the key, and without an entry no group concerns the key |
| ResultHistory.BestAverageOverHistory | iteration/README.md:86 | After every history with one performance key for the build and scenario, an entry is the best average if and only if some group now averages no worse than every running mean ever offered |
| ResultHistory.BestAverageInGeneral | iteration/README.md:86 | After every history whatever, an entry is the best average if and only if some group averages a value that was offered for the key, that no offer beats and that no other average beats |
| ResultHistory.NextRunExactly | iteration/README.md:86 | In every status reached by a history with one performance key for the build and scenario, one more run leaves the entry at the best average if and only if the new mean is no worse than the entry, or another group averages what the entry says |
| ResultHistory.BestAverageExactly | iteration/README.md:86 | For any status in which no group averages better than the entry before the update, the same condition decides one update |
| ResultHistory.SteadyMeansBestAverage | iteration/README.md:86 | If the build and scenario report under one performance key and no running mean gets worse, as in groups of one item, every entry of the key is the best average after every history |
| ResultHistory.BestNeedNotBeBestAverage | iteration/README.md:86 | Three runs after which the entry is 10 while the best average is 6 |
| SweepStatus.CompletedAtMostTotal | controllers/common.go:318-324 | With no job published twice, completed is at most total, and equal if and only if every recorded job is published |
| SweepStatus.SweepCompletes | controllers/common.go:318-324 | In every reachable state of a sequential sweep completed is at most total, the number of jobs; equal in a run that cannot go on |
| SweepStatus.ParallelSweepCompletes | controllers/common.go:318-324 | The same for a sweep with many jobs in flight |
| SweepStatus.StartIsInit | controllers/common.go:608-621 | A sequential start creates the first job of the enumeration and leaves the waiting list the protocol starts with |
| SweepStatus.GroupedIffRepetition | controllers/job_tracker.go:409-437 | Two published jobs of a sweep share a result group if and only if they have the same build and the same whole label |
| SweepStatus.GroupHoldsRepetitions | controllers/job_tracker.go:409-437 | The group of a job holds the items of exactly its published repetitions, in arrival order, and is the only one with its key |
| SweepStatus.CompeteIffSameScenario | controllers/job_tracker.go:439-470 | Over any history of a sweep two published runs compete for the same best result if and only if build, all scenario values and performance key agree |
| SweepStatus.FoundIsOwn | controllers/common.go:196-260 | The detail found for a started job is its own: its build, its repetition number in decimal, and ids that read back as its scenario and its configuration values |
| SweepStatus.OptimizersAreInit | controllers/common.go:552-606 | The optimizers a start subscribes are, one under each job name, those the protocol starts with |
| SweepStatus.JobsAreChoices | controllers/common.go:275-300 | From the item lists, with names, values and builds not repeated: there is exactly one job for every choice of one value per item that counts, every tracked build, or "init" without one, and every repetition number; and no other job |
| SweepStatus.SweepIsReadable | controllers/common.go:275-284 | From the item lists alone: the labels of all jobs have the same keys, each the name of a scenario or configuration item, and read back if no item name holds a semicolon and no value an equals sign |
| SweepStatus.GroupedIffSamePlace | controllers/job_tracker.go:409-437 | End to end, from the item lists: the runs published for two places (repetition, build, label) of the enumeration share a result group if and only if build and label have the same numbers |
| SweepStatus.SweepTotal | controllers/common.go:275-324 | From the item lists: the completed count of a sequential sweep is never more than repetitions times builds times the choices of one value per effective item, and is exactly that in a run that cannot go on |
| JobIdentity.BeforeMeans | controllers/common.go:187-194 | The order of keys is the byte order: the lesser byte at the first difference, or the shorter text, comes first |
| JobIdentity.OrderedKeys | controllers/common.go:187-194 | The keys of a map in byte order, each once |
| JobIdentity.GetSubfixFromIterationLabel | controllers/common.go:150-165 | The loop builds the suffix of the sorted pairs |
| JobIdentity.LabelDecodes | controllers/common.go:146-165 | The suffix decodes to its label if and only if no key holds a semicolon and no value an equals sign |
| JobIdentity.SuffixCollides | controllers/common.go:146-165 | Two different labels with one suffix |
| JobIdentity.FullKeyDecodes | controllers/common.go:171-176 | The hashed text decodes to label, build and repetition if and only if the label is clean and the build holds no further build marker |
| JobIdentity.FullKeyInjective | controllers/common.go:171-176 | For clean labels and builds, equal hashed texts come from the same label, build and repetition |
| JobIdentity.GetJobHash | controllers/common.go:171-176 | The decimal FNV-1a sum of the full key |
| JobIdentity.JobNameInjective | controllers/common.go:178-185 | A job name determines its benchmark and its hash |
| JobIdentity.OneByteApart | controllers/common.go:171-176 | Jobs whose full keys have equal length and differ in exactly one byte, of a label, a build or a repetition, never share a hash |
| JobIdentity.RepetitionsSeparate | controllers/common.go:171-176 | Repetition numbers of equal length that differ in one digit have different hashes |
| JobIdentity.FirstTenRepetitionsSeparate | controllers/common.go:171-185 | Repetitions 0 to 9 of one label and build have different job names |
| Fnv.Write | controllers/common.go:173-175 | The byte loop computes the FNV-1a sum |
| Fnv.KnownSums | controllers/common.go:173-175 | The sums of the empty text and of "a" are the known FNV-1a values |
| Fnv.OneByteSeparates | controllers/common.go:173-175 | Texts of equal length that differ in exactly one byte never share a sum |
| JobDetail.HashReadsBack | controllers/common.go:228-234 | The last piece of a split job name is its hash if and only if the benchmark name ends in "-cpeh" an even number of times |
| JobDetail.RecordKeepsDistinct | controllers/common.go:302-316 | Recording a hash never repeats one and never drops one |
| JobDetail.RecordedIsOwn | controllers/common.go:302-316 | A job that was recorded is found under its hash if and only if no other job took that hash before |
| JobDetail.GetDetailFromJobName | controllers/common.go:196-260 | The scan of the hashes and the loop over the keys give maps, ids, build and repetition of the recorded job, or the defaults |
| JobDetail.DetailRoundTrip | controllers/common.go:196-260 | A recorded job's name leads back to its own record, for benchmark names ending in "-cpeh" an even number of times, and to empty maps and ids with repetition 0 for the others |
| JobDetail.ForeignNameLeadsNowhere | controllers/common.go:228-260 | A name without the delimiter, and one whose last piece was never recorded, lead to empty maps and ids and repetition 0 |
| JobDetail.LabelSplitsExactly | controllers/common.go:238-247 | The scenario and configuration maps together are the whole label; the scenario map has exactly the scenario keys, the configuration map the other configuration keys |
| JobDetail.IdsReadBack | controllers/common.go:238-247 | The scenario id reads back as the scenario values and the configuration id as the configuration values; each is empty exactly without any |
| JobDetail.IdsMeanValues | controllers/common.go:238-247 | Two recorded jobs share the scenario id if and only if all scenario values agree, and the configuration id if and only if all configuration values agree |
| JobDetail.GroupMeansRepetition | controllers/job_tracker.go:412-413 | Group ids agree if and only if build and whole label agree |
| Combination.GetAllCombination | controllers/iteration.go:268-295 | The nested loops compute the combinations |
| Combination.CombinationsAreProduct | controllers/iteration.go:268-295 | For every list of items the combinations are, in order, the mixed-radix labels of the items behind the last one without values |
| Combination.EffectiveIsAll | controllers/iteration.go:268-295 | Every item counts if and only if each has a value |
| Combination.EntryAt | controllers/iteration.go:268-295 | Label k gives item i its value number (k / product of the earlier sizes) mod its size |
| Combination.EveryChoiceOnce | controllers/iteration.go:268-295 | With distinct names and values given and not repeated, the labels are exactly the choices of one value per item, each once |
| Sweep.GetIteratedValues | controllers/common.go:275-300 | Labels, builds and repetitions with their defaults; no label where taking the first one panics |
| Sweep.LabelsShareKeys | controllers/common.go:275-284 | The start panics if and only if the last item lists no value; otherwise all labels share one set of keys |
| Sweep.LabelAt | controllers/common.go:275-284 | Label number k is the mixed-radix choice number k of the items behind the last one without values |
| Sweep.LabelsAreChoices | controllers/common.go:275-284 | With names and values not repeated the labels are exactly the choices of one value for each of those items, each once |
| Sweep.EnumerationHolds | controllers/common.go:539-632 | A job is enumerated if and only if its label, its build and its repetition number are among those given |
| Sweep.EnumerationAt | controllers/common.go:539-632 | The job of a label, a build and a repetition stands at the position r * builds * labels + b * labels + i |
| Sweep.CreateFromOperator | controllers/common.go:531-632 | The loops over repetitions, builds and labels record every hash, make every optimizer, and create or list every job as PlanOf says |
| Sweep.PlanConserves | controllers/common.go:539-632 | What is created and what waits are the enumeration, nothing lost and nothing twice |
| Sweep.SequentialPlan | controllers/common.go:608-621 | A sequential sweep creates the first job only; the others wait in order |
| Sweep.ParallelPlan | controllers/common.go:570-581 | Any other sweep lets exactly the first labels of later builds and repetitions wait and creates all other jobs, in order |
| Sweep.NoneCreatedTwice | controllers/common.go:539-632 | Whatever the names, no job name is created twice |
| Sweep.RecordsAreJobs | controllers/common.go:302-316 | With distinct job names there is one record per job, at the job's own place |
| Tokens.GetToken | controllers/iteration.go:224-248 | The loop over the segments computes the tokens, or panics on an empty segment |
| Tokens.GetTokens | controllers/iteration.go:214-222 | The loop over the paths computes their tokens, or panics on an empty path |
| Tokens.EmptySegmentPanics | controllers/iteration.go:224-248 | A path panics if and only if one of its segments is empty |
| Tokens.OpenQuoteIsDropped | controllers/iteration.go:224-248 | A parenthesis never closed swallows the rest of its path |
| Tokens.PathsPanic | controllers/iteration.go:214-222 | A location panics if and only if a path is empty or has an empty segment behind its first byte |
| Tokens.PathRoundTrip | controllers/iteration.go:224-248 | A printed path is read as its tokens if and only if there is one and each is readable |
| Tokens.LocationRoundTrip | controllers/iteration.go:214-248 | A printed location of several paths is read back under the same condition |
| SpecTree.FindSelector | controllers/iteration.go:88-98 | The position of the first element whose field has the selected value, the length if none has, a panic where an element or its field has another type |
| SpecTree.PutGet | controllers/iteration.go:125-212 | After a write that lands, the same path reads what was written, coerced to the type that was there, and reading changes nothing |
| SpecTree.PutGetExact | controllers/iteration.go:125-212 | For every object, path and value the path reads back what was written if and only if the write lands |
| SpecTree.TrueSpellings | controllers/iteration.go:117-118 | A truth value is set by exactly six spellings; any other text writes false |
| SpecPlaces.KeyReadsBack | controllers/iteration.go:40-80 | A printed field, index or selector is read as itself if and only if its names, number and values hold none of the brackets and equal signs that would cut it, and the number fits 64 bits |
| SpecPlaces.ParsedIsReadable | controllers/iteration.go:40-80 | Whatever text a key is read from, it is such a key |
| SpecPlaces.UpdateIsPut | controllers/iteration.go:125-212 | A write goes to the place its keys stand for, told by field names, list positions and selected values, creates the way there if it is absent, and leaves everything else as it was |
| SpecPlaces.ReadIsAt | controllers/iteration.go:299-316 | A read returns what stands at that place, or "nil" for nothing |
| SpecPlaces.PlacePutGet | controllers/iteration.go:250-330 | End to end, from a spelled-out location to the tree: writing changes exactly that place to the value in the type of the place, and reading the location returns it |
| SpecFrame.Frame | controllers/iteration.go:125-212 | A write on a proper path leaves every separate path reading what it read before |
| SpecFrame.ProperKept | controllers/iteration.go:125-212 | It also keeps separate paths proper, with the type of what stands there |
| SpecFrame.ReadIsProbe | controllers/iteration.go:299-316 | Reading finds what lies at the end of the path, or "nil", and touches nothing where something is found |
| SpecFrame.AllWritten | controllers/iteration.go:250-265 | Writes on pairwise separate proper paths leave every location with its own value |
| SpecFrame.OrderDoesNotShow | controllers/iteration.go:250-265 | ... and any rearrangement of them leaves the same values there and at every separate path |
| SpecFrame.SpecObject.UpdateValue | controllers/iteration.go:250-265 | In place: the paths take the values in turn; "nil" changes nothing; false where the code panics |
| SpecFrame.SpecObject.GetValue | controllers/iteration.go:318-330 | In place: the values at all paths, nil if one is the empty string; reading inserts empty lists |
| SpecFrame.LocationWritten | controllers/iteration.go:250-265 | Setting a location to "nil" changes nothing; else every path that has a value holds it, and the paths beyond the last value and all separate paths hold what they held |
| SpecFrame.SetThenGet | controllers/iteration.go:250-330 | Setting a location and reading it returns every value under the type of its place, or nil if one of them is the empty string, and changes nothing |
| SpecFrame.ShownAsWritten | controllers/iteration.go:107-123 | A value shows as it was written if and only if it is canonical for the type of its place |
| Text.ParseForgives | controllers/iteration.go:113-114 | Text that is no number counts as 0; a plus sign and leading zeros do not count |
| Text.ParseClamps | controllers/iteration.go:113-114 | A number beyond 64 bits counts as the nearest bound |
| Text.CanonicalInt64Exact | controllers/iteration.go:113-114 | Rendering a parsed 64-bit integer gives the text back if and only if the text is canonical |
| SearchSpace.CreateSetParam | controllers/bayesopt.go:125-147 | The loop fills the slots with the listed values; a wrong line or 20 and more values are refused |
| SearchSpace.SetLineReadsBack | controllers/bayesopt.go:125-147 | A line of values is read as those values, and refused if and only if there are 20 or more |
| SearchSpace.IntLineReadsBack | controllers/bayesopt.go:149-178 | A line of bounds and step is read as those bounds and that step; without a step it is 1 |
| SearchSpace.IntLineAccepted | controllers/bayesopt.go:149-178 | A line of an integer is refused if and only if it lists fewer than two texts or one of the first three is no 64-bit number |
| SearchSpace.SetLookup | controllers/bayesopt.go:53-81 | Every accepted value of a set parameter is looked up inside the 20 slots and is fixed by validation; below the bound it finds a listed value, at the bound the empty string |
| SearchSpace.ValueReadsBack | controllers/bayesopt.go:53-81 | The text of a parameter's value: the decimals of the integer, which read back, the listed value of the set, or what renders the real |
| SearchSpace.ValidateIdempotent | controllers/bayesopt.go:108-110 | Validating twice is validating once, and an integer result is a multiple of the step, for a step of zero as well |
| SearchSpace.BoundsFitExactly | controllers/bayesopt.go:108-110 | All accepted values of an integer parameter stay in bounds if and only if each bound on the far side of zero is a multiple of the step |
| SearchSpace.DrawnIsValid | controllers/bayesopt.go:104-110 | A value that sampling draws is left alone by validation if and only if the step divides the lower bound |
| SearchSpace.ValidateSample | controllers/bayesopt.go:356-373 | The loop accepts a sample if and only if every value is in range, and then returns every value validated |
| SearchSpace.AcceptedSample | controllers/bayesopt.go:356-373 | A validated sample of parameters made by the constructors: every set value lies inside its array, so the conversion cannot panic, every integer is a multiple of its step, validating again changes nothing, and everything is in range where the bounds fit the step |
| SearchSpace.ConvertToProfile | controllers/bayesopt.go:290-303 | The loop succeeds if and only if every name has a tune type and every set value lies inside its array; otherwise it ends with the error for a name without a type or the panic for such a value; every entry is the text of a parameter of that name under its type |
| SearchSpace.OneEntryPerParameter | controllers/bayesopt.go:290-303 | A converted profile has one entry per parameter if and only if the names are distinct, each with the text of its own parameter |
| SearchSpace.ProfileIsUnique | controllers/bayesopt.go:290-303 | With distinct names the profile does not depend on the order in which the map is visited |

## Left out

- Kubernetes, Helm and OpenShift calls, informers, RBAC and object decoding are not modelled; the cluster is a map from job names to absent, running or complete.
- The internals of the optimizer library are not part of this model; it is a caller that stops after at most `rounds` evaluations.
- Cloud object storage, the parser's HTTP interface, pod deletion, node labels, sleeps, log parsers and the Prometheus export are foreign effects.
- Template execution, YAML decoding and the sanitized pod labels of `getValidValue` are library work or single-branch facts.
- `%f` and `%.2f` rounding and `PushedTime` are not modelled; performance values are exact, and the texts of floats are a parameter.
- `strconv.ParseFloat` and float parameters read from text are a parameter or absent; 64-bit integers are parsed in full.
- Protocol: one benchmark at a time, sequential, and without failing API calls; several benchmarks meet in `Tracker.TablesInOrder`, many jobs in flight in `ParallelRuns`.
- The capacity of the job queue is not modelled; the tuning queues never hold more than one element in a reachable state. Go memory-model races on the flags are not modelled.
- The window between `Unsubscribe` and the deletion of a benchmark, and a benchmark that starts with results or jobs left from before, are not modelled in the runs; the classes take any state.
- Tracker.Cluster.CreateIfNotExists: cluster calls that fail, the profile calls of the node tuner among them, are left out; every call is taken to succeed.
- Tracker.JobTracker.ProcessResult: the loop over pods, reading their logs and parser errors are left out; it starts from the value the parser returned for the newest run.
- Tracker: a blocking receive is considered from the moment it can return, so the classes run without interleaving; interleavings are in `Protocol`.
- Aggregation.Benchmark.UpdateBenchmarkStatus: `%f` rounding of values and means and the push time are left out.
- Sweep.CreateFromOperator: it starts on a cluster without jobs of the benchmark, no call fails, and an auto-tuned first job counts as created, whichever sample it waited for.
- SpecFrame.SpecObject.UpdateValue: the object after a panic, and aliasing of what is patched in place, are not described.
- SpecFrame.SpecObject.GetValue: it returns the values found, before `%v` turns lists and maps into text.
- SpecTree: Go patches the nested maps and lists in place; here an update returns a new tree, so aliasing between subtrees and partial changes before a panic are not captured. `SpecFrame.SpecObject` holds the tree in a field.
- SpecTree.ParseKey: a selector without `=` inside its brackets is refused at once, where Go panics only once an element has the field.
- SpecFrame.Shown: the text of a list or a map found by `GetValue` is not modelled.
- JobIdentity: labels are read back by decoders of the model's own; the operator has no decoder for suffixes. Collisions of FNV sums beyond one differing byte are possible, and distinct job names are then an assumption.
- `JobListChanged`, `DeleteFromOperator`, `NewTracker` and the adaptors' `CheckComplete` and `CopyJobResource` would only add easy members.
