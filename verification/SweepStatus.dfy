/** What the status of a benchmark says about its sweep: the count of completed jobs, and which jobs
    share a result group (controllers/common.go, controllers/job_tracker.go). */
module SweepStatus {
  import opened Text
  import opened Arithmetic
  import opened Lists
  import opened JobIdentity
  import opened JobDetail
  import opened Aggregation
  import opened ResultHistory
  import opened Sweep
  import Combination
  import P = Protocol
  import Q = ParallelRuns
  import R = SweepRuns
  import T = Tracker

  // ---------------------------------------------------------------- completed and total

  /** Which recorded hash each event belongs to. */
  ghost predicate Belong(benchmark: string, hashes: seq<IterationHash>, events: seq<Event>, own: seq<nat>) {
    && |own| == |events|
    && forall n :: 0 <= n < |events| ==>
         own[n] < |hashes| && events[n].item.jobName == JobName(benchmark, hashes[own[n]].hash)
  }

  ghost predicate EachOnce(events: seq<Event>) {
    forall m, n :: 0 <= m < n < |events| ==> events[m].item.jobName != events[n].item.jobName
  }

  /** Distinct numbers below a bound are no more than the bound, and as many exactly if none is left out. */
  lemma Pigeonhole(own: seq<nat>, bound: nat)
    requires Distinct(own) && forall n :: 0 <= n < |own| ==> own[n] < bound
    ensures |own| <= bound
    ensures |own| == bound <==> forall i: nat :: i < bound ==> i in own
  {
    var all := seq(bound, i requires 0 <= i < bound => i);
    forall x | x in own ensures x in all { assert all[x] == x; }
    DistinctCount(own, all);
    if forall i: nat :: i < bound ==> i in own { DistinctCount(all, own); }
    if |own| == bound {
      forall i: nat | i < bound ensures i in own { assert all[i] == i; }
    }
  }

  /** If no job is published twice, the completed count never exceeds the total, and reaches it exactly
      when every recorded job is published. */
  lemma CompletedAtMostTotal(benchmark: string, hashes: seq<IterationHash>, events: seq<Event>, own: seq<nat>,
                             minimize: bool)
    requires DistinctHashes(hashes) && Belong(benchmark, hashes, events, own) && EachOnce(events)
    ensures Completed(Replay(events, minimize).results) <= |hashes|
    ensures Completed(Replay(events, minimize).results) == |hashes| <==> forall i: nat :: i < |hashes| ==> i in own
  {
    CompletedCounts(events, minimize);
    hide Replay, Completed;
    forall m, n | 0 <= m < n < |own| ensures own[m] != own[n] {
      assert events[m].item.jobName != events[n].item.jobName;
    }
    Pigeonhole(own, |hashes|);
  }

  /** The published jobs of a run, as the events that updateBenchmarkStatus makes of them. */
  ghost predicate EventsOf(events: seq<Event>, published: seq<P.Publication>) {
    && |events| == |published|
    && forall n :: 0 <= n < |events| ==> events[n].item.jobName == published[n].job
  }

  /** The sweep that a sequential start of `keys` sets off. */
  ghost predicate Starts(c: P.Config, benchmark: string, keys: seq<JobKey>) {
    |keys| > 1 && c.jobs == NamesOf(benchmark, keys)
  }

  lemma StartIsInit(c: P.Config, benchmark: string, keys: seq<JobKey>, labels: nat)
    requires Starts(c, benchmark, keys) && P.ValidConfig(c) && labels > 0
    ensures var plan := PlanOf(NamesOf(benchmark, keys), labels, true);
      plan.created == [c.jobs[0]] && plan.waiting == P.Init(c).waiting
  {
    SequentialPlan(c.jobs, labels);
  }

  /** ... and the optimizers it subscribes are those the protocol starts with, one under each job name. */
  lemma OptimizersAreInit(c: P.Config, benchmark: string, keys: seq<JobKey>, tuned: set<Label>,
                          optMap: map<string, T.BaysesOptimizer>)
    requires Starts(c, benchmark, keys) && P.ValidConfig(c) && OptimizersOf(optMap, benchmark, keys, tuned)
    requires forall i :: 0 <= i < |keys| ==> (c.jobs[i] in c.tuned <==> keys[i].choice in tuned)
    ensures forall j :: j in optMap <==> j in c.jobs
    ensures forall j :: j in c.jobs ==> optMap[j].View() == P.InitCell(c, j).opt.b
  {
    hide NameOf;
    forall j | j in c.jobs ensures j in optMap && optMap[j].View() == P.InitCell(c, j).opt.b {
      var i :| 0 <= i < |c.jobs| && c.jobs[i] == j;
      assert NameOf(benchmark, keys[i]) == j;
      var k :| 0 <= k < |keys| && NameOf(benchmark, keys[k]) == j
               && optMap[j].View() == FirstView(keys[k].choice in tuned);
      assert c.jobs[k] == j && k == i;
    }
    forall j | j in optMap ensures j in c.jobs {
      var i :| 0 <= i < |keys| && NameOf(benchmark, keys[i]) == j
               && optMap[j].View() == FirstView(keys[i].choice in tuned);
      assert c.jobs[i] == j;
    }
  }

  /** In every reachable state of a sequential sweep the completed count is at most the total, and in
      one that cannot go on both are the number of jobs enumerated. */
  lemma SweepCompletes(c: P.Config, steps: seq<P.Step>, s: P.State, benchmark: string, keys: seq<JobKey>,
                       events: seq<Event>)
    requires R.Run(c, steps, s) && Starts(c, benchmark, keys) && EventsOf(events, s.published)
    ensures var completed, total := Completed(Replay(events, c.minimize).results), |RecordAll(keys)|;
      && completed <= total == |keys|
      && (P.Stuck(c, s) ==> completed == total)
  {
    CompletedCounts(events, c.minimize);
    RecordsAreJobs(benchmark, keys);
    hide Replay, Completed, RecordAll, HashItem, NameOf;
    PublishedBound(c, steps, s);
    if P.Stuck(c, s) { R.StuckRunIsComplete(c, steps, s); }
  }

  lemma PublishedBound(c: P.Config, steps: seq<P.Step>, s: P.State)
    requires R.Run(c, steps, s) && |c.jobs| > 1
    ensures |s.published| <= |c.jobs|
  {
    if s.published != [] { R.PublishedIsBest(c, steps, s, |s.published| - 1); }
  }

  /** The same of a sweep that runs its jobs at once. */
  lemma ParallelSweepCompletes(benchmark: string, keys: seq<JobKey>, labels: nat, dr: string, steps: seq<Q.Step>,
                               s: Q.State, events: seq<Event>, minimize: bool)
    requires labels > 0 && Q.Run(NamesOf(benchmark, keys), labels, benchmark, dr, steps, s)
    requires |events| == |s.published| && forall n :: 0 <= n < |events| ==> events[n].item.jobName == s.published[n]
    ensures EachOnce(events)
    ensures var completed, total := Completed(Replay(events, minimize).results), |RecordAll(keys)|;
      && completed <= total == |keys|
      && ((forall step :: !Q.Enabled(s, step)) ==> completed == total)
  {
    var names := NamesOf(benchmark, keys);
    CompletedCounts(events, minimize);
    RecordsAreJobs(benchmark, keys);
    hide Replay, Completed, RecordAll, HashItem, NameOf, Q.Run;
    Q.ParallelSafety(names, labels, benchmark, dr, steps, s);
    assert Distinct(names) by { RunNames(names, labels, benchmark, dr, steps, s); }
    DistinctCount(s.published, names);
    if forall step :: !Q.Enabled(s, step) { Q.ParallelRunIsComplete(names, labels, benchmark, dr, steps, s); }
  }

  lemma RunNames(names: seq<string>, labels: nat, benchmark: string, dr: string, steps: seq<Q.Step>, s: Q.State)
    requires labels > 0 && Q.Run(names, labels, benchmark, dr, steps, s)
    ensures Distinct(names)
  {
  }

  // ---------------------------------------------------------------- groups are repetitions

  /** Each event is of a started job, with the detail its name leads to. */
  ghost predicate Details(benchmark: string, keys: seq<JobKey>, spec: Spec, events: seq<Event>, own: seq<nat>) {
    && |own| == |events|
    && forall n :: 0 <= n < |events| ==>
         own[n] < |keys| && events[n].detail == DetailOf(RecordAll(keys), spec, NameOf(benchmark, keys[own[n]]))
  }

  /** The labels of a sweep: they share the names of its items, and read back from their suffix. */
  ghost predicate Readable(keys: seq<JobKey>, spec: Spec) {
    forall i :: 0 <= i < |keys| ==>
      && keys[i].choice.Keys == keys[0].choice.Keys <= spec.iterations + spec.configurations
      && Clean(keys[i].choice)
  }

  lemma StartedJobIsFound(benchmark: string, keys: seq<JobKey>, spec: Spec, i: nat)
    requires i < |keys| && Distinct(NamesOf(benchmark, keys)) && Trail(benchmark) % 2 == 0
    ensures DetailOf(RecordAll(keys), spec, NameOf(benchmark, keys[i]))
      == DetailOfHash(HashItem(keys[i]), keys[0].choice.Keys, spec)
  {
    RecordsAreJobs(benchmark, keys);
    RecordsDistinct(keys);
    var hashes := RecordAll(keys);
    hide RecordAll, DetailOf, DetailOfHash, Trail;
    forall j | 0 <= j < |hashes| ensures '-' !in hashes[j].hash { HashHasNoDash(keys[j]); }
    DetailRoundTrip(benchmark, hashes, spec, i);
  }

  /** What is found for a started job: its own build, its repetition number in decimal, and its own
      scenario and configuration values. */
  lemma FoundIsOwn(benchmark: string, keys: seq<JobKey>, spec: Spec, i: nat)
    requires i < |keys| && Distinct(NamesOf(benchmark, keys)) && Trail(benchmark) % 2 == 0 && Readable(keys, spec)
    ensures var d := DetailOf(RecordAll(keys), spec, NameOf(benchmark, keys[i]));
      && d.buildID == keys[i].build
      && AllDigits(d.repetition) && NatOf(d.repetition) == keys[i].repetition
      && d.iterationMap + d.configurationMap == keys[i].choice
      && d.iterationMap.Keys == keys[i].choice.Keys * spec.iterations
      && (d.iterationMap != map[] ==> DecodeLabel(";" + d.iterationID) == d.iterationMap)
      && (d.configurationMap != map[] ==> DecodeLabel(";" + d.configurationID) == d.configurationMap)
  {
    StartedJobIsFound(benchmark, keys, spec, i);
    LabelSplitsExactly(HashItem(keys[i]), spec);
    IdsReadBack(HashItem(keys[i]), spec);
    ShowNatParses(keys[i].repetition);
    hide DetailOf, DetailOfHash, Trail, Clean, RecordAll, DecodeLabel, ShowNat, JobHash;
  }

  /** Over any history of a sweep, two published jobs fall into the same result group exactly when they
      are repetitions of one another: the same build and the same whole label. */
  lemma GroupedIffRepetition(benchmark: string, keys: seq<JobKey>, spec: Spec, events: seq<Event>, own: seq<nat>,
                             m: nat, n: nat)
    requires Details(benchmark, keys, spec, events, own) && Readable(keys, spec)
    requires Distinct(NamesOf(benchmark, keys)) && Trail(benchmark) % 2 == 0
    requires m < |events| && n < |events|
    ensures KeyOf(events[m].detail) == KeyOf(events[n].detail)
      <==> keys[own[m]].build == keys[own[n]].build && keys[own[m]].choice == keys[own[n]].choice
  {
    var a, b := keys[own[m]], keys[own[n]];
    StartedJobIsFound(benchmark, keys, spec, own[m]);
    StartedJobIsFound(benchmark, keys, spec, own[n]);
    hide DetailOf, DetailOfHash, Trail, Clean;
    GroupMeansRepetition(HashItem(a), HashItem(b), spec);
  }

  /** Over any history of a sweep, two published runs compete for the same best result exactly when they
      have the same build, the same scenario values and the same performance key. */
  lemma CompeteIffSameScenario(benchmark: string, keys: seq<JobKey>, spec: Spec, events: seq<Event>, own: seq<nat>,
                               m: nat, n: nat)
    requires Details(benchmark, keys, spec, events, own) && Readable(keys, spec)
    requires Distinct(NamesOf(benchmark, keys)) && Trail(benchmark) % 2 == 0
    requires m < |events| && n < |events|
    ensures var a, b := keys[own[m]], keys[own[n]];
      BestKeyOf(events[m]) == BestKeyOf(events[n])
      <==> a.build == b.build && events[m].item.performanceKey == events[n].item.performanceKey
           && forall k :: k in a.choice && k in spec.iterations ==> k in b.choice && a.choice[k] == b.choice[k]
  {
    var a, b := keys[own[m]], keys[own[n]];
    StartedJobIsFound(benchmark, keys, spec, own[m]);
    StartedJobIsFound(benchmark, keys, spec, own[n]);
    BuildsKept(HashItem(a), HashItem(b), keys[0].choice.Keys, spec);
    hide DetailOf, DetailOfHash, Trail, Clean;
    IdsMeanValues(HashItem(a), HashItem(b), spec);
  }

  lemma BuildsKept(a: IterationHash, b: IterationHash, keys: set<string>, spec: Spec)
    ensures DetailOfHash(a, keys, spec).buildID == a.build && DetailOfHash(b, keys, spec).buildID == b.build
  {
  }

  /** ... so the group of a job holds the items of exactly its repetitions that were published, in the
      order they arrived. */
  lemma GroupHoldsRepetitions(benchmark: string, keys: seq<JobKey>, spec: Spec, events: seq<Event>, own: seq<nat>,
                              minimize: bool, n: nat) returns (g: nat)
    requires Details(benchmark, keys, spec, events, own) && Readable(keys, spec)
    requires Distinct(NamesOf(benchmark, keys)) && Trail(benchmark) % 2 == 0
    requires n < |events|
    ensures var results := Replay(events, minimize).results;
      && g < |results|
      && results[g].items == RepetitionItems(keys, events, own, keys[own[n]])
      && forall h :: 0 <= h < |results| && h != g ==> ResultKey(results[h]) != ResultKey(results[g])
  {
    GroupsAreRepetitions(events, minimize);
    var key := KeyOf(events[n].detail);
    g := FirstsHold(events, n);
    hide Details, Replay, Firsts, ItemsOf, KeyOf, RepetitionItems, Readable, Distinct, Trail;
    ItemsAreRepetitions(benchmark, keys, spec, events, own, n, |events|);
    assert events[..|events|] == events && own[..|events|] == own by { OwnSize(benchmark, keys, spec, events, own); }
  }

  lemma OwnSize(benchmark: string, keys: seq<JobKey>, spec: Spec, events: seq<Event>, own: seq<nat>)
    requires Details(benchmark, keys, spec, events, own)
    ensures |own| == |events| && forall n :: 0 <= n < |own| ==> own[n] < |keys|
  {
  }

  lemma {:induction false} FirstsHold(events: seq<Event>, n: nat) returns (g: nat)
    requires n < |events|
    ensures g < |Firsts(events)| && Firsts(events)[g] == KeyOf(events[n].detail)
  {
    if n < |events| - 1 {
      g := FirstsHold(events[..|events| - 1], n);
    } else {
      g :| 0 <= g < |Firsts(events)| && Firsts(events)[g] == KeyOf(events[n].detail);
    }
  }

  /** The items of the events whose job has the build and the label of `key`. */
  function RepetitionItems(keys: seq<JobKey>, events: seq<Event>, own: seq<nat>, key: JobKey): seq<ResultItem>
    requires |own| == |events| && forall n :: 0 <= n < |own| ==> own[n] < |keys|
  {
    if events == [] then []
    else
      var n := |events| - 1;
      var init := RepetitionItems(keys, events[..n], own[..n], key);
      if keys[own[n]].build == key.build && keys[own[n]].choice == key.choice then init + [events[n].item] else init
  }

  lemma {:induction false} ItemsAreRepetitions(benchmark: string, keys: seq<JobKey>, spec: Spec, events: seq<Event>,
                                               own: seq<nat>, n: nat, upto: nat)
    requires Details(benchmark, keys, spec, events, own) && Readable(keys, spec)
    requires Distinct(NamesOf(benchmark, keys)) && Trail(benchmark) % 2 == 0
    requires n < |events| && upto <= |events|
    ensures ItemsOf(events[..upto], KeyOf(events[n].detail))
      == RepetitionItems(keys, events[..upto], own[..upto], keys[own[n]])
  {
    hide Details, Readable, Distinct, Trail, KeyOf, ItemsOf, RepetitionItems;
    OwnSize(benchmark, keys, spec, events, own);
    if upto > 0 {
      ItemsAreRepetitions(benchmark, keys, spec, events, own, n, upto - 1);
      GroupedIffRepetition(benchmark, keys, spec, events, own, upto - 1, n);
      ItemsStep(events, KeyOf(events[n].detail), upto - 1);
      RepetitionItemsStep(keys, events, own, keys[own[n]], upto - 1);
    } else {
      NoItems(keys, KeyOf(events[n].detail), keys[own[n]]);
      assert events[..0] == [] && own[..0] == [];
    }
  }

  lemma NoItems(keys: seq<JobKey>, key: GroupKey, job: JobKey)
    ensures ItemsOf([], key) == [] == RepetitionItems(keys, [], [], job)
  {
  }

  lemma ItemsStep(events: seq<Event>, key: GroupKey, n: nat)
    requires n < |events|
    ensures ItemsOf(events[..n + 1], key) == ItemsOf(events[..n], key) +
      if KeyOf(events[n].detail) == key then [events[n].item] else []
  {
    assert events[..n + 1][..n] == events[..n];
  }

  lemma RepetitionItemsStep(keys: seq<JobKey>, events: seq<Event>, own: seq<nat>, key: JobKey, n: nat)
    requires |own| == |events| && (forall i :: 0 <= i < |own| ==> own[i] < |keys|) && n < |events|
    ensures RepetitionItems(keys, events[..n + 1], own[..n + 1], key)
      == RepetitionItems(keys, events[..n], own[..n], key) +
      if keys[own[n]].build == key.build && keys[own[n]].choice == key.choice then [events[n].item] else []
  {
    assert events[..n + 1][..n] == events[..n] && own[..n + 1][..n] == own[..n];
  }

  // ---------------------------------------------------------------- from the item lists

  /** `keys` are the jobs of a sweep over scenario items and configuration items (with node selection
      among the latter), as GetCombinedIterations and GetIteratedValues make them. */
  ghost predicate Enumerates(keys: seq<JobKey>, iterations: seq<Combination.Item>,
                             configurations: seq<Combination.Item>, tracked: seq<string>, repetition: int) {
    var labels := Labels(iterations + configurations);
    labels.Some? && keys == Enumeration(labels.value, Builds(tracked), Repetitions(repetition))
  }

  /** The names by which GetDetailFromJobName tells scenario values from configuration values. */
  ghost function SpecOf(iterations: seq<Combination.Item>, configurations: seq<Combination.Item>): Spec {
    Spec(Combination.Names(iterations), Combination.Names(configurations))
  }

  /** No item name has a ';' and no value has a '='. */
  ghost predicate CleanItems(items: seq<Combination.Item>) {
    forall item :: item in items ==> ';' !in item.name && forall v :: v in item.values ==> '=' !in v
  }

  lemma {:induction false} EntryClean(items: seq<Combination.Item>, k: nat)
    requires Combination.NoneEmpty(items) && CleanItems(items)
    ensures Clean(Combination.Entry(items, k))
    decreases |items|
  {
    if items != [] {
      var init, last := Combination.Init(items), Combination.Last(items);
      EntryClean(init, k);
      Combination.EntryUnfolds(items, k);
      assert last in items;
    }
  }

  lemma {:induction false} EffectiveHeld(items: seq<Combination.Item>)
    ensures forall item :: item in Combination.Effective(items) ==> item in items
  {
    if items != [] {
      EffectiveHeld(Combination.Init(items));
      assert items == Combination.Init(items) + [Combination.Last(items)];
    }
  }

  lemma LabelsClean(items: seq<Combination.Item>)
    requires CleanItems(items) && Labels(items).Some?
    ensures forall i :: 0 <= i < |Labels(items).value| ==> Clean(Labels(items).value[i])
  {
    var effective := Combination.Effective(items);
    EffectiveHeld(items);
    Combination.CombinationsAreProduct(items);
    hide Clean, Combination.Entry, Combination.Effective, Combination.AllCombinations;
    forall k: nat ensures Clean(Combination.Entry(effective, k)) { EntryClean(effective, k); }
    if items == [] { NoLabelIsClean(); }
  }

  lemma NoLabelIsClean()
    ensures Clean(map[])
  {
  }

  /** From the item lists alone: the labels of all jobs have the same keys, each the name of an item,
      and can be read back if no item name has a ';' and no value a '='. */
  lemma SweepIsReadable(keys: seq<JobKey>, iterations: seq<Combination.Item>, configurations: seq<Combination.Item>,
                        tracked: seq<string>, repetition: int)
    requires Enumerates(keys, iterations, configurations, tracked, repetition)
    requires CleanItems(iterations + configurations)
    ensures Readable(keys, SpecOf(iterations, configurations))
  {
    var items, spec := iterations + configurations, SpecOf(iterations, configurations);
    var effective, labels := Combination.Effective(items), Labels(items).value;
    LabelsShareKeys(items);
    LabelsClean(items);
    EffectiveHeld(items);
    assert Combination.Names(effective) <= spec.iterations + spec.configurations;
    EnumerationFrom(labels, Builds(tracked), Repetitions(repetition));
    hide Clean, Combination.Names, Combination.Effective, Labels, Enumeration;
    forall i | 0 <= i < |keys|
      ensures keys[i].choice.Keys == Combination.Names(effective) && Clean(keys[i].choice)
    {
      assert keys[i] in keys;
    }
  }

  /** From the item lists alone, with names, values and builds not repeated: for every choice of one value
      for each item that counts, every tracked build, or "init" if there is none, and every repetition
      number below the repetition, at least 0, there is exactly one job; and there is no other job. */
  lemma JobsAreChoices(keys: seq<JobKey>, iterations: seq<Combination.Item>, configurations: seq<Combination.Item>,
                       tracked: seq<string>, repetition: int, key: JobKey)
    requires Enumerates(keys, iterations, configurations, tracked, repetition)
    requires Unrepeated(Combination.Effective(iterations + configurations)) && Distinct(tracked)
    ensures Distinct(keys)
    ensures key in keys <==>
      && Combination.Chooses(Combination.Effective(iterations + configurations), key.choice)
      && (if tracked == [] then key.build == "init" else key.build in tracked)
      && (key.repetition == 0 || key.repetition < repetition)
  {
    var labels := Labels(iterations + configurations).value;
    LabelsAreChoices(iterations + configurations, key.choice);
    EnumerationFrom(labels, Builds(tracked), Repetitions(repetition));
    EnumerationHolds(labels, Builds(tracked), Repetitions(repetition), key);
    hide Labels, Enumeration, Combination.Chooses;
  }

  /** Repetitions times builds times choices of one value of each effective item. */
  function JobCount(items: seq<Combination.Item>, tracked: seq<string>, repetition: int): nat {
    Repetitions(repetition) * (|Builds(tracked)| * Combination.Choices(Combination.Effective(items)))
  }

  lemma SweepSize(keys: seq<JobKey>, iterations: seq<Combination.Item>, configurations: seq<Combination.Item>,
                  tracked: seq<string>, repetition: int)
    requires Enumerates(keys, iterations, configurations, tracked, repetition)
    ensures |keys| == JobCount(iterations + configurations, tracked, repetition)
  {
    var items := iterations + configurations;
    LabelsShareKeys(items);
    Combination.CombinationsAreProduct(items);
    EnumerationSize(Labels(items).value, Builds(tracked), Repetitions(repetition));
  }

  /** In a sequential sweep over these lists the completed count ends at exactly that number. */
  lemma SweepTotal(c: P.Config, steps: seq<P.Step>, s: P.State, benchmark: string, keys: seq<JobKey>,
                   iterations: seq<Combination.Item>, configurations: seq<Combination.Item>, tracked: seq<string>,
                   repetition: int, events: seq<Event>)
    requires R.Run(c, steps, s) && EventsOf(events, s.published)
    requires Enumerates(keys, iterations, configurations, tracked, repetition) && c.jobs == NamesOf(benchmark, keys)
    requires |keys| > 1
    ensures var completed, total := Completed(Replay(events, c.minimize).results),
        JobCount(iterations + configurations, tracked, repetition);
      && completed <= total
      && (P.Stuck(c, s) ==> completed == total)
  {
    SweepSize(keys, iterations, configurations, tracked, repetition);
    SweepCompletes(c, steps, s, benchmark, keys, events);
  }

  /** The jobs of two places in the enumeration: repetitions of one another exactly if build and label
      have the same numbers. */
  lemma SameKeySamePlace(benchmark: string, labels: seq<Label>, builds: seq<string>, repetitions: nat,
                         r: nat, b: nat, i: nat, r': nat, b': nat, i': nat)
    requires Distinct(NamesOf(benchmark, Enumeration(labels, builds, repetitions)))
    requires r < repetitions && b < |builds| && i < |labels|
    requires r' < repetitions && b' < |builds| && i' < |labels|
    ensures builds[b] == builds[b'] && labels[i] == labels[i'] <==> b == b' && i == i'
  {
    if builds[b] == builds[b'] && labels[i] == labels[i'] {
      var names := NamesOf(benchmark, Enumeration(labels, builds, repetitions));
      EnumerationAt(labels, builds, repetitions, r, b, i);
      EnumerationAt(labels, builds, repetitions, r, b', i');
      hide NameOf, Enumeration, Position;
      var p, q := Position(labels, builds, r, b, i), Position(labels, builds, r, b', i');
      assert names[p] == names[q];
      assert p == q;
      PlaceIsUnique(labels, builds, r, b, i, b', i');
    }
  }

  lemma PlaceIsUnique(labels: seq<Label>, builds: seq<string>, r: nat, b: nat, i: nat, b': nat, i': nat)
    requires i < |labels| && i' < |labels|
    requires Position(labels, builds, r, b, i) == Position(labels, builds, r, b', i')
    ensures b == b' && i == i'
  {
    hide Width;
    if b < b' { MulGap(b, b', |labels|); }
    if b' < b { MulGap(b', b, |labels|); }
  }

  /** End to end, from the item lists: over any history of the sweep, the runs published for two places
      of its enumeration share a result group exactly if build and label have the same numbers. */
  lemma GroupedIffSamePlace(benchmark: string, iterations: seq<Combination.Item>, configurations: seq<Combination.Item>,
                            tracked: seq<string>, repetition: int, keys: seq<JobKey>, events: seq<Event>, own: seq<nat>,
                            m: nat, n: nat, r: nat, b: nat, i: nat, r': nat, b': nat, i': nat)
    requires Enumerates(keys, iterations, configurations, tracked, repetition)
      && CleanItems(iterations + configurations)
    requires Details(benchmark, keys, SpecOf(iterations, configurations), events, own)
    requires Distinct(NamesOf(benchmark, keys)) && Trail(benchmark) % 2 == 0
    requires m < |events| && n < |events|
    requires var labels, builds := Labels(iterations + configurations).value, Builds(tracked);
      && r < Repetitions(repetition) && b < |builds| && i < |labels| && own[m] == Position(labels, builds, r, b, i)
      && r' < Repetitions(repetition) && b' < |builds| && i' < |labels|
      && own[n] == Position(labels, builds, r', b', i')
    ensures KeyOf(events[m].detail) == KeyOf(events[n].detail) <==> b == b' && i == i'
  {
    var labels, builds := Labels(iterations + configurations).value, Builds(tracked);
    SweepIsReadable(keys, iterations, configurations, tracked, repetition);
    hide Readable, Trail, Position, Labels, Builds, Repetitions, Enumeration, NamesOf, SpecOf;
    GroupedIffRepetition(benchmark, keys, SpecOf(iterations, configurations), events, own, m, n);
    EnumerationAt(labels, builds, Repetitions(repetition), r, b, i);
    EnumerationAt(labels, builds, Repetitions(repetition), r', b', i');
    SameKeySamePlace(benchmark, labels, builds, Repetitions(repetition), r, b, i, r', b', i');
  }
}
