/** Starting a sweep: the enumeration of its jobs, which of them are created at once and which
    wait, the recorded hashes, and the count of completed jobs (controllers/common.go). */
module Sweep {
  import opened Wrappers
  import opened Arithmetic
  import opened Lists
  import opened Text
  import opened JobIdentity
  import opened JobDetail
  import Combination
  import Fnv
  import Optimizer
  import opened Aggregation
  import opened Tracker

  // ---------------------------------------------------------------- the enumeration

  datatype JobKey = JobKey(choice: Label, build: string, repetition: nat)

  /** The first label and the rest of GetIteratedValues; None if there are items but no combination,
      where taking the first one panics. */
  function Labels(items: seq<Combination.Item>): Option<seq<Label>> {
    if items == [] then Some([map[]])
    else
      var all := Combination.AllCombinations(items);
      if all == [] then None else Some(all)
  }

  const INIT_BUILD_NAME: string := "init"

  function Builds(tracked: seq<string>): (builds: seq<string>)
    ensures builds != []
  {
    if tracked == [] then [INIT_BUILD_NAME] else tracked
  }

  function Repetitions(repetition: int): (n: nat)
    ensures n > 0
  {
    if repetition <= 0 then 1 else repetition
  }

  method GetIteratedValues(items: seq<Combination.Item>, tracked: seq<string>, repetition: int)
    returns (labels: Option<seq<Label>>, builds: seq<string>, maxRepetition: nat)
    ensures labels == Labels(items) && builds == Builds(tracked) && maxRepetition == Repetitions(repetition)
  {
    if |items| > 0 {
      var all := Combination.GetAllCombination(items);
      labels := if all == [] then None else Some(all);
    } else {
      labels := Some([map[]]);
    }
    builds := if |tracked| > 0 then tracked else [INIT_BUILD_NAME];
    maxRepetition := if repetition <= 0 then 1 else repetition;
  }

  /** Starting a sweep panics exactly when its last item lists no value. Otherwise there is a label, and
      all labels have the same keys: the names of the items behind the last one without values. */
  lemma LabelsShareKeys(items: seq<Combination.Item>)
    ensures Labels(items).None? <==> items != [] && Combination.Last(items).values == []
    ensures Labels(items).Some? ==>
      var labels := Labels(items).value;
      && labels != []
      && forall i :: 0 <= i < |labels| ==> labels[i].Keys == Combination.Names(Combination.Effective(items))
  {
    var effective := Combination.Effective(items);
    Combination.CombinationsAreProduct(items);
    Combination.ChoicesPositive(effective);
    forall i | 0 <= i < Combination.Choices(effective)
      ensures Combination.Entry(effective, i).Keys == Combination.Names(effective)
    {
      Combination.EntryKeys(effective, i);
    }
  }

  /** Label number k is the mixed-radix choice number k of the items that count. */
  lemma LabelAt(items: seq<Combination.Item>, k: nat)
    requires Labels(items).Some? && k < |Labels(items).value|
    ensures var effective := Combination.Effective(items);
      && |Labels(items).value| == Combination.Choices(effective)
      && Labels(items).value[k] == Combination.Entry(effective, k)
  {
    Combination.CombinationsAreProduct(items);
    Combination.ChoicesPositive(Combination.Effective(items));
  }

  ghost predicate Unrepeated(items: seq<Combination.Item>) {
    Combination.DistinctNames(items) && forall i :: 0 <= i < |items| ==> Distinct(items[i].values)
  }

  /** With names and values not repeated, the labels are exactly the choices of one value for each item
      that counts, each once. */
  lemma LabelsAreChoices(items: seq<Combination.Item>, choice: Label)
    requires Labels(items).Some? && Unrepeated(Combination.Effective(items))
    ensures choice in Labels(items).value <==> Combination.Chooses(Combination.Effective(items), choice)
    ensures Distinct(Labels(items).value)
  {
    var effective, labels := Combination.Effective(items), Labels(items).value;
    hide Labels, Combination.Chooses, Combination.Entry, Combination.Choices, Combination.Effective;
    forall k | 0 <= k < |labels| ensures labels[k] == Combination.Entry(effective, k) { LabelAt(items, k); }
    if Combination.Chooses(effective, choice) {
      var k := Combination.EveryChoiceAppears(effective, choice);
      LabelCount(items);
      assert labels[k] == choice;
    }
    if choice in labels {
      var k :| 0 <= k < |labels| && labels[k] == choice;
      Combination.EntryChooses(effective, k);
    }
    forall i, j | 0 <= i < j < |labels| ensures labels[i] != labels[j] {
      LabelCount(items);
      if labels[i] == labels[j] { Combination.EntryInjective(effective, i, j); }
    }
  }

  lemma LabelCount(items: seq<Combination.Item>)
    requires Labels(items).Some?
    ensures |Labels(items).value| == Combination.Choices(Combination.Effective(items))
  {
    LabelsShareKeys(items);
    LabelAt(items, 0);
  }

  function Row(labels: seq<Label>, build: string, repetition: nat): seq<JobKey> {
    seq(|labels|, i requires 0 <= i < |labels| => JobKey(labels[i], build, repetition))
  }

  function Round(labels: seq<Label>, builds: seq<string>, repetition: nat): seq<JobKey> {
    if builds == [] then []
    else Round(labels, builds[..|builds| - 1], repetition) + Row(labels, builds[|builds| - 1], repetition)
  }

  /** Repetition by repetition, build by build, label by label. */
  function Enumeration(labels: seq<Label>, builds: seq<string>, repetitions: nat): seq<JobKey> {
    if repetitions == 0 then []
    else Enumeration(labels, builds, repetitions - 1) + Round(labels, builds, repetitions - 1)
  }

  /** How many jobs one repetition has. */
  function Width(labels: seq<Label>, builds: seq<string>): nat {
    |builds| * |labels|
  }

  /** Where the job of a label and a build stands in its repetition, ... */
  function Column(labels: seq<Label>, b: nat, i: nat): nat {
    b * |labels| + i
  }

  /** ... and in the whole enumeration. */
  function Position(labels: seq<Label>, builds: seq<string>, r: nat, b: nat, i: nat): nat {
    r * Width(labels, builds) + Column(labels, b, i)
  }

  lemma {:induction false} RoundAt(labels: seq<Label>, builds: seq<string>, repetition: nat, b: nat, i: nat)
    requires b < |builds| && i < |labels|
    ensures |Round(labels, builds, repetition)| == Width(labels, builds)
    ensures Column(labels, b, i) < Width(labels, builds)
    ensures Round(labels, builds, repetition)[Column(labels, b, i)] == JobKey(labels[i], builds[b], repetition)
  {
    hide Round, Width, Column;
    var n := |builds| - 1;
    RoundUnfolds(labels, builds, repetition);
    RoundSize(labels, builds, repetition);
    RoundSize(labels, builds[..n], repetition);
    ColumnFits(labels, builds, b, i);
    if b < n {
      RoundAt(labels, builds[..n], repetition, b, i);
    }
  }

  /** A column lies in the repetition; in the last build, behind the builds before it. */
  lemma ColumnFits(labels: seq<Label>, builds: seq<string>, b: nat, i: nat)
    requires b < |builds| && i < |labels|
    ensures Column(labels, b, i) < Width(labels, builds)
    ensures b == |builds| - 1 ==> Column(labels, b, i) == Width(labels, builds[..b]) + i
  {
    MulGap(b, |builds|, |labels|);
  }

  lemma WidthGrows(labels: seq<Label>, builds: seq<string>)
    requires builds != []
    ensures Width(labels, builds) == Width(labels, builds[..|builds| - 1]) + |labels|
  {
    Distribute(|builds| - 1, 1, |labels|);
  }

  lemma {:induction false} RoundSize(labels: seq<Label>, builds: seq<string>, repetition: nat)
    ensures |Round(labels, builds, repetition)| == Width(labels, builds)
  {
    if builds != [] {
      RoundUnfolds(labels, builds, repetition);
      WidthGrows(labels, builds);
      hide Width, Round;
      RoundSize(labels, builds[..|builds| - 1], repetition);
    }
  }

  lemma RoundUnfolds(labels: seq<Label>, builds: seq<string>, repetition: nat)
    requires builds != []
    ensures var n := |builds| - 1;
      Round(labels, builds, repetition) == Round(labels, builds[..n], repetition) + Row(labels, builds[n], repetition)
  {
  }

  lemma OneMoreTime(n: nat, size: nat)
    ensures (n + 1) * size == n * size + size
  {
    Distribute(n, 1, size);
  }

  lemma {:induction false} EnumerationSize(labels: seq<Label>, builds: seq<string>, repetitions: nat)
    requires labels != [] && builds != []
    ensures |Enumeration(labels, builds, repetitions)| == repetitions * Width(labels, builds)
  {
    hide Width, Round;
    if repetitions > 0 {
      RoundSize(labels, builds, repetitions - 1);
      EnumerationSize(labels, builds, repetitions - 1);
      OneMoreTime(repetitions - 1, Width(labels, builds));
    }
  }

  /** Closed form: where the job of a label, a build and a repetition stands. */
  lemma {:induction false} EnumerationAt(labels: seq<Label>, builds: seq<string>, repetitions: nat, r: nat, b: nat,
                                         i: nat)
    requires r < repetitions && b < |builds| && i < |labels|
    ensures Position(labels, builds, r, b, i) < |Enumeration(labels, builds, repetitions)|
    ensures Enumeration(labels, builds, repetitions)[Position(labels, builds, r, b, i)]
      == JobKey(labels[i], builds[b], r)
  {
    hide Width, Column, Position, Round;
    RoundAt(labels, builds, repetitions - 1, b, i);
    EnumerationSize(labels, builds, repetitions - 1);
    if r < repetitions - 1 {
      EnumerationAt(labels, builds, repetitions - 1, r, b, i);
    }
    LastRound(labels, builds, repetitions, b, i);
  }

  /** Every job of the list carries one of the labels and one of the builds, and a repetition number
      in the range. */
  ghost predicate AllFrom(keys: seq<JobKey>, labels: seq<Label>, builds: seq<string>, from: nat, to: nat) {
    forall key :: key in keys ==> key.choice in labels && key.build in builds && from <= key.repetition < to
  }

  lemma RowFrom(labels: seq<Label>, build: string, repetition: nat)
    ensures AllFrom(Row(labels, build, repetition), labels, [build], repetition, repetition + 1)
    ensures Distinct(labels) ==> Distinct(Row(labels, build, repetition))
  {
  }

  lemma FromMore(a: seq<JobKey>, b: seq<JobKey>, labels: seq<Label>, builds: seq<string>, from: nat, to: nat)
    requires AllFrom(a, labels, builds, from, to) && AllFrom(b, labels, builds, from, to)
    ensures AllFrom(a + b, labels, builds, from, to)
  {
  }

  lemma FromWider(keys: seq<JobKey>, labels: seq<Label>, builds: seq<string>, builds': seq<string>,
                  from: nat, to: nat, from': nat, to': nat)
    requires AllFrom(keys, labels, builds, from, to) && from' <= from && to <= to'
    requires forall b :: b in builds ==> b in builds'
    ensures AllFrom(keys, labels, builds', from', to')
  {
  }

  lemma OtherBuilds(a: seq<JobKey>, b: seq<JobKey>, labels: seq<Label>, builds: seq<string>, build: string,
                    from: nat, to: nat)
    requires AllFrom(a, labels, builds, from, to) && AllFrom(b, labels, [build], from, to) && build !in builds
    ensures forall key :: key in a ==> key !in b
  {
  }

  lemma {:induction false} RoundFrom(labels: seq<Label>, builds: seq<string>, repetition: nat)
    ensures AllFrom(Round(labels, builds, repetition), labels, builds, repetition, repetition + 1)
    ensures Distinct(labels) && Distinct(builds) ==> Distinct(Round(labels, builds, repetition))
  {
    hide AllFrom, Row;
    var r := repetition;
    if builds != [] {
      var init, last := builds[..|builds| - 1], builds[|builds| - 1];
      RoundFrom(labels, init, r);
      RowFrom(labels, last, r);
      assert builds == init + [last];
      FromWider(Round(labels, init, r), labels, init, builds, r, r + 1, r, r + 1);
      FromWider(Row(labels, last, r), labels, [last], builds, r, r + 1, r, r + 1);
      FromMore(Round(labels, init, r), Row(labels, last, r), labels, builds, r, r + 1);
      if Distinct(labels) && Distinct(builds) {
        OtherBuilds(Round(labels, init, r), Row(labels, last, r), labels, init, last, r, r + 1);
        DistinctAppend(Round(labels, init, r), Row(labels, last, r));
      }
    } else {
      NoneFrom(labels, builds, r, r + 1);
    }
  }

  lemma NoneFrom(labels: seq<Label>, builds: seq<string>, from: nat, to: nat)
    ensures AllFrom([], labels, builds, from, to)
  {
  }

  lemma Earlier(a: seq<JobKey>, b: seq<JobKey>, labels: seq<Label>, builds: seq<string>, n: nat)
    requires AllFrom(a, labels, builds, 0, n) && AllFrom(b, labels, builds, n, n + 1)
    ensures forall key :: key in a ==> key !in b
  {
  }

  /** Every job of the enumeration carries one of the labels, one of the builds and one of the first
      repetition numbers; and no job comes twice if no label and no build does. */
  lemma {:induction false} EnumerationFrom(labels: seq<Label>, builds: seq<string>, repetitions: nat)
    ensures AllFrom(Enumeration(labels, builds, repetitions), labels, builds, 0, repetitions)
    ensures Distinct(labels) && Distinct(builds) ==> Distinct(Enumeration(labels, builds, repetitions))
  {
    hide AllFrom, Round;
    if repetitions > 0 {
      var n := repetitions - 1;
      var before, round := Enumeration(labels, builds, n), Round(labels, builds, n);
      EnumerationFrom(labels, builds, n);
      RoundFrom(labels, builds, n);
      Earlier(before, round, labels, builds, n);
      FromWider(before, labels, builds, builds, 0, n, 0, n + 1);
      FromWider(round, labels, builds, builds, n, n + 1, 0, n + 1);
      FromMore(before, round, labels, builds, 0, n + 1);
      if Distinct(labels) && Distinct(builds) { DistinctAppend(before, round); }
    } else {
      NoneFrom(labels, builds, 0, repetitions);
    }
  }

  /** ... and there is such a job. */
  lemma EnumerationHolds(labels: seq<Label>, builds: seq<string>, repetitions: nat, key: JobKey)
    ensures key in Enumeration(labels, builds, repetitions)
      <==> key.choice in labels && key.build in builds && key.repetition < repetitions
  {
    EnumerationFrom(labels, builds, repetitions);
    hide Enumeration, Position;
    if key.choice in labels && key.build in builds && key.repetition < repetitions {
      var i :| 0 <= i < |labels| && labels[i] == key.choice;
      var b :| 0 <= b < |builds| && builds[b] == key.build;
      EnumerationAt(labels, builds, repetitions, key.repetition, b, i);
    }
  }

  lemma LastRound(labels: seq<Label>, builds: seq<string>, repetitions: nat, b: nat, i: nat)
    requires 0 < repetitions
      && |Enumeration(labels, builds, repetitions - 1)| == (repetitions - 1) * Width(labels, builds)
    ensures Position(labels, builds, repetitions - 1, b, i)
      == |Enumeration(labels, builds, repetitions - 1)| + Column(labels, b, i)
  {
  }

  // ---------------------------------------------------------------- created or waiting

  /** What CreateFromOperator leaves behind on a fresh cluster. */
  datatype Plan = Plan(created: seq<string>, waiting: seq<string>)

  /** The job number i of the enumeration: the first one is created; later ones wait if the sweep is
      sequential or if they carry the first label, and are created otherwise. A name that is in
      the cluster already is neither created nor put on the list. */
  function Place(plan: Plan, i: nat, labels: nat, sequential: bool, name: string): Plan
    requires labels > 0
  {
    if name in plan.created then plan
    else if i > 0 && (sequential || i % labels == 0) then plan.(waiting := plan.waiting + [name])
    else plan.(created := plan.created + [name])
  }

  function PlanOf(names: seq<string>, labels: nat, sequential: bool): Plan
    requires labels > 0
  {
    if names == [] then Plan([], [])
    else
      var n := |names| - 1;
      Place(PlanOf(names[..n], labels, sequential), n, labels, sequential, names[n])
  }

  /** Nothing is lost and nothing is doubled: what is created and what waits are the names of the
      enumeration, each list in its order. */
  lemma {:induction false} PlanConserves(names: seq<string>, labels: nat, sequential: bool)
    requires labels > 0 && Distinct(names)
    ensures var plan := PlanOf(names, labels, sequential);
      && multiset(plan.created) + multiset(plan.waiting) == multiset(names)
      && forall x :: x in plan.created || x in plan.waiting <==> x in names
  {
    if names != [] {
      var n := |names| - 1;
      PlanConserves(names[..n], labels, sequential);
      assert names == names[..n] + [names[n]];
      var plan := PlanOf(names[..n], labels, sequential);
      assert names[n] !in names[..n];
      assert names[n] !in plan.created;
    }
  }

  /** A sequential sweep creates the first job of the enumeration; all others wait, in its order. */
  lemma {:induction false} SequentialPlan(names: seq<string>, labels: nat)
    requires labels > 0 && Distinct(names) && names != []
    ensures PlanOf(names, labels, true) == Plan([names[0]], names[1..])
  {
    var n := |names| - 1;
    if n == 0 {
      assert PlanOf(names[..0], labels, true) == Plan([], []);
    } else {
      SequentialPlan(names[..n], labels);
      assert names[1..] == names[..n][1..] + [names[n]];
    }
  }

  /** Whatever the names, none is created twice. */
  lemma {:induction false} NoneCreatedTwice(names: seq<string>, labels: nat, sequential: bool)
    requires labels > 0
    ensures Distinct(PlanOf(names, labels, sequential).created)
  {
    if names != [] { NoneCreatedTwice(names[..|names| - 1], labels, sequential); }
  }

  /** The positions up to n whose job waits in a sweep that is not sequential. */
  function FirstLabels(names: seq<string>, labels: nat): seq<string>
    requires labels > 0
  {
    if names == [] then []
    else
      var n := |names| - 1;
      FirstLabels(names[..n], labels) + if n > 0 && n % labels == 0 then [names[n]] else []
  }

  /** ... and the positions of all other jobs. */
  function OtherLabels(names: seq<string>, labels: nat): seq<string>
    requires labels > 0
  {
    if names == [] then []
    else
      var n := |names| - 1;
      OtherLabels(names[..n], labels) + if n == 0 || n % labels != 0 then [names[n]] else []
  }

  /** Any other sweep lets exactly the first labels of later builds and repetitions wait. */
  lemma {:induction false} ParallelPlan(names: seq<string>, labels: nat)
    requires labels > 0 && Distinct(names)
    ensures PlanOf(names, labels, false).waiting == FirstLabels(names, labels)
    ensures PlanOf(names, labels, false).created == OtherLabels(names, labels)
    ensures names != [] ==> PlanOf(names, labels, false).created != []
  {
    if names != [] {
      var n := |names| - 1;
      ParallelPlan(names[..n], labels);
      PlanConserves(names[..n], labels, false);
      assert names[n] !in names[..n];
    }
  }

  // ---------------------------------------------------------------- recorded hashes

  ghost function HashItem(key: JobKey): IterationHash {
    IterationHash(JobHash(key.choice, key.build, key.repetition), key.build, key.choice, ShowNat(key.repetition))
  }

  /** The hashes recorded when a sweep starts on a status that may hold some already. */
  ghost function RecordMore(hashes: seq<IterationHash>, keys: seq<JobKey>): seq<IterationHash> {
    if keys == [] then hashes else RecordHash(RecordMore(hashes, keys[..|keys| - 1]), HashItem(keys[|keys| - 1]))
  }

  ghost function RecordAll(keys: seq<JobKey>): seq<IterationHash> {
    RecordMore([], keys)
  }

  ghost function NameOf(benchmark: string, key: JobKey): string {
    JobName(benchmark, JobHash(key.choice, key.build, key.repetition))
  }

  ghost function NamesOf(benchmark: string, keys: seq<JobKey>): (names: seq<string>)
    ensures |names| == |keys| && forall i :: 0 <= i < |names| ==> names[i] == NameOf(benchmark, keys[i])
  {
    seq(|keys|, i requires 0 <= i < |keys| => NameOf(benchmark, keys[i]))
  }

  lemma HashHasNoDash(key: JobKey)
    ensures '-' !in HashItem(key).hash
  {
    DigitsHaveNoDash(Fnv.Sum32(FullKey(key.choice, key.build, key.repetition)) as nat);
  }

  lemma {:induction false} RecordsDistinct(keys: seq<JobKey>)
    ensures DistinctHashes(RecordAll(keys)) && |RecordAll(keys)| <= |keys|
  {
    if keys != [] {
      var n := |keys| - 1;
      RecordsDistinct(keys[..n]);
      RecordKeepsDistinct(RecordAll(keys[..n]), HashItem(keys[n]));
    }
  }

  ghost function HashItems(keys: seq<JobKey>): (items: seq<IterationHash>)
    ensures |items| == |keys| && forall i :: 0 <= i < |items| ==> items[i] == HashItem(keys[i])
  {
    seq(|keys|, i requires 0 <= i < |keys| => HashItem(keys[i]))
  }

  /** The recorded hashes never repeat, and when the job names differ there is one record per job, at
      the job's own place. */
  lemma {:induction false} RecordsAreJobs(benchmark: string, keys: seq<JobKey>)
    requires Distinct(NamesOf(benchmark, keys))
    ensures RecordAll(keys) == HashItems(keys)
  {
    if keys != [] {
      hide HashItem, RecordHash, NamesOf, HashItems, Distinct;
      NamesOfInit(benchmark, keys);
      RecordsAreJobs(benchmark, keys[..|keys| - 1]);
      OneMoreRecord(benchmark, keys);
    }
  }

  lemma OneMoreRecord(benchmark: string, keys: seq<JobKey>)
    requires keys != [] && Distinct(NamesOf(benchmark, keys))
    ensures RecordHash(HashItems(keys[..|keys| - 1]), HashItem(keys[|keys| - 1])) == HashItems(keys)
  {
    var n := |keys| - 1;
    LastHashIsNew(benchmark, keys);
    NewHashIsAdded(HashItems(keys[..n]), HashItem(keys[n]));
    hide HashItem, RecordHash, NamesOf, Distinct;
    assert HashItems(keys) == HashItems(keys[..n]) + [HashItem(keys[n])];
  }

  lemma LastHashIsNew(benchmark: string, keys: seq<JobKey>)
    requires keys != [] && Distinct(NamesOf(benchmark, keys))
    ensures forall i :: 0 <= i < |keys| - 1 ==> HashItem(keys[i]).hash != HashItem(keys[|keys| - 1]).hash
  {
    hide HashItem, NameOf;
    var n := |keys| - 1;
    forall i | 0 <= i < n ensures HashItem(keys[i]).hash != HashItem(keys[n]).hash {
      SameHashSameName(benchmark, keys[i], keys[n]);
      assert NamesOf(benchmark, keys)[i] != NamesOf(benchmark, keys)[n];
    }
  }

  lemma NamesOfInit(benchmark: string, keys: seq<JobKey>)
    requires keys != []
    ensures NamesOf(benchmark, keys[..|keys| - 1]) == NamesOf(benchmark, keys)[..|keys| - 1]
    ensures Distinct(NamesOf(benchmark, keys)) ==> Distinct(NamesOf(benchmark, keys[..|keys| - 1]))
  {
    hide NameOf;
  }

  lemma NewHashIsAdded(hashes: seq<IterationHash>, item: IterationHash)
    requires forall i :: 0 <= i < |hashes| ==> hashes[i].hash != item.hash
    ensures RecordHash(hashes, item) == hashes + [item]
  {
  }

  lemma SameHashSameName(benchmark: string, a: JobKey, b: JobKey)
    ensures HashItem(a).hash == HashItem(b).hash ==> NameOf(benchmark, a) == NameOf(benchmark, b)
  {
  }

  // ---------------------------------------------------------------- the start, in place

  /** A job goes on the list if something was created before it and it may have to wait. */
  function PlacedIn(plan: Plan, isNew: bool, mayWait: bool, name: string): Plan {
    if name in plan.created then plan
    else if isNew && mayWait then plan.(waiting := plan.waiting + [name])
    else plan.(created := plan.created + [name])
  }

  /** One job of CreateFromOperator: its hash is recorded, its optimizer is made, and it is created
      or put on the waiting list. */
  method PlaceJob(benchmark: Benchmark, benchmarkName: string, key: JobKey, tuned: bool, first: bool, sequential: bool,
                  isNew: bool, plan: Plan)
    returns (name: string, opt: BaysesOptimizer, isNew': bool, plan': Plan)
    modifies benchmark
    ensures name == NameOf(benchmarkName, key)
    ensures benchmark.hash == RecordHash(old(benchmark.hash), HashItem(key))
    ensures benchmark.results == old(benchmark.results) && benchmark.bestResults == old(benchmark.bestResults)
    ensures fresh(opt) && opt.View() == FirstView(tuned)
    ensures isNew' == (isNew || first || sequential)
    ensures plan' == PlacedIn(plan, isNew, first || sequential, name)
  {
    var jobHash := GetJobHash(key.choice, key.build, key.repetition);
    name := JobName(benchmarkName, jobHash);
    benchmark.PatchBenchmarkStatus(IterationHash(jobHash, key.build, key.choice, ShowNat(key.repetition)));
    opt := new BaysesOptimizer();
    if !tuned { opt.SetFinalizedApplied(); }
    plan', isNew' := plan, isNew;
    var isThere := name in plan.created;
    if first || sequential {
      if !isNew {
        if !isThere { plan' := plan.(created := plan.created + [name]); }
        isNew' := true;
      } else if !isThere {
        plan' := plan.(waiting := plan.waiting + [name]);
      }
    } else if !isThere {
      plan' := plan.(created := plan.created + [name]);
    }
  }

  /** A new optimizer as CreateFromOperator leaves it: its goroutine just started, or finalized. */
  function FirstView(tuned: bool): Optimizer.Shared {
    if tuned then Optimizer.FRESH else Optimizer.SetFinalizedApplied(Optimizer.FRESH)
  }

  /** The optimizers of some jobs: one per name, finalized from the start unless the job is tuned. */
  ghost predicate OptimizersOf(optMap: map<string, BaysesOptimizer>, benchmarkName: string, keys: seq<JobKey>,
                               tuned: set<Label>)
    reads optMap.Values
  {
    && (forall i :: 0 <= i < |keys| ==> NameOf(benchmarkName, keys[i]) in optMap)
    && forall name :: name in optMap ==>
         exists i :: 0 <= i < |keys| && NameOf(benchmarkName, keys[i]) == name
           && optMap[name].View() == FirstView(keys[i].choice in tuned)
  }

  /** A start that began with `hashes` recorded and has dealt with `keys`. */
  ghost predicate Started(hashes: seq<IterationHash>, benchmarkName: string, keys: seq<JobKey>, labels: nat,
                          sequential: bool, isNew: bool, plan: Plan, recorded: seq<IterationHash>)
    requires labels > 0
  {
    && isNew == (keys != [])
    && plan == PlanOf(NamesOf(benchmarkName, keys), labels, sequential)
    && recorded == RecordMore(hashes, keys)
  }

  /** What placing one more job does to it. */
  lemma StartGoesOn(hashes: seq<IterationHash>, benchmarkName: string, keys: seq<JobKey>, labels: nat, sequential: bool,
                    isNew: bool, plan: Plan, recorded: seq<IterationHash>, key: JobKey, first: bool)
    requires labels > 0 && Started(hashes, benchmarkName, keys, labels, sequential, isNew, plan, recorded)
    requires first == (|keys| % labels == 0)
    ensures Started(hashes, benchmarkName, keys + [key], labels, sequential, isNew || first || sequential,
                    PlacedIn(plan, isNew, first || sequential, NameOf(benchmarkName, key)),
                    RecordHash(recorded, HashItem(key)))
  {
    hide NameOf, HashItem, RecordHash, Place, PlacedIn;
    var more := keys + [key];
    assert more[..|keys|] == keys && NamesOf(benchmarkName, more)[..|keys|] == NamesOf(benchmarkName, keys);
    assert more[|keys|] == key;
    PlacedAsPlanned(plan, |keys|, labels, sequential, isNew, first, NameOf(benchmarkName, key));
  }

  lemma PlacedAsPlanned(plan: Plan, i: nat, labels: nat, sequential: bool, isNew: bool, first: bool, name: string)
    requires labels > 0 && isNew == (i > 0) && first == (i % labels == 0)
    ensures PlacedIn(plan, isNew, first || sequential, name) == Place(plan, i, labels, sequential, name)
    ensures isNew || first
  {
  }

  lemma NothingStarted(hashes: seq<IterationHash>, benchmarkName: string, labels: nat, sequential: bool,
                       tuned: set<Label>)
    requires labels > 0
    ensures Started(hashes, benchmarkName, [], labels, sequential, false, Plan([], []), hashes)
    ensures OptimizersOf(map[], benchmarkName, [], tuned)
  {
  }

  lemma EnumerationUnfolds(labels: seq<Label>, builds: seq<string>, repetition: nat)
    ensures Enumeration(labels, builds, repetition + 1)
      == Enumeration(labels, builds, repetition) + Round(labels, builds, repetition)
    ensures Enumeration(labels, builds, 0) == [] && Round(labels, [], repetition) == []
  {
  }

  /** The place of a job tells whether it carries the first label, and whether it is the very first. */
  lemma RowSize(labels: seq<Label>, builds: seq<string>, repetition: nat, b: nat, i: nat)
    requires labels != [] && b < |builds| && i < |labels|
    ensures var n := |Enumeration(labels, builds, repetition)| + |Round(labels, builds[..b], repetition)| + i;
      n % |labels| == i && (n == 0 <==> repetition == 0 && b == 0 && i == 0)
  {
    EnumerationSize(labels, builds, repetition);
    RoundSize(labels, builds[..b], repetition);
    hide Enumeration, Round;
    RowIndex(|labels|, |builds|, repetition, b, i);
  }

  lemma RowIndex(labels: nat, builds: nat, r: nat, b: nat, i: nat)
    requires labels > 0 && builds > 0 && i < labels
    ensures var n := r * (builds * labels) + b * labels + i; n % labels == i && (n == 0 <==> r == 0 && b == 0 && i == 0)
  {
    var q := r * builds + b;
    ProductNotNegative(r, builds);
    Reassociate(r, builds, labels);
    Distribute(r * builds, b, labels);
    Quotient(q * labels + i, labels, q, i);
    if q > 0 { MulGap(0, q, labels); }
    if r > 0 { MulGap(0, r, builds); }
  }

  /** The jobs of one build in one repetition: the first label, then the others. */
  method PlaceRow(benchmark: Benchmark, benchmarkName: string, labels: seq<Label>, builds: seq<string>, b: nat,
                  repetition: nat, sequential: bool, tuned: set<Label>, isNew: bool, plan: Plan,
                  jobOptMap: map<string, BaysesOptimizer>,
                  ghost hashes: seq<IterationHash>, ghost keys: seq<JobKey>)
    returns (isNew': bool, plan': Plan, jobOptMap': map<string, BaysesOptimizer>)
    requires labels != [] && b < |builds|
    requires keys == Enumeration(labels, builds, repetition) + Round(labels, builds[..b], repetition)
    requires Started(hashes, benchmarkName, keys, |labels|, sequential, isNew, plan, benchmark.hash)
    requires OptimizersOf(jobOptMap, benchmarkName, keys, tuned)
    modifies benchmark
    ensures Started(hashes, benchmarkName, keys + Row(labels, builds[b], repetition), |labels|, sequential, isNew',
                    plan',
                    benchmark.hash)
    ensures OptimizersOf(jobOptMap', benchmarkName, keys + Row(labels, builds[b], repetition), tuned)
    ensures benchmark.results == old(benchmark.results) && benchmark.bestResults == old(benchmark.bestResults)
  {
    hide NameOf, HashItem, RecordHash, Started, OptimizersOf, FirstView, PlacedIn;
    isNew', plan', jobOptMap' := isNew, plan, jobOptMap;
    ghost var done, row := keys, Row(labels, builds[b], repetition);
    assert keys + row[..0] == keys;
    for i := 0 to |labels|
      invariant done == keys + row[..i]
      invariant Started(hashes, benchmarkName, done, |labels|, sequential, isNew', plan', benchmark.hash)
      invariant OptimizersOf(jobOptMap', benchmarkName, done, tuned)
      invariant benchmark.results == old(benchmark.results) && benchmark.bestResults == old(benchmark.bestResults)
    {
      var key := JobKey(labels[i], builds[b], repetition);
      RowSize(labels, builds, repetition, b, i);
      StartGoesOn(hashes, benchmarkName, done, |labels|, sequential, isNew', plan', benchmark.hash, key, i == 0);
      var name, opt;
      name, opt, isNew', plan' :=
        PlaceJob(benchmark, benchmarkName, key, labels[i] in tuned, i == 0, sequential, isNew', plan');
      OptimizerAdded(jobOptMap', benchmarkName, done, tuned, key, opt);
      jobOptMap' := jobOptMap'[name := opt];
      assert row[..i + 1] == row[..i] + [key];
      done := done + [key];
    }
    assert row[..|labels|] == row;
  }

  lemma OptimizerAdded(optMap: map<string, BaysesOptimizer>, benchmarkName: string, keys: seq<JobKey>,
                       tuned: set<Label>, key: JobKey, opt: BaysesOptimizer)
    requires OptimizersOf(optMap, benchmarkName, keys, tuned)
    requires opt.View() == FirstView(key.choice in tuned)
    ensures OptimizersOf(optMap[NameOf(benchmarkName, key) := opt], benchmarkName, keys + [key], tuned)
  {
    hide NameOf, FirstView;
    var more, all := optMap[NameOf(benchmarkName, key) := opt], keys + [key];
    assert all[|keys|] == key;
    forall i | 0 <= i < |keys| ensures all[i] == keys[i] { }
  }

  /** CreateFromOperator on a fresh cluster, up to the subscription: what it created, what it lets wait
      and the optimizers it subscribes. */
  method CreateFromOperator(benchmark: Benchmark, benchmarkName: string, labels: seq<Label>, builds: seq<string>,
                            maxRepetition: nat, sequential: bool, tuned: set<Label>)
    returns (plan: Plan, jobOptMap: map<string, BaysesOptimizer>)
    requires labels != [] && builds != []
    modifies benchmark
    ensures var keys := Enumeration(labels, builds, maxRepetition);
      && plan == PlanOf(NamesOf(benchmarkName, keys), |labels|, sequential)
      && benchmark.hash == RecordMore(old(benchmark.hash), keys)
      && OptimizersOf(jobOptMap, benchmarkName, keys, tuned)
    ensures benchmark.results == old(benchmark.results) && benchmark.bestResults == old(benchmark.bestResults)
  {
    hide Started, OptimizersOf, Row, Round, Enumeration;
    plan, jobOptMap := Plan([], []), map[];
    var isNew, repetition := false, 0;
    ghost var hashes, keys: seq<JobKey> := benchmark.hash, [];
    NothingStarted(hashes, benchmarkName, |labels|, sequential, tuned);
    EnumerationUnfolds(labels, builds, 0);
    while repetition < maxRepetition
      invariant 0 <= repetition <= maxRepetition && keys == Enumeration(labels, builds, repetition)
      invariant Started(hashes, benchmarkName, keys, |labels|, sequential, isNew, plan, benchmark.hash)
      invariant OptimizersOf(jobOptMap, benchmarkName, keys, tuned)
      invariant benchmark.results == old(benchmark.results) && benchmark.bestResults == old(benchmark.bestResults)
    {
      EnumerationUnfolds(labels, builds, repetition);
      assert builds[..0] == [];
      for b := 0 to |builds|
        invariant keys == Enumeration(labels, builds, repetition) + Round(labels, builds[..b], repetition)
        invariant Started(hashes, benchmarkName, keys, |labels|, sequential, isNew, plan, benchmark.hash)
        invariant OptimizersOf(jobOptMap, benchmarkName, keys, tuned)
        invariant benchmark.results == old(benchmark.results) && benchmark.bestResults == old(benchmark.bestResults)
      {
        assert builds[..b + 1][..b] == builds[..b];
        RoundUnfolds(labels, builds[..b + 1], repetition);
        isNew, plan, jobOptMap := PlaceRow(benchmark, benchmarkName, labels, builds, b, repetition, sequential, tuned,
                                           isNew, plan, jobOptMap, hashes, keys);
        keys := keys + Row(labels, builds[b], repetition);
      }
      assert builds[..|builds|] == builds;
      repetition := repetition + 1;
    }
    StartedMeans(hashes, benchmarkName, keys, |labels|, sequential, isNew, plan, benchmark.hash);
  }

  lemma StartedMeans(hashes: seq<IterationHash>, benchmarkName: string, keys: seq<JobKey>, labels: nat,
                     sequential: bool, isNew: bool, plan: Plan, recorded: seq<IterationHash>)
    requires labels > 0 && Started(hashes, benchmarkName, keys, labels, sequential, isNew, plan, recorded)
    ensures plan == PlanOf(NamesOf(benchmarkName, keys), labels, sequential) && recorded == RecordMore(hashes, keys)
  {
  }
}
