/** One benchmark's sweep, run sequentially: the job tracker, one optimizer goroutine per
    auto-tuned job and the cluster, interleaved step by step
    (controllers/job_tracker.go, controllers/bayesopt.go, controllers/common.go). */
module Protocol {
  import opened Wrappers
  import opened Optimizer
  import opened Ranking

  type Job = string

  /** `jobs` is the enumeration of CreateFromOperator, `tuned` the jobs whose node profile is
      "auto-tuned", `rounds` the number of objective calls an optimizer may make. */
  datatype Config = Config(jobs: seq<Job>, tuned: set<Job>, rounds: nat, minimize: bool)

  ghost predicate ValidConfig(c: Config) {
    && |c.jobs| > 0
    && forall i, j :: 0 <= i < j < |c.jobs| ==> c.jobs[i] != c.jobs[j]
  }

  datatype Status = Absent | Running | Complete

  /** Everything the system keeps under one job name. Run number r stands for the pod of the
      r-th creation of the job; `runs[r]` is the performance value parsed from that pod's log. */
  datatype Cell = Cell(
    opt: Opt,
    registered: bool,      // the job is a key of JobOptMap
    best: Option<nat>,     // its entry in BestPodNameMap
    status: Status,        // the job resource in the cluster
    uses: seq<Use>,        // one entry per creation: the profile it was created under
    runs: seq<real>)       // one entry per completion

  datatype TrackerPc =
    | Idle
    | Reporting(job: Job)              // about to send on the result queue
    | Recording(job: Job)              // about to compare with the best run and to publish
    | Deploying(job: Job)              // about to call deployWaitingResource
    | Taking(job: Job, next: bool)     // blocked on the sample queue inside CreateIfNotExists

  datatype Publication = Publication(job: Job, run: nat)

  datatype State = State(
    cells: map<Job, Cell>,
    queue: seq<Job>,                   // JobQueue
    pc: TrackerPc,
    waiting: seq<Job>,                 // WaitingJobMap[benchmark]
    hasWaiting: bool,                  // whether that entry exists
    hasDr: bool,                       // whether DRMap has an entry for the benchmark
    published: seq<Publication>,
    crashed: bool)

  ghost predicate Known(c: Config, s: State) {
    forall j :: j in c.jobs ==> j in s.cells
  }

  function Created(cell: Cell, use: Use): Cell {
    cell.(status := Running, uses := cell.uses + [use])
  }

  function InitCell(c: Config, j: Job): Cell {
    Cell(if j in c.tuned then NEW_OPT else UNTUNED_OPT, |c.jobs| > 1, None, Absent, [], [])
  }

  function InitCells(c: Config): (m: map<Job, Cell>)
    ensures forall j :: j in m <==> j in c.jobs
    ensures forall j :: j in m ==> m[j] == InitCell(c, j)
  {
    map j | j in c.jobs :: InitCell(c, j)
  }

  /** After CreateFromOperator and Subscribe on a fresh cluster: the first job is created, or
      its creation is blocked on its first sample; the rest wait. Subscribe registers the
      optimizers, the resource interface and the waiting list only if that list is not empty. */
  function Init(c: Config): State
    requires |c.jobs| > 0
  {
    var first, cells := c.jobs[0], InitCells(c);
    var many := |c.jobs| > 1;
    if first in c.tuned then
      State(cells, [], Taking(first, false), c.jobs[1..], many, many, [], false)
    else
      State(cells[first := Created(cells[first], Untuned)], [], Idle, c.jobs[1..], many, many, [], false)
  }

  /** CheckIfJobDone */
  predicate JobDone(published: seq<Publication>, j: Job) {
    exists i :: 0 <= i < |published| && published[i].job == j
  }

  datatype Entry = NotNew | StillRunning | NeedsSample | CreateNow | NoInterface

  /** The decisions CreateIfNotExists takes before it blocks or creates. */
  function EntryOf(c: Config, s: State, j: Job): Entry
    requires j in s.cells
  {
    if JobDone(s.published, j) then NotNew
    else if !s.hasDr then NoInterface
    else match s.cells[j].status
      case Absent => if j in c.tuned then NeedsSample else CreateNow
      case Running => StillRunning
      case Complete => if j in c.tuned then NeedsSample else NotNew
  }

  /** What deployWaitingResource does after it handed the next waiting job to CreateIfNotExists. */
  function AfterNext(s: State, next: Job): State
    requires next in s.cells
  {
    if s.waiting == [] then
      s.(pc := Idle, hasWaiting := false, hasDr := s.hasDr && !s.cells[next].opt.b.finalizedApplied)
    else s.(pc := Idle)
  }

  /** The second half of deployWaitingResource: forget a finalized job, pop the next one. */
  function DeployNext(c: Config, s: State, j: Job): State
    requires Known(c, s) && j in s.cells && (forall w :: w in s.waiting ==> w in s.cells)
  {
    var cell := s.cells[j];
    var s1 := if cell.opt.b.finalizedApplied then s.(cells := s.cells[j := cell.(registered := false)]) else s;
    if !s1.hasWaiting then s1.(hasDr := false, pc := Idle)
    else if s1.waiting == [] then s1.(crashed := true)
    else
      var next, s2 := s1.waiting[0], s1.(waiting := s1.waiting[1..]);
      if !s2.cells[next].registered then s2.(pc := Idle)
      else match EntryOf(c, s2, next)
        case NeedsSample => s2.(pc := Taking(next, true))
        case CreateNow => AfterNext(s2.(cells := s2.cells[next := Created(s2.cells[next], Untuned)]), next)
        case NoInterface => s2.(crashed := true)
        case _ => AfterNext(s2, next)
  }

  /** deployWaitingResource, up to a blocking receive. */
  function Deploy(c: Config, s: State, j: Job): State
    requires Known(c, s) && j in s.cells && (forall w :: w in s.waiting ==> w in s.cells)
  {
    var cell := s.cells[j];
    if !cell.registered then s.(pc := Idle)
    else if cell.opt.b.finalizedApplied then DeployNext(c, s, j)
    else match EntryOf(c, s, j)
      case NeedsSample => s.(pc := Taking(j, false))
      case StillRunning => s.(pc := Idle)
      case CreateNow => s.(pc := Idle, cells := s.cells[j := Created(cell, Untuned)])
      case NoInterface => s.(crashed := true)
      case NotNew => DeployNext(c, s, j)
  }

  /** The state part of ProcessJobQueue: send the value to the optimizer unless it is finalized. */
  function Report(s: State, j: Job): State
    requires j in s.cells && s.cells[j].runs != []
  {
    var cell := s.cells[j];
    var v := cell.runs[|cell.runs| - 1];
    var opt := cell.opt.(b := PostResult(cell.opt.b, v), reported := cell.opt.reported + [v]);
    s.(cells := s.cells[j := cell.(opt := opt)], pc := Recording(j))
  }

  /** ... keep the better of the recorded best run and this one; returns the run that stands for
      the job. BestPodNameMap forgets a job when it is published. */
  function RecordCell(c: Config, cell: Cell): (Cell, nat)
    requires cell.runs != []
  {
    var last := |cell.runs| - 1;
    var keep := cell.registered && cell.best.Some? && cell.best.value < |cell.runs|
                && !IsBetter(c.minimize, cell.runs[cell.best.value], cell.runs[last]);
    var chosen := if keep then cell.best.value else last;
    if !cell.registered || cell.opt.b.finalizedApplied then (cell.(best := None), chosen)
    else (cell.(best := Some(chosen)), chosen)
  }

  /** ... and publish it if the job has no optimizer or its optimizer is finalized and applied. */
  function Record(c: Config, s: State, j: Job): State
    requires j in s.cells && s.cells[j].runs != []
  {
    var (cell, chosen) := RecordCell(c, s.cells[j]);
    s.(cells := s.cells[j := cell], pc := Deploying(j),
       published := if !cell.registered || cell.opt.b.finalizedApplied
                    then s.published + [Publication(j, chosen)] else s.published)
  }

  /** The receive of CreateIfNotExists returns, and the job is (re)created; false when it finds
      no sample and the final profile applied already. */
  function TakeCell(cell: Cell): (Cell, bool)
    requires CanReceive(cell.opt.b.sampleQueue)
  {
    var (b, use) := TakeSample(cell.opt.b);
    match use
    case None => (cell, false)
    case Some(u) =>
      var taken := if u.Sampled? then cell.opt.taken + 1 else cell.opt.taken;
      (Created(cell.(opt := cell.opt.(b := b, taken := taken)), u), true)
  }

  function Take(c: Config, s: State, j: Job, isNext: bool): State
    requires Known(c, s) && j in s.cells && (forall w :: w in s.waiting ==> w in s.cells)
    requires CanReceive(s.cells[j].opt.b.sampleQueue)
  {
    var (cell, created) := TakeCell(s.cells[j]);
    var s1 := s.(cells := s.cells[j := cell]);
    if isNext then AfterNext(s1, j)
    else if created then s1.(pc := Idle)
    else DeployNext(c, s1, j)
  }

  datatype Step =
    | Goroutine(job: Job, opt: OptStep)
    | JobCompletes(job: Job, value: real)
    | TrackerMoves

  predicate Enabled(c: Config, s: State, step: Step) {
    && !s.crashed
    && match step
       case Goroutine(j, o) => j in c.tuned && j in c.jobs && j in s.cells && OptEnabled(s.cells[j].opt, c.rounds, o)
       case JobCompletes(j, _) => j in c.jobs && j in s.cells && s.cells[j].status.Running?
       case TrackerMoves =>
         match s.pc
         case Idle => s.queue != [] && s.queue[0] in s.cells
         case Reporting(j) => j in s.cells && s.cells[j].runs != [] && CanSend(s.cells[j].opt.b.resultQueue)
         case Recording(j) => j in s.cells && s.cells[j].runs != []
         case Deploying(j) => j in s.cells && (forall w :: w in s.waiting ==> w in s.cells)
         case Taking(j, _) => j in s.cells && (forall w :: w in s.waiting ==> w in s.cells)
                              && CanReceive(s.cells[j].opt.b.sampleQueue)
  }

  function Apply(c: Config, s: State, step: Step): State
    requires Known(c, s) && Enabled(c, s, step)
  {
    match step
    case Goroutine(j, o) =>
      s.(cells := s.cells[j := s.cells[j].(opt := OptApply(s.cells[j].opt, o))])
    case JobCompletes(j, v) =>
      s.(cells := s.cells[j := s.cells[j].(status := Complete, runs := s.cells[j].runs + [v])],
         queue := s.queue + [j])
    case TrackerMoves =>
      match s.pc
      case Idle =>
        var j, s1 := s.queue[0], s.(queue := s.queue[1..]);
        if s.cells[j].registered && !s.cells[j].opt.b.finalizedReady then s1.(pc := Reporting(j))
        else s1.(pc := Recording(j))
      case Reporting(j) => Report(s, j)
      case Recording(j) => Record(c, s, j)
      case Deploying(j) => Deploy(c, s, j)
      case Taking(j, isNext) => Take(c, s, j, isNext)
  }

  /** The state after `steps`, or None if one of them was not enabled. */
  function Exec(c: Config, s: State, steps: seq<Step>): Option<State>
    decreases |steps|
  {
    if steps == [] then Some(s)
    else if !Enabled(c, s, steps[0]) || !(forall j | j in c.jobs :: j in s.cells) then None
    else Exec(c, Apply(c, s, steps[0]), steps[1..])
  }

  // ---------------------------------------------------------------- the invariant

  /** Where one job stands in the sweep. */
  datatype Stage = Pending | Choosing | Live | Arrived | Reported | Recorded | Leaving | Finished

  function CurrentStage(s: State, cell: Cell): Stage {
    match s.pc
    case Taking(_, _) => Choosing
    case Idle => if s.queue != [] then Arrived else if cell.status.Running? then Live else Finished
    case Reporting(_) => Reported
    case Recording(_) => Recorded
    case Deploying(_) => Leaving
  }

  /** Position of the job that is being worked on: the last one taken off the waiting list. */
  function Current(c: Config, s: State): int {
    |c.jobs| - |s.waiting| - 1
  }

  function StageOf(c: Config, s: State, i: nat): Stage
    requires i < |c.jobs| && c.jobs[i] in s.cells
  {
    if i > Current(c, s) then Pending
    else if i < Current(c, s) then Finished
    else CurrentStage(s, s.cells[c.jobs[i]])
  }

  /** A sampled run whose value the optimizer has not been sent yet. */
  predicate Owed(cell: Cell, stage: Stage) {
    (stage.Live? || stage.Arrived? || stage.Reported?) && !cell.opt.b.finalizedApplied
  }

  ghost predicate TunedInv(c: Config, cell: Cell, stage: Stage) {
    var o := cell.opt;
    && OptInv(o, c.rounds)
    && o.taken == |o.reported| + (if Owed(cell, stage) then 1 else 0)
    && |cell.uses| == o.taken + (if o.b.finalizedApplied then 1 else 0)
    && (forall i :: 0 <= i < o.taken ==> cell.uses[i] == Sampled(o.posted[i]))
    && (o.b.finalizedApplied ==> cell.uses[o.taken] == Final(o.b.finalizedTunedProfile))
    && o.reported <= cell.runs
    && (stage.Pending? || stage.Choosing? || stage.Reported? ==> !o.b.finalizedApplied)
    && (stage.Finished? ==> o.b.finalizedApplied)
  }

  ghost predicate UntunedInv(cell: Cell, stage: Stage) {
    && cell.opt == UNTUNED_OPT
    && cell.uses == (if stage.Pending? then [] else [Untuned])
    && !stage.Choosing? && !stage.Reported?
  }

  predicate Published(cell: Cell, stage: Stage) {
    stage.Finished? || (stage.Leaving? && cell.opt.b.finalizedApplied)
  }

  ghost predicate BestInv(c: Config, cell: Cell, stage: Stage) {
    var seen := |cell.runs| - (if stage.Arrived? || stage.Reported? || stage.Recorded? then 1 else 0);
    && seen >= 0
    && if Published(cell, stage) || seen == 0 then cell.best.None?
       else cell.best.Some? && EarliestBest(c.minimize, cell.runs[..seen], cell.best.value)
  }

  ghost predicate CellInv(c: Config, tuned: bool, cell: Cell, stage: Stage) {
    && (if tuned then TunedInv(c, cell, stage) else UntunedInv(cell, stage))
    && BestInv(c, cell, stage)
    && (cell.registered <==> !stage.Finished?)
    && |cell.uses| == |cell.runs| + (if stage.Live? then 1 else 0)
    && (stage.Pending? ==> cell.uses == [])
    && (!stage.Pending? && !stage.Choosing? ==> cell.uses != [])
    && cell.status == (if stage.Live? then Running else if cell.uses == [] then Absent else Complete)
  }

  ghost predicate TrackerInv(c: Config, s: State)
    requires Known(c, s) && 0 <= Current(c, s) < |c.jobs|
  {
    var cur := c.jobs[Current(c, s)];
    && !s.crashed
    && s.waiting == c.jobs[Current(c, s) + 1..]
    && (s.pc.Idle? || s.pc.job == cur)
    && (s.queue == [] || (s.pc.Idle? && s.queue == [cur]))
    && (s.hasWaiting <==> s.waiting != [] || (s.pc.Taking? && s.pc.next))
    && (s.waiting != [] || !s.cells[cur].opt.b.finalizedApplied ==> s.hasDr)
    && (CurrentStage(s, s.cells[cur]).Finished? ==> s.waiting == [] && !s.hasDr)
  }

  ghost predicate PublishedInv(c: Config, s: State)
    requires Known(c, s) && 0 <= Current(c, s) < |c.jobs|
  {
    var k := Current(c, s);
    && |s.published| == k + (if Published(s.cells[c.jobs[k]], StageOf(c, s, k)) then 1 else 0)
    && (forall i :: 0 <= i < |s.published| ==>
         && s.published[i].job == c.jobs[i]
         && EarliestBest(c.minimize, s.cells[c.jobs[i]].runs, s.published[i].run))
  }

  ghost predicate CellsInv(c: Config, s: State)
    requires Known(c, s)
  {
    forall i :: 0 <= i < |c.jobs| ==>
      CellInv(c, c.jobs[i] in c.tuned, s.cells[c.jobs[i]], StageOf(c, s, i))
  }

  ghost predicate Inv(c: Config, s: State) {
    && Known(c, s)
    && 0 <= Current(c, s) < |c.jobs|
    && TrackerInv(c, s)
    && PublishedInv(c, s)
    && CellsInv(c, s)
  }

  // ---------------------------------------------------------------- what each step does to one cell

  lemma GoroutineCell(c: Config, cell: Cell, stage: Stage, o: OptStep)
    requires CellInv(c, true, cell, stage) && OptEnabled(cell.opt, c.rounds, o)
    ensures CellInv(c, true, cell.(opt := OptApply(cell.opt, o)), stage)
    ensures OptApply(cell.opt, o).b.finalizedApplied == cell.opt.b.finalizedApplied
  {
    hide OptInv, OptApply, OptEnabled, EarliestBest;
    OptStepKeepsInv(cell.opt, c.rounds, o);
    OptInvOrders(cell.opt, c.rounds);
  }

  lemma OptInvOrders(o: Opt, rounds: nat)
    requires OptInv(o, rounds)
    ensures o.taken <= |o.posted|
  {
  }

  lemma CompletedCell(c: Config, tuned: bool, cell: Cell, v: real)
    requires CellInv(c, tuned, cell, Live)
    ensures CellInv(c, tuned, cell.(status := Complete, runs := cell.runs + [v]), Arrived)
  {
    assert (cell.runs + [v])[..|cell.runs|] == cell.runs[..|cell.runs|];
  }

  lemma DequeuedCell(c: Config, tuned: bool, cell: Cell)
    requires CellInv(c, tuned, cell, Arrived)
    ensures CellInv(c, tuned, cell, if cell.registered && !cell.opt.b.finalizedReady then Reported else Recorded)
  {
  }

  lemma ReportedCell(c: Config, tuned: bool, cell: Cell)
    requires CellInv(c, tuned, cell, Reported)
    ensures cell.runs != []
    ensures var v := cell.runs[|cell.runs| - 1];
      CellInv(c, tuned, cell.(opt := cell.opt.(b := PostResult(cell.opt.b, v), reported := cell.opt.reported + [v])),
              Recorded)
  {
    if tuned {
      ReportableResult(c, cell);
      ReportingKeepsOptInv(cell.opt, c.rounds, cell.runs[|cell.runs| - 1]);
    }
    hide OptInv, EarliestBest;
  }

  lemma ReportableResult(c: Config, cell: Cell)
    requires CellInv(c, true, cell, Reported)
    ensures !cell.opt.b.resultQueue.closed && |cell.opt.reported| < cell.opt.taken && cell.runs != []
  {
  }

  lemma RecordedCell(c: Config, tuned: bool, cell: Cell)
    requires CellInv(c, tuned, cell, Recorded)
    ensures cell.runs != [] && cell.registered
    ensures CellInv(c, tuned, RecordCell(c, cell).0, Leaving)
    ensures EarliestBest(c.minimize, cell.runs, RecordCell(c, cell).1)
  {
    if cell.best.Some? { BestExtends(c.minimize, cell.runs, cell.best.value); }
    assert cell.runs[..|cell.runs|] == cell.runs;
  }

  lemma LeavingCell(c: Config, tuned: bool, cell: Cell)
    requires CellInv(c, tuned, cell, Leaving)
    ensures cell.registered && cell.status.Complete?
    ensures !cell.opt.b.finalizedApplied ==> tuned && CellInv(c, tuned, cell, Choosing)
    ensures cell.opt.b.finalizedApplied ==> CellInv(c, tuned, cell.(registered := false), Finished)
  {
  }

  lemma PendingCell(c: Config, tuned: bool, cell: Cell)
    requires CellInv(c, tuned, cell, Pending)
    ensures cell.registered && cell.status.Absent?
    ensures tuned ==> !cell.opt.b.finalizedApplied && CellInv(c, tuned, cell, Choosing)
    ensures !tuned ==> cell.opt.b.finalizedApplied && CellInv(c, tuned, Created(cell, Untuned), Live)
  {
  }

  lemma TakenCell(c: Config, tuned: bool, cell: Cell)
    requires CellInv(c, tuned, cell, Choosing) && CanReceive(cell.opt.b.sampleQueue)
    ensures TakeCell(cell).1 && CellInv(c, tuned, TakeCell(cell).0, Live)
    ensures !cell.opt.b.finalizedApplied
  {
    var b, o := cell.opt.b, cell.opt;
    assert tuned && OptInv(o, c.rounds);
    TakingKeepsOptInv(o, c.rounds);
    if b.sampleQueue.buf != [] {
      NextSample(o, c.rounds);
      hide OptInv, EarliestBest, TakeSample;
      assert TakeSample(b)
        == (b.(sampleQueue := b.sampleQueue.(buf := b.sampleQueue.buf[1..])), Some(Sampled(o.posted[o.taken])))
        by { TakeFirst(b); }
      var o' := o.(b := TakeSample(b).0, taken := o.taken + 1);
      assert TakeCell(cell) == (Created(cell.(opt := o'), Sampled(o.posted[o.taken])), true);
      hide TakeCell;
      CreatedIsLive(c, cell, o', Sampled(o.posted[o.taken]));
    } else {
      ReadyIsClosed(o, c.rounds);
      hide OptInv, EarliestBest, TakeSample;
      assert TakeSample(b) == (b.(finalizedApplied := true), Some(Final(b.finalizedTunedProfile))) by { TakeLast(b); }
      var o' := o.(b := b.(finalizedApplied := true));
      assert TakeCell(cell) == (Created(cell.(opt := o'), Final(b.finalizedTunedProfile)), true);
      hide TakeCell;
      CreatedIsLive(c, cell, o', Final(b.finalizedTunedProfile));
    }
  }

  lemma TakeFirst(b: Shared)
    requires b.sampleQueue.buf != []
    ensures TakeSample(b)
      == (b.(sampleQueue := b.sampleQueue.(buf := b.sampleQueue.buf[1..])), Some(Sampled(b.sampleQueue.buf[0])))
  {
  }

  lemma TakeLast(b: Shared)
    requires b.sampleQueue == Chan([], true) && b.finalizedReady && !b.finalizedApplied
    ensures TakeSample(b) == (b.(finalizedApplied := true), Some(Final(b.finalizedTunedProfile)))
  {
  }

  /** An auto-tuned job created under the use that was received for it. */
  lemma CreatedIsLive(c: Config, cell: Cell, o: Opt, use: Use)
    requires CellInv(c, true, cell, Choosing) && OptInv(o, c.rounds)
    requires o.posted == cell.opt.posted && o.reported == cell.opt.reported
    requires if use.Sampled?
      then o.taken == cell.opt.taken + 1 <= |o.posted| && !o.b.finalizedApplied
        && use == Sampled(o.posted[cell.opt.taken])
      else o.taken == cell.opt.taken && o.b.finalizedApplied && use == Final(o.b.finalizedTunedProfile)
    ensures CellInv(c, true, Created(cell.(opt := o), use), Live)
  {
    hide OptInv, EarliestBest;
  }

  lemma ReadyIsClosed(o: Opt, rounds: nat)
    requires OptInv(o, rounds) && o.b.sampleQueue.closed
    ensures o.b.finalizedReady && o.b.finalizedTunedProfile.Some?
  {
  }

  // ---------------------------------------------------------------- every step keeps the invariant

  lemma InitInv(c: Config)
    requires ValidConfig(c) && |c.jobs| > 1
    ensures Inv(c, Init(c))
  {
    hide CellInv, CellsInv, InitCell, Init;
    InitCellsInv(c);
    if c.jobs[0] in c.tuned { InitTuned(c); } else { InitUntuned(c); }
  }

  lemma InitTuned(c: Config)
    requires ValidConfig(c) && |c.jobs| > 1 && c.jobs[0] in c.tuned
    ensures var s := Init(c); Known(c, s) && Current(c, s) == 0 && TrackerInv(c, s) && PublishedInv(c, s)
  {
    hide CellInv, InitCell;
    var s := Init(c);
    InitCellInv(c, c.jobs[0]);
    assert s.cells[c.jobs[0]] == InitCell(c, c.jobs[0]) && s.waiting == c.jobs[1..];
  }

  lemma InitUntuned(c: Config)
    requires ValidConfig(c) && |c.jobs| > 1 && c.jobs[0] !in c.tuned
    ensures var s := Init(c); Known(c, s) && Current(c, s) == 0 && TrackerInv(c, s) && PublishedInv(c, s)
  {
    hide CellInv, InitCell;
    var s := Init(c);
    assert s.cells[c.jobs[0]] == Created(InitCell(c, c.jobs[0]), Untuned) && s.waiting == c.jobs[1..];
  }

  lemma InitCellsInv(c: Config)
    requires ValidConfig(c) && |c.jobs| > 1
    ensures CellsInv(c, Init(c))
  {
    hide CellInv, InitCell;
    forall i | 0 <= i < |c.jobs|
      ensures CellInv(c, c.jobs[i] in c.tuned, Init(c).cells[c.jobs[i]], StageOf(c, Init(c), i))
    {
      InitCellInv(c, c.jobs[i]);
    }
  }

  lemma InitCellInv(c: Config, j: Job)
    requires |c.jobs| > 1
    ensures InitCell(c, j).status.Absent? && (j in c.tuned ==> !InitCell(c, j).opt.b.finalizedApplied)
    ensures CellInv(c, j in c.tuned, InitCell(c, j), Pending)
    ensures j in c.tuned ==> CellInv(c, true, InitCell(c, j), Choosing)
    ensures j !in c.tuned ==> CellInv(c, false, Created(InitCell(c, j), Untuned), Live)
  {
  }

  /** All cells but the `k`-th kept their content and their stage. */
  lemma CellsKept(c: Config, s: State, s': State, k: nat)
    requires Known(c, s) && Known(c, s') && CellsInv(c, s) && k < |c.jobs|
    requires forall i :: 0 <= i < |c.jobs| && i != k ==>
               s'.cells[c.jobs[i]] == s.cells[c.jobs[i]] && StageOf(c, s', i) == StageOf(c, s, i)
    requires CellInv(c, c.jobs[k] in c.tuned, s'.cells[c.jobs[k]], StageOf(c, s', k))
    ensures CellsInv(c, s')
  {
    hide CellInv;
  }

  lemma PublishedKept(c: Config, s: State, s': State, k: nat)
    requires ValidConfig(c) && Known(c, s) && Known(c, s') && 0 <= Current(c, s) < |c.jobs| && PublishedInv(c, s)
    requires Current(c, s') == Current(c, s) && s'.published == s.published && k < |c.jobs|
    requires forall i :: 0 <= i < |c.jobs| && i != k ==> s'.cells[c.jobs[i]] == s.cells[c.jobs[i]]
    requires k < |s.published| ==> s'.cells[c.jobs[k]].runs == s.cells[c.jobs[k]].runs
    requires Published(s.cells[c.jobs[Current(c, s)]], StageOf(c, s, Current(c, s)))
        <==> Published(s'.cells[c.jobs[Current(c, s)]], StageOf(c, s', Current(c, s)))
    ensures PublishedInv(c, s')
  {
    hide EarliestBest;
  }

  /** A change of one optimizer that neither applies its profile nor touches the tracker. */
  lemma OptimizerChanges(c: Config, s: State, k: nat, opt: Opt)
    requires ValidConfig(c) && Inv(c, s) && k < |c.jobs|
    requires opt.b.finalizedApplied == s.cells[c.jobs[k]].opt.b.finalizedApplied
    requires CellInv(c, c.jobs[k] in c.tuned, s.cells[c.jobs[k]].(opt := opt), StageOf(c, s, k))
    ensures Inv(c, s.(cells := s.cells[c.jobs[k] := s.cells[c.jobs[k]].(opt := opt)]))
  {
    hide CellInv, EarliestBest;
    var s' := s.(cells := s.cells[c.jobs[k] := s.cells[c.jobs[k]].(opt := opt)]);
    CellsKept(c, s, s', k);
    PublishedKept(c, s, s', k);
  }

  lemma GoroutineKeepsInv(c: Config, s: State, j: Job, o: OptStep)
    requires ValidConfig(c) && Inv(c, s) && Enabled(c, s, Goroutine(j, o))
    ensures Inv(c, Apply(c, s, Goroutine(j, o)))
  {
    hide CellInv, OptApply, OptEnabled, TrackerInv, PublishedInv, StageOf;
    var k :| 0 <= k < |c.jobs| && c.jobs[k] == j;
    GoroutineCell(c, s.cells[j], StageOf(c, s, k), o);
    OptimizerChanges(c, s, k, OptApply(s.cells[j].opt, o));
  }

  lemma CompletionKeepsInv(c: Config, s: State, j: Job, v: real)
    requires ValidConfig(c) && Inv(c, s) && Enabled(c, s, JobCompletes(j, v))
    ensures Inv(c, Apply(c, s, JobCompletes(j, v)))
  {
    hide CellInv, EarliestBest;
    var s' := Apply(c, s, JobCompletes(j, v));
    var k := RunningJob(c, s, j);
    CompletedCell(c, c.jobs[k] in c.tuned, s.cells[j], v);
    CellsKept(c, s, s', k);
    PublishedKept(c, s, s', k);
  }

  /** A running job is the one being worked on, and nothing else is going on in the tracker. */
  lemma RunningJob(c: Config, s: State, j: Job) returns (k: nat)
    requires ValidConfig(c) && Inv(c, s) && j in c.jobs && s.cells[j].status.Running?
    ensures k == Current(c, s) && c.jobs[k] == j && s.pc.Idle? && s.queue == []
    ensures CellInv(c, j in c.tuned, s.cells[j], Live) && StageOf(c, s, k) == Live
  {
    hide CellInv, PublishedInv;
    k :| 0 <= k < |c.jobs| && c.jobs[k] == j;
    RunningIsLive(c, c.jobs[k] in c.tuned, s.cells[j], StageOf(c, s, k));
  }

  lemma RunningIsLive(c: Config, tuned: bool, cell: Cell, stage: Stage)
    requires CellInv(c, tuned, cell, stage)
    ensures cell.status.Running? <==> stage.Live?
  {
  }

  lemma DequeueKeepsInv(c: Config, s: State)
    requires ValidConfig(c) && Inv(c, s) && Enabled(c, s, TrackerMoves) && s.pc.Idle?
    ensures Inv(c, Apply(c, s, TrackerMoves))
  {
    hide CellInv, EarliestBest;
    var s', k := Apply(c, s, TrackerMoves), Current(c, s);
    DequeuedCell(c, c.jobs[k] in c.tuned, s.cells[c.jobs[k]]);
    CellsKept(c, s, s', k);
    PublishedKept(c, s, s', k);
  }

  lemma ReportKeepsInv(c: Config, s: State)
    requires ValidConfig(c) && Inv(c, s) && Enabled(c, s, TrackerMoves) && s.pc.Reporting?
    ensures Inv(c, Apply(c, s, TrackerMoves))
  {
    hide CellInv, EarliestBest;
    var s', k := Apply(c, s, TrackerMoves), Current(c, s);
    ReportedCell(c, c.jobs[k] in c.tuned, s.cells[c.jobs[k]]);
    CellsKept(c, s, s', k);
    PublishedKept(c, s, s', k);
  }

  lemma RecordKeepsInv(c: Config, s: State)
    requires ValidConfig(c) && Inv(c, s) && Enabled(c, s, TrackerMoves) && s.pc.Recording?
    ensures Inv(c, Apply(c, s, TrackerMoves))
  {
    hide CellInv, EarliestBest, IsBetter;
    var s', k := Apply(c, s, TrackerMoves), Current(c, s);
    RecordedCell(c, c.jobs[k] in c.tuned, s.cells[c.jobs[k]]);
    CellsKept(c, s, s', k);
  }

  lemma NotYetDone(c: Config, s: State, i: nat)
    requires ValidConfig(c) && Inv(c, s) && |s.published| <= i < |c.jobs|
    ensures !JobDone(s.published, c.jobs[i])
  {
    hide CellsInv, EarliestBest;
  }

  /** What deployWaitingResource amounts to in a reachable state. */
  function DeployResult(c: Config, s: State): State
    requires Known(c, s) && 0 <= Current(c, s) < |c.jobs|
  {
    var k := Current(c, s);
    var j := c.jobs[k];
    var cell := s.cells[j];
    var cells := s.cells[j := cell.(registered := false)];
    if !cell.opt.b.finalizedApplied then s.(pc := Taking(j, false))
    else if k + 1 == |c.jobs| then s.(cells := cells, hasDr := false, pc := Idle)
    else
      var next, rest := c.jobs[k + 1], c.jobs[k + 2..];
      if next in c.tuned then s.(cells := cells, waiting := rest, pc := Taking(next, true))
      else s.(cells := cells[next := Created(s.cells[next], Untuned)], waiting := rest, pc := Idle,
              hasWaiting := rest != [], hasDr := rest != [])
  }

  lemma DeployComputes(c: Config, s: State)
    requires ValidConfig(c) && Inv(c, s) && Enabled(c, s, TrackerMoves) && s.pc.Deploying?
    ensures Apply(c, s, TrackerMoves) == DeployResult(c, s)
  {
    hide CellInv, EarliestBest, JobDone;
    var k := Current(c, s);
    var cell := s.cells[c.jobs[k]];
    LeavingCell(c, c.jobs[k] in c.tuned, cell);
    if !cell.opt.b.finalizedApplied {
      NotYetDone(c, s, k);
    } else if s.waiting != [] {
      var next := c.jobs[k + 1];
      assert next == s.waiting[0] && next != c.jobs[k];
      assert s.waiting[1..] == c.jobs[k + 2..];
      NotYetDone(c, s, k + 1);
      assert !JobDone(s.published, next);
      PendingCell(c, next in c.tuned, s.cells[next]);
    }
  }

  lemma DeployKeepsInv(c: Config, s: State)
    requires ValidConfig(c) && Inv(c, s) && Enabled(c, s, TrackerMoves) && s.pc.Deploying?
    ensures Inv(c, Apply(c, s, TrackerMoves))
  {
    hide CellInv, EarliestBest, JobDone, Apply, Enabled, DeployResult;
    DeployComputes(c, s);
    var k := Current(c, s);
    LeavingCell(c, c.jobs[k] in c.tuned, s.cells[c.jobs[k]]);
    hide Inv;
    if !s.cells[c.jobs[k]].opt.b.finalizedApplied || k + 1 == |c.jobs| {
      StayKeepsInv(c, s);
    } else {
      NextKeepsInv(c, s);
    }
  }

  /** The same job again, or nothing left to do. */
  lemma StayKeepsInv(c: Config, s: State)
    requires ValidConfig(c) && Inv(c, s) && s.pc.Deploying?
    requires !s.cells[c.jobs[Current(c, s)]].opt.b.finalizedApplied || Current(c, s) + 1 == |c.jobs|
    ensures Inv(c, DeployResult(c, s))
  {
    hide CellInv, EarliestBest;
    var s', k := DeployResult(c, s), Current(c, s);
    LeavingCell(c, c.jobs[k] in c.tuned, s.cells[c.jobs[k]]);
    CellsKept(c, s, s', k);
  }

  /** The next waiting job. */
  lemma NextKeepsInv(c: Config, s: State)
    requires ValidConfig(c) && Inv(c, s) && s.pc.Deploying?
    requires s.cells[c.jobs[Current(c, s)]].opt.b.finalizedApplied && Current(c, s) + 1 < |c.jobs|
    ensures Inv(c, DeployResult(c, s))
  {
    hide CellInv, EarliestBest;
    var s', k := DeployResult(c, s), Current(c, s);
    var next := c.jobs[k + 1];
    LeavingCell(c, c.jobs[k] in c.tuned, s.cells[c.jobs[k]]);
    PendingCell(c, next in c.tuned, s.cells[next]);
    assert Current(c, s') == k + 1;
    DeployKeepsCells(c, s, s');
  }

  lemma DeployKeepsCells(c: Config, s: State, s': State)
    requires ValidConfig(c) && Known(c, s) && Known(c, s') && CellsInv(c, s)
    requires 0 <= Current(c, s) && Current(c, s') == Current(c, s) + 1 < |c.jobs|
    requires forall i :: 0 <= i < |c.jobs| && i != Current(c, s) && i != Current(c, s') ==>
               s'.cells[c.jobs[i]] == s.cells[c.jobs[i]]
    requires CellInv(c, c.jobs[Current(c, s)] in c.tuned, s'.cells[c.jobs[Current(c, s)]], Finished)
    requires var k := Current(c, s');
      CellInv(c, c.jobs[k] in c.tuned, s'.cells[c.jobs[k]], StageOf(c, s', k))
    ensures CellsInv(c, s')
  {
    hide CellInv;
  }

  lemma TakeKeepsInv(c: Config, s: State)
    requires ValidConfig(c) && Inv(c, s) && Enabled(c, s, TrackerMoves) && s.pc.Taking?
    ensures Inv(c, Apply(c, s, TrackerMoves))
  {
    hide CellInv, EarliestBest, TakeSample;
    var s', k := Apply(c, s, TrackerMoves), Current(c, s);
    TakenCell(c, c.jobs[k] in c.tuned, s.cells[c.jobs[k]]);
    CellsKept(c, s, s', k);
    PublishedKept(c, s, s', k);
  }

  lemma TrackerKeepsInv(c: Config, s: State)
    requires ValidConfig(c) && Inv(c, s) && Enabled(c, s, TrackerMoves)
    ensures Inv(c, Apply(c, s, TrackerMoves))
  {
    hide Inv, Apply;
    match s.pc
    case Idle => DequeueKeepsInv(c, s);
    case Reporting(_) => ReportKeepsInv(c, s);
    case Recording(_) => RecordKeepsInv(c, s);
    case Deploying(_) => DeployKeepsInv(c, s);
    case Taking(_, _) => TakeKeepsInv(c, s);
  }

  lemma StepKeepsInv(c: Config, s: State, step: Step)
    requires ValidConfig(c) && Inv(c, s) && Enabled(c, s, step)
    ensures Inv(c, Apply(c, s, step))
  {
    hide Inv, Apply;
    match step
    case Goroutine(j, o) => GoroutineKeepsInv(c, s, j, o);
    case JobCompletes(j, v) => CompletionKeepsInv(c, s, j, v);
    case TrackerMoves => TrackerKeepsInv(c, s);
  }

  // ---------------------------------------------------------------- termination

  function OptRank(pc: Pc): nat {
    match pc
    case Posted => 7
    case Waiting => 6
    case NotStarted => 6
    case Computing => 5
    case ProfileSet => 4
    case MarkedReady => 2
    case SamplesClosed => 1
    case Stopped => 0
  }

  /** Work still owed to one job: rounds the optimizer may play, samples not yet run, the final run. */
  function CellWork(c: Config, tuned: bool, cell: Cell): int {
    (if tuned then OptWork(c.rounds, cell.opt) else 0) + (if cell.status.Running? then 6 else 0)
  }

  function OptWork(rounds: nat, o: Opt): int {
    20 * (rounds - o.calls) + OptRank(o.pc) + 7 * |o.b.sampleQueue.buf| + (if o.b.finalizedApplied then 0 else 7)
  }

  lemma OptStepWorks(o: Opt, rounds: nat, step: OptStep)
    requires OptInv(o, rounds) && OptEnabled(o, rounds, step)
    ensures OptWork(rounds, OptApply(o, step)) < OptWork(rounds, o)
  {
    match step
    case Post(p) => assert |o.b.sampleQueue.buf + [p]| == |o.b.sampleQueue.buf| + 1;
    case _ =>
  }

  function SumWork(c: Config, cells: map<Job, Cell>, n: nat): int
    requires n <= |c.jobs|
  {
    if n == 0 then 0
    else SumWork(c, cells, n - 1) +
         (if c.jobs[n - 1] in cells then CellWork(c, c.jobs[n - 1] in c.tuned, cells[c.jobs[n - 1]]) else 0)
  }

  function PcWork(pc: TrackerPc): nat {
    match pc
    case Idle => 0
    case Reporting(_) => 4
    case Recording(_) => 3
    case Deploying(_) => 2
    case Taking(_, _) => 1
  }

  function Work(c: Config, s: State): int
  {
    SumWork(c, s.cells, |c.jobs|) + 5 * |s.queue| + 8 * |s.waiting| + PcWork(s.pc)
  }

  lemma {:induction false} SumWorkChanges(c: Config, cells: map<Job, Cell>, cells': map<Job, Cell>, k: nat, n: nat)
    requires n <= |c.jobs| && k < |c.jobs| && (forall j :: j in c.jobs ==> j in cells && j in cells')
    requires forall i :: 0 <= i < |c.jobs| && i != k ==> cells'[c.jobs[i]] == cells[c.jobs[i]]
    ensures SumWork(c, cells', n) - SumWork(c, cells, n) ==
      if k < n
      then CellWork(c, c.jobs[k] in c.tuned, cells'[c.jobs[k]]) - CellWork(c, c.jobs[k] in c.tuned, cells[c.jobs[k]])
      else 0
  {
    hide CellWork;
    if n > 0 { SumWorkChanges(c, cells, cells', k, n - 1); }
  }

  lemma {:induction false} SumWorkNonNegative(c: Config, s: State, n: nat)
    requires Known(c, s) && CellsInv(c, s) && n <= |c.jobs|
    ensures SumWork(c, s.cells, n) >= 0
  {
    hide CellInv;
    if n > 0 {
      SumWorkNonNegative(c, s, n - 1);
      CellWorkNonNegative(c, c.jobs[n - 1] in c.tuned, s.cells[c.jobs[n - 1]], StageOf(c, s, n - 1));
    }
  }

  lemma CellWorkNonNegative(c: Config, tuned: bool, cell: Cell, stage: Stage)
    requires CellInv(c, tuned, cell, stage)
    ensures CellWork(c, tuned, cell) >= 0
  {
  }

  lemma GoroutineWorks(c: Config, cell: Cell, stage: Stage, o: OptStep)
    requires CellInv(c, true, cell, stage) && OptEnabled(cell.opt, c.rounds, o)
    ensures CellWork(c, true, cell.(opt := OptApply(cell.opt, o))) < CellWork(c, true, cell)
  {
    hide OptInv, OptApply, OptEnabled, OptWork, BestInv;
    OptStepWorks(cell.opt, c.rounds, o);
  }

  lemma TakeWorks(c: Config, tuned: bool, cell: Cell)
    requires CellInv(c, tuned, cell, Choosing) && CanReceive(cell.opt.b.sampleQueue)
    ensures CellWork(c, tuned, TakeCell(cell).0) < CellWork(c, tuned, cell)
  {
  }

  lemma GoroutineUsesWork(c: Config, s: State, j: Job, o: OptStep)
    requires ValidConfig(c) && Inv(c, s) && Enabled(c, s, Goroutine(j, o))
    ensures Work(c, Apply(c, s, Goroutine(j, o))) < Work(c, s)
  {
    hide CellInv, SumWork, CellWork, EarliestBest, OptApply, OptEnabled;
    var s' := Apply(c, s, Goroutine(j, o));
    var k :| 0 <= k < |c.jobs| && c.jobs[k] == j;
    GoroutineWorks(c, s.cells[j], StageOf(c, s, k), o);
    SumWorkChanges(c, s.cells, s'.cells, k, |c.jobs|);
  }

  lemma CompletionUsesWork(c: Config, s: State, j: Job, v: real)
    requires ValidConfig(c) && Inv(c, s) && Enabled(c, s, JobCompletes(j, v))
    ensures Work(c, Apply(c, s, JobCompletes(j, v))) < Work(c, s)
  {
    hide CellInv, SumWork, EarliestBest;
    var s' := Apply(c, s, JobCompletes(j, v));
    var k :| 0 <= k < |c.jobs| && c.jobs[k] == j;
    SumWorkChanges(c, s.cells, s'.cells, k, |c.jobs|);
  }

  lemma ReportUsesWork(c: Config, s: State)
    requires ValidConfig(c) && Inv(c, s) && Enabled(c, s, TrackerMoves) && (s.pc.Reporting? || s.pc.Recording?)
    ensures Work(c, Apply(c, s, TrackerMoves)) < Work(c, s)
  {
    hide CellInv, SumWork, EarliestBest, IsBetter;
    SumWorkChanges(c, s.cells, Apply(c, s, TrackerMoves).cells, Current(c, s), |c.jobs|);
  }

  lemma TakeUsesWork(c: Config, s: State)
    requires ValidConfig(c) && Inv(c, s) && Enabled(c, s, TrackerMoves) && s.pc.Taking?
    ensures Work(c, Apply(c, s, TrackerMoves)) < Work(c, s)
  {
    hide CellInv, SumWork, CellWork, EarliestBest, TakeSample;
    var k := Current(c, s);
    TakenCell(c, c.jobs[k] in c.tuned, s.cells[c.jobs[k]]);
    TakeWorks(c, c.jobs[k] in c.tuned, s.cells[c.jobs[k]]);
    SumWorkChanges(c, s.cells, Apply(c, s, TrackerMoves).cells, k, |c.jobs|);
  }

  lemma DeployUsesWork(c: Config, s: State)
    requires ValidConfig(c) && Inv(c, s) && Enabled(c, s, TrackerMoves) && s.pc.Deploying?
    ensures Work(c, Apply(c, s, TrackerMoves)) < Work(c, s)
  {
    hide CellInv, SumWork, EarliestBest, Apply, Enabled;
    DeployComputes(c, s);
    var s', n, k := DeployResult(c, s), |c.jobs|, Current(c, s);
    var cell := s.cells[c.jobs[k]];
    if cell.opt.b.finalizedApplied {
      var mid := s.cells[c.jobs[k] := cell.(registered := false)];
      SumWorkChanges(c, s.cells, mid, k, n);
      if k + 1 < n { SumWorkChanges(c, mid, s'.cells, k + 1, n); }
    }
  }

  lemma DequeueUsesWork(c: Config, s: State)
    requires ValidConfig(c) && Inv(c, s) && Enabled(c, s, TrackerMoves) && s.pc.Idle?
    ensures Work(c, Apply(c, s, TrackerMoves)) < Work(c, s)
  {
    hide CellsInv, SumWork, Inv;
  }

  /** Every step of every actor uses up work. */
  lemma StepUsesWork(c: Config, s: State, step: Step)
    requires ValidConfig(c) && Inv(c, s) && Enabled(c, s, step)
    ensures Work(c, Apply(c, s, step)) < Work(c, s)
  {
    hide Inv, Apply, Work;
    match step
    case Goroutine(j, o) => GoroutineUsesWork(c, s, j, o);
    case JobCompletes(j, v) => CompletionUsesWork(c, s, j, v);
    case TrackerMoves =>
      match s.pc
      case Idle => DequeueUsesWork(c, s);
      case Reporting(_) => ReportUsesWork(c, s);
      case Recording(_) => ReportUsesWork(c, s);
      case Taking(_, _) => TakeUsesWork(c, s);
      case Deploying(_) => DeployUsesWork(c, s);
  }

  /** Along any run the invariant holds, and the run is no longer than the work it used up. */
  lemma {:induction false} RunKeepsInv(c: Config, s: State, steps: seq<Step>)
    requires ValidConfig(c) && Inv(c, s) && Exec(c, s, steps).Some?
    ensures var s' := Exec(c, s, steps).value;
      Inv(c, s') && |steps| + Work(c, s') <= Work(c, s)
    decreases |steps|
  {
    hide Inv, Work, Apply, Enabled;
    if steps != [] {
      assert Known(c, s) by { InvKnown(c, s); }
      StepKeepsInv(c, s, steps[0]);
      StepUsesWork(c, s, steps[0]);
      RunKeepsInv(c, Apply(c, s, steps[0]), steps[1..]);
    }
  }

  lemma InvKnown(c: Config, s: State)
    requires Inv(c, s)
    ensures Known(c, s) && Work(c, s) >= 0
  {
    SumWorkNonNegative(c, s, |c.jobs|);
  }

  // ---------------------------------------------------------------- progress

  ghost predicate SweepDone(c: Config, s: State) {
    && Known(c, s)
    && s.pc.Idle? && s.queue == [] && s.waiting == []
    && |s.published| == |c.jobs|
    && forall i :: 0 <= i < |c.jobs| ==> !s.cells[c.jobs[i]].status.Running?
  }

  ghost predicate Stuck(c: Config, s: State) {
    forall step :: !Enabled(c, s, step)
  }

  /** An optimizer whose results were all delivered can move until it has closed its queues. */
  lemma OptimizerMoves(o: Opt, rounds: nat) returns (step: OptStep)
    requires OptInv(o, rounds) && o.taken == |o.reported| && !CanReceive(o.b.sampleQueue)
    ensures OptEnabled(o, rounds, step)
  {
    QueuesDrained(o, rounds);
    hide OptInv;
    step := match o.pc
      case NotStarted => Start
      case Computing => SetProfile("")
      case Posted => Count
      case Waiting => Hear
      case ProfileSet => TestReady
      case _ => CloseS;
  }

  lemma QueuesDrained(o: Opt, rounds: nat)
    requires OptInv(o, rounds) && o.taken == |o.reported| && !CanReceive(o.b.sampleQueue)
    ensures !o.pc.SamplesClosed? && !o.pc.Stopped?
    ensures o.pc.Waiting? ==> CanReceive(o.b.resultQueue)
  {
    assert |o.posted[o.taken..]| == 0;
    assert |o.heard + o.b.resultQueue.buf| == |o.heard| + |o.b.resultQueue.buf|;
  }

  lemma NoneRuns(c: Config, s: State)
    requires ValidConfig(c) && Inv(c, s) && StageOf(c, s, Current(c, s)).Finished?
    ensures forall i :: 0 <= i < |c.jobs| ==> !s.cells[c.jobs[i]].status.Running?
  {
    forall i | 0 <= i < |c.jobs| ensures !s.cells[c.jobs[i]].status.Running? {
      hide CellInv, EarliestBest;
      RunningIsLive(c, c.jobs[i] in c.tuned, s.cells[c.jobs[i]], StageOf(c, s, i));
    }
  }

  /** No reachable state is a deadlock: some actor can move until every job is published. */
  lemma SomeoneMoves(c: Config, s: State) returns (step: Step)
    requires ValidConfig(c) && Inv(c, s) && !SweepDone(c, s)
    ensures Enabled(c, s, step)
  {
    hide EarliestBest;
    var k := Current(c, s);
    var j := c.jobs[k];
    var cell := s.cells[j];
    assert CellInv(c, j in c.tuned, cell, StageOf(c, s, k));
    step := TrackerMoves;
    if s.pc.Taking? && !CanReceive(cell.opt.b.sampleQueue) {
      var o := OptimizerMoves(cell.opt, c.rounds);
      step := Goroutine(j, o);
    } else if s.pc.Idle? && s.queue == [] {
      if !cell.status.Running? { NoneRuns(c, s); }
      step := JobCompletes(j, 0.0);
    }
  }
}
