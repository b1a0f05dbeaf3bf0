/** What holds over whole runs of a sequential sweep: safety in every interleaving, the shape of
    an auto-tuned job, termination, and what every finished run has published. */
module SweepRuns {
  import opened Wrappers
  import opened Arithmetic
  import opened Optimizer
  import opened Protocol
  import opened Ranking

  /** `s` is reached from the freshly subscribed sweep by `steps`. */
  ghost predicate Run(c: Config, steps: seq<Step>, s: State) {
    ValidConfig(c) && Exec(c, Init(c), steps) == Some(s)
  }

  lemma ReachableInv(c: Config, steps: seq<Step>, s: State)
    requires Run(c, steps, s) && |c.jobs| > 1
    ensures Inv(c, s)
  {
    InitInv(c);
    RunKeepsInv(c, Init(c), steps);
  }

  lemma CellAt(c: Config, s: State, j: Job) returns (i: nat)
    requires Inv(c, s) && j in c.jobs
    ensures i < |c.jobs| && c.jobs[i] == j && CellInv(c, j in c.tuned, s.cells[j], StageOf(c, s, i))
  {
    i :| 0 <= i < |c.jobs| && c.jobs[i] == j;
  }

  /** In every interleaving: no queue is closed twice or written after its close, each holds at
      most one element and delivers in order, and while a sampled job runs its optimizer is
      blocked waiting for exactly the value of that run. */
  lemma HandshakeSafety(c: Config, steps: seq<Step>, s: State, j: Job)
    requires Run(c, steps, s) && |c.jobs| > 1 && j in c.jobs && j in c.tuned
    ensures !s.crashed && j in s.cells && !s.cells[j].opt.b.crashed
    ensures var o := s.cells[j].opt;
      && |o.b.sampleQueue.buf| <= 1 && |o.b.resultQueue.buf| <= 1
      && |o.heard| <= |o.reported| <= o.taken <= |o.posted| <= |o.heard| + 1
      && o.b.sampleQueue.buf == o.posted[o.taken..]
      && o.heard + o.b.resultQueue.buf == o.reported <= s.cells[j].runs
    ensures var cell := s.cells[j];
      cell.status.Running? && cell.uses != [] && cell.uses[|cell.uses| - 1].Sampled? ==>
        && (cell.opt.pc.Posted? || cell.opt.pc.Waiting?)
        && cell.opt.b.resultQueue == Chan([], false)
        && cell.opt.heard == cell.runs
        && cell.opt.posted == (seq(|cell.uses|, i requires 0 <= i < |cell.uses| =>
             if cell.uses[i].Sampled? then cell.uses[i].profile else ""))
  {
    ReachableInv(c, steps, s);
    var i := CellAt(c, s, j);
    SafeCell(c, s.cells[j], StageOf(c, s, i));
    hide CellInv, CellsInv, PublishedInv, StageOf;
  }

  lemma SafeCell(c: Config, cell: Cell, stage: Stage)
    requires CellInv(c, true, cell, stage)
    ensures var o := cell.opt;
      && !o.b.crashed
      && |o.b.sampleQueue.buf| <= 1 && |o.b.resultQueue.buf| <= 1
      && |o.heard| <= |o.reported| <= o.taken <= |o.posted| <= |o.heard| + 1
      && o.b.sampleQueue.buf == o.posted[o.taken..]
      && o.heard + o.b.resultQueue.buf == o.reported <= cell.runs
    ensures cell.status.Running? && cell.uses != [] && cell.uses[|cell.uses| - 1].Sampled? ==>
      && (cell.opt.pc.Posted? || cell.opt.pc.Waiting?)
      && cell.opt.b.resultQueue == Chan([], false)
      && cell.opt.heard == cell.runs
      && cell.opt.posted == (seq(|cell.uses|, i requires 0 <= i < |cell.uses| =>
           if cell.uses[i].Sampled? then cell.uses[i].profile else ""))
  {
    hide BestInv, EarliestBest;
    assert |cell.opt.heard + cell.opt.b.resultQueue.buf| == |cell.opt.heard| + |cell.opt.b.resultQueue.buf|;
  }

  /** An auto-tuned job is created once per posted sample and once more under the final profile,
      which is set by then; it is published after that last completion and never before. */
  lemma TunedShape(c: Config, steps: seq<Step>, s: State, j: Job)
    requires Run(c, steps, s) && |c.jobs| > 1 && j in c.jobs && j in c.tuned
    ensures j in s.cells && |s.cells[j].uses| <= c.rounds + 1
    ensures var cell := s.cells[j]; forall i :: 0 <= i < |cell.uses| ==>
      || (i < |cell.opt.posted| && cell.uses[i] == Sampled(cell.opt.posted[i]))
      || (i == |cell.uses| - 1 && cell.uses[i] == Final(cell.opt.b.finalizedTunedProfile)
          && cell.opt.b.finalizedTunedProfile.Some?)
    ensures var cell := s.cells[j];
      cell.opt.b.finalizedApplied <==> cell.uses != [] && cell.uses[|cell.uses| - 1].Final?
    ensures var cell := s.cells[j];
      cell.opt.b.finalizedApplied ==> |cell.uses| == cell.opt.b.samplingCount + 1
    ensures var cell := s.cells[j];
      JobDone(s.published, j) ==> cell.opt.b.finalizedApplied && |cell.runs| == |cell.uses|
  {
    ReachableInv(c, steps, s);
    var i := CellAt(c, s, j);
    TunedCellShape(c, s.cells[j], StageOf(c, s, i));
    if JobDone(s.published, j) {
      DoneCell(c, s, i);
    }
    hide Inv, CellInv, JobDone, StageOf;
  }

  lemma TunedCellShape(c: Config, cell: Cell, stage: Stage)
    requires CellInv(c, true, cell, stage)
    ensures |cell.uses| <= c.rounds + 1
    ensures forall i :: 0 <= i < |cell.uses| ==>
      || (i < |cell.opt.posted| && cell.uses[i] == Sampled(cell.opt.posted[i]))
      || (i == |cell.uses| - 1 && cell.uses[i] == Final(cell.opt.b.finalizedTunedProfile)
          && cell.opt.b.finalizedTunedProfile.Some?)
    ensures cell.opt.b.finalizedApplied <==> cell.uses != [] && cell.uses[|cell.uses| - 1].Final?
    ensures cell.opt.b.finalizedApplied ==> |cell.uses| == cell.opt.b.samplingCount + 1
  {
    hide EarliestBest, BestInv;
  }

  lemma DoneCell(c: Config, s: State, i: nat)
    requires ValidConfig(c) && Inv(c, s) && i < |c.jobs| && JobDone(s.published, c.jobs[i])
    requires c.jobs[i] in c.tuned && CellInv(c, true, s.cells[c.jobs[i]], StageOf(c, s, i))
    ensures var cell := s.cells[c.jobs[i]]; cell.opt.b.finalizedApplied && |cell.runs| == |cell.uses|
  {
    var p :| 0 <= p < |s.published| && s.published[p].job == c.jobs[i];
    assert c.jobs[p] == c.jobs[i] && p == i;
    hide CellsInv, OptInv, BestInv, EarliestBest;
  }

  // ---------------------------------------------------------------- what a run never takes back

  /** The histories of a job only grow, its queues and flags only close; once the final profile of an
      auto-tuned job is applied, the profile stays and the job is not created again. */
  ghost predicate Grows(tuned: bool, cell: Cell, cell': Cell) {
    && cell.uses <= cell'.uses && cell.runs <= cell'.runs
    && OptGrows(cell.opt, cell'.opt)
    && (tuned && cell.opt.b.finalizedApplied ==> cell'.uses == cell.uses)
  }

  ghost predicate OptGrows(o: Opt, o': Opt) {
    && o.posted <= o'.posted && o.reported <= o'.reported && o.heard <= o'.heard && o.taken <= o'.taken
    && (o.b.sampleQueue.closed ==> o'.b.sampleQueue.closed) && (o.b.resultQueue.closed ==> o'.b.resultQueue.closed)
    && (o.b.finalizedReady ==> o'.b.finalizedReady)
    && (o.b.finalizedApplied ==> o'.b.finalizedApplied && o'.b.finalizedTunedProfile == o.b.finalizedTunedProfile)
  }

  lemma OptStepGrows(o: Opt, rounds: nat, step: OptStep)
    requires OptInv(o, rounds) && OptEnabled(o, rounds, step)
    ensures OptGrows(o, OptApply(o, step))
  {
    OptStepKeepsInv(o, rounds, step);
    hide OptInv;
  }

  lemma SameGrows(tuned: bool, cell: Cell, cell': Cell)
    requires cell'.uses == cell.uses && cell.runs <= cell'.runs && OptGrows(cell.opt, cell'.opt)
    ensures Grows(tuned, cell, cell')
  {
  }

  lemma OptGrowsFromItself(o: Opt)
    ensures OptGrows(o, o)
  {
  }

  lemma GrowsOn(tuned: bool, a: Cell, b: Cell, z: Cell)
    requires Grows(tuned, a, b) && Grows(tuned, b, z)
    ensures Grows(tuned, a, z)
  {
  }

  lemma TakeGrows(c: Config, tuned: bool, cell: Cell)
    requires CellInv(c, tuned, cell, Choosing) && CanReceive(cell.opt.b.sampleQueue)
    ensures Grows(tuned, cell, TakeCell(cell).0)
  {
    TakenCell(c, tuned, cell);
    hide CellInv;
  }

  /** What a step does to the other jobs: nothing; and to the published ones: it may add one. */
  ghost predicate StateGrows(c: Config, s: State, s': State, j: Job) {
    j in s.cells && j in s'.cells && Grows(j in c.tuned, s.cells[j], s'.cells[j]) && s.published <= s'.published
  }

  lemma SameCellGrows(c: Config, s: State, s': State, j: Job)
    requires j in s.cells && j in s'.cells && s.published <= s'.published
    requires s'.cells[j].uses == s.cells[j].uses && s'.cells[j].runs == s.cells[j].runs
      && s'.cells[j].opt == s.cells[j].opt
    ensures StateGrows(c, s, s', j)
  {
    OptGrowsFromItself(s.cells[j].opt);
    SameGrows(j in c.tuned, s.cells[j], s'.cells[j]);
  }

  lemma GoroutineGrows(c: Config, s: State, x: Job, o: OptStep, j: Job)
    requires ValidConfig(c) && Inv(c, s) && Enabled(c, s, Goroutine(x, o)) && j in c.jobs
    ensures StateGrows(c, s, Apply(c, s, Goroutine(x, o)), j)
  {
    hide OptEnabled, OptApply, OptInv, OptGrows, Grows, CellInv;
    var i := CellAt(c, s, x);
    CellHasOptInv(c, s.cells[x], StageOf(c, s, i));
    OptStepGrows(s.cells[x].opt, c.rounds, o);
    hide Inv;
    var s' := Apply(c, s, Goroutine(x, o));
    if j == x { SameGrows(true, s.cells[j], s'.cells[j]); } else { SameCellGrows(c, s, s', j); }
  }

  lemma CompletionGrows(c: Config, s: State, x: Job, v: real, j: Job)
    requires Known(c, s) && Enabled(c, s, JobCompletes(x, v)) && j in c.jobs
    ensures StateGrows(c, s, Apply(c, s, JobCompletes(x, v)), j)
  {
    hide OptGrows, Grows;
    var s' := Apply(c, s, JobCompletes(x, v));
    OptGrowsFromItself(s.cells[j].opt);
    SameGrows(j in c.tuned, s.cells[j], s'.cells[j]);
  }

  lemma ReportGrows(c: Config, s: State, j: Job)
    requires Known(c, s) && Enabled(c, s, TrackerMoves) && s.pc.Reporting? && j in c.jobs
    ensures StateGrows(c, s, Apply(c, s, TrackerMoves), j)
  {
    var s' := Apply(c, s, TrackerMoves);
    assert OptGrows(s.cells[j].opt, s'.cells[j].opt);
    hide OptGrows, Grows;
    SameGrows(j in c.tuned, s.cells[j], s'.cells[j]);
  }

  lemma RecordGrows(c: Config, s: State, j: Job)
    requires Known(c, s) && Enabled(c, s, TrackerMoves) && (s.pc.Recording? || s.pc.Idle?) && j in c.jobs
    ensures StateGrows(c, s, Apply(c, s, TrackerMoves), j)
  {
    hide OptGrows, Grows, IsBetter, StateGrows;
    SameCellGrows(c, s, Apply(c, s, TrackerMoves), j);
  }

  lemma TakingGrows(c: Config, s: State, j: Job)
    requires ValidConfig(c) && Inv(c, s) && Enabled(c, s, TrackerMoves) && s.pc.Taking? && j in c.jobs
    ensures StateGrows(c, s, Apply(c, s, TrackerMoves), j)
  {
    hide OptGrows, Grows, TakeCell, CellInv, DeployNext, PublishedInv;
    var k := Current(c, s);
    TakeGrows(c, c.jobs[k] in c.tuned, s.cells[c.jobs[k]]);
    TakenCell(c, c.jobs[k] in c.tuned, s.cells[c.jobs[k]]);
    var s' := Apply(c, s, TrackerMoves);
    hide CellsInv;
    if j != c.jobs[k] { SameCellGrows(c, s, s', j); }
  }

  /** Deploying changes a job at most by creating it untuned. */
  lemma DeployCreates(c: Config, s: State, j: Job)
    requires ValidConfig(c) && Known(c, s) && 0 <= Current(c, s) < |c.jobs| && j in c.jobs
    ensures var s' := DeployResult(c, s);
      && s'.published == s.published && j in s'.cells
      && s'.cells[j].opt == s.cells[j].opt && s'.cells[j].runs == s.cells[j].runs
      && (s'.cells[j].uses == s.cells[j].uses || (j !in c.tuned && s'.cells[j].uses == s.cells[j].uses + [Untuned]))
  {
  }

  lemma CreatedGrows(tuned: bool, cell: Cell, cell': Cell)
    requires cell'.opt == cell.opt && cell'.runs == cell.runs
    requires cell'.uses == cell.uses || (!tuned && cell'.uses == cell.uses + [Untuned])
    ensures Grows(tuned, cell, cell')
  {
    OptGrowsFromItself(cell.opt);
    hide OptGrows;
  }

  lemma DeployGrows(c: Config, s: State, j: Job)
    requires ValidConfig(c) && Inv(c, s) && Enabled(c, s, TrackerMoves) && s.pc.Deploying? && j in c.jobs
    ensures StateGrows(c, s, Apply(c, s, TrackerMoves), j)
  {
    hide Grows, Apply, Enabled, DeployResult, TrackerInv, PublishedInv, CellsInv;
    DeployComputes(c, s);
    hide Inv;
    DeployCreates(c, s, j);
    CreatedGrows(j in c.tuned, s.cells[j], DeployResult(c, s).cells[j]);
  }

  lemma TrackerGrows(c: Config, s: State, j: Job)
    requires ValidConfig(c) && Inv(c, s) && Enabled(c, s, TrackerMoves) && j in c.jobs
    ensures StateGrows(c, s, Apply(c, s, TrackerMoves), j)
  {
    InvKnown(c, s);
    hide Inv, Apply, StateGrows;
    match s.pc
    case Idle => RecordGrows(c, s, j);
    case Reporting(_) => ReportGrows(c, s, j);
    case Recording(_) => RecordGrows(c, s, j);
    case Deploying(_) => DeployGrows(c, s, j);
    case Taking(_, _) => TakingGrows(c, s, j);
  }

  lemma StepGrows(c: Config, s: State, step: Step, j: Job)
    requires ValidConfig(c) && Inv(c, s) && Enabled(c, s, step) && j in c.jobs
    ensures StateGrows(c, s, Apply(c, s, step), j)
  {
    InvKnown(c, s);
    hide Inv, Apply, StateGrows;
    match step
    case Goroutine(x, o) => GoroutineGrows(c, s, x, o, j);
    case JobCompletes(x, v) => CompletionGrows(c, s, x, v, j);
    case TrackerMoves => TrackerGrows(c, s, j);
  }

  lemma CellHasOptInv(c: Config, cell: Cell, stage: Stage)
    requires CellInv(c, true, cell, stage)
    ensures OptInv(cell.opt, c.rounds)
  {
  }

  /** Along any run from a reachable state nothing of a job's history is taken back. */
  lemma {:induction false} RunGrows(c: Config, s: State, steps: seq<Step>, j: Job)
    requires ValidConfig(c) && Inv(c, s) && Exec(c, s, steps).Some? && j in c.jobs
    ensures StateGrows(c, s, Exec(c, s, steps).value, j)
    decreases |steps|
  {
    hide Inv, Apply, Enabled, StateGrows;
    InvKnown(c, s);
    if steps != [] {
      StepKeepsInv(c, s, steps[0]);
      StepGrows(c, s, steps[0], j);
      RunGrows(c, Apply(c, s, steps[0]), steps[1..], j);
      StateGrowsOn(c, s, Apply(c, s, steps[0]), Exec(c, s, steps).value, j);
    } else {
      SameCellGrows(c, s, s, j);
    }
  }

  lemma StateGrowsOn(c: Config, s: State, s': State, s'': State, j: Job)
    requires StateGrows(c, s, s', j) && StateGrows(c, s', s'', j)
    ensures StateGrows(c, s, s'', j)
  {
    GrowsOn(j in c.tuned, s.cells[j], s'.cells[j], s''.cells[j]);
    hide Grows;
  }

  lemma {:induction false} ExecPrefix(c: Config, s: State, steps: seq<Step>, m: nat)
    requires Exec(c, s, steps).Some? && m <= |steps|
    ensures Exec(c, s, steps[..m]).Some?
    ensures Exec(c, Exec(c, s, steps[..m]).value, steps[m..]) == Exec(c, s, steps)
    decreases |steps|
  {
    hide Apply, Enabled;
    if m > 0 {
      ExecPrefix(c, Apply(c, s, steps[0]), steps[1..], m - 1);
      assert steps[..m][1..] == steps[1..][..m - 1] && steps[1..][m - 1..] == steps[m..];
    } else {
      assert steps[..0] == [] && steps[0..] == steps;
    }
  }

  /** After these steps the final profile of the job is applied. */
  ghost predicate Applied(c: Config, steps: seq<Step>, j: Job)
    requires |c.jobs| > 0
  {
    var s := Exec(c, Init(c), steps);
    s.Some? && j in s.value.cells && s.value.cells[j].opt.b.finalizedApplied
  }

  lemma AppliedStays(c: Config, steps: seq<Step>, m: nat, n: nat, j: Job)
    requires ValidConfig(c) && |c.jobs| > 1 && j in c.jobs && Exec(c, Init(c), steps).Some?
    requires m <= n <= |steps| && Applied(c, steps[..m], j)
    ensures Applied(c, steps[..n], j)
  {
    hide Init, Inv;
    ExecPrefix(c, Init(c), steps, n);
    assert steps[..n][..m] == steps[..m];
    ExecPrefix(c, Init(c), steps[..n], m);
    var s := Exec(c, Init(c), steps[..m]).value;
    ReachableInv(c, steps[..m], s);
    RunGrows(c, s, steps[..n][m..], j);
  }

  lemma SliceOfSlice(steps: seq<Step>, n: nat, m: nat)
    requires m <= n <= |steps|
    ensures steps[..n][..m] == steps[..m] && steps[..|steps|] == steps
  {
  }

  /** The final profile of an auto-tuned job is applied by exactly one step of a run, for good. */
  lemma {:induction false} AppliedOnce(c: Config, steps: seq<Step>, j: Job) returns (k: nat)
    requires ValidConfig(c) && |c.jobs| > 1 && j in c.jobs && j in c.tuned && Exec(c, Init(c), steps).Some?
    requires Applied(c, steps, j)
    ensures k < |steps| && forall m :: 0 <= m <= |steps| ==> (Applied(c, steps[..m], j) <==> m > k)
    decreases |steps|
  {
    hide Exec, Init, Applied;
    NotAppliedAtFirst(c, j);
    var n := |steps| - 1;
    var most := steps[..n];
    ExecPrefix(c, Init(c), steps, n);
    if Applied(c, most, j) {
      k := AppliedOnce(c, most, j);
      forall m | 0 <= m <= |steps| ensures Applied(c, steps[..m], j) <==> m > k {
        if m <= n { SliceOfSlice(steps, n, m); } else { SliceOfSlice(steps, |steps|, 0); }
      }
    } else {
      k := n;
      forall m | 0 <= m <= |steps| ensures Applied(c, steps[..m], j) <==> m > k {
        if m > n {
          SliceOfSlice(steps, |steps|, 0);
        } else if Applied(c, steps[..m], j) {
          AppliedStays(c, steps, m, n, j);
        }
      }
    }
  }

  lemma NotAppliedAtFirst(c: Config, j: Job)
    requires ValidConfig(c) && j in c.jobs && j in c.tuned
    ensures !Applied(c, [], j)
  {
  }

  /** The jobs taken off the waiting list are a prefix of the enumeration, the waiting list is the
      rest of it, and at most one job runs. Only the newest of them may still wait for its first
      creation. */
  lemma SequentialOrder(c: Config, steps: seq<Step>, s: State) returns (k: nat)
    requires Run(c, steps, s) && |c.jobs| > 1
    ensures 1 <= k <= |c.jobs| && c.jobs[..k] + s.waiting == c.jobs
    ensures Known(c, s)
    ensures forall i :: k <= i < |c.jobs| ==> s.cells[c.jobs[i]].uses == [] && s.cells[c.jobs[i]].status.Absent?
    ensures forall i :: 0 <= i < k ==>
      s.cells[c.jobs[i]].uses != [] || (s.pc.Taking? && s.pc.job == c.jobs[i] && i == k - 1)
    ensures forall i :: 0 <= i < |c.jobs| && s.cells[c.jobs[i]].status.Running? ==> i == k - 1
  {
    ReachableInv(c, steps, s);
    k := Current(c, s) + 1;
    OrderInState(c, s);
  }

  lemma OrderInState(c: Config, s: State)
    requires ValidConfig(c) && Inv(c, s)
    ensures var k := Current(c, s) + 1;
      && c.jobs[..k] + s.waiting == c.jobs
      && (forall i :: k <= i < |c.jobs| ==> s.cells[c.jobs[i]].uses == [] && s.cells[c.jobs[i]].status.Absent?)
      && (forall i :: 0 <= i < k ==>
          s.cells[c.jobs[i]].uses != [] || (s.pc.Taking? && s.pc.job == c.jobs[i] && i == k - 1))
      && (forall i :: 0 <= i < |c.jobs| && s.cells[c.jobs[i]].status.Running? ==> i == k - 1)
  {
    hide CellInv, EarliestBest, PublishedInv;
    var k := Current(c, s) + 1;
    forall i | 0 <= i < |c.jobs|
      ensures i >= k ==> s.cells[c.jobs[i]].uses == [] && s.cells[c.jobs[i]].status.Absent?
      ensures i < k ==> s.cells[c.jobs[i]].uses != [] || (s.pc.Taking? && i == k - 1)
      ensures s.cells[c.jobs[i]].status.Running? ==> i == k - 1
    {
      StageTells(c, c.jobs[i] in c.tuned, s.cells[c.jobs[i]], StageOf(c, s, i));
    }
  }

  lemma StageTells(c: Config, tuned: bool, cell: Cell, stage: Stage)
    requires CellInv(c, tuned, cell, stage)
    ensures stage.Pending? ==> cell.uses == [] && cell.status.Absent?
    ensures cell.uses == [] ==> stage.Pending? || stage.Choosing?
    ensures cell.status.Running? ==> stage.Live?
  {
  }

  /** Jobs are published in enumeration order, each at most once, and what is published for a job
      is the earliest best of all its runs. */
  lemma PublishedIsBest(c: Config, steps: seq<Step>, s: State, i: nat)
    requires Run(c, steps, s) && |c.jobs| > 1 && i < |s.published|
    ensures i < |c.jobs| && s.published[i].job == c.jobs[i] && c.jobs[i] in s.cells
    ensures var runs, r := s.cells[c.jobs[i]].runs, s.published[i].run;
      && r < |runs|
      && (forall m :: 0 <= m < |runs| ==> if c.minimize then runs[r] <= runs[m] else runs[m] <= runs[r])
      && (forall m :: 0 <= m < r ==> if c.minimize then runs[r] < runs[m] else runs[m] < runs[r])
    ensures forall k :: 0 <= k < |s.published| && k != i ==> s.published[k].job != s.published[i].job
  {
    ReachableInv(c, steps, s);
    hide CellsInv;
  }

  lemma {:induction false} InitialWork(c: Config, cells: map<Job, Cell>, n: nat)
    requires n <= |c.jobs|
    requires forall i :: 0 <= i < n ==> c.jobs[i] in cells ==>
               CellWork(c, c.jobs[i] in c.tuned, cells[c.jobs[i]]) <= 20 * c.rounds + 13
    ensures SumWork(c, cells, n) <= n * (20 * c.rounds + 13)
  {
    hide CellWork;
    if n > 0 {
      InitialWork(c, cells, n - 1);
      Distribute(n - 1, 1, 20 * c.rounds + 13);
    }
  }

  lemma InitWork(c: Config)
    requires ValidConfig(c)
    ensures Work(c, Init(c)) <= |c.jobs| * (20 * c.rounds + 13) + 8 * |c.jobs|
  {
    hide SumWork;
    var s := Init(c);
    forall i | 0 <= i < |c.jobs|
      ensures CellWork(c, c.jobs[i] in c.tuned, s.cells[c.jobs[i]]) <= 20 * c.rounds + 13
    {
    }
    InitialWork(c, s.cells, |c.jobs|);
  }

  /** Every run is finite: no interleaving takes more steps than this. */
  lemma Termination(c: Config, steps: seq<Step>, s: State)
    requires Run(c, steps, s) && |c.jobs| > 1
    ensures |steps| <= |c.jobs| * (20 * c.rounds + 21)
  {
    hide Inv, Work;
    InitInv(c);
    RunKeepsInv(c, Init(c), steps);
    InvKnown(c, s);
    InitWork(c);
    Distribute(20 * c.rounds + 13, 8, |c.jobs|);
  }

  /** ... and a run that cannot go on has published every job of the enumeration, each auto-tuned
      one after its final run. */
  lemma StuckRunIsComplete(c: Config, steps: seq<Step>, s: State)
    requires Run(c, steps, s) && |c.jobs| > 1 && Stuck(c, s)
    ensures SweepDone(c, s)
    ensures forall i :: 0 <= i < |c.jobs| ==> s.published[i].job == c.jobs[i]
    ensures forall j :: j in c.jobs && j in c.tuned ==>
      |s.cells[j].runs| == s.cells[j].opt.b.samplingCount + 1 && s.cells[j].opt.pc.Stopped?
    ensures forall j :: j in c.jobs && j !in c.tuned ==>
      s.cells[j].uses == [Untuned] && |s.cells[j].runs| == 1
    ensures s.waiting == [] && !s.hasWaiting && !s.hasDr
    ensures forall j :: j in c.jobs ==> !s.cells[j].registered && s.cells[j].best.None?
  {
    ReachableInv(c, steps, s);
    if !SweepDone(c, s) {
      var step := SomeoneMoves(c, s);
      assert false;
    }
    NothingLeft(c, s);
    forall i | 0 <= i < |c.jobs| ensures s.published[i].job == c.jobs[i] {
      PublishedIsBest(c, steps, s, i);
    }
    hide EarliestBest, BestInv, PublishedInv;
    forall j | j in c.jobs && j in c.tuned
      ensures |s.cells[j].runs| == s.cells[j].opt.b.samplingCount + 1 && s.cells[j].opt.pc.Stopped?
    {
      var i := CellAt(c, s, j);
      assert s.published[i].job == j;
      TunedShape(c, steps, s, j);
      FinishedCanClose(c, s, j);
    }
    forall j | j in c.jobs && j !in c.tuned
      ensures s.cells[j].uses == [Untuned] && |s.cells[j].runs| == 1
    {
      var i := CellAt(c, s, j);
    }
  }

  /** At the end the tables forget the sweep: no list, no interface, no optimizer, no best run. */
  lemma NothingLeft(c: Config, s: State)
    requires ValidConfig(c) && Inv(c, s) && SweepDone(c, s)
    ensures s.waiting == [] && !s.hasWaiting && !s.hasDr
    ensures forall j :: j in c.jobs ==> !s.cells[j].registered && s.cells[j].best.None?
  {
    hide CellInv, PublishedInv;
    var k := Current(c, s);
    forall j | j in c.jobs ensures !s.cells[j].registered && s.cells[j].best.None? {
      var i := CellAt(c, s, j);
      FinishedLeavesNothing(c, j in c.tuned, s.cells[j]);
    }
  }

  lemma FinishedLeavesNothing(c: Config, tuned: bool, cell: Cell)
    requires CellInv(c, tuned, cell, Finished)
    ensures !cell.registered && cell.best.None?
  {
  }

  lemma FinishedCanClose(c: Config, s: State, j: Job)
    requires Inv(c, s) && Stuck(c, s) && j in c.jobs && j in c.tuned
    requires s.cells[j].opt.b.finalizedApplied
    ensures s.cells[j].opt.pc.Stopped?
  {
    var i := CellAt(c, s, j);
    assert !Enabled(c, s, Goroutine(j, CloseR));
  }

  // ---------------------------------------------------------------- a list of one job

  ghost predicate LoneInv(c: Config, s: State)
    requires c.jobs != []
  {
    var j := c.jobs[0];
    && Known(c, s)
    && var cell := s.cells[j];
    && !s.crashed && s.waiting == [] && !s.hasWaiting
    && !cell.registered
    && OptInv(cell.opt, c.rounds)
    && cell.opt.reported == []
    && cell.opt.taken + (if cell.opt.b.finalizedApplied then 1 else 0) == |cell.uses| <= 1
    && (cell.uses != [] ==> (cell.uses[0].Sampled? <==> cell.opt.taken == 1))
    && |cell.uses| == |cell.runs| + (if cell.status.Running? then 1 else 0)
    && s.queue == (if s.pc.Idle? && cell.runs != [] && s.published == [] then [j] else [])
    && s.published == (if cell.runs != [] && s.queue == [] && !s.pc.Recording? then [Publication(j, 0)] else [])
    && match s.pc
       case Idle => cell.uses != []
       case Taking(x, next) => x == j && !next && cell.uses == []
       case Reporting(_) => false
       case Recording(x) => x == j && cell.runs != []
       case Deploying(x) => x == j && cell.runs != []
  }

  lemma LoneGoroutine(c: Config, s: State, o: OptStep)
    requires |c.jobs| == 1 && c.jobs[0] in c.tuned && LoneInv(c, s) && Enabled(c, s, Goroutine(c.jobs[0], o))
    ensures LoneInv(c, Apply(c, s, Goroutine(c.jobs[0], o)))
  {
    hide OptInv, OptApply, OptEnabled;
    OptStepKeepsInv(s.cells[c.jobs[0]].opt, c.rounds, o);
  }

  lemma LoneCompletion(c: Config, s: State, v: real)
    requires |c.jobs| == 1 && c.jobs[0] in c.tuned && LoneInv(c, s) && Enabled(c, s, JobCompletes(c.jobs[0], v))
    ensures LoneInv(c, Apply(c, s, JobCompletes(c.jobs[0], v)))
  {
    hide OptInv;
  }

  lemma LoneTake(c: Config, s: State)
    requires |c.jobs| == 1 && c.jobs[0] in c.tuned && LoneInv(c, s) && Enabled(c, s, TrackerMoves) && s.pc.Taking?
    ensures LoneInv(c, Apply(c, s, TrackerMoves))
  {
    hide DeployNext, OptInv, TakeCell;
    LoneTakeCell(c, s.cells[c.jobs[0]]);
  }

  /** The first creation of a lone job. */
  lemma LoneTakeCell(c: Config, cell: Cell)
    requires OptInv(cell.opt, c.rounds) && cell.opt.reported == [] && cell.uses == [] && cell.opt.taken == 0
    requires !cell.opt.b.finalizedApplied && CanReceive(cell.opt.b.sampleQueue)
    ensures var (cell', created) := TakeCell(cell);
      && created && cell'.runs == cell.runs && cell'.registered == cell.registered && cell'.status.Running?
      && OptInv(cell'.opt, c.rounds) && cell'.opt.reported == [] && |cell'.uses| == 1
      && cell'.opt.taken + (if cell'.opt.b.finalizedApplied then 1 else 0) == 1
      && (cell'.uses[0].Sampled? <==> cell'.opt.taken == 1)
  {
    TakingKeepsOptInv(cell.opt, c.rounds);
    hide OptInv;
  }

  lemma LoneTracker(c: Config, s: State)
    requires |c.jobs| == 1 && c.jobs[0] in c.tuned && LoneInv(c, s) && Enabled(c, s, TrackerMoves) && !s.pc.Taking?
    ensures LoneInv(c, Apply(c, s, TrackerMoves))
  {
    hide OptInv, DeployNext, EntryOf, IsBetter;
  }

  lemma LoneStep(c: Config, s: State, step: Step)
    requires |c.jobs| == 1 && c.jobs[0] in c.tuned && LoneInv(c, s) && Enabled(c, s, step)
    ensures LoneInv(c, Apply(c, s, step))
  {
    hide LoneInv, Apply;
    match step
    case Goroutine(_, o) => LoneGoroutine(c, s, o);
    case JobCompletes(_, v) => LoneCompletion(c, s, v);
    case TrackerMoves => if s.pc.Taking? { LoneTake(c, s); } else { LoneTracker(c, s); }
  }

  lemma {:induction false} LoneRun(c: Config, s: State, steps: seq<Step>)
    requires |c.jobs| == 1 && c.jobs[0] in c.tuned && LoneInv(c, s) && Exec(c, s, steps).Some?
    ensures LoneInv(c, Exec(c, s, steps).value)
    decreases |steps|
  {
    if steps != [] {
      LoneStep(c, s, steps[0]);
      hide LoneInv, Apply, Enabled;
      LoneRun(c, Apply(c, s, steps[0]), steps[1..]);
    }
  }

  /** A list of one auto-tuned job has nothing waiting, so its optimizer is never registered: no
      result ever reaches it, the job runs once, and that run is what is published. When the run
      was a sample, the goroutine is left blocked for good. */
  lemma LoneJobIsNotTuned(c: Config, steps: seq<Step>, s: State)
    requires Run(c, steps, s) && |c.jobs| == 1 && c.jobs[0] in c.tuned
    ensures c.jobs[0] in s.cells
    ensures s.cells[c.jobs[0]].opt.reported == [] && |s.cells[c.jobs[0]].uses| <= 1
    ensures Stuck(c, s) ==>
      var cell := s.cells[c.jobs[0]];
      && s.published == [Publication(c.jobs[0], 0)] && |cell.runs| == |cell.uses| == 1
      && (cell.uses[0].Sampled? <==> cell.opt.pc.Waiting?)
  {
    LoneRun(c, Init(c), steps);
    if Stuck(c, s) {
      LoneEnd(c, s);
    }
  }

  lemma LoneEnd(c: Config, s: State)
    requires |c.jobs| == 1 && c.jobs[0] in c.tuned && LoneInv(c, s) && Stuck(c, s)
    ensures var cell := s.cells[c.jobs[0]];
      && s.published == [Publication(c.jobs[0], 0)] && |cell.runs| == |cell.uses| == 1
      && (cell.uses[0].Sampled? <==> cell.opt.pc.Waiting?)
  {
    hide OptInv, OptEnabled, EarliestBest;
    var j := c.jobs[0];
    var opt := s.cells[j].opt;
    LoneTrackerStuck(c, s);
    forall o ensures !OptEnabled(opt, c.rounds, o) {
      assert !Enabled(c, s, Goroutine(j, o));
    }
    StuckOptimizer(opt, c.rounds);
  }

  lemma LoneTrackerStuck(c: Config, s: State)
    requires |c.jobs| == 1 && c.jobs[0] in c.tuned && LoneInv(c, s) && Stuck(c, s)
    ensures var cell := s.cells[c.jobs[0]];
      && !cell.status.Running?
      && ((s.pc.Idle? && s.queue == []) || (s.pc.Taking? && !CanReceive(cell.opt.b.sampleQueue)))
  {
    hide OptInv, OptEnabled;
    assert !Enabled(c, s, TrackerMoves);
    assert !Enabled(c, s, JobCompletes(c.jobs[0], 0.0));
  }

  /** A goroutine that cannot move waits for a result that was never sent, or has stopped. */
  lemma StuckOptimizer(o: Opt, rounds: nat)
    requires OptInv(o, rounds) && forall step :: !OptEnabled(o, rounds, step)
    ensures if o.pc.Waiting? then
              && |o.posted| > |o.heard| && o.b.resultQueue == Chan([], false)
              && !o.b.sampleQueue.closed && !o.b.finalizedApplied
            else o.pc.Stopped? && o.b.sampleQueue.closed
    ensures o.b.sampleQueue.buf == o.posted[o.taken..] && o.taken <= |o.posted|
    ensures o.reported == [] ==> |o.posted| == if o.pc.Waiting? then 1 else 0
  {
    StuckPc(o, rounds);
    hide OptEnabled, OptInv;
    if o.pc.Waiting? { StuckWaiting(o, rounds); } else { StuckStopped(o, rounds); }
  }

  lemma StuckPc(o: Opt, rounds: nat)
    requires forall step :: !OptEnabled(o, rounds, step)
    ensures o.pc.Stopped? || (o.pc.Waiting? && !CanReceive(o.b.resultQueue))
  {
    assert !OptEnabled(o, rounds, Start) && !OptEnabled(o, rounds, Count) && !OptEnabled(o, rounds, Hear);
    assert !OptEnabled(o, rounds, SetProfile("")) && !OptEnabled(o, rounds, TestReady);
    assert !OptEnabled(o, rounds, CloseS) && !OptEnabled(o, rounds, CloseR);
  }

  lemma StuckWaiting(o: Opt, rounds: nat)
    requires OptInv(o, rounds) && o.pc.Waiting? && !CanReceive(o.b.resultQueue)
    ensures |o.posted| > |o.heard| && o.b.resultQueue == Chan([], false)
    ensures !o.b.sampleQueue.closed && !o.b.finalizedApplied
    ensures o.b.sampleQueue.buf == o.posted[o.taken..] && o.taken <= |o.posted|
    ensures o.reported == [] ==> |o.posted| == 1
  {
  }

  lemma StuckStopped(o: Opt, rounds: nat)
    requires OptInv(o, rounds) && o.pc.Stopped?
    ensures o.b.sampleQueue.closed && o.b.sampleQueue.buf == o.posted[o.taken..] && o.taken <= |o.posted|
    ensures o.reported == [] ==> |o.posted| == 0
  {
  }
}
