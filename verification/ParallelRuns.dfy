/** Whole runs of a sweep that is not sequential: many jobs run at once, and each completed one makes
    room for the next waiting one (controllers/job_tracker.go, controllers/common.go). */
module ParallelRuns {
  import opened Wrappers
  import opened Lists
  import opened Sweep
  import Optimizer
  import T = Tracker

  /** The tracker's tables, the cluster, the job queue, and the jobs published so far. */
  datatype State = State(book: T.Book, world: T.World, queue: seq<string>, published: seq<string>)

  function Untuned(names: seq<string>): seq<T.Instance> {
    seq(|names|, i requires 0 <= i < |names| => T.Instance(names[i], false))
  }

  function InitWorld(names: seq<string>, dr: T.Interface): T.World {
    T.World({}, map j | j in names :: false,
            seq(|names|, i requires 0 <= i < |names| => T.Creation(dr, names[i], Optimizer.Untuned)), false)
  }

  /** After CreateFromOperator: the created jobs run, the others wait. */
  function Init(plan: Plan, benchmark: string, dr: T.Interface): State {
    State(T.Subscribed(T.NO_SWEEPS.book, benchmark, Untuned(plan.waiting), dr,
                       set j | j in plan.created + plan.waiting),
          InitWorld(plan.created, dr), [], [])
  }

  datatype Step = JobCompletes(name: string) | TrackerMoves

  predicate Enabled(s: State, step: Step) {
    match step
    case JobCompletes(name) => name in s.world.complete && !s.world.complete[name]
    case TrackerMoves => s.queue != []
  }

  /** ProcessJobQueue for a job without tuning: its result is published, and deployWaitingResource takes
      the next waiting job. Every optimizer was finalized at the start. */
  function Track(s: State, benchmark: string): State
    requires s.queue != []
  {
    var name := s.queue[0];
    var world := s.world.(done := s.world.done + {name});
    var next := if name in s.book.opts then T.NextOf(T.Forgotten(s.book, name, true), benchmark) else None;
    State(T.Deployed(s.book, name, benchmark, false, true, true),
          if next.None? || next.value.autoTuned then world
          else T.TryCreate(world, T.Lookup(s.book.dr, benchmark), next.value,
                           Optimizer.SetFinalizedApplied(Optimizer.FRESH)).world,
          s.queue[1..], s.published + [name])
  }

  function Apply(s: State, benchmark: string, step: Step): State
    requires Enabled(s, step)
  {
    match step
    case JobCompletes(name) =>
      s.(world := s.world.(complete := s.world.complete[name := true]), queue := s.queue + [name])
    case TrackerMoves => Track(s, benchmark)
  }

  function Exec(s: State, benchmark: string, steps: seq<Step>): Option<State>
    decreases |steps|
  {
    if steps == [] then Some(s)
    else if !Enabled(s, steps[0]) then None
    else Exec(Apply(s, benchmark, steps[0]), benchmark, steps[1..])
  }

  // ---------------------------------------------------------------- the invariant

  function Created(s: State): seq<string> {
    seq(|s.world.created|, i requires 0 <= i < |s.world.created| => s.world.created[i].name)
  }

  function Waiting(s: State, benchmark: string): seq<string> {
    var list := T.WaitingOf(s.book, benchmark);
    seq(|list|, i requires 0 <= i < |list| => list[i].name)
  }

  /** The tables of a benchmark that has waiting jobs. */
  ghost predicate Registered(s: State, plan: Plan, benchmark: string) {
    && (Waiting(s, benchmark) == [] <==> benchmark !in s.book.waiting)
    && (forall i :: 0 <= i < |T.WaitingOf(s.book, benchmark)| ==> !T.WaitingOf(s.book, benchmark)[i].autoTuned)
    && (benchmark in s.book.waiting ==>
          && benchmark in s.book.dr
          && forall name :: name in plan.created + plan.waiting && name !in s.published ==> name in s.book.opts)
  }

  /** Which jobs have completed: the published ones and then the queued ones, each once. */
  ghost predicate Settled(s: State) {
    && !s.world.crashed
    && s.world.complete.Keys == (set name | name in Created(s))
    && s.world.done == (set name | name in s.published)
    && Distinct(s.published + s.queue)
    && forall name :: name in s.published + s.queue <==> name in s.world.complete && s.world.complete[name]
  }

  ghost predicate Inv(s: State, plan: Plan, benchmark: string) {
    && Created(s) + Waiting(s, benchmark) == plan.created + plan.waiting
    && Distinct(plan.created + plan.waiting)
    && Settled(s)
    && Registered(s, plan, benchmark)
    && (Waiting(s, benchmark) != [] ==> |Created(s)| == |s.published| + |plan.created|)
  }

  lemma InitInv(plan: Plan, benchmark: string, dr: T.Interface)
    requires Distinct(plan.created + plan.waiting)
    ensures Inv(Init(plan, benchmark, dr), plan, benchmark)
  {
    var s := Init(plan, benchmark, dr);
    assert Created(s) == plan.created;
    assert Waiting(s, benchmark) == plan.waiting;
  }

  lemma CompletionKeepsInv(s: State, plan: Plan, benchmark: string, name: string)
    requires Inv(s, plan, benchmark) && Enabled(s, JobCompletes(name))
    ensures Inv(Apply(s, benchmark, JobCompletes(name)), plan, benchmark)
  {
    var s' := Apply(s, benchmark, JobCompletes(name));
    assert Created(s') == Created(s) && Waiting(s', benchmark) == Waiting(s, benchmark);
    assert s'.published + s'.queue == s.published + s.queue + [name];
    assert name !in s.published + s.queue;
    hide Created, Waiting;
  }

  lemma HeadIsNew(s: State, plan: Plan, benchmark: string)
    requires Inv(s, plan, benchmark) && s.queue != []
    ensures s.queue[0] !in s.published && s.queue[0] in Created(s) && s.queue[0] in plan.created + plan.waiting
  {
    var both, k := s.published + s.queue, |s.published|;
    assert both[k] == s.queue[0] && s.queue[0] in both;
    forall i | 0 <= i < k ensures s.published[i] != s.queue[0] { assert both[i] != both[k]; }
    hide Created, Waiting;
    assert s.queue[0] in Created(s) + Waiting(s, benchmark);
  }

  lemma NextIsNew(s: State, plan: Plan, benchmark: string)
    requires Inv(s, plan, benchmark) && Waiting(s, benchmark) != []
    ensures var next := Waiting(s, benchmark)[0];
      next !in Created(s) && next !in s.published + s.queue && next in plan.created + plan.waiting
  {
    hide Waiting, Created;
    var all, k := plan.created + plan.waiting, |Created(s)|;
    assert all[k] == Waiting(s, benchmark)[0];
    forall i | 0 <= i < k ensures Created(s)[i] != all[k] { assert all[i] != all[k]; }
  }

  /** What the tracker does with the head of the queue while jobs wait. */
  ghost predicate TakesNext(s: State, s': State, benchmark: string) {
    && s.queue != [] && Waiting(s, benchmark) != []
    && s'.queue == s.queue[1..] && s'.published == s.published + [s.queue[0]]
    && var next, rest := Waiting(s, benchmark)[0], Waiting(s, benchmark)[1..];
    && Waiting(s', benchmark) == rest && Created(s') == Created(s) + [next]
    && s'.world.complete == s.world.complete[next := false] && s'.world.done == s.world.done + {s.queue[0]}
    && !s'.world.crashed
    && (benchmark in s'.book.waiting <==> rest != []) && (rest != [] ==> s'.book.dr == s.book.dr)
    && (forall i :: 0 <= i < |T.WaitingOf(s'.book, benchmark)| ==> !T.WaitingOf(s'.book, benchmark)[i].autoTuned)
    && s'.book.opts == s.book.opts - {s.queue[0]}
  }

  lemma TrackTakesNext(s: State, plan: Plan, benchmark: string)
    requires Inv(s, plan, benchmark) && s.queue != [] && Waiting(s, benchmark) != []
    ensures TakesNext(s, Track(s, benchmark), benchmark)
  {
    HeadIsNew(s, plan, benchmark);
    NextIsNew(s, plan, benchmark);
    var name, next, list := s.queue[0], Waiting(s, benchmark)[0], T.WaitingOf(s.book, benchmark);
    assert next != name && next !in s.published by { assert name in s.published + s.queue; }
    assert name in s.book.opts && next in s.book.opts;
    var t := T.Forgotten(s.book, name, true);
    assert T.NextOf(t, benchmark) == Some(list[0]) && list[0] == T.Instance(next, false);
    var world := s.world.(done := s.world.done + {name});
    var s' := Track(s, benchmark);
    assert next !in world.done && next !in world.complete;
    assert s'.world == T.Create(world, s.book.dr[benchmark], list[0], Optimizer.Untuned);
    assert s'.book == T.Popped(t, benchmark, true);
    hide Inv, Track;
    assert T.WaitingOf(s'.book, benchmark) == list[1..];
  }

  lemma TakenSettled(s: State, s': State, benchmark: string)
    requires Settled(s) && TakesNext(s, s', benchmark)
    requires Waiting(s, benchmark)[0] !in Created(s) && Waiting(s, benchmark)[0] !in s.published + s.queue
    ensures Settled(s')
  {
    hide Created, Waiting;
    assert s'.published + s'.queue == s.published + s.queue;
    var next := Waiting(s, benchmark)[0];
    assert forall x :: x in Created(s') <==> x in Created(s) || x == next;
    assert forall x :: x in s'.published <==> x in s.published || x == s.queue[0];
  }

  lemma TakenRegistered(s: State, s': State, plan: Plan, benchmark: string)
    requires Registered(s, plan, benchmark) && TakesNext(s, s', benchmark)
    ensures Registered(s', plan, benchmark)
  {
    hide Created, Waiting;
    assert s.queue[0] in s'.published && forall x :: x in s.published ==> x in s'.published;
  }

  lemma TakenKeepsInv(s: State, s': State, plan: Plan, benchmark: string)
    requires Inv(s, plan, benchmark) && TakesNext(s, s', benchmark)
    ensures Inv(s', plan, benchmark)
  {
    hide Created, Waiting, Registered, Settled, Distinct;
    NextIsNew(s, plan, benchmark);
    TakenSettled(s, s', benchmark);
    TakenRegistered(s, s', plan, benchmark);
    var next := Waiting(s, benchmark)[0];
    assert Waiting(s, benchmark) == [next] + Waiting(s', benchmark);
    assert Created(s) + ([next] + Waiting(s', benchmark)) == (Created(s) + [next]) + Waiting(s', benchmark);
  }

  lemma LastKeepsInv(s: State, plan: Plan, benchmark: string)
    requires Inv(s, plan, benchmark) && s.queue != [] && Waiting(s, benchmark) == []
    ensures Inv(Track(s, benchmark), plan, benchmark)
  {
    var s' := Track(s, benchmark);
    assert s'.book.waiting == s.book.waiting && T.WaitingOf(s'.book, benchmark) == T.WaitingOf(s.book, benchmark);
    assert Created(s') == Created(s) && Waiting(s', benchmark) == Waiting(s, benchmark);
    assert s'.published + s'.queue == s.published + s.queue;
    hide Created, Waiting;
  }

  lemma TrackKeepsInv(s: State, plan: Plan, benchmark: string)
    requires Inv(s, plan, benchmark) && Enabled(s, TrackerMoves)
    ensures Inv(Apply(s, benchmark, TrackerMoves), plan, benchmark)
  {
    hide Inv, Track, Waiting, TakesNext;
    if Waiting(s, benchmark) != [] {
      TrackTakesNext(s, plan, benchmark);
      TakenKeepsInv(s, Track(s, benchmark), plan, benchmark);
    } else {
      LastKeepsInv(s, plan, benchmark);
    }
  }

  lemma StepKeepsInv(s: State, plan: Plan, benchmark: string, step: Step)
    requires Inv(s, plan, benchmark) && Enabled(s, step)
    ensures Inv(Apply(s, benchmark, step), plan, benchmark)
    ensures Progress(Apply(s, benchmark, step)) == Progress(s) + 1
  {
    hide Inv;
    match step
    case JobCompletes(name) => CompletionKeepsInv(s, plan, benchmark, name);
    case TrackerMoves => TrackKeepsInv(s, plan, benchmark);
  }

  // ---------------------------------------------------------------- whole runs

  /** Each job takes two steps: it completes, and the tracker deals with it. */
  function Progress(s: State): nat {
    2 * |s.published| + |s.queue|
  }

  lemma {:induction false} RunKeepsInv(s: State, plan: Plan, benchmark: string, steps: seq<Step>)
    requires Inv(s, plan, benchmark) && Exec(s, benchmark, steps).Some?
    ensures Inv(Exec(s, benchmark, steps).value, plan, benchmark)
    ensures Progress(Exec(s, benchmark, steps).value) == Progress(s) + |steps|
    decreases |steps|
  {
    hide Inv, Apply, Enabled, Progress;
    if steps != [] {
      StepKeepsInv(s, plan, benchmark, steps[0]);
      RunKeepsInv(Apply(s, benchmark, steps[0]), plan, benchmark, steps[1..]);
    }
  }

  ghost predicate Run(names: seq<string>, labels: nat, benchmark: string, dr: T.Interface, steps: seq<Step>, s: State)
    requires labels > 0
  {
    && Distinct(names) && names != []
    && Exec(Init(PlanOf(names, labels, false), benchmark, dr), benchmark, steps) == Some(s)
  }

  lemma PlanIsDistinct(names: seq<string>, labels: nat)
    requires labels > 0 && Distinct(names)
    ensures var plan := PlanOf(names, labels, false);
      Distinct(plan.created + plan.waiting) && |plan.created + plan.waiting| == |names|
  {
    PlanConserves(names, labels, false);
    var plan := PlanOf(names, labels, false);
    var all := plan.created + plan.waiting;
    assert multiset(all) == multiset(names);
    RearrangedDistinct(names, all);
  }

  /** In every reachable state nothing panics, no job is created or published twice, every job is
      either created or waiting, and as many jobs are in flight as were created at the start for as
      long as any wait. */
  lemma ParallelSafety(names: seq<string>, labels: nat, benchmark: string, dr: T.Interface, steps: seq<Step>, s: State)
    requires labels > 0 && Run(names, labels, benchmark, dr, steps, s)
    ensures var plan := PlanOf(names, labels, false);
      && !s.world.crashed
      && Created(s) + Waiting(s, benchmark) == plan.created + plan.waiting
      && Distinct(Created(s) + Waiting(s, benchmark)) && Distinct(s.published)
      && (forall name :: name in s.published ==> name in names)
      && (Waiting(s, benchmark) != [] ==> |Created(s)| - |s.published| == |plan.created| > 0)
    ensures |steps| == Progress(s) <= 2 * |names|
  {
    var plan := PlanOf(names, labels, false);
    PlanIsDistinct(names, labels);
    PlanConserves(names, labels, false);
    ParallelPlan(names, labels);
    InitInv(plan, benchmark, dr);
    RunKeepsInv(Init(plan, benchmark, dr), plan, benchmark, steps);
    hide PlanOf, Init, Exec, Registered;
    CompletedAreNames(s, plan, benchmark);
    var both := s.published + s.queue;
    forall x | x in both ensures x in names { }
    DistinctCount(both, names);
    forall i, j | 0 <= i < j < |s.published| ensures s.published[i] != s.published[j] {
      assert both[i] == s.published[i] && both[j] == s.published[j];
    }
    forall name | name in s.published ensures name in names { assert name in both; }
  }

  lemma CompletedAreNames(s: State, plan: Plan, benchmark: string)
    requires Inv(s, plan, benchmark)
    ensures forall x :: x in s.published + s.queue ==> x in plan.created + plan.waiting
    ensures forall x :: x in s.published + s.queue ==> x in Created(s)
  {
    hide Created, Waiting;
  }

  /** A run that cannot go on has published every job exactly once. */
  lemma ParallelRunIsComplete(names: seq<string>, labels: nat, benchmark: string, dr: T.Interface, steps: seq<Step>,
                              s: State)
    requires labels > 0 && Run(names, labels, benchmark, dr, steps, s)
    requires forall step :: !Enabled(s, step)
    ensures Waiting(s, benchmark) == [] && |s.published| == |names|
    ensures forall name :: name in names <==> name in s.published
  {
    var plan := PlanOf(names, labels, false);
    PlanIsDistinct(names, labels);
    PlanConserves(names, labels, false);
    ParallelSafety(names, labels, benchmark, dr, steps, s);
    InitInv(plan, benchmark, dr);
    RunKeepsInv(Init(plan, benchmark, dr), plan, benchmark, steps);
    hide PlanOf, Init, Exec, Registered;
    assert !Enabled(s, TrackerMoves);
    forall name | name in Created(s) ensures name in s.published {
      assert !Enabled(s, JobCompletes(name));
      assert name in s.world.complete;
      assert s.published + s.queue == s.published;
    }
    DistinctPrefix(Created(s), Waiting(s, benchmark));
    DistinctCount(Created(s), s.published);
    DistinctCount(s.published, names);
    assert Created(s) + [] == Created(s);
  }
}
