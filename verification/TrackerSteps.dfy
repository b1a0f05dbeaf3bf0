/** The tracker's tables and the interleaved model agree: in every reachable state one call of
    deployWaitingResource, taken as a whole, does to the tables, the cluster and the optimizers what the
    tracker's steps do (controllers/job_tracker.go). */
module TrackerSteps {
  import opened Wrappers
  import opened Optimizer
  import opened Protocol
  import T = Tracker

  function Instances(c: Config, jobs: seq<Job>): seq<T.Instance> {
    seq(|jobs|, i requires 0 <= i < |jobs| => T.Instance(jobs[i], jobs[i] in c.tuned))
  }

  /** The tables of a tracker whose one subscriber is the benchmark. */
  function BookOf(c: Config, s: State, benchmark: string): T.Book {
    T.Book([benchmark],
           if s.hasWaiting then map[benchmark := Instances(c, s.waiting)] else map[],
           if s.hasDr then map[benchmark := ""] else map[],
           set j | j in s.cells && s.cells[j].registered)
  }

  /** What CreateIfNotExists sees of the cluster and of the published results. */
  function WorldOf(s: State): T.World {
    T.World(set i | 0 <= i < |s.published| :: s.published[i].job,
            map j | j in s.cells && !s.cells[j].status.Absent? :: s.cells[j].status.Complete?,
            [], s.crashed)
  }

  predicate SameWorld(w: T.World, w': T.World) {
    w.done == w'.done && w.complete == w'.complete && w.crashed == w'.crashed
  }

  /** The jobs' creations agree with what one call created: `name` once more, under the profile it
      received, and no other job. */
  predicate CreatesUnder(s: State, s': State, name: Job, dr: T.Interface, created: seq<T.Creation>) {
    && name in s.cells && name in s'.cells
    && |created| == 1 && created[0] == T.Creation(dr, name, created[0].use)
    && s'.cells[name].uses == s.cells[name].uses + [created[0].use]
    && forall j :: j in s.cells && j != name ==> j in s'.cells && s'.cells[j].uses == s.cells[j].uses
  }

  predicate CreatesNone(s: State, s': State) {
    forall j :: j in s.cells ==> j in s'.cells && s'.cells[j].uses == s.cells[j].uses
  }

  /** The tracker's next step, and the receive it may have stopped at. */
  ghost predicate Settles(c: Config, s: State, s': State) {
    && Known(c, s) && Enabled(c, s, TrackerMoves)
    && var s1 := Apply(c, s, TrackerMoves);
    if s1.pc.Taking? then Known(c, s1) && Enabled(c, s1, TrackerMoves) && s' == Apply(c, s1, TrackerMoves)
    else s' == s1
  }

  /** What the tables' version of deployWaitingResource makes of the state `s`. */
  ghost predicate DeploysTo(c: Config, s: State, s': State, benchmark: string)
    requires s.pc.Deploying? && s.pc.job in s.cells
  {
    var j := s.pc.job;
    var t, w, opt, me := BookOf(c, s, benchmark), WorldOf(s), s.cells[j].opt.b, T.Instance(j, j in c.tuned);
    var dr := T.Lookup(t.dr, benchmark);
    if !opt.finalizedApplied then
      && (T.Receives(w, dr, me) ==> CanReceive(opt.sampleQueue))
      && var made := T.TryCreate(w, dr, me, opt);
      && !made.err && made.isNew && SameWorld(WorldOf(s'), made.world)
      && dr.Some? && CreatesUnder(s, s', j, dr.value, made.world.created)
      && s'.cells[j].opt.b == made.opt
      && BookOf(c, s', benchmark) == T.Deployed(t, j, benchmark, true, made.opt.finalizedApplied, false)
    else
      var next := T.NextOf(T.Forgotten(t, j, true), benchmark);
      if next.None? then
        && SameWorld(WorldOf(s'), w) && CreatesNone(s, s')
        && BookOf(c, s', benchmark) == T.Deployed(t, j, benchmark, false, true, false)
      else
        && next.value.name in s.cells
        && var nextOpt := s.cells[next.value.name].opt.b;
        && (T.Receives(w, dr, next.value) ==> CanReceive(nextOpt.sampleQueue))
        && var made := T.TryCreate(w, dr, next.value, nextOpt);
        && SameWorld(WorldOf(s'), made.world)
        && dr.Some? && CreatesUnder(s, s', next.value.name, dr.value, made.world.created)
        && s'.cells[next.value.name].opt.b == made.opt
        && BookOf(c, s', benchmark) == T.Deployed(t, j, benchmark, false, true, made.opt.finalizedApplied)
  }

  lemma DoneMeansDone(s: State, j: Job)
    ensures j in WorldOf(s).done <==> JobDone(s.published, j)
  {
  }

  /** The current job before its last run, and every later job, has no result yet. */
  lemma Unpublished(c: Config, s: State, i: nat)
    requires ValidConfig(c) && Inv(c, s) && s.pc.Deploying? && Current(c, s) <= i < |c.jobs|
    requires i == Current(c, s) ==> !s.cells[c.jobs[i]].opt.b.finalizedApplied
    ensures !JobDone(s.published, c.jobs[i])
  {
    hide CellsInv;
    NotYetDone(c, s, i);
  }

  /** The current job, as it stands when the tracker deploys. */
  lemma CurrentJob(c: Config, s: State) returns (j: Job)
    requires ValidConfig(c) && Inv(c, s) && s.pc.Deploying?
    ensures j == s.pc.job == c.jobs[Current(c, s)] && j in s.cells && s.cells[j].registered
      && s.cells[j].status.Complete?
    ensures !s.crashed && s.hasWaiting == (s.waiting != [])
    ensures !s.cells[j].opt.b.finalizedApplied ==>
      j in c.tuned && s.hasDr && !JobDone(s.published, j) && CellInv(c, true, s.cells[j], Choosing)
  {
    var k := Current(c, s);
    j := c.jobs[k];
    CellsAt(c, s, k);
    LeavingCell(c, j in c.tuned, s.cells[j]);
    if !s.cells[j].opt.b.finalizedApplied { Unpublished(c, s, k); }
    hide CellInv, CellsInv, PublishedInv, JobDone;
  }

  /** The next waiting job, as it stands then. */
  lemma NextJob(c: Config, s: State) returns (next: Job)
    requires ValidConfig(c) && Inv(c, s) && s.pc.Deploying? && s.waiting != []
    ensures next == s.waiting[0] == c.jobs[Current(c, s) + 1] && next != s.pc.job && next in s.cells && s.hasDr
    ensures s.waiting[1..] == c.jobs[Current(c, s) + 2..]
    ensures s.cells[next].registered && s.cells[next].status.Absent? && !JobDone(s.published, next)
    ensures next in c.tuned ==> CellInv(c, true, s.cells[next], Choosing)
    ensures next !in c.tuned ==> s.cells[next].opt.b.finalizedApplied
  {
    var k := Current(c, s);
    next := c.jobs[k + 1];
    CellsAt(c, s, k + 1);
    PendingCell(c, next in c.tuned, s.cells[next]);
    Unpublished(c, s, k + 1);
    hide CellInv, CellsInv, PublishedInv, JobDone;
  }

  /** The state after a job is forgotten and the next one taken off the list and created. */
  function NextTaken(s: State, j: Job, next: Job, cell: Cell): State
    requires j in s.cells
  {
    var rest := if s.waiting == [] then [] else s.waiting[1..];
    s.(cells := s.cells[j := s.cells[j].(registered := false)][next := cell], waiting := rest, pc := Idle,
       hasWaiting := rest != [], hasDr := rest != [] || !cell.opt.b.finalizedApplied)
  }

  lemma RetryStep(c: Config, s: State, s': State) returns (j: Job)
    requires ValidConfig(c) && Inv(c, s) && s.pc.Deploying? && Settles(c, s, s')
    requires !s.cells[c.jobs[Current(c, s)]].opt.b.finalizedApplied
    ensures j == s.pc.job && j in s.cells && CanReceive(s.cells[j].opt.b.sampleQueue)
    ensures TakeCell(s.cells[j]).1 && s' == s.(cells := s.cells[j := TakeCell(s.cells[j]).0], pc := Idle)
  {
    j := CurrentJob(c, s);
    DeployComputes(c, s);
    TakenCell(c, true, s.cells[j]);
    hide Inv, CellInv, DeployResult, JobDone, TakeCell;
    assert Apply(c, s, TrackerMoves) == s.(pc := Taking(j, false)) by { DeployRetries(c, s); }
  }

  lemma DeployRetries(c: Config, s: State)
    requires Known(c, s) && 0 <= Current(c, s) < |c.jobs|
    ensures var j := c.jobs[Current(c, s)];
      !s.cells[j].opt.b.finalizedApplied ==> DeployResult(c, s) == s.(pc := Taking(j, false))
  {
  }

  /** The tables and the cluster after the same job was created again. */
  lemma RetryListed(c: Config, s: State, s': State, benchmark: string, j: Job)
    requires j in s.cells && CanReceive(s.cells[j].opt.b.sampleQueue)
    requires s' == s.(cells := s.cells[j := TakeCell(s.cells[j]).0], pc := Idle) && s.hasDr
    ensures BookOf(c, s', benchmark) == BookOf(c, s, benchmark)
    ensures T.Lookup(BookOf(c, s, benchmark).dr, benchmark) == Some("")
  {
    hide TakeSample;
    assert BookOf(c, s', benchmark).opts == BookOf(c, s, benchmark).opts;
  }

  lemma RetryMade(c: Config, s: State, s': State, j: Job, dr: Option<T.Interface>)
    requires j in s.cells && CanReceive(s.cells[j].opt.b.sampleQueue) && TakeCell(s.cells[j]).1
    requires s' == s.(cells := s.cells[j := TakeCell(s.cells[j]).0], pc := Idle) && !s.crashed
    requires j in c.tuned && s.cells[j].status.Complete? && !JobDone(s.published, j) && dr.Some?
    ensures var made := T.TryCreate(WorldOf(s), dr, T.Instance(j, true), s.cells[j].opt.b);
      && !made.err && made.isNew && SameWorld(WorldOf(s'), made.world)
      && CreatesUnder(s, s', j, dr.value, made.world.created)
      && s'.cells[j].opt.b == made.opt
  {
    DoneMeansDone(s, j);
    hide JobDone, TakeSample;
  }

  lemma RetryAgrees(c: Config, s: State, s': State, benchmark: string)
    requires ValidConfig(c) && Inv(c, s) && s.pc.Deploying? && Settles(c, s, s')
    requires !s.cells[c.jobs[Current(c, s)]].opt.b.finalizedApplied
    ensures DeploysTo(c, s, s', benchmark)
  {
    hide Inv, CellInv, Settles, JobDone, TakeSample, TakeCell, BookOf, WorldOf, SameWorld, T.TryCreate;
    var j := CurrentJob(c, s);
    var _ := RetryStep(c, s, s');
    RetryListed(c, s, s', benchmark, j);
    RetryMade(c, s, s', j, Some(""));
    Registered(c, s, benchmark, j);
  }

  lemma Registered(c: Config, s: State, benchmark: string, j: Job)
    requires j in s.cells && s.cells[j].registered
    ensures j in BookOf(c, s, benchmark).opts
  {
  }

  lemma NoneLeftStep(c: Config, s: State, s': State, j: Job)
    requires ValidConfig(c) && Inv(c, s) && s.pc.Deploying? && Settles(c, s, s')
    requires j == s.pc.job == c.jobs[Current(c, s)] && s.cells[j].opt.b.finalizedApplied && s.waiting == []
    ensures s' == s.(cells := s.cells[j := s.cells[j].(registered := false)], hasDr := false, pc := Idle)
  {
    DeployComputes(c, s);
    hide CellInv, CellsInv, PublishedInv, TrackerInv, JobDone, Deploy;
  }

  lemma NoneLeftListed(c: Config, s: State, s': State, benchmark: string, j: Job)
    requires j in s.cells && s.cells[j].registered && s.waiting == [] && !s.hasWaiting
    requires s' == s.(cells := s.cells[j := s.cells[j].(registered := false)], hasDr := false, pc := Idle)
    ensures T.NextOf(T.Forgotten(BookOf(c, s, benchmark), j, true), benchmark).None?
    ensures BookOf(c, s', benchmark) == T.Deployed(BookOf(c, s, benchmark), j, benchmark, false, true, false)
    ensures SameWorld(WorldOf(s'), WorldOf(s)) && CreatesNone(s, s')
  {
    assert BookOf(c, s', benchmark).opts == BookOf(c, s, benchmark).opts - {j};
  }

  lemma NoneLeftAgrees(c: Config, s: State, s': State, benchmark: string)
    requires ValidConfig(c) && Inv(c, s) && s.pc.Deploying? && Settles(c, s, s')
    requires s.cells[c.jobs[Current(c, s)]].opt.b.finalizedApplied && s.waiting == []
    ensures DeploysTo(c, s, s', benchmark)
  {
    hide Inv, CellInv, Settles, JobDone, BookOf, WorldOf, SameWorld, T.NextOf, T.Deployed, T.Forgotten;
    var j := CurrentJob(c, s);
    NoneLeftStep(c, s, s', j);
    NoneLeftListed(c, s, s', benchmark, j);
  }

  lemma UntunedStep(c: Config, s: State, s': State, j: Job, next: Job)
    requires ValidConfig(c) && Inv(c, s) && s.pc.Deploying? && Settles(c, s, s')
    requires j == s.pc.job == c.jobs[Current(c, s)] && s.cells[j].opt.b.finalizedApplied
    requires s.waiting != [] && next == s.waiting[0] == c.jobs[Current(c, s) + 1] && next !in c.tuned && next in s.cells
    requires s.waiting[1..] == c.jobs[Current(c, s) + 2..] && s.cells[next].opt.b.finalizedApplied && j != next
    ensures s' == NextTaken(s, j, next, Created(s.cells[next], Untuned))
  {
    DeployComputes(c, s);
    hide CellInv, CellsInv, PublishedInv, TrackerInv, JobDone, Deploy;
  }

  lemma TunedStep(c: Config, s: State, s': State, j: Job, next: Job)
    requires ValidConfig(c) && Inv(c, s) && s.pc.Deploying? && Settles(c, s, s')
    requires j == s.pc.job == c.jobs[Current(c, s)] && s.cells[j].opt.b.finalizedApplied
    requires s.waiting != [] && next == s.waiting[0] == c.jobs[Current(c, s) + 1] && next in c.tuned && next in s.cells
    requires s.waiting[1..] == c.jobs[Current(c, s) + 2..] && j != next && s.hasWaiting && s.hasDr
    ensures CanReceive(s.cells[next].opt.b.sampleQueue) && s' == NextTaken(s, j, next, TakeCell(s.cells[next]).0)
  {
    DeployComputes(c, s);
    var s1 := s.(cells := s.cells[j := s.cells[j].(registered := false)], waiting := s.waiting[1..],
                 pc := Taking(next, true));
    hide Inv, CellInv, JobDone, Deploy, TakeCell;
    assert Apply(c, s, TrackerMoves) == s1;
    assert s' == Take(c, s1, next, true);
    hide Settles, Apply, Enabled, DeployResult;
    assert Take(c, s1, next, true) == AfterNext(s1.(cells := s1.cells[next := TakeCell(s.cells[next]).0]), next);
  }

  /** The cluster after the next job was created. */
  lemma NextMade(c: Config, s: State, s': State, j: Job, next: Job, cell: Cell, dr: Option<T.Interface>)
    requires j in s.cells && next in s.cells && j != next && dr.Some? && !s.crashed
    requires s.cells[next].status.Absent? && !JobDone(s.published, next)
    requires s' == NextTaken(s, j, next, cell) && cell.status.Running? && Makes(c, s, next, cell)
    ensures var made := T.TryCreate(WorldOf(s), dr, T.Instance(next, next in c.tuned), s.cells[next].opt.b);
      && SameWorld(WorldOf(s'), made.world) && made.opt == cell.opt.b
      && CreatesUnder(s, s', next, dr.value, made.world.created)
  {
    hide JobDone, TakeSample;
    NextCreated(c, s, s', j, next, cell, dr);
    NextSeen(c, s, s', j, next, cell);
  }

  lemma NextCreated(c: Config, s: State, s': State, j: Job, next: Job, cell: Cell, dr: Option<T.Interface>)
    requires j in s.cells && next in s.cells && j != next && dr.Some? && !s.crashed
    requires s.cells[next].status.Absent? && !JobDone(s.published, next)
    requires s' == NextTaken(s, j, next, cell) && Makes(c, s, next, cell)
    ensures var made := T.TryCreate(WorldOf(s), dr, T.Instance(next, next in c.tuned), s.cells[next].opt.b);
      && made.opt == cell.opt.b && CreatesUnder(s, s', next, dr.value, made.world.created)
      && made.world.done == WorldOf(s).done && made.world.complete == WorldOf(s).complete[next := false]
      && !made.world.crashed
  {
    DoneMeansDone(s, next);
    hide JobDone, TakeSample;
  }

  lemma NextSeen(c: Config, s: State, s': State, j: Job, next: Job, cell: Cell)
    requires j in s.cells && next in s.cells && j != next && !s.crashed
    requires s' == NextTaken(s, j, next, cell) && cell.status.Running?
    ensures WorldOf(s').done == WorldOf(s).done && WorldOf(s').complete == WorldOf(s).complete[next := false]
    ensures !WorldOf(s').crashed
  {
  }

  /** The cell of a job whose creation goes through. */
  ghost predicate Makes(c: Config, s: State, next: Job, cell: Cell)
    requires next in s.cells
  {
    if next in c.tuned then
      && CanReceive(s.cells[next].opt.b.sampleQueue) && cell.uses != []
      && cell.uses[..|cell.uses| - 1] == s.cells[next].uses
      && TakeSample(s.cells[next].opt.b) == (cell.opt.b, Some(cell.uses[|cell.uses| - 1]))
    else cell.opt.b == s.cells[next].opt.b && cell.uses == s.cells[next].uses + [Untuned]
  }

  /** The tables after the next job was created. */
  lemma NextListed(c: Config, s: State, s': State, benchmark: string, j: Job, next: Job, cell: Cell)
    requires j in s.cells && s.cells[j].registered
    requires s.waiting != [] && next == s.waiting[0] && next != j && next in s.cells && s.hasDr && s.hasWaiting
    requires s.cells[next].registered && s' == NextTaken(s, j, next, cell) && cell.registered
    ensures T.NextOf(T.Forgotten(BookOf(c, s, benchmark), j, true), benchmark)
      == Some(T.Instance(next, next in c.tuned))
    ensures BookOf(c, s', benchmark)
      == T.Deployed(BookOf(c, s, benchmark), j, benchmark, false, true, cell.opt.b.finalizedApplied)
  {
    var t := BookOf(c, s, benchmark);
    assert Instances(c, s.waiting)[0] == T.Instance(next, next in c.tuned);
    assert Instances(c, s.waiting)[1..] == Instances(c, s.waiting[1..]);
    assert BookOf(c, s', benchmark).opts == t.opts - {j};
  }

  lemma NextAgrees(c: Config, s: State, s': State, benchmark: string, j: Job, next: Job, cell: Cell)
    requires s.pc.Deploying? && s.pc.job == j && j in s.cells && s.cells[j].opt.b.finalizedApplied
      && s.cells[j].registered
    requires s.waiting != [] && next == s.waiting[0] && next != j && next in s.cells && s.hasDr && s.hasWaiting
      && !s.crashed
    requires s.cells[next].registered && s.cells[next].status.Absent? && !JobDone(s.published, next)
    requires s' == NextTaken(s, j, next, cell) && cell.registered && cell.status.Running? && Makes(c, s, next, cell)
    ensures DeploysTo(c, s, s', benchmark)
  {
    NextListed(c, s, s', benchmark, j, next, cell);
    NextMade(c, s, s', j, next, cell, T.Lookup(BookOf(c, s, benchmark).dr, benchmark));
    assert next in s'.cells && s'.cells[next] == cell;
    assert next in c.tuned ==> CanReceive(s.cells[next].opt.b.sampleQueue);
    assert T.Lookup(BookOf(c, s, benchmark).dr, benchmark).Some?;
    hide JobDone, TakeSample, NextTaken, Makes, BookOf, WorldOf, SameWorld, T.TryCreate, T.NextOf, T.Deployed,
      T.Forgotten;
  }

  lemma WaitingAgrees(c: Config, s: State, s': State, benchmark: string)
    requires ValidConfig(c) && Inv(c, s) && s.pc.Deploying? && Settles(c, s, s')
    requires var j := c.jobs[Current(c, s)]; j in s.cells && s.cells[j].opt.b.finalizedApplied && s.waiting != []
    ensures DeploysTo(c, s, s', benchmark)
  {
    hide DeploysTo, JobDone, Settles, Inv, CellInv, TakeSample, NextTaken, Makes;
    var j := CurrentJob(c, s);
    var next := NextJob(c, s);
    if next in c.tuned {
      TunedStep(c, s, s', j, next);
      TakenMakes(c, s, next);
      NextAgrees(c, s, s', benchmark, j, next, TakeCell(s.cells[next]).0);
    } else {
      UntunedStep(c, s, s', j, next);
      CreatedMakes(c, s, next);
      NextAgrees(c, s, s', benchmark, j, next, Created(s.cells[next], Untuned));
    }
  }

  lemma TakenMakes(c: Config, s: State, next: Job)
    requires next in s.cells && next in c.tuned && s.cells[next].registered && CellInv(c, true, s.cells[next], Choosing)
    requires CanReceive(s.cells[next].opt.b.sampleQueue)
    ensures var cell := TakeCell(s.cells[next]).0; cell.registered && cell.status.Running? && Makes(c, s, next, cell)
  {
    hide CellInv, TakeCell, TakeSample;
    TakenCell(c, true, s.cells[next]);
    TakenUses(s.cells[next]);
  }

  lemma TakenUses(cell: Cell)
    requires CanReceive(cell.opt.b.sampleQueue) && TakeCell(cell).1
    ensures var cell' := TakeCell(cell).0;
      && cell'.uses != [] && cell'.uses[..|cell'.uses| - 1] == cell.uses
      && TakeSample(cell.opt.b) == (cell'.opt.b, Some(cell'.uses[|cell'.uses| - 1]))
      && cell'.registered == cell.registered && cell'.status.Running?
  {
    hide TakeSample;
  }

  lemma CreatedMakes(c: Config, s: State, next: Job)
    requires next in s.cells && next !in c.tuned && s.cells[next].registered
    ensures var cell := Created(s.cells[next], Untuned);
      cell.registered && cell.status.Running? && Makes(c, s, next, cell)
  {
  }

  /** In every reachable state the two descriptions of deployWaitingResource agree. */
  lemma TablesAgree(c: Config, s: State, s': State, benchmark: string)
    requires ValidConfig(c) && Inv(c, s) && s.pc.Deploying? && Settles(c, s, s')
    ensures DeploysTo(c, s, s', benchmark)
  {
    hide Settles, DeploysTo;
    if !s.cells[c.jobs[Current(c, s)]].opt.b.finalizedApplied {
      RetryAgrees(c, s, s', benchmark);
    } else if s.waiting == [] {
      NoneLeftAgrees(c, s, s', benchmark);
    } else {
      WaitingAgrees(c, s, s', benchmark);
    }
  }

  lemma CellsAt(c: Config, s: State, i: nat)
    requires Inv(c, s) && i < |c.jobs|
    ensures c.jobs[i] in s.cells && CellInv(c, c.jobs[i] in c.tuned, s.cells[c.jobs[i]], StageOf(c, s, i))
  {
  }
}
