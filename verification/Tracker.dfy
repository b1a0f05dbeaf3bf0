/** The job tracker's bookkeeping over several benchmarks, in place: subscribers, waiting lists,
    resource interfaces and optimizers (controllers/job_tracker.go), and the creation of a job
    (controllers/common.go). Blocking receives are considered once they can return. */
module Tracker {
  import opened Wrappers
  import opened Lists
  import opened Optimizer
  import opened Ranking
  import Protocol

  // ---------------------------------------------------------------- the optimizer in place

  class BaysesOptimizer {
    var sampleQueue: Chan<Profile>
    var resultQueue: Chan<real>
    var autoTuned: bool
    var finalizedReady: bool
    var finalizedApplied: bool
    var finalizedTunedProfile: Option<Profile>
    var samplingCount: nat
    var crashed: bool

    function View(): Shared
      reads this
    {
      Shared(sampleQueue, resultQueue, autoTuned, finalizedReady, finalizedApplied, finalizedTunedProfile,
             samplingCount, crashed)
    }

    constructor ()
      ensures View() == FRESH
    {
      sampleQueue, resultQueue := Chan([], false), Chan([], false);
      autoTuned, finalizedReady, finalizedApplied, crashed := false, false, false, false;
      finalizedTunedProfile, samplingCount := None, 0;
    }

    /** Go's close: a second one panics. */
    method CloseQueues()
      modifies this
      ensures View() == CloseResults(CloseSamples(old(View())))
    {
      crashed := crashed || sampleQueue.closed || resultQueue.closed;
      sampleQueue := sampleQueue.(closed := true);
      resultQueue := resultQueue.(closed := true);
    }

    method Finalize()
      modifies this
      ensures View() == Optimizer.Finalize(old(View()))
    {
      if !finalizedReady {
        finalizedReady := true;
        CloseQueues();
      }
    }

    method SetFinalizedApplied()
      modifies this
      ensures View() == Optimizer.SetFinalizedApplied(old(View()))
    {
      Finalize();
      finalizedApplied := true;
    }

    /** ResultQueue <- value, unless the optimizer is finalized. */
    method PutResult(value: real)
      requires finalizedReady || CanSend(resultQueue)
      modifies this
      ensures View() == if old(finalizedReady) then old(View()) else PostResult(old(View()), value)
    {
      if !finalizedReady {
        if resultQueue.closed { crashed := true; }
        else { resultQueue := resultQueue.(buf := resultQueue.buf + [value]); }
      }
    }

    /** The receive of CreateIfNotExists: a sample, or the final profile once, or nothing. */
    method NextUse() returns (use: Option<Use>)
      requires CanReceive(sampleQueue)
      modifies this
      ensures (View(), use) == TakeSample(old(View()))
    {
      if sampleQueue.buf != [] {
        use := Some(Sampled(sampleQueue.buf[0]));
        sampleQueue := sampleQueue.(buf := sampleQueue.buf[1..]);
      } else if finalizedApplied {
        use := None;
      } else {
        use := Some(Final(finalizedTunedProfile));
        SetFinalizedApplied();
      }
    }
  }

  // ---------------------------------------------------------------- creating a job

  type Interface = string   // a dynamic.ResourceInterface

  /** A job instance: its name, and whether its node profile is "auto-tuned". */
  datatype Instance = Instance(name: string, autoTuned: bool)

  datatype Creation = Creation(dr: Interface, name: string, use: Use)

  /** What CreateIfNotExists meets: the jobs that have a result, and the job resources, each
      complete or not. */
  datatype World = World(done: set<string>, complete: map<string, bool>, created: seq<Creation>, crashed: bool)

  datatype Outcome = Outcome(world: World, opt: Shared, err: bool, isNew: bool)

  /** Whether CreateIfNotExists gets as far as receiving a sample. */
  predicate Receives(w: World, dr: Option<Interface>, job: Instance) {
    job.name !in w.done && dr.Some? && job.autoTuned && (job.name in w.complete ==> w.complete[job.name])
  }

  function Create(w: World, dr: Interface, job: Instance, use: Use): World {
    w.(complete := w.complete[job.name := false], created := w.created + [Creation(dr, job.name, use)])
  }

  /** CreateIfNotExists. A call on a missing interface is a panic. */
  function TryCreate(w: World, dr: Option<Interface>, job: Instance, opt: Shared): Outcome
    requires Receives(w, dr, job) ==> CanReceive(opt.sampleQueue)
  {
    if job.name in w.done then Outcome(w, opt, false, false)
    else if dr.None? then Outcome(w.(crashed := true), opt, true, false)
    else if job.name in w.complete && !w.complete[job.name] then Outcome(w, opt, false, true)
    else if job.autoTuned then
      var (opt', use) := TakeSample(opt);
      if use.None? then Outcome(w, opt', true, true)
      else Outcome(Create(w, dr.value, job, use.value), opt', false, true)
    else if job.name in w.complete then Outcome(w, opt, false, false)
    else Outcome(Create(w, dr.value, job, Untuned), opt, false, true)
  }

  /** An attempt that creates nothing takes nothing from the optimizer either. */
  lemma FailedTryKeepsOptimizer(w: World, dr: Option<Interface>, job: Instance, opt: Shared)
    requires Receives(w, dr, job) ==> CanReceive(opt.sampleQueue)
    ensures var made := TryCreate(w, dr, job, opt);
      && (made.err || !made.isNew ==> made.opt == opt && made.world == w.(crashed := made.world.crashed))
      && (made.world.crashed <==> w.crashed || (job.name !in w.done && dr.None?))
  {
  }

  /** What an attempt returns and creates: nothing for a job with a result; a job that still runs is left
      alone; a complete job is created again only if it is auto-tuned; and an auto-tuned one only if a
      sample or the final profile is left, under which it is created. */
  lemma TryOutcome(w: World, dr: Option<Interface>, job: Instance, opt: Shared)
    requires Receives(w, dr, job) ==> CanReceive(opt.sampleQueue)
    ensures var made := TryCreate(w, dr, job, opt);
      var absent, runs := job.name !in w.complete, job.name in w.complete && !w.complete[job.name];
      var none := job.autoTuned && opt.sampleQueue.buf == [] && opt.finalizedApplied;
      && (made.isNew <==> job.name !in w.done && dr.Some? && (absent || runs || job.autoTuned))
      && (made.err <==> job.name !in w.done && (dr.None? || (!runs && none)))
      && made.world.created == w.created
           + (if made.isNew && !made.err && !runs then
                [Creation(dr.value, job.name,
                   if !job.autoTuned then Untuned
                   else if opt.sampleQueue.buf != [] then Sampled(opt.sampleQueue.buf[0])
                   else Final(opt.finalizedTunedProfile))]
              else [])
  {
  }

  class Cluster {
    var done: set<string>
    var complete: map<string, bool>
    ghost var created: seq<Creation>
    var crashed: bool

    ghost function View(): World
      reads this
    {
      World(done, complete, created, crashed)
    }

    method CreateIfNotExists(dr: Option<Interface>, job: Instance, nodeTunedOptimizer: BaysesOptimizer)
      returns (err: bool, isNew: bool)
      requires Receives(View(), dr, job) ==> CanReceive(nodeTunedOptimizer.sampleQueue)
      modifies this, nodeTunedOptimizer
      ensures Outcome(View(), nodeTunedOptimizer.View(), err, isNew)
        == TryCreate(old(View()), dr, job, old(nodeTunedOptimizer.View()))
    {
      if job.name in done { return false, false; }
      if dr.None? {
        crashed := true;
        return true, false;
      }
      var found := job.name in complete;
      var completed := !found || complete[job.name];
      var use, autoTuned := Untuned, false;
      if completed && job.autoTuned {
        var sampled := nodeTunedOptimizer.NextUse();
        if sampled.None? { return true, true; }
        use, autoTuned := sampled.value, true;
      }
      if !found || autoTuned {
        complete, created := complete[job.name := false], created + [Creation(dr.value, job.name, use)];
        return false, true;
      } else if completed {
        return false, false;
      }
      return false, true;
    }
  }

  // ---------------------------------------------------------------- the tracker's tables

  /** The tables of one tracker; `opts` are the keys of JobOptMap. */
  datatype Book = Book(
    subscribers: seq<string>,
    waiting: map<string, seq<Instance>>,
    dr: map<string, Interface>,
    opts: set<string>)

  /** indexOf: the first position of the benchmark, or the number of subscribers. */
  function FirstIndex(subscribers: seq<string>, benchmark: string): (i: nat)
    ensures i <= |subscribers| && (i < |subscribers| ==> subscribers[i] == benchmark)
    ensures forall k :: 0 <= k < i ==> subscribers[k] != benchmark
  {
    if subscribers == [] || subscribers[0] == benchmark then 0 else 1 + FirstIndex(subscribers[1..], benchmark)
  }

  /** Subscribe. Without a waiting job neither the interface nor the optimizers are kept. */
  function Subscribed(t: Book, benchmark: string, jobs: seq<Instance>, dr: Interface, opts: set<string>): Book {
    if benchmark in t.subscribers then t
    else
      var t1 := t.(subscribers := t.subscribers + [benchmark]);
      if jobs == [] then t1
      else t1.(waiting := t.waiting[benchmark := jobs], dr := t.dr[benchmark := dr], opts := t.opts + opts)
  }

  /** Unsubscribe. Optimizers stay, and an interface without waiting jobs stays too. */
  function Unsubscribed(t: Book, benchmark: string): Book {
    if benchmark !in t.subscribers then t
    else
      var i := FirstIndex(t.subscribers, benchmark);
      var t1 := t.(subscribers := t.subscribers[..i] + t.subscribers[i + 1..]);
      if benchmark in t.waiting then t1.(waiting := t.waiting - {benchmark}, dr := t.dr - {benchmark}) else t1
  }

  /** The job deployWaitingResource hands on after it gave up on `finished`; None if nothing waits
      or the head of the list has no optimizer. */
  function NextOf(t: Book, benchmark: string): Option<Instance> {
    if benchmark in t.waiting && t.waiting[benchmark] != [] && t.waiting[benchmark][0].name in t.opts
    then Some(t.waiting[benchmark][0]) else None
  }

  /** The next waiting job is taken off its list; `nextApplied` if its optimizer has applied the
      final profile by then. */
  function Popped(t: Book, benchmark: string, nextApplied: bool): Book {
    if benchmark !in t.waiting then t.(dr := t.dr - {benchmark})
    else if t.waiting[benchmark] == [] then t
    else
      var rest := t.waiting[benchmark][1..];
      if NextOf(t, benchmark).None? || rest != [] then t.(waiting := t.waiting[benchmark := rest])
      else t.(waiting := t.waiting - {benchmark}, dr := if nextApplied then t.dr - {benchmark} else t.dr)
  }

  /** deployWaitingResource on the tables: `retried` if the finished job was created again, `applied`
      if its optimizer has applied the final profile by then. */
  function Deployed(t: Book, finished: string, benchmark: string, retried: bool, applied: bool,
                    nextApplied: bool): Book {
    if finished !in t.opts || retried then t
    else Popped(Forgotten(t, finished, applied), benchmark, nextApplied)
  }

  // ---------------------------------------------------------------- what the tables keep

  predicate WaitsAt(t: Book, b: string, i: int) {
    b in t.waiting && 0 <= i < |t.waiting[b]|
  }

  ghost predicate Waits(t: Book, name: string) {
    exists b, i :: WaitsAt(t, b, i) && t.waiting[b][i].name == name
  }

  /** What other benchmarks see of a change: nothing. */
  ghost predicate OthersKept(t: Book, t': Book, benchmark: string) {
    forall b :: b != benchmark ==>
      && (b in t.subscribers <==> b in t'.subscribers)
      && (b in t.waiting <==> b in t'.waiting) && (b in t.waiting ==> t'.waiting[b] == t.waiting[b])
      && (b in t.dr <==> b in t'.dr) && (b in t.dr ==> t'.dr[b] == t.dr[b])
  }

  ghost predicate DistinctNames(t: Book) {
    forall b, i, b', i' :: WaitsAt(t, b, i) && WaitsAt(t, b', i') && t.waiting[b][i].name == t.waiting[b'][i'].name ==>
      b == b' && i == i'
  }

  /** No waiting list is empty; a waiting job has an optimizer and a name of its own; a benchmark
      with waiting jobs has an interface and is subscribed, once. */
  ghost predicate Inv(t: Book) {
    && Distinct(t.subscribers)
    && (forall b :: b in t.waiting ==> t.waiting[b] != [] && b in t.dr && b in t.subscribers)
    && (forall b, i :: WaitsAt(t, b, i) ==> t.waiting[b][i].name in t.opts)
    && DistinctNames(t)
  }

  /** What CreateFromOperator subscribes with: distinct new names, each with its optimizer. */
  ghost predicate NewJobs(t: Book, jobs: seq<Instance>, opts: set<string>) {
    && (forall i :: 0 <= i < |jobs| ==> jobs[i].name in opts && !Waits(t, jobs[i].name))
    && (forall i, j :: 0 <= i < j < |jobs| ==> jobs[i].name != jobs[j].name)
  }

  lemma SubscribeKeepsInv(t: Book, benchmark: string, jobs: seq<Instance>, dr: Interface, opts: set<string>)
    requires Inv(t) && NewJobs(t, jobs, opts)
    ensures var t' := Subscribed(t, benchmark, jobs, dr, opts);
      && Inv(t') && OthersKept(t, t', benchmark)
      && (forall name :: Waits(t', name) ==> Waits(t, name) || exists i :: 0 <= i < |jobs| && jobs[i].name == name)
      && (benchmark in t.subscribers ==> t' == t)
      && (benchmark !in t.subscribers ==>
            && t'.subscribers == t.subscribers + [benchmark] && WaitingOf(t', benchmark) == jobs
            && (jobs != [] ==> t'.dr == t.dr[benchmark := dr] && t'.opts == t.opts + opts)
            && (jobs == [] ==> t'.dr == t.dr && t'.opts == t.opts))
  {
    var t' := Subscribed(t, benchmark, jobs, dr, opts);
    if benchmark !in t.subscribers && jobs != [] {
      forall b, i | WaitsAt(t', b, i) && b != benchmark ensures WaitsAt(t, b, i) { }
      forall b, i, b', i' | WaitsAt(t', b, i) && WaitsAt(t', b', i') && t'.waiting[b][i].name == t'.waiting[b'][i'].name
        ensures b == b' && i == i'
      {
        if b == benchmark && b' != benchmark { assert Waits(t, jobs[i].name); }
        if b != benchmark && b' == benchmark { assert Waits(t, jobs[i'].name); }
      }
    }
  }

  lemma SubscriberRemoved(subscribers: seq<string>, benchmark: string)
    requires Distinct(subscribers) && benchmark in subscribers
    ensures var i := FirstIndex(subscribers, benchmark);
      && i < |subscribers|
      && var rest := subscribers[..i] + subscribers[i + 1..];
      && Distinct(rest) && benchmark !in rest && (forall b :: b != benchmark ==> (b in subscribers <==> b in rest))
      && i <= |rest| && subscribers == rest[..i] + [benchmark] + rest[i..]
  {
    var i := FirstIndex(subscribers, benchmark);
    assert subscribers == subscribers[..i] + [benchmark] + subscribers[i + 1..];
  }

  /** What Unsubscribe does to tables in order. */
  lemma UnsubscribeRemoves(t: Book, benchmark: string)
    requires Distinct(t.subscribers) && (benchmark in t.waiting ==> benchmark in t.subscribers)
    ensures var t' := Unsubscribed(t, benchmark);
      && Distinct(t'.subscribers) && benchmark !in t'.subscribers && t'.opts == t.opts
      && (forall b :: b != benchmark ==> (b in t.subscribers <==> b in t'.subscribers))
      && (benchmark in t.subscribers ==>
            exists i :: 0 <= i <= |t'.subscribers|
                        && t.subscribers == t'.subscribers[..i] + [benchmark] + t'.subscribers[i..])
      && t'.waiting == t.waiting - {benchmark}
      && t'.dr == if benchmark in t.waiting then t.dr - {benchmark} else t.dr
  {
    if benchmark in t.subscribers { SubscriberRemoved(t.subscribers, benchmark); }
    hide Distinct, FirstIndex;
    assert benchmark !in t.waiting ==> t.waiting - {benchmark} == t.waiting;
  }

  lemma UnsubscribeKeepsInv(t: Book, benchmark: string)
    requires Inv(t)
    ensures var t' := Unsubscribed(t, benchmark);
      && Inv(t') && OthersKept(t, t', benchmark)
      && benchmark !in t'.subscribers && benchmark !in t'.waiting
      && forall name :: Waits(t', name) ==> Waits(t, name)
  {
    hide Unsubscribed, Distinct, DistinctNames, Waits;
    UnsubscribeRemoves(t, benchmark);
    FewerWait(t, Unsubscribed(t, benchmark));
  }

  lemma FewerWait(t: Book, t': Book)
    requires forall b, i :: WaitsAt(t', b, i) ==> WaitsAt(t, b, i) && t'.waiting[b] == t.waiting[b]
    ensures DistinctNames(t) ==> DistinctNames(t')
    ensures forall name :: Waits(t', name) ==> Waits(t, name)
  {
  }

  /** The jobs of `benchmark` that wait. */
  function WaitingOf(t: Book, benchmark: string): seq<Instance> {
    if benchmark in t.waiting then t.waiting[benchmark] else []
  }

  /** The waiting list of `benchmark` loses its head, which is the job handed on, and that job has
      an interface and waits no more. */
  ghost predicate HandsOnHead(t: Book, t': Book, benchmark: string) {
    && WaitingOf(t, benchmark) != []
    && NextOf(t, benchmark) == Some(WaitingOf(t, benchmark)[0])
    && benchmark in t.dr
    && WaitingOf(t, benchmark) == [WaitingOf(t, benchmark)[0]] + WaitingOf(t', benchmark)
    && !Waits(t', WaitingOf(t, benchmark)[0].name)
  }

  ghost predicate NoNewWaits(t: Book, t': Book) {
    forall name :: Waits(t', name) ==> Waits(t, name)
  }

  lemma PopKeepsInv(t: Book, benchmark: string, nextApplied: bool)
    requires Inv(t)
    ensures var t' := Popped(t, benchmark, nextApplied);
      && Inv(t') && t'.subscribers == t.subscribers && t'.opts == t.opts && OthersKept(t, t', benchmark)
      && NoNewWaits(t, t')
      && (benchmark in t.waiting ==> HandsOnHead(t, t', benchmark))
  {
    var t' := Popped(t, benchmark, nextApplied);
    PopKeepsOthers(t, benchmark, nextApplied);
    if benchmark in t.waiting {
      PopTakesHead(t, benchmark, nextApplied);
    } else {
      SameWaits(t, t');
    }
    hide Waits, DistinctNames, Distinct, OthersKept, HandsOnHead;
  }

  lemma PopKeepsOthers(t: Book, benchmark: string, nextApplied: bool)
    ensures var t' := Popped(t, benchmark, nextApplied);
      t'.subscribers == t.subscribers && t'.opts == t.opts && OthersKept(t, t', benchmark)
  {
  }

  lemma PopTakesHead(t: Book, benchmark: string, nextApplied: bool)
    requires Inv(t) && benchmark in t.waiting
    ensures var t' := Popped(t, benchmark, nextApplied);
      Inv(t') && NoNewWaits(t, t') && HandsOnHead(t, t', benchmark)
  {
    var t' := Popped(t, benchmark, nextApplied);
    assert WaitsAt(t, benchmark, 0);
    PoppedWaits(t, t', benchmark);
    hide Waits, DistinctNames, Distinct;
  }

  lemma SameWaits(t: Book, t': Book)
    requires t.waiting == t'.waiting
    ensures forall name :: Waits(t, name) <==> Waits(t', name)
    ensures DistinctNames(t) <==> DistinctNames(t')
  {
    forall b, i ensures WaitsAt(t, b, i) <==> WaitsAt(t', b, i) { }
  }

  /** The tables without the optimizer of a job that was finalized. */
  function Forgotten(t: Book, finished: string, applied: bool): Book {
    if applied then t.(opts := t.opts - {finished}) else t
  }

  lemma ForgetKeepsInv(t: Book, finished: string, applied: bool)
    requires Inv(t) && !Waits(t, finished)
    ensures Inv(Forgotten(t, finished, applied))
  {
    SameWaits(t, Forgotten(t, finished, applied));
    hide DistinctNames, Distinct;
  }

  /** A finished job was created, so it does not wait. Then a waiting list only ever loses its head,
      which is the very job handed on; no list is left empty, no head is taken from an empty list or
      without an interface, and other benchmarks are untouched. */
  lemma DeployKeepsInv(t: Book, finished: string, benchmark: string, retried: bool, applied: bool, nextApplied: bool)
    requires Inv(t) && !Waits(t, finished)
    ensures var t' := Deployed(t, finished, benchmark, retried, applied, nextApplied);
      && Inv(t') && t'.subscribers == t.subscribers && OthersKept(t, t', benchmark) && NoNewWaits(t, t')
      && (finished in t.opts && !retried && benchmark in t.waiting ==>
            HandsOnHead(Forgotten(t, finished, applied), t', benchmark))
      && t'.opts == if applied && !retried then t.opts - {finished} else t.opts
  {
    hide Inv, Waits, Popped, OthersKept, HandsOnHead, NoNewWaits;
    if finished !in t.opts || retried {
      NothingChanged(t, benchmark);
      assert finished !in t.opts ==> t.opts - {finished} == t.opts;
    } else {
      var t1 := Forgotten(t, finished, applied);
      ForgetKeepsInv(t, finished, applied);
      PopKeepsInv(t1, benchmark, nextApplied);
      ForgottenKeeps(t, t1, Popped(t1, benchmark, nextApplied), benchmark);
    }
  }

  lemma NothingChanged(t: Book, benchmark: string)
    ensures OthersKept(t, t, benchmark) && NoNewWaits(t, t)
  {
  }

  /** Forgetting an optimizer does not show in subscribers, lists and interfaces. */
  lemma ForgottenKeeps(t: Book, t1: Book, t': Book, benchmark: string)
    requires t1 == t.(opts := t1.opts) && OthersKept(t1, t', benchmark) && NoNewWaits(t1, t')
    ensures OthersKept(t, t', benchmark) && NoNewWaits(t, t')
  {
    SameWaits(t, t1);
  }

  lemma PoppedWaits(t: Book, t': Book, benchmark: string)
    requires Inv(t) && benchmark in t.waiting
    requires t.waiting[benchmark][1..] != [] ==> t'.waiting == t.waiting[benchmark := t.waiting[benchmark][1..]]
    requires t.waiting[benchmark][1..] == [] ==> t'.waiting == t.waiting - {benchmark}
    ensures DistinctNames(t') && !Waits(t', t.waiting[benchmark][0].name)
    ensures forall b, i :: WaitsAt(t', b, i) ==> Waits(t, t'.waiting[b][i].name) && t'.waiting[b][i].name in t.opts
  {
    assert WaitsAt(t, benchmark, 0);
    forall b, i | WaitsAt(t', b, i)
      ensures var j := if b == benchmark then i + 1 else i; WaitsAt(t, b, j) && t.waiting[b][j] == t'.waiting[b][i]
      ensures t'.waiting[b][i].name != t.waiting[benchmark][0].name
    {
      var j := if b == benchmark then i + 1 else i;
      assert WaitsAt(t, b, j) && t.waiting[b][j] == t'.waiting[b][i];
    }
  }

  // ---------------------------------------------------------------- whole histories

  /** `first` are the names CreateFromOperator handed to CreateIfNotExists before it subscribed. */
  datatype Event =
    | Subscribes(benchmark: string, first: set<string>, jobs: seq<Instance>, dr: Interface, opts: set<string>)
    | Unsubscribes(benchmark: string)
    | Completes(finished: string, benchmark: string, retried: bool, applied: bool, nextApplied: bool)

  /** The tables, and which jobs were handed to CreateIfNotExists, each with its benchmark. A deleted
      benchmark takes its jobs with it: events of deleted benchmarks are dropped. */
  datatype Sweeps = Sweeps(book: Book, tried: set<(string, string)>)

  const NO_SWEEPS: Sweeps := Sweeps(Book([], map[], map[], {}), {})

  ghost predicate Tried(s: Sweeps, name: string) {
    exists b :: (b, name) in s.tried
  }

  /** Job names are new among those of the benchmarks that exist, and only a job that was created for
      its benchmark can complete. */
  ghost predicate Allowed(s: Sweeps, e: Event) {
    match e
    case Subscribes(_, first, jobs, _, opts) =>
      && NewJobs(s.book, jobs, opts)
      && (forall name :: name in first ==> !Waits(s.book, name))
      && (forall i :: 0 <= i < |jobs| ==> jobs[i].name !in first && !Tried(s, jobs[i].name))
    case Unsubscribes(_) => true
    case Completes(finished, b, _, _, _) => (b, finished) in s.tried
  }

  function After(s: Sweeps, e: Event): Sweeps {
    match e
    case Subscribes(b, first, jobs, dr, opts) =>
      Sweeps(Subscribed(s.book, b, jobs, dr, opts), s.tried + set name | name in first :: (b, name))
    case Unsubscribes(b) => Sweeps(Unsubscribed(s.book, b), set pair | pair in s.tried && pair.0 != b)
    case Completes(finished, b, retried, applied, nextApplied) =>
      var t := Deployed(s.book, finished, b, retried, applied, nextApplied);
      var taken := if WaitingOf(t, b) == WaitingOf(s.book, b) || WaitingOf(s.book, b) == [] then {}
                   else {(b, WaitingOf(s.book, b)[0].name)};
      Sweeps(t, s.tried + taken)
  }

  ghost predicate SweepsInv(s: Sweeps) {
    Inv(s.book) && forall pair :: pair in s.tried ==> !Waits(s.book, pair.1)
  }

  ghost predicate History(s: Sweeps, events: seq<Event>)
    decreases |events|
  {
    events == [] || (Allowed(s, events[0]) && History(After(s, events[0]), events[1..]))
  }

  function Outcomes(s: Sweeps, events: seq<Event>): Sweeps
    decreases |events|
  {
    if events == [] then s else Outcomes(After(s, events[0]), events[1..])
  }

  lemma EventKeepsInv(s: Sweeps, e: Event)
    requires SweepsInv(s) && Allowed(s, e)
    ensures SweepsInv(After(s, e))
  {
    match e
    case Subscribes(b, first, jobs, dr, opts) =>
      SubscribeKeepsInv(s.book, b, jobs, dr, opts);
      hide Inv, Subscribed, Waits;
    case Unsubscribes(b) =>
      UnsubscribeKeepsInv(s.book, b);
      hide Inv, Unsubscribed, Waits;
    case Completes(finished, b, retried, applied, nextApplied) =>
      assert !Waits(s.book, (b, finished).1);
      DeployKeepsInv(s.book, finished, b, retried, applied, nextApplied);
      CompletionTakesHead(s.book, finished, b, retried, applied, nextApplied);
      hide Inv, Deployed, Waits, HandsOnHead;
  }

  lemma CompletionTakesHead(t: Book, finished: string, b: string, retried: bool, applied: bool, nextApplied: bool)
    requires Inv(t) && !Waits(t, finished)
    ensures var t' := Deployed(t, finished, b, retried, applied, nextApplied);
      WaitingOf(t', b) != WaitingOf(t, b) && WaitingOf(t, b) != [] ==> !Waits(t', WaitingOf(t, b)[0].name)
  {
    DeployKeepsInv(t, finished, b, retried, applied, nextApplied);
    hide Waits, Inv;
  }

  /** After any history of subscriptions, completions and unsubscriptions over any number of
      benchmarks, the tables are in order. */
  lemma {:induction false} HistoryKeepsInv(s: Sweeps, events: seq<Event>)
    requires SweepsInv(s) && History(s, events)
    ensures SweepsInv(Outcomes(s, events))
    decreases |events|
  {
    hide SweepsInv, Allowed, After;
    if events != [] {
      EventKeepsInv(s, events[0]);
      HistoryKeepsInv(After(s, events[0]), events[1..]);
    }
  }

  /** The jobs of `benchmark` from number k on still wait, in their order; those handed to
      CreateIfNotExists are the ones before it and the ones created at the start. */
  ghost predicate Served(s: Sweeps, benchmark: string, first: set<string>, jobs: seq<Instance>, k: nat) {
    && k <= |jobs| && benchmark in s.book.subscribers
    && WaitingOf(s.book, benchmark) == jobs[k..]
    && forall name :: (benchmark, name) in s.tried <==> name in first || exists i :: 0 <= i < k && jobs[i].name == name
  }

  lemma SubscribedIsServed(s: Sweeps, benchmark: string, first: set<string>, jobs: seq<Instance>, dr: Interface,
                           opts: set<string>)
    requires SweepsInv(s) && benchmark !in s.book.subscribers && forall pair :: pair in s.tried ==> pair.0 != benchmark
    requires Allowed(s, Subscribes(benchmark, first, jobs, dr, opts))
    ensures Served(After(s, Subscribes(benchmark, first, jobs, dr, opts)), benchmark, first, jobs, 0)
  {
    SubscribeKeepsInv(s.book, benchmark, jobs, dr, opts);
    hide Inv, Subscribed, Waits;
    assert jobs[0..] == jobs;
  }

  lemma CompletionServes(s: Sweeps, benchmark: string, first: set<string>, jobs: seq<Instance>, k: nat, e: Event)
    returns (k': nat)
    requires SweepsInv(s) && Allowed(s, e) && Served(s, benchmark, first, jobs, k)
    requires e.Completes? && e.benchmark == benchmark
    ensures k <= k' <= k + 1 && Served(After(s, e), benchmark, first, jobs, k')
  {
    assert !Waits(s.book, (benchmark, e.finished).1);
    var t, t' := s.book, After(s, e).book;
    DeployKeepsInv(t, e.finished, benchmark, e.retried, e.applied, e.nextApplied);
    if WaitingOf(t', benchmark) == WaitingOf(t, benchmark) {
      k' := k;
    } else {
      HandsOrKeeps(t, e.finished, benchmark, e.retried, e.applied, e.nextApplied);
      k' := k + 1;
      assert jobs[k..][1..] == jobs[k + 1..];
      hide Inv, Waits, Deployed;
      forall name
        ensures (benchmark, name) in After(s, e).tried
          <==> name in first || exists i :: 0 <= i < k' && jobs[i].name == name
      {
        if name == jobs[k].name { assert 0 <= k < k'; }
      }
    }
    hide Inv, Waits, Deployed;
  }

  lemma HandsOrKeeps(t: Book, finished: string, b: string, retried: bool, applied: bool, nextApplied: bool)
    requires Inv(t) && !Waits(t, finished)
    ensures var rest := WaitingOf(Deployed(t, finished, b, retried, applied, nextApplied), b);
      rest == WaitingOf(t, b) || (WaitingOf(t, b) != [] && rest == WaitingOf(t, b)[1..])
  {
    hide Inv, Waits;
  }

  lemma EventServes(s: Sweeps, benchmark: string, first: set<string>, jobs: seq<Instance>, k: nat, e: Event)
    returns (k': nat)
    requires SweepsInv(s) && Allowed(s, e) && Served(s, benchmark, first, jobs, k)
    requires e.Completes? || e.benchmark != benchmark
    ensures k <= k' && Served(After(s, e), benchmark, first, jobs, k')
  {
    if e.benchmark == benchmark {
      k' := CompletionServes(s, benchmark, first, jobs, k, e);
    } else {
      k' := k;
      OthersKeptBy(s, e);
      hide SweepsInv, Allowed, After;
      OtherServes(s, After(s, e), e.benchmark, benchmark, first, jobs, k);
    }
  }

  /** What an event does to other benchmarks than its own: nothing. */
  lemma OthersKeptBy(s: Sweeps, e: Event)
    requires SweepsInv(s) && Allowed(s, e)
    ensures OthersKept(s.book, After(s, e).book, e.benchmark)
    ensures forall pair: (string, string) :: pair.0 != e.benchmark ==> (pair in After(s, e).tried <==> pair in s.tried)
  {
    match e
    case Subscribes(b, first, jobs, dr, opts) =>
      SubscribeKeepsInv(s.book, b, jobs, dr, opts);
      hide Inv, Subscribed, Waits, OthersKept;
    case Unsubscribes(b) =>
      UnsubscribeKeepsInv(s.book, b);
      hide Inv, Unsubscribed, Waits, OthersKept;
    case Completes(finished, b, retried, applied, nextApplied) =>
      assert !Waits(s.book, (b, finished).1);
      DeployKeepsInv(s.book, finished, b, retried, applied, nextApplied);
      hide Inv, Deployed, Waits, OthersKept;
  }

  lemma OtherServes(s: Sweeps, s': Sweeps, other: string, benchmark: string, first: set<string>, jobs: seq<Instance>,
                    k: nat)
    requires OthersKept(s.book, s'.book, other) && other != benchmark && Served(s, benchmark, first, jobs, k)
    requires forall pair: (string, string) :: pair.0 != other ==> (pair in s'.tried <==> pair in s.tried)
    ensures Served(s', benchmark, first, jobs, k)
  {
    forall name ensures (benchmark, name) in s'.tried <==> (benchmark, name) in s.tried {
      assert (benchmark, name).0 != other;
    }
  }

  /** A subscribed benchmark is served in the order of its list, whatever the other benchmarks do: after
      any history in which it is not unsubscribed, the jobs handed to CreateIfNotExists are a first part
      of the list, and the rest waits in its order. */
  lemma {:induction false} ServedInOrder(s: Sweeps, benchmark: string, first: set<string>, jobs: seq<Instance>, k: nat,
                                         events: seq<Event>) returns (k': nat)
    requires SweepsInv(s) && Served(s, benchmark, first, jobs, k) && History(s, events)
    requires forall i :: 0 <= i < |events| ==> events[i].Completes? || events[i].benchmark != benchmark
    ensures k <= k' && Served(Outcomes(s, events), benchmark, first, jobs, k')
    decreases |events|
  {
    hide SweepsInv, Allowed, After, Served;
    if events == [] {
      k' := k;
    } else {
      EventKeepsInv(s, events[0]);
      k' := EventServes(s, benchmark, first, jobs, k, events[0]);
      k' := ServedInOrder(After(s, events[0]), benchmark, first, jobs, k', events[1..]);
    }
  }

  /** A benchmark that was deleted can be created again with the same jobs: whatever its first life was,
      subscribing it anew under names that no other benchmark uses is allowed. */
  lemma SubscribeAgain(s: Sweeps, benchmark: string, first: set<string>, jobs: seq<Instance>, dr: Interface,
                       opts: set<string>)
    requires SweepsInv(s)
    requires forall i :: 0 <= i < |jobs| ==> jobs[i].name in opts && jobs[i].name !in first
    requires forall i, j :: 0 <= i < j < |jobs| ==> jobs[i].name != jobs[j].name
    requires forall b, i :: WaitsAt(s.book, b, i) && b != benchmark ==>
      s.book.waiting[b][i].name !in first && forall k :: 0 <= k < |jobs| ==> jobs[k].name != s.book.waiting[b][i].name
    requires forall pair :: pair in s.tried && pair.0 != benchmark ==>
      forall k :: 0 <= k < |jobs| ==> jobs[k].name != pair.1
    ensures Allowed(After(s, Unsubscribes(benchmark)), Subscribes(benchmark, first, jobs, dr, opts))
  {
    var s' := After(s, Unsubscribes(benchmark));
    UnsubscribeKeepsInv(s.book, benchmark);
    forall b, i | WaitsAt(s'.book, b, i)
      ensures b != benchmark && WaitsAt(s.book, b, i) && s'.book.waiting[b][i] == s.book.waiting[b][i]
    {
    }
    hide Unsubscribed;
  }

  lemma TablesInOrder(events: seq<Event>)
    requires History(NO_SWEEPS, events)
    ensures Inv(Outcomes(NO_SWEEPS, events).book)
  {
    HistoryKeepsInv(NO_SWEEPS, events);
  }

  // ---------------------------------------------------------------- the tracker in place

  function Lookup(dr: map<string, Interface>, benchmark: string): Option<Interface> {
    if benchmark in dr then Some(dr[benchmark]) else None
  }

  class JobTracker {
    var subscribers: seq<string>
    var waitingJobMap: map<string, seq<Instance>>
    var drMap: map<string, Interface>
    var jobOptMap: map<string, BaysesOptimizer>
    var bestPodNameMap: map<string, nat>   // run number r stands for the pod of a job's r-th run

    function View(): Book
      reads this
    {
      Book(subscribers, waitingJobMap, drMap, jobOptMap.Keys)
    }

    constructor ()
      ensures View() == NO_SWEEPS.book
    {
      subscribers, waitingJobMap, drMap, jobOptMap, bestPodNameMap := [], map[], map[], map[], map[];
    }

    method IndexOf(benchmark: string) returns (index: nat)
      ensures index == FirstIndex(subscribers, benchmark)
    {
      index := 0;
      while index < |subscribers| && subscribers[index] != benchmark
        invariant index <= |subscribers| && forall k :: 0 <= k < index ==> subscribers[k] != benchmark
      {
        index := index + 1;
      }
    }

    method IsExist(benchmark: string) returns (exist: bool)
      ensures exist <==> benchmark in subscribers
    {
      var index := IndexOf(benchmark);
      return index < |subscribers|;
    }

    method Subscribe(benchmark: string, waitingJob: seq<Instance>, dr: Interface, optMap: map<string, BaysesOptimizer>)
      modifies this
      ensures View() == Subscribed(old(View()), benchmark, waitingJob, dr, optMap.Keys)
      ensures jobOptMap == if benchmark in old(subscribers) || waitingJob == [] then old(jobOptMap)
        else old(jobOptMap) + optMap
    {
      var index := IndexOf(benchmark);
      if index == |subscribers| {
        subscribers := subscribers + [benchmark];
        if |waitingJob| > 0 {
          waitingJobMap, drMap := waitingJobMap[benchmark := waitingJob], drMap[benchmark := dr];
          jobOptMap := jobOptMap + optMap;
        }
      }
    }

    method Unsubscribe(benchmark: string)
      modifies this
      ensures View() == Unsubscribed(old(View()), benchmark) && jobOptMap == old(jobOptMap)
    {
      var index := IndexOf(benchmark);
      if index < |subscribers| {
        ghost var was := subscribers;
        assert index == |was| - 1 ==> was[..index] + was[index + 1..] == was[..index];
        assert index == 0 ==> was[..index] + was[index + 1..] == was[1..];
        if index == |subscribers| - 1 {
          subscribers := if |subscribers| == 1 then [] else subscribers[..index];
        } else if index == 0 {
          subscribers := subscribers[index + 1..];
        } else {
          subscribers := subscribers[..index] + subscribers[index + 1..];
        }
        assert subscribers == was[..index] + was[index + 1..];
        if benchmark in waitingJobMap {
          waitingJobMap, drMap := waitingJobMap - {benchmark}, drMap - {benchmark};
        }
      }
    }

    /** What the tracker keeps under one job's name. */
    ghost function CellOf(jobName: string, runs: seq<real>): Protocol.Cell
      reads this, jobOptMap.Values
    {
      Protocol.Cell(if jobName in jobOptMap then NEW_OPT.(b := jobOptMap[jobName].View()) else NEW_OPT,
                    jobName in jobOptMap,
                    if jobName in bestPodNameMap then Some(bestPodNameMap[jobName]) else None,
                    Protocol.Complete, [], runs)
    }

    /** The state part of ProcessJobQueue for a job's newest run: the value goes to the optimizer, the
        better of this run and the recorded one is kept, and is published if there is no optimizer
        or it has applied its final profile. */
    method ProcessResult(jobName: string, runs: seq<real>, minimize: bool) returns (published: bool, run: nat)
      requires runs != [] && (jobName in bestPodNameMap ==> bestPodNameMap[jobName] < |runs|)
      requires jobName in jobOptMap ==> jobOptMap[jobName].finalizedReady || CanSend(jobOptMap[jobName].resultQueue)
      modifies this`bestPodNameMap, jobOptMap.Values
      ensures var c := Protocol.Config([], {}, 0, minimize);
        Protocol.RecordCell(c, old(CellOf(jobName, runs)))
          == (old(CellOf(jobName, runs)).(best := CellOf(jobName, runs).best), run)
      ensures published <==> jobName !in jobOptMap || jobOptMap[jobName].finalizedApplied
      ensures jobName in jobOptMap ==>
        var was := old(jobOptMap[jobName].View());
        jobOptMap[jobName].View() == if was.finalizedReady then was else PostResult(was, runs[|runs| - 1])
      ensures bestPodNameMap - {jobName} == old(bestPodNameMap) - {jobName}
      ensures run < |runs| && (run == |runs| - 1 || (jobName in jobOptMap && run == old(bestPodNameMap)[jobName]))
      ensures var kept, value := runs[run], runs[|runs| - 1];
        jobName in jobOptMap && jobName in old(bestPodNameMap) ==>
          var best := runs[old(bestPodNameMap)[jobName]];
          if minimize then kept <= value && kept <= best && (kept < best || run == old(bestPodNameMap)[jobName])
          else value <= kept && best <= kept && (best < kept || run == old(bestPodNameMap)[jobName])
    {
      run := |runs| - 1;
      var value := runs[run];
      published := true;
      if jobName in jobOptMap {
        var nodeTunedOptimizer := jobOptMap[jobName];
        nodeTunedOptimizer.PutResult(value);
        if jobName in bestPodNameMap && !IsBetter(minimize, runs[bestPodNameMap[jobName]], value) {
          run := bestPodNameMap[jobName];
        } else {
          bestPodNameMap := bestPodNameMap[jobName := run];
        }
        published := nodeTunedOptimizer.finalizedApplied;
      }
      if published { bestPodNameMap := bestPodNameMap - {jobName}; }
    }

    /** The receive that creating this job may wait for can return. */
    predicate Ready(job: Instance)
      reads this, jobOptMap.Values
    {
      job.autoTuned && job.name in jobOptMap ==> CanReceive(jobOptMap[job.name].sampleQueue)
    }

    /** The first attempt of deployWaitingResource: to create the finished job again. */
    ghost function Attempt(finished: Instance, benchmark: string, w: World): Outcome
      requires finished.name in jobOptMap && Ready(finished)
      reads this, jobOptMap.Values
    {
      var opt := jobOptMap[finished.name];
      if opt.finalizedApplied then Outcome(w, opt.View(), true, false)
      else TryCreate(w, Lookup(drMap, benchmark), finished, opt.View())
    }

    method DeployWaitingResource(finished: Instance, benchmark: string, cluster: Cluster) returns (retried: bool)
      requires Ready(finished) && (NextOf(View(), benchmark).Some? ==> Ready(NextOf(View(), benchmark).value))
      requires benchmark in waitingJobMap ==> waitingJobMap[benchmark] != []
      modifies this, cluster, jobOptMap.Values
      ensures finished.name !in old(jobOptMap)
        ==> !retried && View() == old(View()) && cluster.View() == old(cluster.View())
      ensures finished.name in old(jobOptMap) ==>
        var opt, first := old(jobOptMap[finished.name]), old(Attempt(finished, benchmark, cluster.View()));
        && retried == (!first.err && first.isNew)
        && jobOptMap == (if !retried && old(opt.finalizedApplied) then old(jobOptMap) - {finished.name}
                         else old(jobOptMap))
      ensures retried ==>
        var first := old(Attempt(finished, benchmark, cluster.View()));
        && cluster.View() == first.world && old(jobOptMap[finished.name]).View() == first.opt && View() == old(View())
      ensures finished.name in old(jobOptMap) && !retried ==>
        var opt, first := old(jobOptMap[finished.name]), old(Attempt(finished, benchmark, cluster.View()));
        var next := NextOf(old(View()).(opts := jobOptMap.Keys), benchmark);
        if next.None? then
          && cluster.View() == first.world
          && View() == Deployed(old(View()), finished.name, benchmark, false, old(opt.finalizedApplied), false)
        else
          var nextOpt := old(jobOptMap[next.value.name]);
          var second := TryCreate(first.world, Lookup(old(drMap), benchmark), next.value, old(nextOpt.View()));
          && cluster.View() == second.world && nextOpt.View() == second.opt
          && View() == Deployed(old(View()), finished.name, benchmark, false, old(opt.finalizedApplied),
                                nextOpt.finalizedApplied)
    {
      hide TryCreate, Popped;
      var dr := Lookup(drMap, benchmark);
      if finished.name !in jobOptMap { return false; }
      var nodeTunedOptimizer := jobOptMap[finished.name];
      if !nodeTunedOptimizer.finalizedApplied {
        FailedTryKeepsOptimizer(cluster.View(), dr, finished, nodeTunedOptimizer.View());
        var err, isNew := cluster.CreateIfNotExists(dr, finished, nodeTunedOptimizer);
        if !err && isNew { return true; }
      }
      retried := false;
      assert nodeTunedOptimizer.View() == old(nodeTunedOptimizer.View());
      if nodeTunedOptimizer.finalizedApplied {
        jobOptMap := jobOptMap - {finished.name};
      }
      TakeNext(benchmark, dr, cluster);
    }

    method TakeNext(benchmark: string, dr: Option<Interface>, cluster: Cluster)
      requires NextOf(View(), benchmark).Some? ==> Ready(NextOf(View(), benchmark).value)
      requires benchmark in waitingJobMap ==> waitingJobMap[benchmark] != []
      modifies this`waitingJobMap, this`drMap, cluster, jobOptMap.Values
      ensures var next := NextOf(old(View()), benchmark);
        if next.None? then
          cluster.View() == old(cluster.View()) && View() == Popped(old(View()), benchmark, false)
        else
          var nextOpt := jobOptMap[next.value.name];
          var made := TryCreate(old(cluster.View()), dr, next.value, old(nextOpt.View()));
          && cluster.View() == made.world && nextOpt.View() == made.opt
          && View() == Popped(old(View()), benchmark, nextOpt.finalizedApplied)
    {
      hide TryCreate;
      if benchmark in waitingJobMap {
        var nextInstance := waitingJobMap[benchmark][0];
        waitingJobMap := waitingJobMap[benchmark := waitingJobMap[benchmark][1..]];
        if nextInstance.name in jobOptMap {
          var nextOptimizer := jobOptMap[nextInstance.name];
          var err, isNew := cluster.CreateIfNotExists(dr, nextInstance, nextOptimizer);
          if waitingJobMap[benchmark] == [] {
            waitingJobMap := waitingJobMap - {benchmark};
            if nextOptimizer.finalizedApplied { drMap := drMap - {benchmark}; }
          }
        }
      } else {
        drMap := drMap - {benchmark};
      }
    }
  }
}
