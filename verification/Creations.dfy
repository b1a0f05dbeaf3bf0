/** Every creation of one job: what it runs under, over any history of attempts by CreateIfNotExists,
    completions of the job, and whatever its optimizer does meanwhile (controllers/common.go,
    controllers/bayesopt.go). */
module Creations {
  import opened Wrappers
  import opened Optimizer
  import opened Tracker

  /** What the goroutine and the tracker may do to an optimizer between two attempts: samples are only
      added, and nothing is added, and the final profile stays, once the sample queue is closed. */
  predicate Evolves(b: Shared, b': Shared) {
    && b.sampleQueue.buf <= b'.sampleQueue.buf
    && (b.sampleQueue.closed ==> b'.sampleQueue == b.sampleQueue && b'.finalizedTunedProfile == b.finalizedTunedProfile)
    && b'.finalizedApplied == b.finalizedApplied
  }

  lemma StepEvolves(o: Opt, rounds: nat, step: OptStep)
    requires OptInv(o, rounds) && OptEnabled(o, rounds, step)
    ensures Evolves(o.b, OptApply(o, step).b)
  {
    OptStepKeepsInv(o, rounds, step);
  }

  lemma ResultEvolves(b: Shared, v: real)
    ensures Evolves(b, PostResult(b, v))
  {
  }

  /** The cluster and one job's optimizer; `posted` are all samples its queue ever held. */
  datatype Life = Life(world: World, opt: Shared, posted: seq<Profile>)

  datatype Moment = Changes(b: Shared) | Completes | Tries

  predicate May(l: Life, dr: Interface, job: Instance, m: Moment) {
    match m
    case Changes(b) => Evolves(l.opt, b)
    case Completes => job.name in l.world.complete
    case Tries => Receives(l.world, Some(dr), job) ==> CanReceive(l.opt.sampleQueue)
  }

  function After(l: Life, dr: Interface, job: Instance, m: Moment): Life
    requires May(l, dr, job, m)
  {
    match m
    case Changes(b) => Life(l.world, b, l.posted + b.sampleQueue.buf[|l.opt.sampleQueue.buf|..])
    case Completes => l.(world := l.world.(complete := l.world.complete[job.name := true]))
    case Tries => var made := TryCreate(l.world, Some(dr), job, l.opt); l.(world := made.world, opt := made.opt)
  }

  /** The life after a history, or None if something in it was not possible. */
  function Lives(l: Life, dr: Interface, job: Instance, history: seq<Moment>): Option<Life>
    decreases |history|
  {
    if history == [] then Some(l)
    else if !May(l, dr, job, history[0]) then None
    else Lives(After(l, dr, job, history[0]), dr, job, history[1..])
  }

  function CreatedUnder(dr: Interface, name: string, uses: seq<Use>): (created: seq<Creation>)
    ensures |created| == |uses| && forall i :: 0 <= i < |created| ==> created[i] == Creation(dr, name, uses[i])
  {
    seq(|uses|, i requires 0 <= i < |uses| => Creation(dr, name, uses[i]))
  }

  // ---------------------------------------------------------------- an auto-tuned job

  /** The creations so far are the samples taken, in order, and the final profile if it was applied. */
  ghost predicate InOrder(l: Life, dr: Interface, name: string) {
    && |l.opt.sampleQueue.buf| <= |l.posted|
    && var taken := |l.posted| - |l.opt.sampleQueue.buf|;
    && l.opt.sampleQueue.buf == l.posted[taken..]
    && l.world.created == CreatedUnder(dr, name, AsUses(l.posted[..taken]) + FinalUse(l.opt))
    && (l.opt.finalizedApplied ==> l.opt.sampleQueue == Chan([], true))
  }

  function FinalUse(b: Shared): seq<Use> {
    if b.finalizedApplied then [Final(b.finalizedTunedProfile)] else []
  }

  lemma ChangeKeepsOrder(l: Life, dr: Interface, name: string, b: Shared)
    requires InOrder(l, dr, name) && Evolves(l.opt, b)
    ensures InOrder(Life(l.world, b, l.posted + b.sampleQueue.buf[|l.opt.sampleQueue.buf|..]), dr, name)
  {
    var kept, more := l.opt.sampleQueue.buf, b.sampleQueue.buf[|l.opt.sampleQueue.buf|..];
    var taken := |l.posted| - |kept|;
    assert b.sampleQueue.buf == kept + more;
    assert (l.posted + more)[taken..] == l.posted[taken..] + more && (l.posted + more)[..taken] == l.posted[..taken];
    if l.opt.sampleQueue.closed { assert more == []; }
    hide CreatedUnder, AsUses;
  }

  lemma TryKeepsOrder(l: Life, dr: Interface, job: Instance)
    requires InOrder(l, dr, job.name) && job.autoTuned && job.name !in l.world.done && May(l, dr, job, Tries)
    ensures var l' := After(l, dr, job, Tries); InOrder(l', dr, job.name) && l'.world.done == l.world.done
  {
    Tried(l.world, dr, job, l.opt);
    hide TryCreate, Receives, InOrder, TakeSample, Create;
    var l' := After(l, dr, job, Tries);
    if l'.world.created == l.world.created {
      SameOrder(l, l'.world, dr, job.name);
    } else if l.opt.sampleQueue.buf != [] {
      SampleKeepsOrder(l, l', dr, job.name);
    } else {
      FinalKeepsOrder(l, l', dr, job.name);
    }
  }

  /** What an attempt on an auto-tuned job does to what was created and to the optimizer. */
  lemma Tried(w: World, dr: Interface, job: Instance, opt: Shared)
    requires job.autoTuned && job.name !in w.done && (Receives(w, Some(dr), job) ==> CanReceive(opt.sampleQueue))
    ensures var made := TryCreate(w, Some(dr), job, opt);
      && made.world.done == w.done
      && (made.world.created == w.created ==> made.opt == opt)
      && (made.world.created != w.created ==>
            if opt.sampleQueue.buf != [] then
              && made.opt == opt.(sampleQueue := opt.sampleQueue.(buf := opt.sampleQueue.buf[1..]))
              && made.world.created == w.created + [Creation(dr, job.name, Sampled(opt.sampleQueue.buf[0]))]
            else
              && opt.sampleQueue == Chan([], true) && !opt.finalizedApplied && made.opt.finalizedApplied
              && made.opt.sampleQueue == opt.sampleQueue
              && made.opt.finalizedTunedProfile == opt.finalizedTunedProfile
              && made.world.created == w.created + [Creation(dr, job.name, Final(opt.finalizedTunedProfile))])
  {
  }

  lemma SameOrder(l: Life, world: World, dr: Interface, name: string)
    requires InOrder(l, dr, name) && world.created == l.world.created
    ensures InOrder(l.(world := world), dr, name)
  {
  }

  lemma SampleKeepsOrder(l: Life, l': Life, dr: Interface, name: string)
    requires InOrder(l, dr, name) && l.opt.sampleQueue.buf != [] && l'.posted == l.posted
    requires l'.opt == l.opt.(sampleQueue := l.opt.sampleQueue.(buf := l.opt.sampleQueue.buf[1..]))
    requires l'.world.created == l.world.created + [Creation(dr, name, Sampled(l.opt.sampleQueue.buf[0]))]
    ensures InOrder(l', dr, name)
  {
    var taken, p := |l.posted| - |l.opt.sampleQueue.buf|, l.opt.sampleQueue.buf[0];
    assert p == l.posted[taken] && l.posted[taken..][1..] == l.posted[taken + 1..];
    assert AsUses(l.posted[..taken + 1]) == AsUses(l.posted[..taken]) + [Sampled(p)];
    hide CreatedUnder, AsUses;
    OneMore(dr, name, AsUses(l.posted[..taken]), Sampled(p));
  }

  lemma FinalKeepsOrder(l: Life, l': Life, dr: Interface, name: string)
    requires InOrder(l, dr, name) && l.opt.sampleQueue == Chan([], true) && !l.opt.finalizedApplied
    requires l'.posted == l.posted && l'.opt.sampleQueue == l.opt.sampleQueue && l'.opt.finalizedApplied
    requires l'.opt.finalizedTunedProfile == l.opt.finalizedTunedProfile
    requires l'.world.created == l.world.created + [Creation(dr, name, Final(l.opt.finalizedTunedProfile))]
    ensures InOrder(l', dr, name)
  {
    hide CreatedUnder, AsUses;
    OneMore(dr, name, AsUses(l.posted[..|l.posted|]), Final(l.opt.finalizedTunedProfile));
  }

  lemma OneMore(dr: Interface, name: string, uses: seq<Use>, use: Use)
    ensures CreatedUnder(dr, name, uses + [use]) == CreatedUnder(dr, name, uses) + [Creation(dr, name, use)]
    ensures uses + [] == uses
  {
  }

  /** Over every history of an auto-tuned job without a result: it is created under the samples ever
      posted, each once and in order, as far as they were taken, and then, when the queue is closed and
      empty, under the final profile, once and last. */
  lemma {:induction false} UsesInOrder(l: Life, dr: Interface, job: Instance, history: seq<Moment>)
    requires job.autoTuned && job.name !in l.world.done && InOrder(l, dr, job.name)
    requires Lives(l, dr, job, history).Some?
    ensures InOrder(Lives(l, dr, job, history).value, dr, job.name)
    decreases |history|
  {
    hide InOrder, TryCreate, Receives, Evolves;
    if history != [] {
      match history[0] {
        case Changes(b) => ChangeKeepsOrder(l, dr, job.name, b);
        case Completes => CompletionKeepsOrder(l, dr, job.name);
        case Tries => TryKeepsOrder(l, dr, job);
      }
      UsesInOrder(After(l, dr, job, history[0]), dr, job, history[1..]);
    }
  }

  lemma CompletionKeepsOrder(l: Life, dr: Interface, name: string)
    requires InOrder(l, dr, name)
    ensures InOrder(l.(world := l.world.(complete := l.world.complete[name := true])), dr, name)
  {
  }

  /** ... from its start: a fresh optimizer and nothing created. */
  lemma CreatedUnderSamples(world: World, dr: Interface, job: Instance, history: seq<Moment>)
    requires job.autoTuned && job.name !in world.done && world.created == []
    requires Lives(Life(world, FRESH, []), dr, job, history).Some?
    ensures var l := Lives(Life(world, FRESH, []), dr, job, history).value;
      && |l.opt.sampleQueue.buf| <= |l.posted|
      && l.world.created == CreatedUnder(dr, job.name,
           AsUses(l.posted[..|l.posted| - |l.opt.sampleQueue.buf|])
           + if l.opt.finalizedApplied then [Final(l.opt.finalizedTunedProfile)] else [])
  {
    var none: seq<Profile> := [];
    assert none[..0] == [] && AsUses(none[..0]) + FinalUse(FRESH) == [];
    assert InOrder(Life(world, FRESH, []), dr, job.name);
    UsesInOrder(Life(world, FRESH, []), dr, job, history);
  }

  // ---------------------------------------------------------------- any other job

  /** A job without tuning that is not there yet is created at the first attempt and never again. */
  lemma {:induction false} CreatedAtMostOnce(l: Life, dr: Interface, job: Instance, history: seq<Moment>)
    requires !job.autoTuned && job.name !in l.world.done && Lives(l, dr, job, history).Some?
    ensures var world, tried := Lives(l, dr, job, history).value.world, Tries in history;
      && world.created == l.world.created
           + (if tried && job.name !in l.world.complete then [Creation(dr, job.name, Untuned)] else [])
      && (job.name in world.complete <==> tried || job.name in l.world.complete)
    decreases |history|
  {
    if history != [] {
      assert history == [history[0]] + history[1..];
      CreatedAtMostOnce(After(l, dr, job, history[0]), dr, job, history[1..]);
    }
  }
}
