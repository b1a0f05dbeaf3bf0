/** The bayesian optimizer of one auto-tuned job (controllers/bayesopt.go): its shared
    fields, its two Go channels, and the goroutine that runs AutoTune. */
module Optimizer {
  import opened Wrappers

  type Profile = string

  /** A Go channel: what is buffered, and whether it was closed. */
  datatype Chan<T> = Chan(buf: seq<T>, closed: bool)

  const TUNED_MAX_QSIZE: nat := 100

  predicate CanSend<T>(c: Chan<T>) {
    c.closed || |c.buf| < TUNED_MAX_QSIZE   // sending on a closed channel does not block, it panics
  }

  predicate CanReceive<T>(c: Chan<T>) {
    c.closed || c.buf != []
  }

  /** The struct BaysesOptimizer. `crashed` records a Go panic: a send on a closed channel
      or a second close. */
  datatype Shared = Shared(
    sampleQueue: Chan<Profile>,
    resultQueue: Chan<real>,
    autoTuned: bool,
    finalizedReady: bool,
    finalizedApplied: bool,
    finalizedTunedProfile: Option<Profile>,
    samplingCount: nat,
    crashed: bool)

  const FRESH: Shared :=
    Shared(Chan([], false), Chan([], false), false, false, false, None, 0, false)

  function CloseSamples(b: Shared): Shared {
    b.(sampleQueue := b.sampleQueue.(closed := true), crashed := b.crashed || b.sampleQueue.closed)
  }

  function CloseResults(b: Shared): Shared {
    b.(resultQueue := b.resultQueue.(closed := true), crashed := b.crashed || b.resultQueue.closed)
  }

  function Finalize(b: Shared): Shared {
    if b.finalizedReady then b else CloseResults(CloseSamples(b.(finalizedReady := true)))
  }

  function SetFinalizedApplied(b: Shared): Shared {
    Finalize(b).(finalizedApplied := true)
  }

  function PostSample(b: Shared, p: Profile): Shared {
    if b.sampleQueue.closed then b.(crashed := true)
    else b.(sampleQueue := b.sampleQueue.(buf := b.sampleQueue.buf + [p]))
  }

  function PostResult(b: Shared, v: real): Shared {
    if b.resultQueue.closed then b.(crashed := true)
    else b.(resultQueue := b.resultQueue.(buf := b.resultQueue.buf + [v]))
  }

  /** What a created job runs under. */
  datatype Use = Untuned | Sampled(profile: Profile) | Final(tuned: Option<Profile>)

  /** The receive inside CreateIfNotExists, with the branch that finds the queue closed. */
  function TakeSample(b: Shared): (Shared, Option<Use>)
    requires CanReceive(b.sampleQueue)
  {
    if b.sampleQueue.buf != [] then
      (b.(sampleQueue := b.sampleQueue.(buf := b.sampleQueue.buf[1..])), Some(Sampled(b.sampleQueue.buf[0])))
    else if b.finalizedApplied then (b, None)   // "no more sample"
    else (SetFinalizedApplied(b), Some(Final(b.finalizedTunedProfile)))
  }

  /** Flag and queues of an optimizer on which no one is in the middle of finalizing. */
  predicate Settled(b: Shared) {
    !b.crashed && b.finalizedReady == b.sampleQueue.closed == b.resultQueue.closed
  }

  /** Finalizing closes both queues without losing what they hold, panics for no order of calls, and a
      second call changes nothing. */
  lemma FinalizeOnce(b: Shared)
    requires Settled(b)
    ensures Settled(Finalize(b)) && Finalize(b).finalizedReady && Finalize(Finalize(b)) == Finalize(b)
    ensures Finalize(b).sampleQueue.buf == b.sampleQueue.buf && Finalize(b).resultQueue.buf == b.resultQueue.buf
    ensures SetFinalizedApplied(Finalize(b)) == Finalize(SetFinalizedApplied(b))
      == SetFinalizedApplied(SetFinalizedApplied(b))
    ensures SetFinalizedApplied(b).finalizedApplied && Finalize(b).finalizedApplied == b.finalizedApplied
  {
  }

  /** Receiving until nothing comes any more: the samples that are left, in order, and then the final
      profile unless it was applied before. */
  function Drain(b: Shared): seq<Use>
    requires b.sampleQueue.closed
    decreases |b.sampleQueue.buf|, if b.finalizedApplied then 0 else 1
  {
    var (b', use) := TakeSample(b);
    if use.None? then [] else [use.value] + Drain(b')
  }

  function AsUses(samples: seq<Profile>): seq<Use> {
    seq(|samples|, i requires 0 <= i < |samples| => Sampled(samples[i]))
  }

  lemma {:induction false} FinalProfileOnce(b: Shared)
    requires b.sampleQueue.closed
    ensures Drain(b) == AsUses(b.sampleQueue.buf) + if b.finalizedApplied then [] else [Final(b.finalizedTunedProfile)]
    decreases |b.sampleQueue.buf|, if b.finalizedApplied then 0 else 1
  {
    var samples, last := b.sampleQueue.buf, if b.finalizedApplied then [] else [Final(b.finalizedTunedProfile)];
    if samples != [] {
      FinalProfileOnce(TakeSample(b).0);
      assert Drain(b) == [Sampled(samples[0])] + (AsUses(samples[1..]) + last);
      hide Drain;
      assert AsUses(samples) == [Sampled(samples[0])] + AsUses(samples[1..]);
    } else {
      assert AsUses(samples) == [];
      if !b.finalizedApplied {
        var applied := SetFinalizedApplied(b);
        assert TakeSample(b) == (applied, Some(Final(b.finalizedTunedProfile)))
          && TakeSample(applied) == (applied, None);
        assert Drain(applied) == [] && Drain(b) == [Final(b.finalizedTunedProfile)] + Drain(applied);
        hide Drain;
      }
    }
  }

  /** The sample queue is first in, first out: one more sample comes out behind those already queued, and
      before the final profile. */
  lemma PostedComesOutLast(b: Shared, p: Profile)
    requires !b.sampleQueue.closed && !b.finalizedApplied
    ensures Drain(CloseSamples(PostSample(b, p)))
      == AsUses(b.sampleQueue.buf) + [Sampled(p)] + [Final(b.finalizedTunedProfile)]
  {
    var samples := b.sampleQueue.buf;
    FinalProfileOnce(CloseSamples(PostSample(b, p)));
    hide Drain;
    assert AsUses(samples + [p]) == AsUses(samples) + [Sampled(p)];
  }

  /** What Go panics at, and nothing else, is recorded, and then nothing goes through: a send on a closed
      queue, and closing it again. A panic stays recorded whatever comes after it. */
  lemma PanicsAreRecorded(b: Shared, p: Profile, v: real)
    ensures CloseSamples(b).crashed <==> b.crashed || b.sampleQueue.closed
    ensures CloseResults(b).crashed <==> b.crashed || b.resultQueue.closed
    ensures PostSample(b, p).crashed <==> b.crashed || b.sampleQueue.closed
    ensures PostResult(b, v).crashed <==> b.crashed || b.resultQueue.closed
    ensures b.sampleQueue.closed ==> PostSample(b, p) == b.(crashed := true)
    ensures b.resultQueue.closed ==> PostResult(b, v) == b.(crashed := true)
    ensures b.crashed ==> Finalize(b).crashed && SetFinalizedApplied(b).crashed
  {
  }

  /** A goroutine hears the results in the order they were sent, and, on an empty closed queue, zero. */
  lemma HeardInOrder(o: Opt, v: real, rounds: nat)
    requires o.pc.Waiting?
    ensures var sent := o.(b := PostResult(o.b, v));
      !o.b.resultQueue.closed ==>
        && OptEnabled(sent, rounds, Hear)
        && var heard := OptApply(sent, Hear);
        heard.heard + heard.b.resultQueue.buf == o.heard + (o.b.resultQueue.buf + [v])
    ensures o.b.resultQueue == Chan([], true) ==> OptApply(o, Hear).heard == o.heard + [0.0]
  {
  }

  /** Where the AutoTune goroutine stands. The objective is called between Computing and
      Waiting; the remaining points are the assignments of AutoTune and Finalize, one by one. */
  datatype Pc = NotStarted | Computing | Posted | Waiting | ProfileSet | MarkedReady | SamplesClosed | Stopped

  /** An optimizer with its goroutine and the history of what went through its channels. */
  datatype Opt = Opt(
    b: Shared,
    pc: Pc,
    calls: nat,            // objective calls so far
    posted: seq<Profile>,  // every profile ever sent on the sample queue
    taken: nat,            // how many of them were received
    reported: seq<real>,   // every value ever sent on the result queue
    heard: seq<real>)      // every value the goroutine received

  const NEW_OPT: Opt := Opt(FRESH, NotStarted, 0, [], 0, [], [])

  /** The optimizer of a job that is not auto-tuned: finalized by CreateFromOperator, no goroutine. */
  const UNTUNED_OPT: Opt := NEW_OPT.(b := SetFinalizedApplied(FRESH))

  datatype OptStep =
    | Start
    | RejectSample          // the objective is called with a sample outside the search space
    | Post(p: Profile)      // the objective sends a validated sample
    | Count                 // SamplingCount = SamplingCount + 1
    | Hear                  // the objective receives its result
    | SetProfile(p: Profile)
    | TestReady
    | CloseS
    | CloseR

  predicate OptEnabled(o: Opt, rounds: nat, step: OptStep) {
    match step
    case Start => o.pc.NotStarted?
    case RejectSample => o.pc.Computing? && o.calls < rounds
    case Post(_) => o.pc.Computing? && o.calls < rounds && CanSend(o.b.sampleQueue)
    case Count => o.pc.Posted?
    case Hear => o.pc.Waiting? && CanReceive(o.b.resultQueue)
    case SetProfile(_) => o.pc.Computing?
    case TestReady => o.pc.ProfileSet?
    case CloseS => o.pc.MarkedReady?
    case CloseR => o.pc.SamplesClosed?
  }

  function OptApply(o: Opt, step: OptStep): Opt {
    match step
    case Start => o.(b := o.b.(autoTuned := true), pc := Computing)
    case RejectSample => o.(calls := o.calls + 1)
    case Post(p) => o.(b := PostSample(o.b, p), pc := Posted, calls := o.calls + 1, posted := o.posted + [p])
    case Count => o.(b := o.b.(samplingCount := o.b.samplingCount + 1), pc := Waiting)
    case Hear =>
      if o.b.resultQueue.buf == [] then o.(pc := Computing, heard := o.heard + [0.0])   // closed: zero value
      else o.(b := o.b.(resultQueue := o.b.resultQueue.(buf := o.b.resultQueue.buf[1..])), pc := Computing,
              heard := o.heard + [o.b.resultQueue.buf[0]])
    case SetProfile(p) => o.(b := o.b.(finalizedTunedProfile := Some(p)), pc := ProfileSet)
    case TestReady => if o.b.finalizedReady then o.(pc := Stopped)
                      else o.(b := o.b.(finalizedReady := true), pc := MarkedReady)
    case CloseS => o.(b := CloseSamples(o.b), pc := SamplesClosed)
    case CloseR => o.(b := CloseResults(o.b), pc := Stopped)
  }

  /** What holds of every auto-tuned optimizer at every moment of every run. */
  ghost predicate OptInv(o: Opt, rounds: nat) {
    && !o.b.crashed
    && o.taken <= |o.posted| <= o.calls <= rounds
    && o.b.sampleQueue.buf == o.posted[o.taken..]
    && o.heard + o.b.resultQueue.buf == o.reported
    && |o.heard| <= |o.reported| <= o.taken
    && |o.posted| == |o.heard| + (if o.pc.Posted? || o.pc.Waiting? then 1 else 0)
    && o.b.samplingCount + (if o.pc.Posted? then 1 else 0) == |o.posted|
    && (o.b.autoTuned <==> !o.pc.NotStarted?)
    && (o.pc.NotStarted? ==> o.calls == 0)
    && (o.b.finalizedTunedProfile.Some? <==> o.pc.ProfileSet? || o.b.finalizedReady)
    && (o.b.finalizedReady <==> o.pc.MarkedReady? || o.b.sampleQueue.closed)
    && (o.b.sampleQueue.closed <==> o.pc.SamplesClosed? || o.b.resultQueue.closed)
    && (o.b.resultQueue.closed <==> o.pc.Stopped?)
    && (o.b.finalizedApplied ==> o.b.sampleQueue.closed)
  }

  lemma OptStepKeepsInv(o: Opt, rounds: nat, step: OptStep)
    requires OptInv(o, rounds) && OptEnabled(o, rounds, step)
    ensures OptInv(OptApply(o, step), rounds)
    ensures OptApply(o, step).reported == o.reported && OptApply(o, step).taken == o.taken
    ensures OptApply(o, step).b.finalizedApplied == o.b.finalizedApplied
    ensures o.posted <= OptApply(o, step).posted
    ensures o.b.finalizedApplied ==> OptApply(o, step).b.finalizedTunedProfile == o.b.finalizedTunedProfile
  {
    var o' := OptApply(o, step);
    match step
    case Post(p) => assert o'.posted[o'.taken..] == o.posted[o.taken..] + [p];
    case Hear => assert o.b.resultQueue.buf != [];
                 assert o'.heard + o'.b.resultQueue.buf == o.heard + o.b.resultQueue.buf;
    case _ =>
  }

  /** The tracker's receive, seen from the optimizer. */
  lemma TakingKeepsOptInv(o: Opt, rounds: nat)
    requires OptInv(o, rounds) && CanReceive(o.b.sampleQueue)
    ensures var (b, use) := TakeSample(o.b);
      OptInv(o.(b := b, taken := if use.Some? && use.value.Sampled? then o.taken + 1 else o.taken), rounds)
  {
    if o.b.sampleQueue.buf != [] {
      assert o.posted[o.taken..][1..] == o.posted[o.taken + 1..];
    }
  }

  /** Sending a result for the run that the optimizer waits for. */
  lemma ReportingKeepsOptInv(o: Opt, rounds: nat, v: real)
    requires OptInv(o, rounds) && !o.b.resultQueue.closed && |o.reported| < o.taken
    ensures OptInv(o.(b := PostResult(o.b, v), reported := o.reported + [v]), rounds)
  {
    assert o.heard + (o.b.resultQueue.buf + [v]) == o.reported + [v];
  }

  /** The oldest sample that was not taken is the next one posted. */
  lemma NextSample(o: Opt, rounds: nat)
    requires OptInv(o, rounds) && o.b.sampleQueue.buf != []
    ensures o.taken < |o.posted| && o.b.sampleQueue.buf[0] == o.posted[o.taken]
  {
  }
}
