/**
 The stream's own `started` flag beside the start/stop worker. A STOP trigger clears
 it before its request is recorded; the worker clears it before every command, and
 sets it again before it sends a START.
 */
module StartedFlag {
  import opened IoWorker

  /** How far the worker is with the flag for the command it has decided on. */
  datatype Stage = Untouched | Lowered | Raised

  datatype Play = Play(
    io: Stream,
    started: bool,
    clearing: nat,   // STOP triggers that have cleared the flag and not yet recorded their request
    stage: Stage)

  datatype PlayStep =
    | Clear                   // a STOP trigger begins
    | AskStop                 // and records its request
    | AskStart                // a START trigger records its request
    | Lower
    | Raise
    | Done(ok: bool)
    | Other(step: Step)       // queueing, running, comparing

  ghost predicate PlayEnabled(p: Play, step: PlayStep) {
    match step
    case Clear => true
    case AskStop => p.clearing > 0
    case AskStart => true
    case Lower => p.io.worker.Sent? && p.stage == Untouched
    case Raise => p.io.worker.Sent? && p.io.worker.requested && p.stage == Lowered
    case Done(ok) =>
      // a START without a buffer fails before the flag is set
      p.io.worker.Sent? && if p.io.worker.requested && ok then p.stage == Raised else p.stage != Untouched
    case Other(s) => (s.QueueWork? || s.RunWork? || s.Compare?) && Enabled(p.io, s)
  }

  function PlayNext(p: Play, step: PlayStep): Play
    requires PlayEnabled(p, step)
  {
    match step
    case Clear => p.(started := false, clearing := p.clearing + 1)
    case AskStop => p.(io := Next(p.io, Request(false)), clearing := p.clearing - 1)
    case AskStart => p.(io := Next(p.io, Request(true)))
    case Lower => p.(started := false, stage := Lowered)
    case Raise => p.(started := true, stage := Raised)
    case Done(ok) => p.(io := Next(p.io, Finish(ok)), started := p.started && ok, stage := Untouched)
    case Other(s) => p.(io := Next(p.io, s), stage := if s.Compare? then Untouched else p.stage)
  }

  const SILENT: Play := Play(START, false, 0, Untouched)

  /** No trigger and no work is under way. */
  predicate Settled(p: Play) {
    Quiet(p.io) && p.clearing == 0
  }

  predicate Agrees(p: Play) {
    p.started <==> p.io.remote == StartedIo
  }

  /** The device runs, or is about to, while the flag says it does not. */
  predicate Unheard(p: Play) {
    && !p.started
    && (|| (p.io.worker.Sent? && p.io.worker.requested && p.stage == Raised)
        || (p.io.remote == StartedIo && !p.io.worker.Sent?))
  }

  /** That is so for good when a START is requested now. */
  predicate Lost(p: Play) {
    Unheard(p) && p.clearing == 0
  }

  /** Runs in which no START is requested at a moment when the flag would be lost. */
  ghost predicate HeardRuns(p: Play, steps: seq<PlayStep>, r: Play)
    decreases |steps|
  {
    if steps == [] then p == r
    else PlayEnabled(p, steps[0]) && (steps[0].AskStart? ==> !Lost(p)) && HeardRuns(PlayNext(p, steps[0]), steps[1..], r)
  }

  ghost predicate PlayInv(p: Play) {
    && Inv(p.io)
    && (p.started ==> p.io.remote == StartedIo || (p.io.worker.Sent? && p.io.worker.requested && p.stage == Raised))
    && (p.io.worker.Sent? && !p.io.worker.requested ==> p.stage != Raised && (p.stage == Lowered ==> !p.started))
    && (Unheard(p) ==> p.clearing > 0 || !p.io.requested)
  }

  lemma PlayNextInv(p: Play, step: PlayStep)
    requires PlayInv(p) && PlayEnabled(p, step) && (step.AskStart? ==> !Lost(p))
    ensures PlayInv(PlayNext(p, step))
  {
    match step
    case AskStop => NextInv(p.io, Request(false));
    case AskStart => NextInv(p.io, Request(true));
    case Done(ok) => NextInv(p.io, Finish(ok));
    case Other(s) => NextInv(p.io, s);
    case _ =>
    hide Alternates;
  }

  lemma {:induction false} HeardInv(p: Play, steps: seq<PlayStep>, r: Play)
    requires PlayInv(p) && HeardRuns(p, steps, r)
    ensures PlayInv(r)
    decreases |steps|
  {
    hide PlayInv, PlayNext, PlayEnabled;
    if steps != [] {
      PlayNextInv(p, steps[0]);
      HeardInv(PlayNext(p, steps[0]), steps[1..], r);
    }
  }

  /** Over every such run, once nothing is under way the flag says exactly whether the device runs. */
  lemma FlagAgrees(steps: seq<PlayStep>, p: Play)
    requires HeardRuns(SILENT, steps, p) && Settled(p)
    ensures Agrees(p)
  {
    HeardInv(SILENT, steps, p);
  }

  /** Waiting for the worker before a START, as prepare does, is enough. */
  lemma PreparedIsHeard(steps: seq<PlayStep>, p: Play)
    requires HeardRuns(SILENT, steps, p) && Settled(p)
    ensures !Lost(p)
  {
    HeardInv(SILENT, steps, p);
  }

  // ------------------------------------------------------------------ the converse

  lemma {:induction false} HeardConcat(p: Play, a: seq<PlayStep>, q: Play, b: seq<PlayStep>, r: Play)
    requires HeardRuns(p, a, q) && HeardRuns(q, b, r)
    ensures HeardRuns(p, a + b, r)
    decreases |a|
  {
    hide PlayNext, PlayEnabled, Lost;
    if a == [] {
      assert a + b == b;
    } else {
      HeardConcat(PlayNext(p, a[0]), a[1..], q, b, r);
      assert (a + b)[1..] == a[1..] + b;
    }
  }

  lemma HeardOne(p: Play, step: PlayStep)
    requires PlayEnabled(p, step) && !step.AskStart?
    ensures HeardRuns(p, [step], PlayNext(p, step))
  {
    hide PlayNext, PlayEnabled, Lost;
    assert [step][1..] == [];
  }

  /** The device runs as requested and the worker has nothing to tell it, but the flag is down. */
  predicate Deaf(p: Play) {
    !p.started && p.clearing == 0 && p.io.requested && p.io.remote == StartedIo && !p.io.worker.Sent?
  }

  /** Letting the triggers and the worker finish does not help. */
  lemma {:induction false} StaysDeaf(p: Play) returns (steps: seq<PlayStep>, r: Play)
    requires Deaf(p)
    ensures HeardRuns(p, steps, r) && Settled(r) && !Agrees(r)
    decreases p.io.unqueued, if p.io.pending then 1 else 0, if p.io.worker == AtTop then 1 else 0
  {
    if Settled(p) {
      return [], p;
    }
    var step := if p.io.unqueued > 0 then Other(QueueWork) else if p.io.worker == AtTop then Other(Compare) else Other(RunWork);
    var q := PlayNext(p, step);
    assert Deaf(q);
    HeardOne(p, step);
    hide PlayNext, HeardRuns;
    steps, r := StaysDeaf(q);
    HeardConcat(p, [step], q, steps, r);
    steps := [step] + steps;
  }

  /** A START requested when the flag is lost ends in disagreement. */
  lemma LostDisagrees(p: Play) returns (steps: seq<PlayStep>, r: Play)
    requires PlayInv(p) && Lost(p)
    ensures HeardRuns(PlayNext(p, AskStart), steps, r) && Settled(r) && !Agrees(r)
  {
    var q := PlayNext(p, AskStart);
    if p.io.worker.Sent? {
      var q1 := PlayNext(q, Done(true));
      assert Deaf(q1);
      HeardOne(q, Done(true));
      hide PlayNext, HeardRuns;
      steps, r := StaysDeaf(q1);
      HeardConcat(q, [Done(true)], q1, steps, r);
      steps := [Done(true)] + steps;
    } else {
      steps, r := StaysDeaf(q);
    }
  }

  /** Whatever follows, the flag agrees with the device whenever nothing is under way. */
  ghost predicate StaysHeard(p: Play) {
    forall steps: seq<PlayStep>, r: Play :: HeardRuns(p, steps, r) && Settled(r) ==> Agrees(r)
  }

  /** The condition is exact: a START request leaves flag and device in agreement if and only if the flag is not lost. */
  lemma LostExactly(before: seq<PlayStep>, p: Play)
    requires HeardRuns(SILENT, before, p)
    ensures !Lost(p) <==> StaysHeard(PlayNext(p, AskStart))
  {
    HeardInv(SILENT, before, p);
    var q := PlayNext(p, AskStart);
    hide HeardRuns;
    if !Lost(p) {
      PlayNextInv(p, AskStart);
      forall steps: seq<PlayStep>, r: Play | HeardRuns(q, steps, r) && Settled(r)
        ensures Agrees(r)
      {
        HeardInv(q, steps, r);
      }
    } else {
      var steps, r := LostDisagrees(p);
      assert HeardRuns(q, steps, r) && Settled(r);
    }
  }

  /** It is lost in every settled state with the device running: STOP and START triggers before the worker has run. */
  lemma StopStartLosesFlag(p: Play) returns (steps: seq<PlayStep>, r: Play)
    requires PlayInv(p) && Settled(p) && p.io.remote == StartedIo
    ensures HeardRuns(p, [Clear, AskStop], PlayNext(PlayNext(p, Clear), AskStop))
    ensures HeardRuns(PlayNext(PlayNext(PlayNext(p, Clear), AskStop), AskStart), steps, r) && Settled(r) && !Agrees(r)
  {
    var q := PlayNext(PlayNext(p, Clear), AskStop);
    assert [Clear, AskStop][1..][1..] == [];
    assert HeardRuns(PlayNext(p, Clear), [Clear, AskStop][1..], q);
    PlayNextInv(p, Clear);
    PlayNextInv(PlayNext(p, Clear), AskStop);
    hide HeardRuns, PlayInv;
    steps, r := LostDisagrees(q);
  }
}
