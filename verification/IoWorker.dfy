/**
 The start/stop worker of an audio stream. Triggers record a request under a lock
 and queue the work; the worker talks to the device with the lock released.
 */
module IoWorker {
  import opened Prelude

  const GENERATIONS: nat := 0x1_0000_0000   // the generation counter is an unsigned 32-bit integer

  datatype Remote = StoppedIo | StartedIo | UnknownIo

  /** Idle, about to take the lock, or waiting for a command sent for a remembered request. */
  datatype Worker = Idle | AtTop | Sent(generation: nat, requested: bool)

  /** On record: commands that finished, in order. */
  datatype Command = Command(start: bool, ok: bool)

  datatype Stream = Stream(
    requested: bool,
    generation: nat,
    remote: Remote,
    unqueued: nat,      // triggers that have released the lock and not yet queued the work
    pending: bool,
    worker: Worker,
    log: seq<Command>)

  function Target(start: bool): Remote {
    if start then StartedIo else StoppedIo
  }

  datatype Step = Request(start: bool) | QueueWork | RunWork | Compare | Finish(ok: bool)

  ghost predicate Enabled(s: Stream, step: Step) {
    match step
    case Request(_) => true
    case QueueWork => s.unqueued > 0
    case RunWork => s.pending && s.worker == Idle
    case Compare => s.worker == AtTop
    case Finish(_) => s.worker.Sent?
  }

  function Next(s: Stream, step: Step): Stream
    requires Enabled(s, step)
  {
    match step
    case Request(start) => s.(requested := start, generation := (s.generation + 1) % GENERATIONS, unqueued := s.unqueued + 1)
    case QueueWork => s.(unqueued := s.unqueued - 1, pending := true)
    case RunWork => s.(pending := false, worker := AtTop)
    case Compare => s.(worker := if s.remote == Target(s.requested) then Idle else Sent(s.generation, s.requested))
    case Finish(ok) =>
      var Sent(generation, requested) := s.worker;
      s.(remote := if ok then Target(requested) else UnknownIo,
         worker := if !ok || generation == s.generation then Idle else AtTop,
         log := s.log + [Command(requested, ok)])
  }

  const START: Stream := Stream(false, 0, StoppedIo, 0, false, Idle, [])

  ghost predicate Runs(s: Stream, steps: seq<Step>, t: Stream)
    decreases |steps|
  {
    if steps == [] then s == t
    else Enabled(s, steps[0]) && Runs(Next(s, steps[0]), steps[1..], t)
  }

  /** Nothing is left to do: no trigger on its way to the queue, no work pending, no worker running. */
  predicate Quiet(s: Stream) {
    s.unqueued == 0 && !s.pending && s.worker == Idle
  }

  /** What the device is doing, according to the commands that finished. */
  function Reported(log: seq<Command>): Remote {
    if log == [] then StoppedIo
    else
      var last := log[|log| - 1];
      if last.ok then Target(last.start) else UnknownIo
  }

  /** Neighbouring commands: after a successful one the next is of the other kind. */
  ghost predicate Alternates(log: seq<Command>) {
    forall i :: 0 <= i < |log| - 1 && log[i].ok ==> log[i + 1].start != log[i].start
  }

  ghost predicate Inv(s: Stream) {
    && s.remote == Reported(s.log)
    && Alternates(s.log)
    && (s.log != [] ==> s.log[0].start)
    && (s.worker.Sent? ==> s.remote != Target(s.worker.requested))
    // a request changed under the worker has not been forgotten, even if the counter came round
    && (s.worker.Sent? && s.worker.requested != s.requested ==> s.pending || s.unqueued > 0)
    && (Quiet(s) ==> s.remote == Target(s.requested) || s.remote == UnknownIo)
  }

  lemma NextInv(s: Stream, step: Step)
    requires Inv(s) && Enabled(s, step)
    ensures Inv(Next(s, step))
  {
    if step.Finish? {
      var command := Command(s.worker.requested, step.ok);
      assert (s.log + [command])[|s.log|] == command;
    }
  }

  lemma {:induction false} RunInv(s: Stream, steps: seq<Step>, t: Stream)
    requires Inv(s) && Runs(s, steps, t)
    ensures Inv(t)
    decreases |steps|
  {
    hide Inv, Next;
    if steps != [] {
      NextInv(s, steps[0]);
      RunInv(Next(s, steps[0]), steps[1..], t);
    }
  }

  /**
   Under any interleaving, once nothing is left to do the device is in the state
   last requested, or the last command failed.
   */
  lemma Converges(steps: seq<Step>, s: Stream)
    requires Runs(START, steps, s) && Quiet(s)
    ensures Reported(s.log) == s.remote
    ensures s.remote == Target(s.requested) || (s.remote == UnknownIo && s.log != [] && !s.log[|s.log| - 1].ok)
  {
    RunInv(START, steps, s);
  }

  /** The first command is a START, and after a successful command the next is of the other kind. */
  ghost predicate Lawful(log: seq<Command>) {
    (log != [] ==> log[0].start) && Alternates(log)
  }

  ghost predicate Occurs(log: seq<Command>) {
    exists steps, s :: Runs(START, steps, s) && s.log == log
  }

  /** A lawful history has a run that ends with nothing left to do. */
  lemma {:induction false} LawfulRun(log: seq<Command>) returns (steps: seq<Step>, s: Stream)
    requires Lawful(log)
    ensures Runs(START, steps, s) && Quiet(s) && s.log == log && s.remote == Reported(log)
    decreases |log|
  {
    if log == [] {
      return [], START;
    }
    var before, last := log[..|log| - 1], log[|log| - 1];
    assert before != [] ==> last == log[|before| - 1 + 1] && before[|before| - 1] == log[|before| - 1];
    var steps1, s1 := LawfulRun(before);
    assert s1.remote != Target(last.start);
    s := Round(s1, last.start, last.ok);
    steps := steps1 + RoundSteps(last.start, last.ok);
    RunsConcat(START, steps1, s1, RoundSteps(last.start, last.ok), s);
    assert log == before + [last];
  }

  /** Exactly the lawful command histories occur: strict alternation, except that after a failure either kind may follow. */
  lemma HistoriesExactly(log: seq<Command>)
    ensures Lawful(log) <==> Occurs(log)
  {
    if Lawful(log) {
      var steps, s := LawfulRun(log);
    } else if Occurs(log) {
      var steps, s :| Runs(START, steps, s) && s.log == log;
      RunInv(START, steps, s);
    }
  }

  /** From every reachable state with nothing left to do, a kind of command can come next exactly when the device is not known to be there. */
  lemma NextCommandExactly(steps: seq<Step>, s: Stream, command: Command)
    requires Runs(START, steps, s) && Quiet(s)
    ensures s.remote != Target(command.start) <==> Occurs(s.log + [command])
  {
    RunInv(START, steps, s);
    var log := s.log + [command];
    assert forall i :: 0 <= i < |s.log| ==> log[i] == s.log[i];
    if Lawful(log) && s.log != [] {
      assert s.log[|s.log| - 1].ok ==> log[|s.log| - 1 + 1].start != log[|s.log| - 1].start;
    }
    HistoriesExactly(log);
    hide Occurs, Runs;
  }

  /** Two successful commands of the same kind always have a failed one between them. */
  lemma SameKindNeedsFailure(steps: seq<Step>, s: Stream, i: nat, j: nat)
    requires Runs(START, steps, s) && i < j < |s.log|
    requires s.log[i].ok && s.log[j].ok && s.log[i].start == s.log[j].start
    requires forall k :: i < k < j && s.log[k].ok ==> s.log[k].start == s.log[i].start
    ensures exists k :: i < k < j && !s.log[k].ok
  {
    RunInv(START, steps, s);
    assert s.log[i + 1].start != s.log[i].start;
  }

  /** And a failure does let one through: START, a failed STOP, START. */
  lemma FailedStopThenStart() returns (steps: seq<Step>, s: Stream)
    ensures Runs(START, steps, s) && Quiet(s)
    ensures s.log == [Command(true, true), Command(false, false), Command(true, true)]
  {
    var a := Round(START, true, true);
    var b := Round(a, false, false);
    s := Round(b, true, true);
    RunsConcat(START, RoundSteps(true, true), a, RoundSteps(false, false), b);
    steps := RoundSteps(true, true) + RoundSteps(false, false) + RoundSteps(true, true);
    RunsConcat(START, RoundSteps(true, true) + RoundSteps(false, false), b, RoundSteps(true, true), s);
  }

  function RoundSteps(start: bool, ok: bool): seq<Step> {
    [Request(start), QueueWork, RunWork, Compare, Finish(ok)]
  }

  /** One trigger carried through to the end with nothing else happening. */
  lemma Round(s: Stream, start: bool, ok: bool) returns (t: Stream)
    requires Quiet(s) && s.remote != Target(start)
    ensures Runs(s, RoundSteps(start, ok), t) && Quiet(t)
    ensures t.log == s.log + [Command(start, ok)] && t.remote == if ok then Target(start) else UnknownIo
  {
    var steps := RoundSteps(start, ok);
    var s1 := Next(s, steps[0]);
    var s2 := Next(s1, steps[1]);
    var s3 := Next(s2, steps[2]);
    var s4 := Next(s3, steps[3]);
    t := Next(s4, steps[4]);
    assert Runs(s4, steps[4..], t);
    assert steps[3..][1..] == steps[4..] && steps[2..][1..] == steps[3..] && steps[1..][1..] == steps[2..];
    assert Runs(s3, steps[3..], t);
    assert Runs(s2, steps[2..], t);
    assert Runs(s1, steps[1..], t);
  }

  lemma {:induction false} RunsConcat(s: Stream, a: seq<Step>, t: Stream, b: seq<Step>, u: Stream)
    requires Runs(s, a, t) && Runs(t, b, u)
    ensures Runs(s, a + b, u)
    decreases |a|
  {
    hide Next, Enabled;
    if a == [] {
      assert a + b == b;
    } else {
      RunsConcat(Next(s, a[0]), a[1..], t, b, u);
      assert (a + b)[1..] == a[1..] + b;
    }
  }

  lemma RunsOn(s: Stream, steps: seq<Step>, t: Stream, step: Step)
    requires Runs(s, steps, t) && Enabled(t, step)
    ensures Runs(s, steps + [step], Next(t, step))
  {
    assert [step][1..] == [];
    assert Runs(t, [step], Next(t, step));
    RunsConcat(s, steps, t, [step], Next(t, step));
  }

  // ------------------------------------------------------------------ requests during a command

  /** How many triggers recorded a request in these steps. */
  function Triggers(steps: seq<Step>): nat {
    if steps == [] then 0 else Triggers(steps[..|steps| - 1]) + if steps[|steps| - 1].Request? then 1 else 0
  }

  /** What can happen while a command is under way. */
  ghost predicate Meanwhile(s: Stream, steps: seq<Step>, t: Stream)
    decreases |steps|
  {
    if steps == [] then s == t
    else
      var last := steps[|steps| - 1];
      exists m {:trigger TriggeredTo(m, last, t)} :: Meanwhile(s, steps[..|steps| - 1], m) && TriggeredTo(m, last, t)
  }

  ghost predicate TriggeredTo(m: Stream, step: Step, t: Stream) {
    (step.Request? || step.QueueWork?) && Enabled(m, step) && Next(m, step) == t
  }

  lemma {:induction false} GenerationCounts(s: Stream, steps: seq<Step>, t: Stream)
    requires Meanwhile(s, steps, t) && s.generation < GENERATIONS
    ensures t.worker == s.worker && t.generation == (s.generation + Triggers(steps)) % GENERATIONS
    decreases |steps|
  {
    if steps != [] {
      var before, last := steps[..|steps| - 1], steps[|steps| - 1];
      var m :| Meanwhile(s, before, m) && TriggeredTo(m, last, t);
      GenerationCounts(s, before, m);
      RingStep(s.generation + Triggers(before), GENERATIONS);
    } else {
      DivModUnique(s.generation, GENERATIONS, 0, s.generation);
    }
  }

  /** The counter is back where it was exactly after a multiple of its range. */
  lemma SameGeneration(g: nat, n: nat)
    requires g < GENERATIONS
    ensures (g + n) % GENERATIONS == g <==> n % GENERATIONS == 0
  {
    if n % GENERATIONS == 0 {
      DivModUnique(g + n, GENERATIONS, n / GENERATIONS, g);
    }
    if (g + n) % GENERATIONS == g {
      DivModUnique(n, GENERATIONS, (g + n) / GENERATIONS, 0);
    }
  }

  /**
   When a command has succeeded, the same work item goes on exactly when a request came
   in during it, unless their number is a multiple of 2^32; after a failure it ends.
   */
  lemma HeardExactly(s: Stream, steps: seq<Step>, t: Stream)
    requires s.worker == AtTop && s.generation < GENERATIONS && Next(s, Compare).worker.Sent?
    requires Meanwhile(Next(s, Compare), steps, t)
    ensures t.worker.Sent?
    ensures Next(t, Finish(true)).worker == if Triggers(steps) % GENERATIONS == 0 then Idle else AtTop
    ensures Next(t, Finish(false)).worker == Idle
  {
    GenerationCounts(Next(s, Compare), steps, t);
    SameGeneration(s.generation, Triggers(steps));
    hide Meanwhile, Triggers;
  }

  /** After a failed command no other one is sent until the work is run again. */
  lemma {:induction false} FailureEndsWork(s: Stream, steps: seq<Step>, t: Stream)
    requires s.worker == Idle && Runs(s, steps, t) && forall i :: 0 <= i < |steps| ==> !steps[i].RunWork?
    ensures t.worker == Idle && t.log == s.log
    decreases |steps|
  {
    if steps != [] {
      FailureEndsWork(Next(s, steps[0]), steps[1..], t);
    }
  }

  // ------------------------------------------------------------------ the object

  /** How one command ends, and the triggers that arrive while it is under way. */
  datatype Answer = Answer(triggers: seq<bool>, ok: bool)

  class AudioIo {
    var requested: bool
    var generation: nat
    var remote: Remote
    var unqueued: nat
    var pending: bool
    var worker: Worker
    ghost var log: seq<Command>

    ghost function View(): Stream
      reads this
    {
      Stream(requested, generation, remote, unqueued, pending, worker, log)
    }

    constructor ()
      ensures View() == START
    {
      requested, generation, remote, unqueued, pending, worker, log := false, 0, StoppedIo, 0, false, Idle, [];
    }

    /** A trigger: the locked section, and then the queueing. */
    method Trigger(start: bool)
      modifies this
      ensures View() == Next(Next(old(View()), Request(start)), QueueWork)
    {
      requested := start;
      generation := (generation + 1) % GENERATIONS;
      pending := true;
    }

    /**
     One execution of the work item, with answers to the commands it sends. It
     returns when the device agrees with the request, when a command failed, when
     no request came in during a command, or when a command is still unanswered.
     The commands on record are those answered, in order, and the triggers of the
     run are those that arrived during them.
     */
    method Work(answers: seq<Answer>) returns (used: nat, ghost steps: seq<Step>)
      requires worker == AtTop
      modifies this
      ensures Runs(old(View()), steps, View())
      ensures worker == Idle || worker.Sent?
      ensures used <= |answers| && (worker.Sent? ==> used == |answers|)
      ensures Recorded(old(log), log, answers[..used], steps)
    {
      steps, used := [], 0;
      ghost var from, done := View(), [];
      hide Runs, Requests, Recorded;
      NothingYet(from, log);
      while worker == AtTop
        invariant used <= |answers| && Runs(from, steps, View()) && !worker.Sent?
        invariant done == answers[..used] && Recorded(old(log), log, done, steps)
        decreases |answers| - used, worker == AtTop
      {
        RunsOn(from, steps, View(), Compare);
        RecordedCompare(old(log), log, done, steps);
        steps := steps + [Compare];
        if remote == Target(requested) {
          worker := Idle;
          return;
        }
        worker := Sent(generation, requested);
        if used == |answers| {
          return;
        }
        ghost var before, sofar := log, steps;
        steps := Carry(answers[used], from, steps);
        RecordedOn(old(log), before, log, done, answers[used], sofar, steps);
        done := done + [answers[used]];
        used := used + 1;
      }
    }

    /** A command that was sent is answered, with triggers arriving before that. */
    method Carry(answer: Answer, ghost from: Stream, ghost before: seq<Step>) returns (ghost steps: seq<Step>)
      requires worker.Sent? && Runs(from, before, View())
      modifies this
      ensures Runs(from, steps, View()) && Requests(steps) == Requests(before) + answer.triggers
      ensures log == old(log) + [Command(old(worker).requested, answer.ok)]
      ensures worker == Idle || worker == AtTop
    {
      hide Runs, Requests;
      var Sent(seen, sent) := worker;
      steps := Meanwhile(answer.triggers, from, before);
      RunsOn(from, steps, View(), Finish(answer.ok));
      RequestsOn(steps, Finish(answer.ok));
      steps := steps + [Finish(answer.ok)];
      remote := if answer.ok then Target(sent) else UnknownIo;
      log := log + [Command(sent, answer.ok)];
      worker := if !answer.ok || seen == generation then Idle else AtTop;
    }

    /** Triggers arriving one after the other. */
    method Meanwhile(triggers: seq<bool>, ghost from: Stream, ghost before: seq<Step>) returns (ghost steps: seq<Step>)
      requires Runs(from, before, View())
      modifies this
      ensures Runs(from, steps, View()) && Requests(steps) == Requests(before) + triggers
      ensures worker == old(worker) && remote == old(remote) && log == old(log)
    {
      steps := before;
      for i := 0 to |triggers|
        invariant Runs(from, steps, View()) && Requests(steps) == Requests(before) + triggers[..i]
        invariant worker == old(worker) && remote == old(remote) && log == old(log)
      {
        ghost var s, request := View(), Request(triggers[i]);
        RunsOn(from, steps, s, request);
        RunsOn(from, steps + [request], Next(s, request), QueueWork);
        RequestsOn(steps, request);
        RequestsOn(steps + [request], QueueWork);
        assert triggers[..i + 1] == triggers[..i] + [triggers[i]];
        steps := steps + [request] + [QueueWork];
        Trigger(triggers[i]);
      }
    }
  }

  /** The requests of a run, in order. */
  function Requests(steps: seq<Step>): seq<bool> {
    if steps == [] then []
    else
      var last := steps[|steps| - 1];
      Requests(steps[..|steps| - 1]) + if last.Request? then [last.start] else []
  }

  lemma RequestsOn(steps: seq<Step>, step: Step)
    ensures Requests(steps + [step]) == Requests(steps) + if step.Request? then [step.start] else []
  {
    assert (steps + [step])[..|steps|] == steps;
  }

  /** The triggers that arrived during answered commands. */
  function Arrived(answers: seq<Answer>): seq<bool> {
    if answers == [] then [] else Arrived(answers[..|answers| - 1]) + answers[|answers| - 1].triggers
  }

  /** The record grew by one command per answer, with its outcome, and the run's requests are the answers' triggers. */
  ghost predicate Recorded(before: seq<Command>, after: seq<Command>, answers: seq<Answer>, steps: seq<Step>) {
    && |after| == |before| + |answers| && before <= after
    && (forall i :: 0 <= i < |answers| ==> after[|before| + i].ok == answers[i].ok)
    && Requests(steps) == Arrived(answers)
  }

  lemma NothingYet(s: Stream, log: seq<Command>)
    ensures Runs(s, [], s) && Recorded(log, log, [], [])
  {
  }

  lemma RecordedCompare(before: seq<Command>, after: seq<Command>, answers: seq<Answer>, steps: seq<Step>)
    requires Recorded(before, after, answers, steps)
    ensures Recorded(before, after, answers, steps + [Compare])
  {
    RequestsOn(steps, Compare);
  }

  lemma RecordedOn(first: seq<Command>, before: seq<Command>, after: seq<Command>, answers: seq<Answer>, answer: Answer,
                   sofar: seq<Step>, steps: seq<Step>)
    requires Recorded(first, before, answers, sofar) && Requests(steps) == Requests(sofar) + answer.triggers
    requires |after| == |before| + 1 && before <= after && after[|before|].ok == answer.ok
    ensures Recorded(first, after, answers + [answer], steps)
  {
    assert (answers + [answer])[..|answers|] == answers;
  }
}
