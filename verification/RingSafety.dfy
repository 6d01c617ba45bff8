/** What every interleaving of the ring's atomic sections keeps, and what the suspend gate guarantees. */
module RingSafety {
  import opened Prelude
  import opened Rings

  lemma NextOrdered(s: System, step: Step)
    requires Inv(s) && Enabled(s, step)
    ensures Ordered(Next(s, step))
  {
  }

  /** A thread that holds a reservation always finds a slot that no unreleased submission occupies. */
  lemma RoomToWrite(s: System, t: nat)
    requires Inv(s) && PhaseOf(s, t) == Held
    ensures |s.posted| - s.notified <= s.q.elCount - 2
  {
    HolderCounts(s, t);
  }

  lemma NobodyHolds(s: System)
    requires |Holders(s)| == 0
    ensures forall t :: t in s.threads ==> s.threads[t] != Held && s.threads[t] != Taken
  {
    forall t | t in s.threads
      ensures s.threads[t] != Held && s.threads[t] != Taken
    {
      assert t !in Holders(s);
    }
  }

  lemma NextStored(s: System, step: Step)
    requires Inv(s) && Enabled(s, step) && s.timeouts == 0 && !step.TimeOut?
    ensures var s' := Next(s, step);
            Stored(s'.q.slots, s'.posted, s'.notified) && Stored(s'.q.completions, s'.reported, s'.consumed)
  {
    match step
    case Write(t, entry) =>
      RoomToWrite(s, t);
      StoredPush(s.q.slots, s.posted, s.notified, entry);
    case DeviceCompletes(index, c) =>
      StoredPush(s.q.completions, s.reported, s.consumed, Recorded(s.q, index, c));
    case _ =>
  }

  lemma NextQuiet(s: System, step: Step)
    requires Inv(s) && Enabled(s, step) && s.timeouts == 0 && !step.TimeOut?
    ensures var s' := Next(s, step);
            s'.quiet ==> !s'.open && s'.notified == |s'.posted| && forall t :: t in s'.threads ==> s'.threads[t] != Held
  {
    hide Stored;
    if step.IdleWaitReturns? {
      NobodyHolds(s);
    }
  }

  lemma NextInv(s: System, step: Step)
    requires Inv(s) && Enabled(s, step)
    ensures Inv(Next(s, step))
  {
    hide Stored, Indexed, Accounted;
    NextIndexed(s, step);
    NextAccounted(s, step);
    NextOrdered(s, step);
    if s.timeouts == 0 && !step.TimeOut? {
      NextStored(s, step);
      NextQuiet(s, step);
    }
  }

  lemma {:induction false} StartInv(elCount: nat)
    requires 1 <= elCount
    ensures Inv(Start(elCount))
  {
    assert Holders(Start(elCount)) == {};
  }

  /** The invariant holds after every run: any threads, any order, any device timing. */
  lemma {:induction false} RunInv(s: System, steps: seq<Step>, t: System)
    requires Inv(s) && Runs(s, steps, t)
    ensures Inv(t)
    ensures t.q.elCount == s.q.elCount
    decreases |steps|
  {
    if steps != [] {
      NextInv(s, steps[0]);
      RunInv(Next(s, steps[0]), steps[1..], t);
    }
  }

  predicate NoTimeout(steps: seq<Step>) {
    forall i :: 0 <= i < |steps| ==> !steps[i].TimeOut?
  }

  lemma {:induction false} RunTimeouts(s: System, steps: seq<Step>, t: System)
    requires Runs(s, steps, t) && NoTimeout(steps)
    ensures t.timeouts == s.timeouts
    decreases |steps|
  {
    if steps != [] {
      RunTimeouts(Next(s, steps[0]), steps[1..], t);
    }
  }

  // ------------------------------------------------------------------ main results

  /**
   Over every interleaving without command timeouts the slots in use never exceed
   the ring: free + reserved + in flight is the capacity, the tail stays ahead of
   the head by exactly the in-flight count, and each in-flight submission is
   still in its slot unchanged.
   */
  lemma RingLaw(elCount: nat, steps: seq<Step>, t: System)
    requires 1 <= elCount && Runs(Start(elCount), steps, t) && NoTimeout(steps)
    ensures Shaped(t.q) && t.q.elCount == elCount
    ensures t.q.available + |Holders(t)| + (|t.posted| - t.notified) == elCount - 1
    ensures t.q.available >= 0 && 0 <= |t.posted| - t.notified <= elCount - 1
    ensures (t.q.head + (|t.posted| - t.notified)) % elCount == t.q.tail
    ensures forall k :: t.notified <= k < |t.posted| ==> t.q.slots[k % elCount] == t.posted[k]
    ensures forall k :: t.consumed <= k < |t.reported| ==> t.q.completions[k % elCount] == t.reported[k]
    ensures t.notified <= t.consumed <= |t.reported| <= |t.posted|
  {
    StartInv(elCount);
    RunInv(Start(elCount), steps, t);
    RunTimeouts(Start(elCount), steps, t);
    RingDistance(t.notified, |t.posted| - t.notified, elCount);
  }

  lemma {:induction false} RingDistance(k: nat, d: nat, n: nat)
    requires 0 < n
    ensures (k % n + d) % n == (k + d) % n
    decreases d
  {
    if d == 0 {
      DivModUnique(k % n, n, 0, k % n);
    } else {
      RingDistance(k, d - 1, n);
      RingStep(k + d - 1, n);
      RingStep(k % n + d - 1, n);
    }
  }

  /** Once the idle wait has returned, no thread holds a reservation and nothing is in flight. */
  lemma GateQuiesces(elCount: nat, steps: seq<Step>, t: System)
    requires 1 <= elCount && Runs(Start(elCount), steps, t) && NoTimeout(steps) && t.quiet
    ensures !t.open && t.notified == |t.posted|
    ensures forall c: nat :: PhaseOf(t, c) != Held
  {
    StartInv(elCount);
    RunInv(Start(elCount), steps, t);
    RunTimeouts(Start(elCount), steps, t);
  }

  /** From then on, and until the gate is opened again, no run writes the ring. */
  lemma {:induction false} QuietFreezes(s: System, steps: seq<Step>, t: System)
    requires Inv(s) && s.timeouts == 0 && s.quiet
    requires Runs(s, steps, t) && NoTimeout(steps)
    requires forall i :: 0 <= i < |steps| ==> !steps[i].OpenGate?
    ensures t.quiet && t.posted == s.posted && t.q.slots == s.q.slots && t.q.tail == s.q.tail
    decreases |steps|
  {
    if steps != [] {
      NextInv(s, steps[0]);
      QuietFreezes(Next(s, steps[0]), steps[1..], t);
    }
  }

  /**
   With timeouts allowed, the idle wait observes exactly that reservations, commands
   whose completion was not fetched and fetched ones not yet released add up to the
   timeouts. So it means an unused queue if and only if no command has timed out,
   which a driver could count.
   */
  lemma IdleExactly(elCount: nat, steps: seq<Step>, t: System)
    requires 1 <= elCount && Runs(Start(elCount), steps, t)
    ensures t.notified <= t.consumed + t.timeouts && t.consumed <= |t.posted|
    ensures t.q.available == elCount - 1 <==>
            |Holders(t)| + (|t.posted| - t.consumed) + (t.consumed + t.timeouts - t.notified) == t.timeouts
    ensures t.q.available == elCount - 1 ==>
              (Holders(t) == {} && t.consumed == |t.posted| && t.notified == t.consumed + t.timeouts <==> t.timeouts == 0)
    ensures t.q.available == elCount - 1 && t.notified == t.consumed + t.timeouts ==>
              (Holders(t) == {} && t.consumed == |t.posted| <==> t.timeouts == 0)
  {
    StartInv(elCount);
    RunInv(Start(elCount), steps, t);
  }

  /** When the handler fetches completion k, the slot at the head is the one of submission k. */
  lemma ResultReachesItsCommand(s: System)
    requires Inv(s) && s.timeouts == 0 && s.notified == s.consumed && Enabled(s, Fetch)
    ensures var s', k := Next(s, Fetch), s.consumed;
            && k < |s.reported| <= |s.posted|
            && s.q.completions[s.q.completionIndex] == s.reported[k]
            && s'.q.slots[s'.q.head] == s.posted[k]
  {
    FetchReady(s);
  }

  /** A command timeout releases the head slot early, so the late result meets the next command's slot instead. */
  lemma TimeoutShiftsResults(s: System)
    requires Inv(s) && s.timeouts == 0 && s.notified == s.consumed && s.q.elCount >= 2
    requires Enabled(s, TimeOut) && Enabled(s, Fetch)
    ensures var s', k := Next(Next(s, TimeOut), Fetch), s.consumed;
            s'.q.head == (k + 1) % s.q.elCount && s'.q.head != k % s.q.elCount
  {
    RingStep(s.notified, s.q.elCount);
    RingApart(s.consumed, s.consumed + 1, s.q.elCount);
  }

  /**
   What the device reports is recorded as it is exactly when it comes in the order of the
   ring; otherwise the command that was due is failed, with no data.
   */
  lemma OutOfOrderFails(s: System, index: nat, c: Completion)
    requires Inv(s) && Enabled(s, DeviceCompletes(index, c))
    ensures var s', k := Next(s, DeviceCompletes(index, c)), |s.reported|;
            && |s'.reported| == k + 1
            && s'.q.completions[k % s.q.elCount] == s'.reported[k]
            && s'.reported[k] == if index == k % s.q.elCount then c else Completion(COMPLETION_ERROR, 0, 0)
  {
    hide Accounted, Stored;
  }

  /** A reservation takes a slot that giving it back returns, and none when there is none. */
  lemma TakenIsReturned(q: Queue)
    requires q.available >= 0
    ensures Take(q).available >= 0
    ensures if q.available > 0 then PutBack(Take(q)) == q && Take(q) != q else Take(q) == q
  {
  }

  // ------------------------------------------------------- the timeout counterexample

  lemma {:induction false} RunsExtend(s: System, steps: seq<Step>, m: System, step: Step)
    requires Runs(s, steps, m) && Shaped(m.q) && Enabled(m, step)
    ensures Runs(s, steps + [step], Next(m, step))
    decreases |steps|
  {
    if steps != [] {
      RunsExtend(Next(s, steps[0]), steps[1..], m, step);
      assert (steps + [step])[1..] == steps[1..] + [step];
    } else {
      assert (steps + [step])[1..] == [];
    }
  }

  /** One thread's uninterrupted reservation while the gate is open and a slot is free. */
  lemma ReserveRun(s: System, steps: seq<Step>, m: System, t: nat) returns (steps': seq<Step>, m': System)
    requires Runs(s, steps, m) && Shaped(m.q) && m.open && m.q.available > 0 && PhaseOf(m, t) == Idle
    ensures Runs(s, steps', m')
    ensures m' == m.(q := Take(m.q), threads := m.threads[t := Held])
  {
    hide Runs;
    RunsExtend(s, steps, m, ReadGate(t));
    var m1 := Next(m, ReadGate(t));
    RunsExtend(s, steps + [ReadGate(t)], m1, TryTake(t, false));
    var m2 := Next(m1, TryTake(t, false));
    RunsExtend(s, steps + [ReadGate(t)] + [TryTake(t, false)], m2, Recheck(t));
    m' := Next(m2, Recheck(t));
    assert m'.threads == m.threads[t := Held];
    steps' := steps + [ReadGate(t)] + [TryTake(t, false)] + [Recheck(t)];
  }

  // The command queue is created with 0x20 slots.
  const COMMAND_SLOTS: nat := 32

  /** A command that times out and then completes after all is released twice. */
  lemma DoubleRelease() returns (steps: seq<Step>, t: System)
    ensures Runs(Start(COMMAND_SLOTS), steps, t)
    ensures Shaped(t.q) && t.q.elCount == COMMAND_SLOTS == t.q.available && t.open && PhaseOf(t, 1) == Idle
  {
    hide Runs;
    var st, m := TimedOut();
    steps, t := LateRelease(Start(COMMAND_SLOTS), st, m);
  }

  /** The late completion of a timed-out command, from device to release. */
  lemma LateRelease(s: System, st: seq<Step>, m: System) returns (steps: seq<Step>, t: System)
    requires Runs(s, st, m) && Shaped(m.q) && m.q.elCount == COMMAND_SLOTS
    requires m.reported == [] && m.consumed == m.q.completionIndex == m.q.completionTail == 0
    requires m.rung == m.notified == m.timeouts == 1
    ensures Runs(s, steps, t) && Shaped(t.q) && t.open == m.open && t.threads == m.threads
    ensures t.q.elCount == COMMAND_SLOTS && t.q.available == m.q.available + 1
  {
    hide Runs;
    var late := DeviceCompletes(0, Completion(0, 0, 0));
    RunsExtend(s, st, m, late);
    var m1 := Next(m, late);
    RunsExtend(s, st + [late], m1, Fetch);
    var m2 := Next(m1, Fetch);
    RunsExtend(s, st + [late] + [Fetch], m2, Notify);
    steps, t := st + [late] + [Fetch] + [Notify], Next(m2, Notify);
  }

  /** A command is posted and its wait times out. */
  lemma TimedOut() returns (steps: seq<Step>, t: System)
    ensures Runs(Start(COMMAND_SLOTS), steps, t)
    ensures Shaped(t.q) && t.q.elCount == COMMAND_SLOTS && t.q.available == COMMAND_SLOTS - 1 && t.open && t.threads == map[0 := Idle]
    ensures |t.posted| == t.rung == t.notified == t.timeouts == 1 && t.reported == []
    ensures t.consumed == t.q.completionIndex == t.q.completionTail == 0
  {
    assert Runs(Start(COMMAND_SLOTS), [], Start(COMMAND_SLOTS));
    hide Runs;
    var s := Start(COMMAND_SLOTS);
    var st, m := ReserveRun(s, [], s, 0);
    RunsExtend(s, st, m, Write(0, 7));
    st, m := st + [Write(0, 7)], Next(m, Write(0, 7));
    RunsExtend(s, st, m, Doorbell);
    st, m := st + [Doorbell], Next(m, Doorbell);
    RunsExtend(s, st, m, TimeOut);
    steps, t := st + [TimeOut], Next(m, TimeOut);
  }

  /** One timeout is enough for the idle wait to return with the command still at the device. */
  lemma IdleWithCommandAtDevice() returns (steps: seq<Step>, t: System)
    ensures Runs(Start(COMMAND_SLOTS), steps, t)
    ensures t.quiet && Holders(t) == {} && |t.posted| == t.rung == t.timeouts == 1 && t.reported == []
  {
    hide Runs;
    var s := Start(COMMAND_SLOTS);
    var st, m := TimedOut();
    RunsExtend(s, st, m, CloseGate);
    st, m := st + [CloseGate], Next(m, CloseGate);
    RunsExtend(s, st, m, IdleWaitReturns);
    steps, t := st + [IdleWaitReturns], Next(m, IdleWaitReturns);
  }

  /** And for it to return while a thread holds a reservation: without timeouts it cannot. */
  lemma LateCompletionDefeatsGate() returns (steps: seq<Step>, t: System)
    ensures Runs(Start(COMMAND_SLOTS), steps, t)
    ensures t.quiet && PhaseOf(t, 1) == Held
  {
    hide Runs;
    var s := Start(COMMAND_SLOTS);
    var st, m := DoubleRelease();
    st, m := ReserveRun(s, st, m, 1);
    RunsExtend(s, st, m, CloseGate);
    st, m := st + [CloseGate], Next(m, CloseGate);
    RunsExtend(s, st, m, IdleWaitReturns);
    steps, t := st + [IdleWaitReturns], Next(m, IdleWaitReturns);
  }
}
