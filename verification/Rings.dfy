/**
 Submission rings: slots handed out under an atomic counter, completions
 recorded in ring order, and the availability gate that suspend closes.

 `Queue` is the driver's struct; the functions on it are its atomic sections,
 and `SubmissionQueue` is the same struct updated in place. `System` adds the
 threads inside the reservation protocol, the gate, and a log of what was
 posted and completed; its steps are every interleaving of those sections.
 */
module Rings {
  import opened Prelude

  const COMPLETION_ERROR: nat := 1

  datatype Completion = Completion(status: nat, dataSize: nat, result: nat)

  datatype Queue = Queue(
    elCount: nat,
    available: int,
    head: nat,
    tail: nat,
    slots: seq<nat>,
    completionTail: nat,
    completionIndex: nat,
    completions: seq<Completion>)

  ghost predicate Shaped(q: Queue) {
    && 1 <= q.elCount == |q.slots| == |q.completions|
    && q.head < q.elCount && q.tail < q.elCount
    && q.completionTail < q.elCount && q.completionIndex < q.elCount
  }

  // ------------------------------------------------------------ atomic sections

  function Fresh(elCount: nat): Queue
    requires 1 <= elCount
  {
    Queue(elCount, elCount - 1, 0, 0, seq(elCount, _ => 0), 0, 0, seq(elCount, _ => Completion(0, 0, 0)))
  }

  /** atomic_dec_if_positive on the counter: a slot is taken only while one is left. */
  function Take(q: Queue): Queue {
    if q.available > 0 then q.(available := q.available - 1) else q
  }

  function PutBack(q: Queue): Queue {
    q.(available := q.available + 1)
  }

  function Push(q: Queue, entry: nat): Queue
    requires Shaped(q)
  {
    q.(slots := q.slots[q.tail := entry], tail := (q.tail + 1) % q.elCount)
  }

  /** What is stored for a completion-queue element; a wrong index fails the slot that was due. */
  function Recorded(q: Queue, index: nat, c: Completion): Completion {
    if q.completionTail != index then Completion(COMPLETION_ERROR, 0, 0) else c
  }

  function Report(q: Queue, index: nat, c: Completion): Queue
    requires Shaped(q)
  {
    q.(completions := q.completions[q.completionTail := Recorded(q, index, c)],
       completionTail := (q.completionTail + 1) % q.elCount)
  }

  function Pop(q: Queue): Queue
    requires Shaped(q)
  {
    if q.completionIndex == q.completionTail then q
    else q.(completionIndex := (q.completionIndex + 1) % q.elCount)
  }

  function NotifyDone(q: Queue): Queue
    requires Shaped(q)
  {
    q.(head := (q.head + 1) % q.elCount, available := q.available + 1)
  }

  /** The queue struct as the driver updates it in place. */
  class SubmissionQueue {
    const elCount: nat
    var available: int
    var head: nat
    var tail: nat
    const slots: array<nat>
    var completionTail: nat
    var completionIndex: nat
    const completions: array<Completion>

    ghost function View(): Queue
      reads this, slots, completions
    {
      Queue(elCount, available, head, tail, slots[..], completionTail, completionIndex, completions[..])
    }

    ghost predicate Valid()
      reads this, slots, completions
    {
      Shaped(View())
    }

    constructor (n: nat)
      requires 1 <= n
      ensures Valid() && View() == Fresh(n)
      ensures fresh(slots) && fresh(completions)
    {
      elCount := n;
      available, head, tail, completionTail, completionIndex := n - 1, 0, 0, 0, 0;
      slots := new nat[n](_ => 0);
      completions := new Completion[n](_ => Completion(0, 0, 0));
    }

    method TryTake() returns (taken: bool)
      requires Valid()
      modifies this
      ensures Valid() && View() == Take(old(View())) && taken == (old(available) > 0)
    {
      taken := available > 0;
      if taken {
        available := available - 1;
      }
    }

    method CancelReservation()
      requires Valid()
      modifies this
      ensures Valid() && View() == PutBack(old(View()))
    {
      available := available + 1;
    }

    method NextSubmission(entry: nat)
      requires Valid()
      modifies this, slots
      ensures Valid() && View() == Push(old(View()), entry)
    {
      slots[tail] := entry;
      tail := (tail + 1) % elCount;
    }

    method HandleCompletion(index: nat, c: Completion)
      requires Valid()
      modifies this, completions
      ensures Valid() && View() == Report(old(View()), index, c)
    {
      if completionTail != index {
        completions[completionTail] := Completion(COMPLETION_ERROR, 0, 0);
      } else {
        completions[completionTail] := c;
      }
      completionTail := (completionTail + 1) % elCount;
    }

    method NextCompletion() returns (r: Option<Completion>)
      requires Valid()
      modifies this
      ensures Valid() && View() == Pop(old(View()))
      ensures r == if old(completionIndex == completionTail) then None else Some(old(completions[completionIndex]))
    {
      if completionIndex == completionTail {
        return None;
      }
      r := Some(completions[completionIndex]);
      completionIndex := (completionIndex + 1) % elCount;
    }

    method NotifySubmissionComplete()
      requires Valid()
      modifies this
      ensures Valid() && View() == NotifyDone(old(View()))
    {
      head := (head + 1) % elCount;
      available := available + 1;
    }
  }

  // ------------------------------------------------------------- interleavings

  /**
   Where a thread is inside the reservation: it has read the gate as open, it
   waits for a slot, it has taken a slot but not yet re-read the gate, or the
   reservation has succeeded and it may write one slot or cancel.
   */
  datatype Phase = Idle | GateSeen | Waiting | Taken | Held

  datatype System = System(
    q: Queue,
    open: bool,
    threads: map<nat, Phase>,
    posted: seq<nat>,           // every submission ever written, in order
    rung: nat,                  // how many the device has been told about
    reported: seq<Completion>,  // every completion ever recorded, in order
    consumed: nat,              // how many completions the driver has fetched
    notified: nat,              // how many slots have been released
    timeouts: nat,              // how many of those were released by a command timeout
    quiet: bool)                // the idle wait has returned and the gate is still closed

  datatype Step =
    | ReadGate(t: nat)
    | TryTake(t: nat, patient: bool)
    | WakeUp(t: nat)
    | Recheck(t: nat)
    | CancelHeld(t: nat)
    | Write(t: nat, entry: nat)
    | Doorbell
    | DeviceCompletes(index: nat, c: Completion)
    | Fetch
    | Notify
    | TimeOut
    | CloseGate
    | OpenGate
    | IdleWaitReturns

  function PhaseOf(s: System, t: nat): Phase {
    if t in s.threads then s.threads[t] else Idle
  }

  predicate Enabled(s: System, step: Step) {
    match step
    case ReadGate(t) => PhaseOf(s, t) == Idle
    case TryTake(t, _) => PhaseOf(s, t) == GateSeen
    case WakeUp(t) => PhaseOf(s, t) == Waiting
    case Recheck(t) => PhaseOf(s, t) == Taken
    case CancelHeld(t) => PhaseOf(s, t) == Held
    case Write(t, _) => PhaseOf(s, t) == Held
    case DeviceCompletes(_, _) => |s.reported| < s.rung
    case Fetch => s.q.completionIndex != s.q.completionTail
    case Notify => s.notified < s.consumed + s.timeouts
    case TimeOut => s.timeouts < s.rung   // each command waits once, and may be released before the timeout is
    case IdleWaitReturns => !s.open && s.q.available == s.q.elCount - 1
    case _ => true
  }

  function Next(s: System, step: Step): System
    requires Shaped(s.q) && Enabled(s, step)
  {
    match step
    case ReadGate(t) => s.(threads := s.threads[t := if s.open then GateSeen else Idle])
    case TryTake(t, patient) =>
      if s.q.available > 0 then s.(q := Take(s.q), threads := s.threads[t := Taken])
      else s.(threads := s.threads[t := if s.open && patient then Waiting else Idle])
    case WakeUp(t) => s.(threads := s.threads[t := if s.open then GateSeen else Idle])
    case Recheck(t) =>
      if s.open then s.(threads := s.threads[t := Held])
      else s.(q := PutBack(s.q), threads := s.threads[t := Idle])
    case CancelHeld(t) => s.(q := PutBack(s.q), threads := s.threads[t := Idle])
    case Write(t, entry) => s.(q := Push(s.q, entry), threads := s.threads[t := Idle], posted := s.posted + [entry])
    case Doorbell => s.(rung := |s.posted|)
    case DeviceCompletes(index, c) => s.(q := Report(s.q, index, c), reported := s.reported + [Recorded(s.q, index, c)])
    case Fetch => s.(q := Pop(s.q), consumed := s.consumed + 1)
    case Notify => s.(q := NotifyDone(s.q), notified := s.notified + 1)
    case TimeOut => s.(q := NotifyDone(s.q), notified := s.notified + 1, timeouts := s.timeouts + 1)
    case CloseGate => s.(open := false)
    case OpenGate => s.(open := true, quiet := false)
    case IdleWaitReturns => s.(quiet := true)
  }

  function Start(elCount: nat): System
    requires 1 <= elCount
  {
    System(Fresh(elCount), true, map[], [], 0, [], 0, 0, 0, false)
  }

  ghost predicate Runs(s: System, steps: seq<Step>, t: System)
    decreases |steps|
  {
    if steps == [] then s == t
    else Shaped(s.q) && Enabled(s, steps[0]) && Runs(Next(s, steps[0]), steps[1..], t)
  }

  // ------------------------------------------------------------------ accounting

  function Holders(s: System): set<nat> {
    set t | t in s.threads && (s.threads[t] == Taken || s.threads[t] == Held)
  }

  /** Free slots, reservations and unreleased submissions always add up to the ring's capacity. */
  ghost predicate Accounted(s: System) {
    && s.q.available >= 0
    && s.q.available + |Holders(s)| + |s.posted| - s.notified == s.q.elCount - 1
  }

  /** The ring indices are the log positions reduced by the ring size. */
  ghost predicate Indexed(s: System) {
    && Shaped(s.q)
    && s.q.tail == |s.posted| % s.q.elCount
    && s.q.head == s.notified % s.q.elCount
    && s.q.completionTail == |s.reported| % s.q.elCount
    && s.q.completionIndex == s.consumed % s.q.elCount
  }

  ghost predicate Ordered(s: System) {
    && s.notified <= s.consumed + s.timeouts
    && s.consumed <= |s.reported| <= s.rung <= |s.posted|
  }

  /** Every position from `low` on is still stored at its ring index. */
  ghost predicate Stored<T>(ring: seq<T>, log: seq<T>, low: nat) {
    && 0 < |ring|
    && forall k :: low <= k < |log| ==> ring[k % |ring|] == log[k]
  }

  /** What additionally holds as long as no command has timed out. */
  ghost predicate Intact(s: System) {
    && s.notified <= s.consumed
    && Stored(s.q.slots, s.posted, s.notified)
    && Stored(s.q.completions, s.reported, s.consumed)
    && (s.quiet ==> !s.open && s.notified == |s.posted| && forall t :: t in s.threads ==> s.threads[t] != Held)
  }

  ghost predicate Inv(s: System) {
    Indexed(s) && Accounted(s) && Ordered(s) && (s.timeouts == 0 ==> Intact(s))
  }

  lemma HoldersEnter(s: System, t: nat, p: Phase)
    requires PhaseOf(s, t) != Taken && PhaseOf(s, t) != Held && (p == Taken || p == Held)
    ensures |Holders(s.(threads := s.threads[t := p]))| == |Holders(s)| + 1
  {
    assert Holders(s.(threads := s.threads[t := p])) == Holders(s) + {t};
  }

  lemma HoldersLeave(s: System, t: nat, p: Phase)
    requires (PhaseOf(s, t) == Taken || PhaseOf(s, t) == Held) && p != Taken && p != Held
    ensures |Holders(s.(threads := s.threads[t := p]))| == |Holders(s)| - 1
  {
    assert Holders(s.(threads := s.threads[t := p])) == Holders(s) - {t};
  }

  lemma HoldersSame(s: System, t: nat, p: Phase)
    requires (PhaseOf(s, t) == Taken || PhaseOf(s, t) == Held) <==> (p == Taken || p == Held)
    ensures Holders(s.(threads := s.threads[t := p])) == Holders(s)
  {
  }

  lemma HolderCounts(s: System, t: nat)
    requires PhaseOf(s, t) == Taken || PhaseOf(s, t) == Held
    ensures |Holders(s)| >= 1
  {
    assert t in Holders(s);
    assert {t} <= Holders(s);
    CardMonotone({t}, Holders(s));
  }

  lemma CardMonotone(a: set<nat>, b: set<nat>)
    requires a <= b
    ensures |a| <= |b|
  {
    assert b == a + (b - a);
  }

  /** Writing the next position overwrites no stored one, as long as fewer than a ring full are stored. */
  lemma StoredPush<T>(ring: seq<T>, log: seq<T>, low: nat, x: T)
    requires Stored(ring, log, low) && low <= |log| < low + |ring|
    ensures Stored(ring[|log| % |ring| := x], log + [x], low)
  {
    var n := |ring|;
    forall k | low <= k < |log| + 1
      ensures ring[|log| % n := x][k % n] == (log + [x])[k]
    {
      RingApart(k, |log|, n);
    }
  }

  lemma NextIndexed(s: System, step: Step)
    requires Inv(s) && Enabled(s, step)
    ensures Indexed(Next(s, step))
  {
    hide Accounted, Ordered, Intact, Holders;
    match step
    case Write(t, entry) => WriteIndexed(s, entry); OnlyRings(s.(q := Push(s.q, entry), posted := s.posted + [entry]), Next(s, step));
    case DeviceCompletes(index, c) => CompleteIndexed(s, index, c);
    case Fetch => RingStep(s.consumed, s.q.elCount);
    case Notify => ReleaseIndexed(s); OnlyRings(s.(q := NotifyDone(s.q), notified := s.notified + 1), Next(s, step));
    case TimeOut => ReleaseIndexed(s); OnlyRings(s.(q := NotifyDone(s.q), notified := s.notified + 1), Next(s, step));
    case _ => OnlyRings(s, Next(s, step));
  }

  /** Indices and logs are all that counts here. */
  lemma OnlyRings(s: System, r: System)
    requires Indexed(s) && r.q == s.q.(available := r.q.available)
    requires r.posted == s.posted && r.reported == s.reported && r.consumed == s.consumed && r.notified == s.notified
    ensures Indexed(r)
  {
  }

  lemma ReleaseIndexed(s: System)
    requires Indexed(s)
    ensures Indexed(s.(q := NotifyDone(s.q), notified := s.notified + 1))
  {
    RingStep(s.notified, s.q.elCount);
  }

  lemma WriteIndexed(s: System, entry: nat)
    requires Indexed(s)
    ensures Indexed(s.(q := Push(s.q, entry), posted := s.posted + [entry]))
  {
    RingStep(|s.posted|, s.q.elCount);
  }

  lemma CompleteIndexed(s: System, index: nat, c: Completion)
    requires Indexed(s)
    ensures Indexed(s.(q := Report(s.q, index, c), reported := s.reported + [Recorded(s.q, index, c)]))
  {
    RingStep(|s.reported|, s.q.elCount);
  }

  lemma NextAccounted(s: System, step: Step)
    requires Inv(s) && Enabled(s, step)
    ensures Accounted(Next(s, step))
  {
    match step
    case ReadGate(t) => HoldersSame(s, t, if s.open then GateSeen else Idle);
    case TryTake(t, patient) =>
      if s.q.available > 0 {
        HoldersEnter(s, t, Taken);
      } else {
        HoldersSame(s, t, if s.open && patient then Waiting else Idle);
      }
    case WakeUp(t) => HoldersSame(s, t, if s.open then GateSeen else Idle);
    case Recheck(t) =>
      if s.open {
        HoldersSame(s, t, Held);
      } else {
        HoldersLeave(s, t, Idle);
      }
    case CancelHeld(t) => HoldersLeave(s, t, Idle);
    case Write(t, _) => HoldersLeave(s, t, Idle);
    case _ =>
  }

  /** The index test of next_completion tells exactly whether a completion is waiting. */
  lemma FetchReady(s: System)
    requires Inv(s) && s.timeouts == 0
    ensures s.q.completionIndex != s.q.completionTail <==> s.consumed < |s.reported|
  {
    RingApart(s.consumed, |s.reported|, s.q.elCount);
  }
}
