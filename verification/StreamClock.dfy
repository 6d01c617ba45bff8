/**
 The hardware pointer of an audio stream. Between zero timestamps the driver
 extrapolates from the last anchor at the stream rate; times are nanoseconds.
 */
module StreamClock {
  import opened Prelude
  import opened SampleTime

  const NSEC_PER_SEC: nat := 1_000_000_000

  /** What does not change while a stream runs. */
  datatype Format = Format(capture: bool, buffer: nat, rate: nat, latency: nat)

  datatype Clock = Clock(
    started: bool,
    waiting: bool,        // no zero timestamp of this run has been applied
    acceptAfter: nat,
    lastReceived: nat,
    anchor: nat,
    frames: nat,          // sample time of the last applied timestamp
    base: nat,            // sample time of the ring origin
    reported: nat,        // frames since the ring origin, unwrapped
    period: nat,          // first observed step, 0 until there is one
    fault: bool)

  datatype Timestamp = Timestamp(received: nat, device: nat, seed: nat, frames: nat)

  datatype Position = Frames(at: nat) | Xrun

  predicate Usable(f: Format) {
    f.buffer > 0 && f.rate > 0
  }

  const RESET: Clock := Clock(false, true, 0, 0, 0, 0, 0, 0, 0, false)

  /** START_IO: a fresh clock that counts from now. */
  function Started(now: nat): Clock {
    RESET.(started := true, acceptAfter := now, anchor := now)
  }

  function Stopped(c: Clock): Clock {
    c.(started := false, waiting := true, acceptAfter := 0)
  }

  /** The length of one ring pass. */
  function Window(f: Format): nat
    requires Usable(f)
  {
    f.buffer * NSEC_PER_SEC / f.rate
  }

  predicate Plausible(f: Format, t: Timestamp)
    requires Usable(f)
  {
    t.device <= t.received && t.received - t.device <= Window(f)
  }

  /** Stale and overtaken timestamps are ignored. */
  predicate Heard(c: Clock, t: Timestamp) {
    c.started && t.device >= c.acceptAfter && (c.waiting || t.received > c.lastReceived)
  }

  predicate Rewinds(c: Clock, t: Timestamp) {
    !c.waiting && ((t.seed != 0 && c.frames != 0) || t.frames < c.frames)
  }

  /** The timestamp becomes the anchor. */
  predicate Applies(c: Clock, t: Timestamp) {
    Heard(c, t) && !Rewinds(c, t)
  }

  function Anchored(f: Format, c: Clock, t: Timestamp): Clock
    requires Usable(f) && Applies(c, t)
  {
    c.(anchor := if Plausible(f, t) then t.device else t.received,
       period := if !c.waiting && c.period == 0 then t.frames - c.frames else c.period,
       base := if c.waiting then t.frames - t.frames % f.buffer else c.base,
       frames := t.frames, lastReceived := t.received, waiting := false)
  }

  function HandleTimestamp(f: Format, c: Clock, t: Timestamp): Clock
    requires Usable(f)
  {
    if !Heard(c, t) then c
    else if Rewinds(c, t) then c.(fault := true)
    else Anchored(f, c, t)
  }

  /** The step to the next zero timestamp that the pointer stays below. */
  function Pass(f: Format, c: Clock): nat {
    if c.period > 0 then c.period else f.buffer
  }

  function Elapsed(f: Format, c: Clock, now: nat): nat {
    if now > c.anchor then (now - c.anchor) * f.rate / NSEC_PER_SEC else 0
  }

  predicate Counts(f: Format, c: Clock) {
    c.started && !c.fault && !(c.waiting && f.capture)
  }

  ghost predicate Placed(c: Clock) {
    c.base <= c.frames
  }

  /** What a capture position is held back by. */
  function Held(f: Format): nat {
    if f.capture then f.latency else 0
  }

  function Pointer(f: Format, c: Clock, now: nat): Clock
    requires Usable(f) && Placed(c)
  {
    if !Counts(f, c) then c
    else
      var ahead := Min(Elapsed(f, c, now), Pass(f, c) - 1);
      c.(reported := Max(c.reported, PositionFrames(c.frames - c.base + ahead, Held(f))))
  }

  /** The whole frames of the stream that fit between two times. */
  ghost predicate FramesIn(f: Format, from: nat, to: nat, n: nat) {
    if to <= from then n == 0
    else n * NSEC_PER_SEC <= (to - from) * f.rate < (n + 1) * NSEC_PER_SEC
  }

  lemma ElapsedExact(f: Format, c: Clock, now: nat)
    ensures FramesIn(f, c.anchor, now, Elapsed(f, c, now))
  {
    if now > c.anchor {
      MulBound(now - c.anchor, f.rate);
      Quotient((now - c.anchor) * f.rate, NSEC_PER_SEC);
    }
  }

  lemma Quotient(x: nat, n: nat)
    requires n > 0
    ensures x / n * n <= x < (x / n + 1) * n
  {
    assert x == x / n * n + x % n;
  }

  lemma FramesUnique(f: Format, from: nat, to: nat, m: nat, n: nat)
    requires FramesIn(f, from, to, m) && FramesIn(f, from, to, n)
    ensures m == n
  {
  }

  /** The position of a frame, counted from the ring's origin and held back by the latency. */
  predicate IsPosition(f: Format, c: Clock, ahead: nat, at: nat)
    requires Placed(c)
  {
    if f.capture && c.frames - c.base + ahead <= f.latency then at == 0
    else at + (if f.capture then f.latency else 0) == c.frames - c.base + ahead
  }

  /**
   A query reports the frames that have passed since the anchor at the stream's rate,
   unless that reaches the next pass: then one frame short of it. An earlier
   position is never taken back.
   */
  lemma PointerExact(f: Format, c: Clock, now: nat, n: nat, at: nat)
    requires Usable(f) && Placed(c) && Counts(f, c) && FramesIn(f, c.anchor, now, n)
    requires IsPosition(f, c, if n < Pass(f, c) then n else Pass(f, c) - 1, at)
    ensures Pointer(f, c, now) == c.(reported := if at > c.reported then at else c.reported)
  {
    ElapsedExact(f, c, now);
    FramesUnique(f, c.anchor, now, n, Elapsed(f, c, now));
    hide Elapsed, FramesIn;
  }

  /** A plausible timestamp counts from the device's time, any other from when it was received. */
  lemma AnchorExact(f: Format, c: Clock, t: Timestamp, now: nat, n: nat, at: nat)
    requires Usable(f) && Placed(c) && Applies(c, t) && !c.fault
    requires FramesIn(f, if Late(f, t) then t.received else t.device, now, n)
    ensures var d := Anchored(f, c, t);
            && Placed(d)
            && (IsPosition(f, d, if n < Pass(f, d) then n else Pass(f, d) - 1, at) ==>
                  Pointer(f, d, now).reported == if at > c.reported then at else c.reported)
  {
    WindowExact(f, t);
    Remainder(t.frames, f.buffer);
    var d := Anchored(f, c, t);
    hide Window, FramesIn, Pointer, IsPosition;
    if IsPosition(f, d, if n < Pass(f, d) then n else Pass(f, d) - 1, at) {
      PointerExact(f, d, now, n, at);
    }
  }

  /** A device time in the future, or more than one ring pass back. */
  predicate Late(f: Format, t: Timestamp) {
    t.device > t.received || (t.received - t.device) * f.rate > f.buffer * NSEC_PER_SEC
  }

  lemma WindowExact(f: Format, t: Timestamp)
    requires Usable(f)
    ensures Plausible(f, t) <==> !Late(f, t)
  {
    if t.device <= t.received {
      Quotient(f.buffer * NSEC_PER_SEC, f.rate);
      FloorBound(t.received - t.device, f.buffer * NSEC_PER_SEC, f.rate);
    }
  }

  lemma FloorBound(d: nat, x: nat, n: nat)
    requires n > 0
    ensures d <= x / n <==> d * n <= x
  {
    Quotient(x, n);
    if d <= x / n {
      assert d * n <= x / n * n;
    } else {
      assert (x / n + 1) * n <= d * n;
    }
  }

  // ------------------------------------------------------------------ runs

  datatype Step = Start(now: nat) | Stop | Stamp(t: Timestamp) | Ask(now: nat)

  function Next(f: Format, c: Clock, step: Step): Clock
    requires Usable(f) && Placed(c)
  {
    match step
    case Start(now) => Started(now)
    case Stop => Stopped(c)
    case Stamp(t) => HandleTimestamp(f, c, t)
    case Ask(now) => Pointer(f, c, now)
  }

  /**
   The device sends one zero timestamp per ring pass. What the bound needs of it
   is less: the first step between two timestamps is at least half of what a ring
   exceeds the latency by.
   */
  ghost predicate Paced(f: Format, c: Clock, step: Step) {
    match step
    case Stamp(t) => Applies(c, t) && !c.waiting && c.period == 0 && t.frames > c.frames ==> 2 * (t.frames - c.frames) + Held(f) >= f.buffer
    case _ => true
  }

  ghost predicate Runs(f: Format, c: Clock, steps: seq<Step>, d: Clock)
    requires Usable(f)
    decreases |steps|
  {
    if steps == [] then c == d
    else Placed(c) && Paced(f, c, steps[0]) && Runs(f, Next(f, c, steps[0]), steps[1..], d)
  }

  /** Nothing before the first timestamp; afterwards at most one pass past the last one. */
  ghost predicate Inv(f: Format, c: Clock)
    requires Usable(f)
  {
    && Placed(c)
    && c.reported < c.frames - c.base + Pass(f, c)
    && (c.period == 0 && c.reported > 0 ==> c.reported + Held(f) < c.frames - c.base + f.buffer)
    && (c.started && c.waiting ==> c.frames == c.base == c.period == 0)
    && (!c.waiting ==> c.anchor <= c.lastReceived && c.lastReceived - c.anchor <= Window(f))
  }

  lemma StampInv(f: Format, c: Clock, t: Timestamp)
    requires Usable(f) && Inv(f, c) && Paced(f, c, Stamp(t))
    ensures Inv(f, HandleTimestamp(f, c, t))
  {
    hide Window;
    if Applies(c, t) && c.waiting {
      Remainder(t.frames, f.buffer);
    }
  }

  lemma Remainder(x: nat, n: nat)
    requires n > 0
    ensures 0 <= x % n <= x && x % n < n
  {
    MulBound(x / n, n);
  }

  lemma PointerInv(f: Format, c: Clock, now: nat)
    requires Usable(f) && Inv(f, c)
    ensures Inv(f, Pointer(f, c, now))
  {
    hide Elapsed, Window;
    assert Elapsed(f, c, now) >= 0;
  }

  lemma NextInv(f: Format, c: Clock, step: Step)
    requires Usable(f) && Inv(f, c) && Paced(f, c, step)
    ensures Inv(f, Next(f, c, step))
  {
    hide Window, Elapsed, HandleTimestamp, Pointer;
    match step
    case Start(now) =>
    case Stop =>
    case Stamp(t) => StampInv(f, c, t);
    case Ask(now) => PointerInv(f, c, now);
  }

  lemma {:induction false} RunInv(f: Format, c: Clock, steps: seq<Step>, d: Clock)
    requires Usable(f) && Inv(f, c) && Runs(f, c, steps, d)
    ensures Inv(f, d)
    decreases |steps|
  {
    hide Inv, Next, Paced;
    if steps != [] {
      NextInv(f, c, steps[0]);
      RunInv(f, Next(f, c, steps[0]), steps[1..], d);
    }
  }

  /**
   In every run the unwrapped position stays strictly below the position of the
   next zero timestamp, when that comes at least one pass after the last one; and
   every anchor lies within one ring pass before its receive time.
   */
  lemma BelowNextTimestamp(f: Format, steps: seq<Step>, c: Clock, t: Timestamp)
    requires Usable(f) && Runs(f, RESET, steps, c)
    ensures Placed(c) && c.reported < c.frames - c.base + Pass(f, c)
    ensures Applies(c, t) && !c.waiting && t.frames >= c.frames + Pass(f, c) ==>
              c.reported < Anchored(f, c, t).frames - Anchored(f, c, t).base
    ensures !c.waiting ==> c.anchor <= c.lastReceived && c.lastReceived - c.anchor <= Window(f)
  {
    hide Window;
    RunInv(f, RESET, steps, c);
  }

  /** Runs whose sample times step by exactly one ring pass. */
  ghost predicate RingRuns(f: Format, c: Clock, steps: seq<Step>, d: Clock)
    requires Usable(f)
    decreases |steps|
  {
    if steps == [] then c == d
    else
      && Placed(c)
      && (steps[0].Stamp? && Applies(c, steps[0].t) && !c.waiting ==> steps[0].t.frames == c.frames + f.buffer)
      && RingRuns(f, Next(f, c, steps[0]), steps[1..], d)
  }

  lemma {:induction false} RingRunsPaced(f: Format, c: Clock, steps: seq<Step>, d: Clock)
    requires Usable(f) && Inv(f, c) && RingRuns(f, c, steps, d) && Pass(f, c) == f.buffer
    ensures Runs(f, c, steps, d) && Pass(f, d) == f.buffer
    decreases |steps|
  {
    hide Window, Elapsed;
    if steps != [] {
      NextInv(f, c, steps[0]);
      RingRunsPaced(f, Next(f, c, steps[0]), steps[1..], d);
    }
  }

  /** In them every reported position lies strictly below the next zero timestamp. */
  lemma RingPassBound(f: Format, steps: seq<Step>, c: Clock, t: Timestamp)
    requires Usable(f) && RingRuns(f, RESET, steps, c)
    requires Applies(c, t) && !c.waiting && t.frames == c.frames + f.buffer
    ensures c.base <= t.frames && c.reported < t.frames - c.base
  {
    RingRunsPaced(f, RESET, steps, c);
    RunInv(f, RESET, steps, c);
  }

  /** Across the first timestamp, counting before it never passes the one after it. */
  lemma FirstAnchorCarriesOn(f: Format, steps: seq<Step>, c: Clock, t: Timestamp)
    requires Usable(f) && Runs(f, RESET, steps, c) && c.waiting && Applies(c, t)
    ensures c.reported < f.buffer
    ensures var d := Anchored(f, c, t);
            d.reported == c.reported && d.base % f.buffer == 0 && d.base <= d.frames < d.base + f.buffer
            && d.reported < d.frames - d.base + f.buffer
  {
    hide Window;
    RunInv(f, RESET, steps, c);
    Remainder(t.frames, f.buffer);
    DivModUnique(t.frames - t.frames % f.buffer, f.buffer, t.frames / f.buffer, 0);
  }

  /** The run since START_IO, as long as no timestamp has been applied. */
  ghost predicate WaitingRuns(f: Format, c: Clock, steps: seq<Step>, d: Clock)
    requires Usable(f)
    decreases |steps|
  {
    if steps == [] then c == d
    else
      && Placed(c) && (steps[0].Ask? || (steps[0].Stamp? && !Applies(c, steps[0].t)))
      && WaitingRuns(f, Next(f, c, steps[0]), steps[1..], d)
  }

  /** The time at which this many frames have passed since START_IO is still to come. */
  predicate Before(f: Format, start: nat, now: nat, bound: nat) {
    (now - start) * f.rate < bound * NSEC_PER_SEC
  }

  /** No query so far came as late as the given position. */
  ghost predicate AllBefore(f: Format, start: nat, steps: seq<Step>, bound: nat) {
    forall i :: 0 <= i < |steps| && steps[i].Ask? ==> Before(f, start, steps[i].now, bound)
  }

  lemma ElapsedBelow(f: Format, start: nat, now: nat, bound: nat)
    requires bound > 0
    ensures Elapsed(f, Started(start), now) < bound <==> Before(f, start, now, bound)
  {
    if now > start {
      MulBound(now - start, f.rate);
      FloorBound(bound, (now - start) * f.rate, NSEC_PER_SEC);
    } else {
      assert (now - start) * f.rate <= 0;
    }
  }

  /** A clock that still counts from START_IO. */
  ghost predicate Counting(c: Clock, start: nat) {
    c == Started(start).(reported := c.reported)
  }

  /** What the queries so far reported stays below a bound exactly when each of them did. */
  lemma {:induction false} CountedBelow(f: Format, start: nat, c: Clock, steps: seq<Step>, d: Clock, bound: nat)
    requires Usable(f) && !f.capture && Counting(c, start) && WaitingRuns(f, c, steps, d) && 0 < bound < f.buffer
    ensures Counting(d, start) && (d.reported < bound <==> c.reported < bound && AllBefore(f, start, steps, bound))
    decreases |steps|
  {
    if steps != [] {
      var c1 := Next(f, c, steps[0]);
      assert steps[0].Ask? ==> c1.reported == Max(c.reported, Min(Elapsed(f, Started(start), steps[0].now), f.buffer - 1));
      if steps[0].Ask? {
        ElapsedBelow(f, start, steps[0].now, bound);
      }
      hide Elapsed, Window, Before;
      CountedBelow(f, start, c1, steps[1..], d, bound);
      AllBeforeSplit(f, start, steps, bound);
    }
  }

  lemma AllBeforeSplit(f: Format, start: nat, steps: seq<Step>, bound: nat)
    requires steps != []
    ensures AllBefore(f, start, steps, bound) <==>
            (steps[0].Ask? ==> Before(f, start, steps[0].now, bound)) && AllBefore(f, start, steps[1..], bound)
  {
    hide Before;
    if AllBefore(f, start, steps[1..], bound) {
      forall i | 0 < i < |steps| && steps[i].Ask?
        ensures Before(f, start, steps[i].now, bound)
      {
        assert steps[1..][i - 1] == steps[i];
      }
    }
    if AllBefore(f, start, steps, bound) {
      forall i | 0 <= i < |steps[1..]| && steps[1..][i].Ask?
        ensures Before(f, start, steps[1..][i].now, bound)
      {
        assert steps[1..][i] == steps[i + 1];
      }
    }
  }

  lemma {:induction false} WaitingStays(f: Format, start: nat, c: Clock, steps: seq<Step>, d: Clock)
    requires Usable(f) && Counting(c, start) && WaitingRuns(f, c, steps, d)
    ensures Counting(d, start)
    decreases |steps|
  {
    hide Elapsed, Window;
    if steps != [] {
      WaitingStays(f, start, Next(f, c, steps[0]), steps[1..], d);
    }
  }

  /**
   Across the switch to the first timestamp, a playback position lies strictly below
   the timestamp's own exactly when that is not at the ring's start and every query
   so far came before it, on a clock that starts at START_IO.
   */
  lemma FirstAnchorExactly(f: Format, start: nat, steps: seq<Step>, c: Clock, t: Timestamp)
    requires Usable(f) && !f.capture && WaitingRuns(f, Started(start), steps, c) && Applies(c, t)
    ensures var d := Anchored(f, c, t);
            d.reported < d.frames - d.base <==> t.frames % f.buffer > 0 && AllBefore(f, start, steps, t.frames % f.buffer)
  {
    Remainder(t.frames, f.buffer);
    hide AllBefore, Window, Elapsed;
    WaitingStays(f, start, Started(start), steps, c);
    hide WaitingRuns;
    if t.frames % f.buffer > 0 {
      CountedBelow(f, start, Started(start), steps, c, t.frames % f.buffer);
    }
  }

  /** Capture counts nothing before its first timestamp, so only the ring's start is excluded. */
  lemma {:induction false} FirstCaptureAnchor(f: Format, start: nat, c: Clock, steps: seq<Step>, d: Clock, t: Timestamp)
    requires Usable(f) && f.capture && c == Started(start) && WaitingRuns(f, c, steps, d) && Applies(d, t)
    ensures d == c
    ensures var e := Anchored(f, d, t); e.reported < e.frames - e.base <==> t.frames % f.buffer > 0
    decreases |steps|
  {
    hide Elapsed, Window;
    if steps != [] {
      FirstCaptureAnchor(f, start, Next(f, c, steps[0]), steps[1..], d, t);
    }
    Remainder(t.frames, f.buffer);
  }

  /** Runs with nothing asked of the device. */
  ghost predicate FreeRuns(f: Format, c: Clock, steps: seq<Step>, d: Clock)
    requires Usable(f)
    decreases |steps|
  {
    if steps == [] then c == d
    else Placed(c) && FreeRuns(f, Next(f, c, steps[0]), steps[1..], d)
  }

  /** While a stream is not restarted its position never decreases, and a fault is not forgotten. */
  lemma {:induction false} NeverBackwards(f: Format, c: Clock, steps: seq<Step>, d: Clock)
    requires Usable(f) && FreeRuns(f, c, steps, d)
    requires forall i :: 0 <= i < |steps| ==> !steps[i].Start?
    ensures c.reported <= d.reported && (c.fault ==> d.fault)
    decreases |steps|
  {
    hide Window, Elapsed;
    if steps != [] {
      NeverBackwards(f, Next(f, c, steps[0]), steps[1..], d);
    }
  }

  /** The ring origin stays behind the last timestamp, so every sequence of steps is a run. */
  lemma {:induction false} AlwaysPlaced(f: Format, c: Clock, steps: seq<Step>) returns (d: Clock)
    requires Usable(f) && Placed(c)
    ensures FreeRuns(f, c, steps, d) && Placed(d)
    decreases |steps|
  {
    hide Window, Elapsed;
    if steps == [] {
      return c;
    }
    if steps[0].Stamp? {
      Remainder(steps[0].t.frames, f.buffer);
    }
    d := AlwaysPlaced(f, Next(f, c, steps[0]), steps[1..]);
  }

  /** A run given step by step, with no pacing asked of the device. */
  ghost function After(f: Format, steps: seq<Step>): Option<Clock>
    requires Usable(f)
  {
    if steps == [] then Some(RESET)
    else
      var c := After(f, steps[..|steps| - 1]);
      if c.Some? && Placed(c.value) then Some(Next(f, c.value, steps[|steps| - 1])) else None
  }

  lemma AfterStep(f: Format, steps: seq<Step>, step: Step)
    requires Usable(f) && After(f, steps).Some? && Placed(After(f, steps).value)
    ensures After(f, steps + [step]) == Some(Next(f, After(f, steps).value, step))
  {
    assert (steps + [step])[..|steps|] == steps;
  }

  // ------------------------------------------------------------------ history

  /** The time of the last START_IO, unless a STOP_IO came since. */
  ghost function Beginning(steps: seq<Step>): Option<nat> {
    if steps == [] then None
    else
      match steps[|steps| - 1]
      case Start(now) => Some(now)
      case Stop => None
      case _ => Beginning(steps[..|steps| - 1])
  }

  /** A timestamp of this run of the stream, and not one that a later one has overtaken. */
  ghost predicate InTime(steps: seq<Step>, t: Timestamp)
    decreases |steps|, 1
  {
    && Beginning(steps).Some? && t.device >= Beginning(steps).value
    && (LastTaken(steps).Some? ==> t.received > LastTaken(steps).value.received)
  }

  /** The device's timeline is broken: a sample time below the last one, or a new seed after a non-zero one. */
  ghost predicate GoesBack(steps: seq<Step>, t: Timestamp)
    decreases |steps|, 1
  {
    && LastTaken(steps).Some?
    && (t.frames < LastTaken(steps).value.frames || (t.seed != 0 && LastTaken(steps).value.frames != 0))
  }

  /** The last timestamp in time that did not go back, since START_IO. */
  ghost function LastTaken(steps: seq<Step>): Option<Timestamp>
    decreases |steps|, 0
  {
    if steps == [] then None
    else
      var before := steps[..|steps| - 1];
      match steps[|steps| - 1]
      case Start(_) => None
      case Stop => None
      case Stamp(t) => if InTime(before, t) && !GoesBack(before, t) then Some(t) else LastTaken(before)
      case Ask(_) => LastTaken(before)
  }

  ghost predicate FaultAt(steps: seq<Step>, i: nat) {
    && i < |steps| && steps[i].Stamp? && InTime(steps[..i], steps[i].t) && GoesBack(steps[..i], steps[i].t)
    && forall j :: i < j < |steps| ==> !steps[j].Start?
  }

  /** A timestamp in time has gone back since the last START_IO. */
  ghost predicate Faulted(steps: seq<Step>) {
    exists i :: FaultAt(steps, i)
  }

  lemma FaultedStep(steps: seq<Step>, s: Step)
    ensures Faulted(steps + [s]) <==>
            !s.Start? && (Faulted(steps) || (s.Stamp? && InTime(steps, s.t) && GoesBack(steps, s.t)))
  {
    hide InTime, GoesBack;
    var all := steps + [s];
    assert all[..|steps|] == steps && all[|steps|] == s;
    if Faulted(all) {
      var i: nat :| FaultAt(all, i);
      if i < |steps| {
        assert all[..i] == steps[..i];
        assert FaultAt(steps, i) by {
          assert forall j :: i < j < |steps| ==> steps[j] == all[j];
        }
      }
    }
    if Faulted(steps) && !s.Start? {
      var i: nat :| FaultAt(steps, i);
      assert all[..i] == steps[..i];
      assert FaultAt(all, i);
    }
    if s.Stamp? && InTime(steps, s.t) && GoesBack(steps, s.t) {
      assert FaultAt(all, |steps|);
    }
  }

  /** What a clock knows is what the history says. */
  ghost predicate Remembers(f: Format, steps: seq<Step>, c: Clock) {
    && (c.started <==> Beginning(steps).Some?)
    && c.acceptAfter == (if Beginning(steps).Some? then Beginning(steps).value else 0)
    && (c.waiting <==> LastTaken(steps).None?)
    && (LastTaken(steps).None? && Beginning(steps).Some? ==> c.anchor == Beginning(steps).value && c.frames == 0)
    && (LastTaken(steps).Some? ==>
          var t := LastTaken(steps).value;
          c.frames == t.frames && c.lastReceived == t.received && c.anchor == if Late(f, t) then t.received else t.device)
    && (c.fault <==> Faulted(steps))
  }

  lemma RemembersStep(f: Format, steps: seq<Step>, c: Clock, s: Step)
    requires Usable(f) && Placed(c) && Remembers(f, steps, c)
    ensures Remembers(f, steps + [s], Next(f, c, s)) && Placed(Next(f, c, s))
  {
    var all := steps + [s];
    assert all[..|all| - 1] == steps && all[|all| - 1] == s;
    FaultedStep(steps, s);
    if s.Stamp? {
      WindowExact(f, s.t);
      Remainder(s.t.frames, f.buffer);
    }
    LastTakenStep(steps, s);
    hide Faulted, Elapsed, Late, Plausible, PositionFrames;
  }

  lemma LastTakenStep(steps: seq<Step>, s: Step)
    ensures s.Start? || s.Stop? ==> LastTaken(steps + [s]) == None
    ensures s.Stamp? ==>
              LastTaken(steps + [s]) == if InTime(steps, s.t) && !GoesBack(steps, s.t) then Some(s.t) else LastTaken(steps)
    ensures s.Ask? ==> LastTaken(steps + [s]) == LastTaken(steps)
    ensures s.Stamp? || s.Ask? ==> Beginning(steps + [s]) == Beginning(steps)
  {
    var all := steps + [s];
    assert all[..|all| - 1] == steps && all[|all| - 1] == s;
    hide InTime, GoesBack;
  }

  /**
   For every sequence of steps: the stream runs since its last START_IO; it counts from
   the last timestamp that came in time and did not go back, and from START_IO
   before there is one; and it is faulted exactly when one in time did go back.
   */
  lemma {:induction false} ClockRemembers(f: Format, steps: seq<Step>)
    requires Usable(f)
    ensures After(f, steps).Some? && Placed(After(f, steps).value) && Remembers(f, steps, After(f, steps).value)
    decreases |steps|
  {
    if steps != [] {
      var before, s := steps[..|steps| - 1], steps[|steps| - 1];
      ClockRemembers(f, before);
      RemembersStep(f, before, After(f, before).value, s);
      assert before + [s] == steps;
      hide Remembers, Next;
    }
  }

  /** Long after the anchor the pointer stops one frame short of the next pass, less the latency. */
  lemma LateAsk(f: Format, c: Clock)
    requires Usable(f) && Placed(c) && Counts(f, c) && c.anchor == 0
    requires c.period == 0 && c.frames == c.base && c.reported == 0
    ensures Pointer(f, c, f.buffer * NSEC_PER_SEC) == c.(reported := PositionFrames(f.buffer - 1, Held(f)))
  {
    var now := f.buffer * NSEC_PER_SEC;
    assert now * f.rate == (f.buffer * f.rate) * NSEC_PER_SEC;
    DivModUnique(now * f.rate, NSEC_PER_SEC, f.buffer * f.rate, 0);
    MulBound(f.rate, f.buffer);
  }

  ghost predicate BreaksBound(f: Format, p: nat)
    requires Usable(f)
  {
    exists steps :: After(f, steps).Some? && var c := After(f, steps).value;
      Placed(c) && c.period == p && c.reported >= c.frames - c.base + Pass(f, c)
  }

  /** That much is needed: with any smaller first step the bound is broken, in playback and in capture. */
  lemma ShorterStepBreaksBound(f: Format, p: nat)
    requires Usable(f) && 0 < p && 2 * p + Held(f) < f.buffer
    ensures BreaksBound(f, p)
  {
    var first, second := Timestamp(0, 0, 0, 0), Timestamp(1, 0, 0, p);
    var now := f.buffer * NSEC_PER_SEC;
    var c1 := Started(0);
    var c2 := HandleTimestamp(f, c1, first);
    assert c2.base == c2.frames == c2.anchor == c2.period == c2.reported == 0 && !c2.waiting && c2.started && !c2.fault;
    LateAsk(f, c2);
    var c3 := Pointer(f, c2, now);
    hide Window, Pointer;
    var c4 := HandleTimestamp(f, c3, second);
    assert c4.frames == c4.period == p && c4.reported == f.buffer - 1 - Held(f);
    hide HandleTimestamp, Started;
    AfterStep(f, [], Start(0));
    AfterStep(f, [] + [Start(0)], Stamp(first));
    AfterStep(f, [] + [Start(0)] + [Stamp(first)], Ask(now));
    AfterStep(f, [] + [Start(0)] + [Stamp(first)] + [Ask(now)], Stamp(second));
  }

  /** What was counted before the first timestamp can lie past that timestamp's own position. */
  lemma PreCountPassesFirst(f: Format)
    requires Usable(f) && !f.capture && f.buffer > 1
    ensures exists steps :: After(f, steps).Some? && var c := After(f, steps).value;
            Placed(c) && !c.waiting && c.reported > c.frames - c.base
  {
    var now, t := f.buffer * NSEC_PER_SEC, Timestamp(0, 0, 0, 0);
    var c1 := Started(0);
    LateAsk(f, c1);
    var c2 := Pointer(f, c1, now);
    hide Window, Pointer;
    var c3 := HandleTimestamp(f, c2, t);
    assert c3.frames == c3.base == 0 && c3.reported == f.buffer - 1;
    hide HandleTimestamp, Started;
    AfterStep(f, [], Start(0));
    AfterStep(f, [] + [Start(0)], Ask(now));
    AfterStep(f, [] + [Start(0)] + [Ask(now)], Stamp(t));
  }

  // ------------------------------------------------------------------ the object

  class AudioStream {
    const format: Format
    var started: bool
    var waitingForFirst: bool
    var acceptAfter: nat
    var lastReceived: nat
    var anchor: nat
    var sampleFrames: nat
    var sampleBase: nat
    var reportedFrames: nat
    var samplePeriod: nat
    var timelineFault: bool

    function View(): Clock
      reads this
    {
      Clock(started, waitingForFirst, acceptAfter, lastReceived, anchor, sampleFrames, sampleBase, reportedFrames,
            samplePeriod, timelineFault)
    }

    constructor (format: Format)
      ensures this.format == format && View() == RESET
    {
      this.format := format;
      started, waitingForFirst, acceptAfter, lastReceived, anchor := false, true, 0, 0, 0;
      sampleFrames, sampleBase, reportedFrames, samplePeriod, timelineFault := 0, 0, 0, 0, false;
    }

    method Begin(now: nat)
      modifies this
      ensures View() == Started(now)
    {
      waitingForFirst, lastReceived, sampleFrames, sampleBase := true, 0, 0, 0;
      reportedFrames, samplePeriod, timelineFault := 0, 0, false;
      acceptAfter, anchor := now, now;
      started := true;
    }

    method End()
      modifies this
      ensures View() == Stopped(old(View()))
    {
      started := false;
      waitingForFirst, acceptAfter := true, 0;
    }

    method IsPlausible(t: Timestamp) returns (plausible: bool)
      requires Usable(format)
      ensures plausible == Plausible(format, t)
    {
      var window := format.buffer * NSEC_PER_SEC / format.rate;
      plausible := t.device <= t.received && t.received - t.device <= window;
    }

    method Timestamp(t: Timestamp)
      requires Usable(format)
      modifies this
      ensures View() == HandleTimestamp(format, old(View()), t)
    {
      if !started || t.device < acceptAfter || (!waitingForFirst && t.received <= lastReceived) {
        return;
      }
      var plausible := IsPlausible(t);
      hide Plausible;
      if !waitingForFirst {
        if (t.seed != 0 && sampleFrames != 0) || t.frames < sampleFrames {
          timelineFault := true;
          return;
        }
        if samplePeriod == 0 {
          samplePeriod := t.frames - sampleFrames;
        }
      }
      anchor := if plausible then t.device else t.received;
      if waitingForFirst {
        sampleBase := t.frames - t.frames % format.buffer;
      }
      sampleFrames, lastReceived, waitingForFirst := t.frames, t.received, false;
    }

    /** The position within the ring that ALSA sees. */
    method Ask(now: nat) returns (at: Position)
      requires Usable(format) && Placed(View())
      modifies this
      ensures View() == Pointer(format, old(View()), now)
      ensures at == if started && timelineFault then Xrun
                    else if Counts(format, View()) then Frames(reportedFrames % format.buffer) else Frames(0)
    {
      if !started {
        return Frames(0);
      }
      if timelineFault {
        return Xrun;
      }
      if waitingForFirst && format.capture {
        return Frames(0);
      }
      var elapsed := if now > anchor then (now - anchor) * format.rate / NSEC_PER_SEC else 0;
      assert elapsed == Elapsed(format, View(), now);
      hide Elapsed;
      var period := if samplePeriod > 0 then samplePeriod else format.buffer;
      elapsed := Min(elapsed, period - 1);
      var latency := Held(format);
      reportedFrames := Max(reportedFrames, PositionFrames(sampleFrames - sampleBase + elapsed, latency));
      return Frames(reportedFrames % format.buffer);
    }
  }
}
