/**
 The pause mask of a transfer queue. Four sources pause and resume an endpoint
 under one mutex; while the firmware is being asked, the mutex is held, and the
 queue can be halted from outside at any moment.
 */
module PauseSources {
  import opened Prelude

  type Mask = bv32

  function Bit(s: PauseSource): Mask {
    match s
    case InternalWork => 1
    case Firmware => 2
    case Suspend => 4
    case Shutdown => 8
  }

  /** The sources a mask stands for. */
  function Sources(m: Mask): set<PauseSource> {
    set s: PauseSource | m & Bit(s) != 0
  }

  lemma SetBit(m: Mask, s: PauseSource)
    requires m < 16
    ensures (m | Bit(s)) < 16 && Sources(m | Bit(s)) == Sources(m) + {s}
    ensures ((m & Bit(s)) == Bit(s)) <==> s in Sources(m)
  {
    forall t: PauseSource
      ensures t in Sources(m | Bit(s)) <==> t in Sources(m) || t == s
    {
      SetOneBit(m, s, t);
    }
  }

  lemma SetOneBit(m: Mask, s: PauseSource, t: PauseSource)
    requires m < 16
    ensures ((m | Bit(s)) & Bit(t) != 0) <==> (m & Bit(t) != 0) || t == s
  {
  }

  lemma ClearOneBit(m: Mask, s: PauseSource, t: PauseSource)
    requires m < 16
    ensures ((m & !Bit(s)) & Bit(t) != 0) <==> (m & Bit(t) != 0) && t != s
  {
  }

  lemma ClearBit(m: Mask, s: PauseSource)
    requires m < 16
    ensures (m & !Bit(s)) < 16 && Sources(m & !Bit(s)) == Sources(m) - {s}
  {
    forall t: PauseSource
      ensures t in Sources(m & !Bit(s)) <==> t in Sources(m) && t != s
    {
      ClearOneBit(m, s, t);
    }
  }

  lemma ZeroMask(m: Mask)
    requires m < 16
    ensures m == 0 <==> Sources(m) == {}
  {
    if m != 0 {
      assert m & 1 != 0 || m & 2 != 0 || m & 4 != 0 || m & 8 != 0;
      assert InternalWork in Sources(m) || Firmware in Sources(m) || Suspend in Sources(m) || Shutdown in Sources(m);
    }
  }

  // ------------------------------------------------------------------ the pause lock

  /** What the holder of the pause lock is waiting for. */
  datatype Phase =
    | Free
    | Pausing(src: PauseSource)    // do_pause: draining, asking the firmware, flushing
    | Resuming(src: PauseSource)   // do_resume: asking the firmware
    | Reopened(src: PauseSource)   // do_resume has reactivated the queue
    | Resetting                    // flushing, and resetting the endpoint

  /** On record: the requests that were granted. */
  datatype Request = Paused(src: PauseSource) | Resumed(src: PauseSource)

  datatype Gate = Gate(mask: Mask, active: bool, stalled: bool, phase: Phase, log: seq<Request>)

  datatype PauseResult =
    | Drained                      // paused and flushed
    | NotPaused                    // not drained, or not paused by the firmware
    | NotFlushed(resumed: bool)    // a flush failed, and the endpoint was or was not resumed

  datatype Step =
    | CallPause(src: PauseSource)
    | PauseDone(result: PauseResult)
    | CallResume(src: PauseSource)
    | ResumeDone(ok: bool)
    | Release
    | CallReset
    | ResetDone
    | Halt                         // a failed transfer or a firmware stall, under the request lock only

  ghost predicate Enabled(g: Gate, step: Step) {
    match step
    case CallPause(_) => g.phase == Free
    case PauseDone(_) => g.phase.Pausing?
    case CallResume(_) => g.phase == Free
    case ResumeDone(_) => g.phase.Resuming?
    case Release => g.phase.Reopened?
    case CallReset => g.phase == Free
    case ResetDone => g.phase == Resetting
    case Halt => true
  }

  function Granted(g: Gate, r: Request): Gate {
    g.(mask := if r.Paused? then g.mask | Bit(r.src) else g.mask & !Bit(r.src), phase := Free, log := g.log + [r])
  }

  function Next(g: Gate, step: Step): Gate
    requires Enabled(g, step)
  {
    match step
    case CallPause(src) =>
      if g.mask & Bit(src) == Bit(src) then g
      else if g.mask == 0 then g.(active := false, phase := Pausing(src))
      else Granted(g, Paused(src))
    case PauseDone(result) =>
      if result == Drained then Granted(g, Paused(g.phase.src))
      else g.(active := if result == NotFlushed(false) then g.active else true, phase := Free)
    case CallResume(src) =>
      if g.mask & Bit(src) == 0 then g
      else if g.mask & !Bit(src) == 0 then g.(phase := Resuming(src))
      else Granted(g, Resumed(src))
    case ResumeDone(ok) => if ok then g.(active := true, phase := Reopened(g.phase.src)) else g.(phase := Free)
    case Release => Granted(g, Resumed(g.phase.src))
    case CallReset =>
      if !g.stalled then g
      else g.(active := false, mask := g.mask | Bit(InternalWork), phase := Resetting, log := g.log + [Paused(InternalWork)])
    case ResetDone => g.(stalled := false, phase := Free)
    case Halt => g.(active := false, stalled := true)
  }

  ghost predicate Runs(g: Gate, steps: seq<Step>, h: Gate)
    decreases |steps|
  {
    if steps == [] then g == h
    else Enabled(g, steps[0]) && Runs(Next(g, steps[0]), steps[1..], h)
  }

  const START: Gate := Gate(0, true, false, Free, [])

  /** The source's last granted request was a pause. */
  ghost predicate Wants(log: seq<Request>, s: PauseSource) {
    exists i :: 0 <= i < |log| && log[i] == Paused(s) && forall j :: i < j < |log| ==> log[j] != Resumed(s)
  }

  lemma WantsKept(log: seq<Request>, r: Request, s: PauseSource)
    requires r == Paused(s) || (r != Resumed(s) && Wants(log, s))
    ensures Wants(log + [r], s)
  {
    var log' := log + [r];
    if r == Paused(s) {
      assert log'[|log|] == Paused(s);
    } else {
      var i :| 0 <= i < |log| && log[i] == Paused(s) && forall j :: i < j < |log| ==> log[j] != Resumed(s);
      assert log'[i] == Paused(s);
    }
  }

  lemma WantsBefore(log: seq<Request>, r: Request, s: PauseSource)
    requires Wants(log + [r], s)
    ensures r == Paused(s) || (r != Resumed(s) && Wants(log, s))
  {
    var log' := log + [r];
    var i :| 0 <= i < |log'| && log'[i] == Paused(s) && forall j :: i < j < |log'| ==> log'[j] != Resumed(s);
    assert log'[|log|] == r;
    if i < |log| {
      assert log[i] == Paused(s) && forall j :: i < j < |log| ==> log[j] == log'[j];
    }
  }

  /** The mask is exactly the set of sources whose last granted request was a pause. */
  ghost predicate Agrees(m: Mask, log: seq<Request>) {
    m < 16 && forall s: PauseSource :: s in Sources(m) <==> Wants(log, s)
  }

  lemma GrantedAgrees(g: Gate, r: Request)
    requires Agrees(g.mask, g.log)
    ensures Agrees(Granted(g, r).mask, g.log + [r])
  {
    hide Sources, Bit, Wants;
    SetBit(g.mask, r.src);
    ClearBit(g.mask, r.src);
    var m := Granted(g, r).mask;
    assert Sources(m) == if r.Paused? then Sources(g.mask) + {r.src} else Sources(g.mask) - {r.src};
    hide Granted;
    forall s: PauseSource
      ensures s in Sources(m) <==> Wants(g.log + [r], s)
    {
      WantsExactly(g.log, r, s);
    }
  }

  lemma WantsExactly(log: seq<Request>, r: Request, s: PauseSource)
    ensures Wants(log + [r], s) <==> r == Paused(s) || (r != Resumed(s) && Wants(log, s))
  {
    hide Wants;
    if Wants(log + [r], s) {
      WantsBefore(log, r, s);
    } else if r == Paused(s) || (r != Resumed(s) && Wants(log, s)) {
      WantsKept(log, r, s);
    }
  }

  /** What holds at every moment, given what the lock's holder is doing. */
  ghost predicate Inv(g: Gate) {
    && Agrees(g.mask, g.log)
    && match g.phase {
         case Free => g.active ==> g.mask == 0
         case Pausing(_) => !g.active && g.mask == 0
         case Resuming(src) => !g.active && g.mask == Bit(src)
         case Reopened(src) => g.mask == Bit(src)
         case Resetting => !g.active
       }
  }

  lemma OnlyBit(m: Mask, s: PauseSource)
    requires m < 16 && m & Bit(s) != 0 && m & !Bit(s) == 0
    ensures m == Bit(s) && m != 0
  {
  }

  lemma GrantedGate(g: Gate, r: Request)
    requires Agrees(g.mask, g.log)
    ensures var h := Granted(g, r);
            Agrees(h.mask, h.log) && h.active == g.active && h.phase == Free && (r.Resumed? && g.mask == Bit(r.src) ==> h.mask == 0)
  {
    hide Agrees;
    GrantedAgrees(g, r);
    assert Bit(r.src) & !Bit(r.src) == 0;
  }

  lemma NextInv(g: Gate, step: Step)
    requires Inv(g) && Enabled(g, step)
    ensures Inv(Next(g, step))
  {
    hide Agrees, Bit, Granted;
    match step
    case CallPause(src) => GrantedGate(g, Paused(src));
    case PauseDone(_) => GrantedGate(g, Paused(g.phase.src));
    case CallResume(src) => CallResumeInv(g, src);
    case ResumeDone(_) =>
    case Release => GrantedGate(g, Resumed(g.phase.src));
    case CallReset => ResetAgrees(g);
    case ResetDone =>
    case Halt =>
  }

  lemma ResetAgrees(g: Gate)
    requires Agrees(g.mask, g.log)
    ensures Agrees(g.mask | Bit(InternalWork), g.log + [Paused(InternalWork)])
  {
    hide Agrees;
    GrantedGate(g, Paused(InternalWork));
  }

  lemma CallResumeInv(g: Gate, src: PauseSource)
    requires Inv(g) && g.phase == Free
    ensures Inv(Next(g, CallResume(src)))
  {
    MaskSmall(g);
    hide Agrees, Bit, Granted;
    GrantedGate(g, Resumed(src));
    if g.mask & Bit(src) != 0 && g.mask & !Bit(src) == 0 {
      OnlyBit(g.mask, src);
    }
  }

  /**
   A reset: a healthy endpoint is left alone; a halted one is paused for the worker, is no
   longer halted once the reset is done, and stays paused by whoever else had paused
   it when the worker resumes.
   */
  lemma ResetCycle(steps: seq<Step>, g: Gate)
    requires Runs(START, steps, g) && g.phase == Free
    ensures !g.stalled ==> Next(g, CallReset) == g
    ensures g.stalled ==>
              var h := Next(g, CallReset);
              && h.phase == Resetting && !h.active && Sources(h.mask) == Sources(g.mask) + {InternalWork}
              && var r := Next(h, ResetDone);
                 && r.phase == Free && !r.stalled && !r.active && Sources(r.mask) == Sources(h.mask)
                 && (Next(r, CallResume(InternalWork)).phase == Resuming(InternalWork) <==> Sources(g.mask) <= {InternalWork})
  {
    StartInv();
    RunInv(START, steps, g);
    MaskSmall(g);
    SetBit(g.mask, InternalWork);
    if g.stalled {
      var r := Next(Next(g, CallReset), ResetDone);
      ClearBit(r.mask, InternalWork);
      ZeroMask(r.mask & !Bit(InternalWork));
      SetBit(r.mask, InternalWork);
      BitInside(r.mask, InternalWork);
      hide Bit, Agrees, Runs, Sources, Granted;
      var rest := Sources(r.mask) - {InternalWork};
      assert rest == {} <==> Sources(g.mask) <= {InternalWork};
    }
  }

  lemma BitInside(m: Mask, s: PauseSource)
    requires m < 16
    ensures m & Bit(s) != 0 <==> s in Sources(m)
  {
  }

  lemma MaskSmall(g: Gate)
    requires Agrees(g.mask, g.log)
    ensures g.mask < 16
  {
  }

  lemma {:induction false} RunInv(g: Gate, steps: seq<Step>, h: Gate)
    requires Inv(g) && Runs(g, steps, h)
    ensures Inv(h)
    decreases |steps|
  {
    hide Inv, Next;
    if steps != [] {
      NextInv(g, steps[0]);
      RunInv(Next(g, steps[0]), steps[1..], h);
    }
  }

  lemma StartInv()
    ensures Inv(START)
  {
    ZeroMask(0);
  }

  /**
   Over every run, with any command failures and halts: the mask is the set of
   sources that still want a pause, and whenever the lock is free an active queue
   is wanted paused by nobody.
   */
  lemma PauseLaw(steps: seq<Step>, g: Gate)
    requires Runs(START, steps, g)
    ensures forall s: PauseSource :: s in Sources(g.mask) <==> Wants(g.log, s)
    ensures g.phase == Free && g.active ==> g.mask == 0 && forall s: PauseSource :: !Wants(g.log, s)
  {
    StartInv();
    RunInv(START, steps, g);
    ZeroMask(g.mask);
  }

  /**
   When the lock is free, a resume that ends up asking the firmware is the one by
   the last source, and it is the only kind of resume that reactivates the queue.
   */
  lemma LastSourceReactivates(steps: seq<Step>, g: Gate, src: PauseSource)
    requires Runs(START, steps, g) && g.phase == Free
    ensures Next(g, CallResume(src)).phase == Resuming(src) <==> Sources(g.mask) == {src}
    ensures Sources(g.mask) == {src} ==>
              var h := Next(Next(Next(g, CallResume(src)), ResumeDone(true)), Release);
              h.active && Sources(h.mask) == {} && h.phase == Free
    ensures Sources(g.mask) != {src} ==>
              var h := Next(g, CallResume(src));
              h.active == g.active && Sources(h.mask) == Sources(g.mask) - {src} && h.phase == Free
  {
    StartInv();
    RunInv(START, steps, g);
    MaskSmall(g);
    SetBit(g.mask, src);
    ClearBit(g.mask, src);
    ZeroMask(g.mask & !Bit(src));
    hide Bit, Inv;
    assert (g.mask & Bit(src) != 0) <==> src in Sources(g.mask);
  }

  /** Repeating a request changes nothing, and those are the only requests that change nothing. */
  lemma RepeatsAreIdle(steps: seq<Step>, g: Gate, src: PauseSource)
    requires Runs(START, steps, g) && g.phase == Free
    ensures Next(g, CallPause(src)) == g <==> Wants(g.log, src)
    ensures Next(g, CallResume(src)) == g <==> !Wants(g.log, src)
  {
    StartInv();
    RunInv(START, steps, g);
    MaskSmall(g);
    SetBit(g.mask, src);
    hide Bit, Wants;
    assert (g.mask & Bit(src) != 0) <==> src in Sources(g.mask);
    assert forall r: Request :: Granted(g, r).log != g.log;
  }

  /** A halted queue must stay inactive until its reset; a pause that fails reactivates it all the same. */
  lemma FailedPauseReopensHaltedQueue()
    ensures exists g :: Runs(START, [Halt, CallPause(Firmware), PauseDone(NotPaused)], g) && g.active && g.stalled
  {
    var steps := [Halt, CallPause(Firmware), PauseDone(NotPaused)];
    var g1 := Next(START, steps[0]);
    var g2 := Next(g1, steps[1]);
    var g3 := Next(g2, steps[2]);
    assert steps[1..][1..][1..] == [];
    assert Runs(g2, steps[1..][1..], g3);
    assert Runs(g1, steps[1..], g3);
    assert Runs(START, steps, g3);
  }

  /** It happens exactly when a pause fails or a resume succeeds while the queue is halted. */
  lemma ReopensHaltedExactly(steps: seq<Step>, g: Gate, step: Step)
    requires Runs(START, steps, g) && Enabled(g, step) && !g.active
    ensures Next(g, step).active && Next(g, step).stalled <==>
            g.stalled && (step == ResumeDone(true) || step == PauseDone(NotPaused) || step == PauseDone(NotFlushed(true)))
  {
    hide Runs, Bit;
  }

  // ------------------------------------------------------------------ the object

  /** A whole pause call, with what the firmware and the flushes answered. */
  function PauseCall(g: Gate, src: PauseSource, result: PauseResult): Gate
    requires g.phase == Free
  {
    var h := Next(g, CallPause(src));
    if h.phase.Pausing? then Next(h, PauseDone(result)) else h
  }

  function ResumeCall(g: Gate, src: PauseSource, ok: bool): Gate
    requires g.phase == Free
  {
    var h := Next(g, CallResume(src));
    if h.phase == Free then h
    else
      var k := Next(h, ResumeDone(ok));
      if k.phase == Free then k else Next(k, Release)
  }

  class PausableQueue {
    var pausedBy: Mask
    var active: bool
    var stalled: bool
    ghost var log: seq<Request>

    ghost function View(): Gate
      reads this
    {
      Gate(pausedBy, active, stalled, Free, log)
    }

    constructor ()
      ensures View() == START
    {
      pausedBy, active, stalled, log := 0, true, false, [];
    }

    method Pause(src: PauseSource, result: PauseResult) returns (paused: bool)
      requires pausedBy < 16
      modifies this
      ensures View() == PauseCall(old(View()), src, result)
      ensures pausedBy < 16 && (paused <==> src in Sources(pausedBy))
    {
      paused := true;
      SetBit(pausedBy, src);
      if pausedBy & Bit(src) != Bit(src) {
        if pausedBy == 0 {
          active := false;
          paused := result == Drained;
          if !paused && result != NotFlushed(false) {
            active := true;
          }
        }
        if paused {
          pausedBy := pausedBy | Bit(src);
          log := log + [Paused(src)];
        }
      }
    }

    method Resume(src: PauseSource, ok: bool) returns (resumed: bool)
      requires pausedBy < 16
      modifies this
      ensures View() == ResumeCall(old(View()), src, ok)
      ensures pausedBy < 16 && (resumed <==> src !in Sources(pausedBy))
    {
      resumed := true;
      ClearBit(pausedBy, src);
      if pausedBy & Bit(src) != 0 {
        if pausedBy & !Bit(src) == 0 {
          resumed := ok;
          if ok {
            active := true;
          }
        }
        if resumed {
          pausedBy := pausedBy & !Bit(src);
          log := log + [Resumed(src)];
        }
      }
    }

    /** The reset worker: under the lock it pauses the queue for itself, then it resumes like any other source. */
    method Reset(ok: bool) returns (reset: bool)
      requires pausedBy < 16
      modifies this
      ensures reset == old(stalled) && pausedBy < 16
      ensures View() == if reset then ResumeCall(Next(Next(old(View()), CallReset), ResetDone), InternalWork, ok) else old(View())
    {
      reset := stalled;
      if reset {
        active := false;
        SetBit(pausedBy, InternalWork);
        pausedBy := pausedBy | Bit(InternalWork);
        log := log + [Paused(InternalWork)];
        stalled := false;
        var _ := Resume(InternalWork, ok);
      }
    }
  }
}
