/**
 OUT exactness in the driver's own terms: a pause drains and flushes the ring, and
 nothing may be posted from then until the endpoint reopens.
 */
module OutPauses {
  import opened Prelude
  import opened SegmentLists
  import opened Urbs
  import opened TransferQueues
  import opened OutExactness
  import opened OutLimits
  import TransferSafety

  /** Whether the ring was flushed on the inactive endpoint that is still to be reopened. */
  predicate DrainedAfter(q: Tq, drained: bool, step: Step) {
    match step
    case Flushed => !q.flags.active
    case Reopen => false
    case PauseFailed => false
    case _ => drained
  }

  /**
   What the driver can test before each step: a started request is unlinked and the
   endpoint reopened only after a flush; and while the endpoint is drained, no
   request is submitted and no completion handled with a message still deferred.
   */
  ghost predicate Prudent(q: Tq, drained: bool, step: Step)
    requires Wf(q)
  {
    match step
    case Submit(_, u, _) => u.dir == Out && BufferOk(u) && (drained ==> q.evq == [])
    case Finished(_, _) => drained ==> q.evq == []
    case CancelUnlink => q.desk.worker.Popped? && q.desk.worker.id in q.book.urbs && q.book.urbs[q.desk.worker.id].cancelWasActive ==> drained
    case Reopen => drained
    case _ => true
  }

  ghost predicate PrudentRuns(q: Tq, drained: bool, steps: seq<Step>, env: Env, r: Tq)
    decreases |steps|
  {
    if steps == [] then q == r
    else
      && Wf(q) && Enabled(q, steps[0]) && Prudent(q, drained, steps[0])
      && PrudentRuns(Next(q, steps[0], env), DrainedAfter(q, drained, steps[0]), steps[1..], env, r)
  }

  /** A drained endpoint is inactive and has nothing in flight. */
  ghost predicate Dry(q: Tq) {
    !q.flags.active && q.wire.toDevice == []
  }

  lemma PrudentIsCalm(q: Tq, drained: bool, step: Step)
    requires OutInv(q) && Enabled(q, step) && Prudent(q, drained, step) && (drained ==> Dry(q))
    ensures Calm(q, step)
  {
    if step.CancelUnlink? && !drained && q.wire.toDevice != [] {
      OutInvFacts(q);
      assert Carried(q.book.urbs[q.book.list[0]], q.wire.toDevice[0].sub);
      assert q.book.urbs[q.desk.worker.id].state == Cancelled;
    }
    hide TransferSafety.Inv, UrbsOut, Kept, Exact, BufferOk, Covers;
  }

  lemma DryInit(q: Tq, env: Env)
    requires OutInv(q) && Dry(q) && q.evq == []
    ensures Dry(DeliverPending(q, env))
  {
    WfOf(q);
    OutInvAllOut(q);
    hide OutInv, TransferSafety.Inv;
    InitStill(q, q.book.list, env);
    hide InitPendingUrbs;
  }

  lemma OutInvAllOut(q: Tq)
    requires OutInv(q)
    ensures TransferSafety.Inv(q) && Wf(q) && AllOut(q.book)
  {
    forall x | x in q.book.list
      ensures q.book.urbs[x].dir == Out && !q.book.urbs[x].control
    {
      assert OutUrb(q.book.urbs[x], q.wire.moved[x]);
    }
  }

  lemma DryCreate(q: Tq, id: nat, u: Urb, linked: bool, env: Env)
    requires OutInv(q) && Dry(q) && q.evq == [] && Enabled(q, Submit(id, u, linked)) && !q.control && u.dir == Out && BufferOk(u)
    ensures Dry(Create(q, id, u, linked, env))
  {
    OutInvAllOut(q);
    if linked {
      LinkOut(q, id, u);
      LinkWf(q, id, u);
      var q1 := Link(q, id, u).(desk := q.desk.(accepted := q.desk.accepted + {id}));
      var flags := q.flags.(resetQueued := q.flags.resetQueued || q.flags.stalled);
      EvqOut(q1, q1.evq, flags, q1.tick);
      assert Dry(q1.(flags := flags));
      hide OutInv, TransferSafety.Inv, DeliverPending, Link, Wf, New;
      DryInit(q1.(flags := flags), env);
    }
  }

  lemma DryCompletions(q: Tq, dir: Direction, cs: seq<Completed>, env: Env)
    requires OutInv(q) && Dry(q) && q.evq == []
    ensures Dry(Completions(q, dir, cs, env))
  {
    OutInvAllOut(q);
    assert CompleteMany(q, dir, cs, env) == q;
    hide OutInv, TransferSafety.Inv, CompleteMany, DeliverPending;
    DryInit(q, env);
  }

  /** While the endpoint is drained nothing is posted. */
  lemma StaysDry(q: Tq, drained: bool, step: Step, env: Env)
    requires OutInv(q) && !q.control && Enabled(q, step) && Prudent(q, drained, step) && (drained ==> Dry(q))
    ensures Wf(q) && (DrainedAfter(q, drained, step) ==> Dry(Next(q, step, env)))
  {
    OutInvAllOut(q);
    hide OutInv, TransferSafety.Inv, Wf, BufferOk, Create, Completions, DoResume, DeliverPending, New;
    if drained {
      match step
      case Submit(id, u, linked) => DryCreate(q, id, u, linked, env);
      case Finished(dir, cs) => DryCompletions(q, dir, cs, env);
      case _ =>
    }
  }

  lemma {:induction false} PrudentRunsAreCalm(q: Tq, drained: bool, steps: seq<Step>, env: Env, r: Tq)
    requires OutInv(q) && !q.control && (drained ==> Dry(q)) && PrudentRuns(q, drained, steps, env, r)
    ensures OutRuns(q, steps, env, r)
    decreases |steps|
  {
    hide OutInv, Next, Prudent, Calm, Enabled, Dry;
    if steps != [] {
      PrudentIsCalm(q, drained, steps[0]);
      StaysDry(q, drained, steps[0], env);
      NextOut(q, steps[0], env);
      PrudentRunsAreCalm(Next(q, steps[0], env), DrainedAfter(q, drained, steps[0]), steps[1..], env, r);
    }
  }

  /**
   Over every prudent run a request given back with status 0 had exactly the first
   `length` bytes of its buffer moved, in order and once each.
   */
  lemma PrudentExact(maxActive: nat, steps: seq<Step>, env: Env, r: Tq, g: Giveback)
    requires PrudentRuns(Fresh(false, maxActive), false, steps, env, r)
    requires g in r.desk.given && g.status == 0
    ensures g.id in r.requests && g.id in r.wire.moved
    ensures var u := r.requests[g.id];
            u.length <= |BufferBytes(u)| && r.wire.moved[g.id] == BufferBytes(u)[..u.length]
  {
    hide PrudentRuns, OutRuns;
    var q := Fresh(false, maxActive);
    TransferSafety.FreshInv(false, maxActive);
    assert OutInv(q) by { hide TransferSafety.Inv; }
    hide OutInv;
    PrudentRunsAreCalm(q, false, steps, env, r);
    OutExact(maxActive, steps, env, r, g);
  }

  // ------------------------------------------------------------------ a window deferred across a pause

  function Waiting(dma: nat): Urb {
    BulkOut(dma).(state := WaitRequest)
  }

  /** A pause drains the ring, and two sources hold it. */
  lemma PausedTwice(q: Tq) returns (r: Tq)
    requires Wf(q) && q.wire.toDevice == [] && q.wire.fromDevice == []
    ensures r == q.(flags := q.flags.(active := false, pausedBy := {Firmware, Suspend})) && Wf(r)
    ensures OutRuns(q, [Pause] + [Flushed] + [SetPaused({Firmware, Suspend})], ALL, r)
  {
    var q1 := q.(flags := q.flags.(active := false));
    r := q1.(flags := q1.flags.(pausedBy := {Firmware, Suspend}));
    assert Wf(q1) && Wf(r);
    hide OutRuns, Wf;
    OneStep(q, Pause, ALL);
    OneStep(q1, Flushed, ALL);
    OneStep(q1, SetPaused({Firmware, Suspend}), ALL);
    OutRunsConcat(q, [Pause], q1, [Flushed], q1, ALL);
    OutRunsConcat(q, [Pause] + [Flushed], q1, [SetPaused({Firmware, Suspend})], r, ALL);
  }

  /** A window that comes in while the system is suspended is kept; then the system resumes, and firmware still pauses. */
  lemma WindowKept(q: Tq) returns (r: Tq)
    requires Wf(q) && !q.flags.active && Suspend in q.flags.pausedBy && q.evq == []
    ensures r == q.(flags := q.flags.(pausedBy := {Firmware}), evq := [WINDOW], tick := q.tick + 1) && Wf(r)
    ensures OutRuns(q, [Incoming(WINDOW)] + [SetPaused({Firmware})], ALL, r)
  {
    var q1 := q.(evq := [WINDOW], tick := q.tick + 1);
    assert Event(q, WINDOW, ALL) == q1;
    r := q1.(flags := q1.flags.(pausedBy := {Firmware}));
    assert Wf(q1) && Wf(r);
    hide OutRuns, Wf, Event;
    OneStep(q, Incoming(WINDOW), ALL);
    OneStep(q1, SetPaused({Firmware}), ALL);
    OutRunsConcat(q, [Incoming(WINDOW)], q1, [SetPaused({Firmware})], r, ALL);
  }

  const PAUSED: seq<Step> := [Pause] + [Flushed] + [SetPaused({Firmware, Suspend})] + ([Incoming(WINDOW)] + [SetPaused({Firmware})])

  lemma WindowDeferred(q: Tq) returns (r: Tq)
    requires Wf(q) && q.evq == [] && q.wire.toDevice == [] && q.wire.fromDevice == []
    ensures r == q.(flags := q.flags.(active := false, pausedBy := {Firmware}), evq := [WINDOW], tick := q.tick + 1)
    ensures Wf(r) && OutRuns(q, PAUSED, ALL, r)
  {
    hide OutRuns, Wf;
    var q1 := PausedTwice(q);
    r := WindowKept(q1);
    OutRunsConcat(q, [Pause] + [Flushed] + [SetPaused({Firmware, Suspend})], q1, [Incoming(WINDOW)] + [SetPaused({Firmware})], r, ALL);
  }

  /** The next submission delivers that window on the inactive endpoint: the first request is posted. */
  lemma PostedWhilePaused(q: Tq) returns (r: Tq)
    requires Wf(q) && !q.control && !q.flags.active && !q.flags.stalled && q.evq == [WINDOW] && 1 !in q.desk.accepted
    requires q.book.list == [0] && q.book.urbs[0] == Waiting(0x1000) && q.book.remaining > 0
    ensures r == Create(q, 1, BulkOut(0x2000), true, ALL) && Wf(r)
    ensures r.book.list == [0, 1] && r.book.urbs[0] == InFlightUrb(0x1000) && r.book.urbs[1] == Waiting(0x2000)
    ensures r.wire.toDevice == q.wire.toDevice + [Posted(0, Single(0x1000, 512))] && r.wire.moved == q.wire.moved[1 := []]
    ensures r.evq == [] && r.flags == q.flags && r.control == q.control && r.desk.given == q.desk.given
    ensures r.requests == q.requests[1 := BulkOut(0x2000)]
  {
    LinkWf(q, 1, BulkOut(0x2000));
    var q1 := Link(q, 1, BulkOut(0x2000)).(desk := q.desk.(accepted := q.desk.accepted + {1}));
    assert q1.book.list == [0, 1] && q1.book.urbs[0] == Waiting(0x1000) && q1.book.urbs[1] == BulkOut(0x2000);
    var q2 := DeliveredFirst(q1);
    r := SecondStarts(q2);
    assert q1.(flags := q.flags.(resetQueued := q.flags.resetQueued || q.flags.stalled)) == q1;
    hide Deliver, InitPendingUrbs, Link;
  }

  lemma DeliveredFirst(q: Tq) returns (r: Tq)
    requires Wf(q) && q.evq == [WINDOW] && q.book.list == [0, 1] && q.book.urbs[0] == Waiting(0x1000)
    ensures Wf(r) && r == Deliver(q, ALL)
    ensures r == q.(book := q.book.(urbs := q.book.urbs[0 := InFlightUrb(0x1000)]), evq := [], tick := q.tick + 1,
                    wire := q.wire.(toDevice := q.wire.toDevice + [Posted(0, Single(0x1000, 512))]))
  {
    hide Update;
    WindowUpdate(0x1000, ALL(q.tick));
    var o := UpdateHead(q, WINDOW, ALL);
    UpdateHeadWf(q, WINDOW, ALL);
    r := Settle(q, 0, o).(evq := []);
    assert q.evq[1..] == [];
    hide UpdateHead;
    assert Deliver(r, ALL) == r;
  }

  lemma SecondStarts(q: Tq) returns (r: Tq)
    requires Wf(q) && q.book.list == [0, 1] && q.book.remaining > 0
    requires q.book.urbs[0].state != InitPending && q.book.urbs[1] == BulkOut(0x2000)
    ensures Wf(r) && r == InitPendingUrbs(q, q.book.list, ALL)
    ensures r == q.(book := q.book.(urbs := q.book.urbs[1 := Waiting(0x2000)], remaining := q.book.remaining - 1), tick := q.tick + 1)
  {
    StartWf(q, 1, ALL);
    r := TransferQueues.Start(q, 1, ALL);
    assert [0, 1][1..] == [1] && [1][1..] == [];
    assert InitPendingUrbs(r, [], ALL) == r;
    assert InitPendingUrbs(q, [1], ALL) == r;
    hide TransferQueues.Start;
  }

  /** The walk takes the posted request for flushed and lets it wait again; its submission is still in flight. */
  lemma WaitsAgain(q: Tq) returns (r: Tq)
    requires Wf(q) && q.evq == [] && q.book.list == [0, 1] && q.book.urbs[0] == InFlightUrb(0x1000) && q.book.urbs[1] == Waiting(0x2000)
    ensures Wf(r) && r == DoResume(q, ALL)
    ensures r == q.(flags := q.flags.(active := true), tick := q.tick + 2, book := q.book.(urbs := r.book.urbs))
    ensures 0 in r.book.urbs && 1 in r.book.urbs && r.book.urbs[0] == Waiting(0x1000) && r.book.urbs[1] == Waiting(0x2000)
  {
    var a := Activate(q);
    ResumeOneWf(a, 0, ALL);
    var q1 := ResumeOne(a, 0, ALL);
    assert q1.book.urbs[0] == Waiting(0x1000) && q1.book.list == [0, 1] && q1.book.urbs[1] == Waiting(0x2000);
    ResumeOneWf(q1, 1, ALL);
    r := ResumeOne(q1, 1, ALL);
    assert r.book.urbs[0] == Waiting(0x1000) && r.book.urbs[1] == Waiting(0x2000) && r.book.list == [0, 1];
    assert [0, 1][1..] == [1] && [1][1..] == [];
    assert ResumeUrbs(a, [0, 1], ALL) == r by {
      hide ResumeOne;
      assert ResumeUrbs(r, [], ALL) == r;
      assert ResumeUrbs(q1, [1], ALL) == r;
    }
    NothingPending(r, ALL);
    hide ResumeOne, ResumeUrbs, DeliverPending;
  }

  /** Its completion finds a request that waits for a window, and is ignored; its bytes have been moved. */
  lemma Ignored(q: Tq) returns (r: Tq)
    requires Wf(q) && q.evq == [] && q.book.list == [0, 1] && q.book.urbs[0] == Waiting(0x1000) && q.book.urbs[1] == Waiting(0x2000)
    requires q.wire.toDevice == [Posted(0, Single(0x1000, 512))] && q.wire.moved[0] == []
    ensures Wf(r) && r == Completions(q, Out, [Completed(COMPLETED_SUCCESS, 512)], ALL)
    ensures r == q.(tick := q.tick + 1, wire := q.wire.(toDevice := [], moved := q.wire.moved[0 := Bytes(0x1000, 512)]))
  {
    var c := Completed(COMPLETED_SUCCESS, 512);
    RetireWf(q.wire, q.book.list, Out, c);
    r := CompleteOne(q, Out, c, ALL);
    assert q.book.urbs[0 := Waiting(0x1000)] == q.book.urbs;
    assert Bytes(0x1000, 512)[..512] == Bytes(0x1000, 512) && [] + Bytes(0x1000, 512) == Bytes(0x1000, 512);
    assert CompleteMany(q, Out, [c], ALL) == CompleteMany(r, Out, [], ALL) == r;
    NothingPending(r, ALL);
    hide DeliverPending, CompleteOne, CompleteMany;
  }

  /** The next window posts the same bytes again. */
  lemma PostedAgain(q: Tq) returns (r: Tq)
    requires Wf(q) && q.flags.active && q.evq == [] && q.wire.toDevice == []
    requires q.book.list == [0, 1] && q.book.urbs[0] == Waiting(0x1000) && q.book.urbs[1] == Waiting(0x2000)
    ensures Wf(r) && r == Event(q, WINDOW, ALL)
    ensures r == q.(book := q.book.(urbs := q.book.urbs[0 := InFlightUrb(0x1000)]), tick := q.tick + 1,
                    wire := q.wire.(toDevice := [Posted(0, Single(0x1000, 512))]))
  {
    hide Update;
    NothingPending(q, ALL);
    WindowUpdate(0x1000, ALL(q.tick));
    var o := UpdateHead(q, WINDOW, ALL);
    UpdateHeadWf(q, WINDOW, ALL);
    r := Settle(q, 0, o);
    assert r.book.list == [0, 1] && r.book.urbs[1] == Waiting(0x2000);
    NobodyWaits(r, r.book.list, ALL);
    hide DeliverPending, UpdateHead, InitPendingUrbs;
  }

  /** This time the request is finished. */
  lemma FinishedTwiceMoved(q: Tq) returns (r: Tq)
    requires Wf(q) && q.evq == [] && q.book.list == [0, 1] && q.book.urbs[0] == InFlightUrb(0x1000) && q.book.urbs[1] == Waiting(0x2000)
    requires q.wire.toDevice == [Posted(0, Single(0x1000, 512))]
    ensures Wf(r) && r == Completions(q, Out, [Completed(COMPLETED_SUCCESS, 512)], ALL)
    ensures Giveback(0, 0) in r.book.giveback && r.requests == q.requests
    ensures 0 in r.wire.moved && r.wire.moved[0] == q.wire.moved[0] + Bytes(0x1000, 512)
  {
    var c := Completed(COMPLETED_SUCCESS, 512);
    RetireWf(q.wire, q.book.list, Out, c);
    r := CompleteOne(q, Out, c, ALL);
    assert Bytes(0x1000, 512)[..512] == Bytes(0x1000, 512);
    assert r.book.list == [1] && r.book.urbs[1] == Waiting(0x2000) && r.evq == [];
    assert r.book.giveback == q.book.giveback + [Giveback(0, 0)];
    assert CompleteMany(q, Out, [c], ALL) == CompleteMany(r, Out, [], ALL) == r;
    NothingPending(r, ALL);
    hide DeliverPending, CompleteOne, CompleteMany;
  }

  const FINISHED: Step := Finished(Out, [Completed(COMPLETED_SUCCESS, 512)])

  const BEFORE: seq<Step> := [Submit(0, BulkOut(0x1000), true)] + PAUSED + [Submit(1, BulkOut(0x2000), true)]
  const AFTER: seq<Step> := [SetPaused({})] + [FINISHED] + [Incoming(WINDOW)] + [FINISHED] + [HandBack]

  /** Up to the moment before the endpoint reopens, every step is calm; only the second submission is not prudent. */
  lemma UpToReopen() returns (r: Tq)
    ensures Wf(r) && r.evq == [] && r.book.list == [0, 1] && r.book.urbs[0] == InFlightUrb(0x1000) && r.book.urbs[1] == Waiting(0x2000)
    ensures r.wire.toDevice == [Posted(0, Single(0x1000, 512))] && 0 in r.wire.moved && r.wire.moved[0] == []
    ensures 0 in r.requests && r.requests[0] == BulkOut(0x1000)
    ensures OutRuns(Fresh(false, 4), BEFORE, ALL, r)
  {
    hide OutRuns, Wf, Create;
    var q0 := Fresh(false, 4);
    TransferSafety.FreshInv(false, 4);
    assert Empty(q0);
    var q1 := LinkOnly(q0, 0, 0x1000, ALL);
    OneStep(q0, Submit(0, BulkOut(0x1000), true), ALL);
    var q2 := WindowDeferred(q1);
    OutRunsConcat(q0, [Submit(0, BulkOut(0x1000), true)], q1, PAUSED, q2, ALL);
    r := PostedWhilePaused(q2);
    OneStep(q2, Submit(1, BulkOut(0x2000), true), ALL);
    OutRunsConcat(q0, [Submit(0, BulkOut(0x1000), true)] + PAUSED, q2, [Submit(1, BulkOut(0x2000), true)], r, ALL);
  }

  /** From the reopening on. */
  lemma FromReopen(q: Tq) returns (r: Tq)
    requires Wf(q) && q.evq == [] && q.book.list == [0, 1] && q.book.urbs[0] == InFlightUrb(0x1000) && q.book.urbs[1] == Waiting(0x2000)
    requires q.wire.toDevice == [Posted(0, Single(0x1000, 512))] && q.wire.moved[0] == []
    ensures Giveback(0, 0) in r.desk.given && r.requests == q.requests
    ensures 0 in r.wire.moved && r.wire.moved[0] == Bytes(0x1000, 512) + Bytes(0x1000, 512)
    ensures OutRuns(DoResume(q, ALL), AFTER, ALL, r)
  {
    hide OutRuns, Wf, DoResume, Completions, Event, Bytes;
    var q0 := WaitsAgain(q);
    var q1 := q0.(flags := q0.flags.(pausedBy := {}));
    assert Wf(q1) by { WfFlags(q0, q1.flags); }
    OneStep(q0, SetPaused({}), ALL);
    var q2 := Ignored(q1);
    OneStep(q1, FINISHED, ALL);
    OutRunsConcat(q0, [SetPaused({})], q1, [FINISHED], q2, ALL);
    var q3 := PostedAgain(q2);
    OneStep(q2, Incoming(WINDOW), ALL);
    OutRunsConcat(q0, [SetPaused({})] + [FINISHED], q2, [Incoming(WINDOW)], q3, ALL);
    var q4 := FinishedTwiceMoved(q3);
    OneStep(q3, FINISHED, ALL);
    OutRunsConcat(q0, [SetPaused({})] + [FINISHED] + [Incoming(WINDOW)], q3, [FINISHED], q4, ALL);
    r := DrainGiveback(q4);
    OneStep(q4, HandBack, ALL);
    OutRunsConcat(q0, [SetPaused({})] + [FINISHED] + [Incoming(WINDOW)] + [FINISHED], q4, [HandBack], r, ALL);
  }

  lemma WfFlags(q: Tq, flags: Flags)
    requires Wf(q)
    ensures Wf(q.(flags := flags))
  {
  }

  lemma ReopenRuns(q: Tq)
    requires Wf(q)
    ensures Runs(q, [Reopen], ALL, DoResume(q, ALL))
  {
    hide Wf, DoResume;
    assert [Reopen][1..] == [];
  }

  /**
   A pause that succeeds is not enough. A window deferred while the system was
   suspended is delivered by a later submission to the endpoint that firmware still
   holds paused; after the reopening the request is sent a second time. No pause
   fails and nothing is cancelled in this run, and the ring is empty at the pause.
   */
  lemma DeferredWindowSendsTwice() returns (r: Tq)
    ensures Giveback(0, 0) in r.desk.given && 0 in r.requests && r.requests[0] == BulkOut(0x1000)
    ensures 0 in r.wire.moved && r.wire.moved[0] == Bytes(0x1000, 512) + Bytes(0x1000, 512)
    ensures Runs(Fresh(false, 4), BEFORE + [Reopen] + AFTER, ALL, r)
  {
    hide OutRuns, Runs, Wf, DoResume, Bytes;
    var q0 := Fresh(false, 4);
    var q1 := UpToReopen();
    CalmRunsAreRuns(q0, BEFORE, ALL, q1);
    ReopenRuns(q1);
    var q2 := DoResume(q1, ALL);
    RunsConcat(q0, BEFORE, q1, [Reopen], q2, ALL);
    r := FromReopen(q1);
    CalmRunsAreRuns(q2, AFTER, ALL, r);
    RunsConcat(q0, BEFORE + [Reopen], q2, AFTER, r, ALL);
  }
}
