/** The condition under which OUT transfers are exact is needed: every other unlink or reopen can end in a wrong result. */
module OutLimits {
  import opened Prelude
  import opened SegmentLists
  import opened Urbs
  import opened TransferQueues
  import opened OutExactness
  import TransferSafety

  // ------------------------------------------------------------------ pieces of runs

  lemma {:induction false} OutRunsConcat(q: Tq, a: seq<Step>, r: Tq, b: seq<Step>, s: Tq, env: Env)
    requires OutRuns(q, a, env, r) && OutRuns(r, b, env, s)
    ensures OutRuns(q, a + b, env, s)
    decreases |a|
  {
    hide Next, Wf, Enabled, Calm;
    if a == [] {
      assert a + b == b;
    } else {
      OutRunsConcat(Next(q, a[0], env), a[1..], r, b, s, env);
      assert (a + b)[1..] == a[1..] + b;
    }
  }

  lemma {:induction false} CalmRunsAreRuns(q: Tq, steps: seq<Step>, env: Env, r: Tq)
    requires OutRuns(q, steps, env, r)
    ensures Runs(q, steps, env, r)
    decreases |steps|
  {
    hide Next, Wf, Enabled, Calm;
    if steps != [] {
      CalmRunsAreRuns(Next(q, steps[0], env), steps[1..], env, r);
    }
  }

  lemma OneStep(q: Tq, step: Step, env: Env)
    requires Wf(q) && Enabled(q, step) && Calm(q, step)
    ensures OutRuns(q, [step], env, Next(q, step, env))
  {
    hide Next, Wf, Enabled, Calm;
    assert [step][1..] == [];
  }

  predicate Granted(g: Grants) {
    g.toDevice && g.fromDevice && g.message && g.memory
  }

  function BulkOut(dma: nat): Urb {
    Urb(Out, false, true, 512, Linear(dma), 0, false, InitPending, 0, 0, 0, 0, 0, false, false)
  }

  function InFlightUrb(dma: nat): Urb {
    BulkOut(dma).(state := WaitCompletion, requestEnd := 512, submitted := 512)
  }

  const WINDOW: Message := Message(CMD_TRANSFER_REQUEST, 0, 512)

  function LinkSteps(id: nat, dma: nat): seq<Step> {
    [Submit(id, BulkOut(dma), true), Incoming(WINDOW)]
  }

  ghost predicate Empty(q: Tq) {
    Wf(q) && !q.control && q.flags.active && q.evq == [] && q.book.list == [] && q.book.remaining > 0
  }

  lemma {:induction false} NobodyWaits(q: Tq, ids: seq<nat>, env: Env)
    requires Wf(q) && forall id :: id in ids ==> id in q.book.list && q.book.urbs[id].state != InitPending
    ensures InitPendingUrbs(q, ids, env) == q
    decreases |ids|
  {
    hide Wf, TransferQueues.Start;
    if ids != [] {
      NobodyWaits(q, ids[1..], env);
    }
  }

  /** With no message deferred and nobody waiting for a credit there is nothing to deliver. */
  lemma NothingPending(q: Tq, env: Env)
    requires Wf(q) && q.evq == [] && forall id :: id in q.book.list ==> q.book.urbs[id].state != InitPending
    ensures DeliverPending(q, env) == q
  {
    NobodyWaits(q, q.book.list, env);
    hide InitPendingUrbs, Wf;
  }

  /** The only request of an idle endpoint starts. */
  lemma LinkOnly(q: Tq, id: nat, dma: nat, env: Env) returns (r: Tq)
    requires Empty(q) && id !in q.desk.accepted
    ensures Wf(r) && r == Create(q, id, BulkOut(dma), true, env)
    ensures r == q.(book := q.book.(urbs := q.book.urbs[id := BulkOut(dma).(state := WaitRequest)], list := [id],
                                    remaining := q.book.remaining - 1),
                    desk := q.desk.(accepted := q.desk.accepted + {id}),
                    wire := q.wire.(moved := q.wire.moved[id := []]),
                    requests := q.requests[id := BulkOut(dma)], tick := q.tick + 1)
  {
    hide DeliverPending, TransferQueues.Start, Begin;
    LinkWf(q, id, BulkOut(dma));
    var q1 := Link(q, id, BulkOut(dma)).(desk := q.desk.(accepted := q.desk.accepted + {id}));
    assert q1.book.list == [id] && q1.book.urbs[id] == BulkOut(dma);
    StartWf(q1, id, env);
    BeginBulk(dma, env(q.tick));
    r := StartedBulk(q1, id, dma, env);
    hide Wf;
    NothingPending(r, env);
  }

  lemma BeginBulk(dma: nat, g: Grants)
    ensures Begin(BulkOut(dma), g) == Attempt(BulkOut(dma).(state := WaitRequest), None, 0)
  {
  }

  lemma StartedBulk(q: Tq, id: nat, dma: nat, env: Env) returns (r: Tq)
    requires Wf(q) && id in q.book.list && q.book.urbs[id] == BulkOut(dma) && q.book.remaining > 0
    ensures r == TransferQueues.Start(q, id, env) && Wf(r)
    ensures r == q.(book := q.book.(urbs := q.book.urbs[id := BulkOut(dma).(state := WaitRequest)], remaining := q.book.remaining - 1),
                    tick := q.tick + 1)
  {
    StartWf(q, id, env);
    hide Begin, Wf;
    BeginBulk(dma, env(q.tick));
    r := TransferQueues.Start(q, id, env);
  }

  lemma WindowUpdate(dma: nat, g: Grants)
    requires Granted(g)
    ensures Sane(BulkOut(dma).(state := WaitRequest))
    ensures Update(BulkOut(dma).(state := WaitRequest), WINDOW, g) == Outcome(InFlightUrb(dma), Some(ToDevice(Single(dma, 512))), Fine)
  {
  }

  /** The window of the only request posts all of it. */
  lemma WindowPosts(q: Tq, id: nat, dma: nat, env: Env) returns (r: Tq)
    requires Wf(q) && q.flags.active && q.evq == [] && q.book.list == [id] && q.book.urbs[id] == BulkOut(dma).(state := WaitRequest)
    requires Granted(env(q.tick))
    ensures r == Event(q, WINDOW, env) && Wf(r)
    ensures r == q.(book := q.book.(urbs := q.book.urbs[id := InFlightUrb(dma)]),
                    wire := q.wire.(toDevice := q.wire.toDevice + [Posted(id, Single(dma, 512))]), tick := q.tick + 1)
  {
    hide Update;
    NothingPending(q, env);
    WindowUpdate(dma, env(q.tick));
    var o := UpdateHead(q, WINDOW, env);
    UpdateHeadWf(q, WINDOW, env);
    var q2 := Settle(q, id, o);
    NobodyWaits(q2, q2.book.list, env);
    hide DeliverPending, UpdateHead, InitPendingUrbs;
    r := q2;
  }

  /** On an idle endpoint a request is linked, started, and posted when its window opens. */
  lemma LinkAndPost(q: Tq, id: nat, dma: nat, env: Env) returns (r: Tq)
    requires Empty(q) && id !in q.desk.accepted && Granted(env(q.tick + 1))
    ensures r.control == q.control && r.flags == q.flags && r.evq == [] && r.desk == q.desk.(accepted := q.desk.accepted + {id})
    ensures r.book.list == [id] && id in r.book.urbs && r.book.urbs[id] == InFlightUrb(dma) && r.book.remaining == q.book.remaining - 1
    ensures r.wire.toDevice == q.wire.toDevice + [Posted(id, Single(dma, 512))] && id in r.wire.moved && r.wire.moved[id] == []
    ensures id in r.requests && r.requests[id] == BulkOut(dma) && r.tick == q.tick + 2
    ensures Wf(r) && OutRuns(q, LinkSteps(id, dma), env, r)
  {
    hide Create, Event, Wf, OutRuns;
    var r1 := LinkOnly(q, id, dma, env);
    r := WindowPosts(r1, id, dma, env);
    OneStep(q, Submit(id, BulkOut(dma), true), env);
    OneStep(r1, Incoming(WINDOW), env);
    OutRunsConcat(q, [Submit(id, BulkOut(dma), true)], r1, [Incoming(WINDOW)], r, env);
    assert LinkSteps(id, dma) == [Submit(id, BulkOut(dma), true)] + [Incoming(WINDOW)];
  }

  const CREDIT_STEPS: seq<Step> := [Finished(Out, [Completed(COMPLETED_SUCCESS, 512)]), HandBack]

  /** The completion of the first submission in flight finishes the only request, whoever posted it. */
  lemma FinishesOldest(q: Tq, id: nat, dma: nat, env: Env) returns (r: Tq)
    requires Wf(q) && q.evq == [] && q.book.list == [id] && q.book.urbs[id] == InFlightUrb(dma) && q.wire.toDevice != []
    ensures r == Completions(q, Out, [Completed(COMPLETED_SUCCESS, 512)], env) && Wf(r)
    ensures r.book.list == [] && r.book.giveback == q.book.giveback + [Giveback(id, 0)]
    ensures r.desk == q.desk && r.requests == q.requests && q.wire.toDevice[0].owner in q.wire.moved
    ensures r.wire == Retire(q.wire, Out, Completed(COMPLETED_SUCCESS, 512))
  {
    var c := Completed(COMPLETED_SUCCESS, 512);
    RetireWf(q.wire, q.book.list, Out, c);
    r := CompleteOne(q, Out, c, env);
    hide Retire, SubmissionBytes;
    assert r.book.list == [] && r.book.giveback == q.book.giveback + [Giveback(id, 0)] && r.evq == [];
    assert CompleteMany(q, Out, [c], env) == CompleteMany(r, Out, [], env) == r;
    NothingPending(r, env);
  }

  lemma CreditSteps(q: Tq, id: nat, dma: nat, env: Env) returns (r: Tq)
    requires Wf(q) && q.evq == [] && q.book.list == [id] && q.book.urbs[id] == InFlightUrb(dma) && q.wire.toDevice != []
    ensures q.wire.toDevice[0].owner in q.wire.moved && r.wire == Retire(q.wire, Out, Completed(COMPLETED_SUCCESS, 512))
    ensures Giveback(id, 0) in r.desk.given && r.requests == q.requests
    ensures OutRuns(q, CREDIT_STEPS, env, r)
  {
    hide Completions, Wf, OutRuns, Retire;
    var r1 := FinishesOldest(q, id, dma, env);
    r := DrainGiveback(r1);
    var f := Finished(Out, [Completed(COMPLETED_SUCCESS, 512)]);
    OneStep(q, f, env);
    OneStep(r1, HandBack, env);
    OutRunsConcat(q, [f], r1, [HandBack], r, env);
    assert CREDIT_STEPS == [f] + [HandBack];
  }

  /** Credited to the oldest request: when another one posted the submission, nothing of it was moved. */
  lemma CreditedToOldest(q: Tq, id: nat, dma: nat, env: Env) returns (r: Tq)
    requires Wf(q) && q.evq == [] && q.book.list == [id] && q.book.urbs[id] == InFlightUrb(dma)
    requires q.wire.toDevice != [] && q.wire.toDevice[0].owner != id && q.wire.moved[id] == []
    requires id in q.requests && q.requests[id] == BulkOut(dma)
    ensures OutRuns(q, CREDIT_STEPS, env, r) && Giveback(id, 0) in r.desk.given
    ensures id in r.wire.moved && r.wire.moved[id] == [] && !Exact(r.wire, r.requests, r.desk.given)
  {
    hide OutRuns, SubmissionBytes;
    r := CreditSteps(q, id, dma, env);
    assert r.wire.moved[id] == [];
    assert |BufferBytes(BulkOut(dma))| == 512;
    hide Retire, BufferBytes;
    assert !MovedTo(r.requests[id], r.wire.moved[id], r.requests[id].length);
    var g := Giveback(id, 0);
    assert g in r.desk.given && g.status == 0;
  }

  // ------------------------------------------------------------------ clearing the list

  /** Nothing but the list, the desk and the credits has changed, and nothing was linked. */
  ghost predicate Aside(q: Tq, r: Tq) {
    && TransferSafety.Inv(r) && SameEndpoint(q, r)
    && r.wire == q.wire && r.evq == q.evq && r.flags == q.flags && r.tick == q.tick
    && forall x :: x in r.book.list ==> x in q.book.list
  }

  /** A submission is in flight and no linked request posted any that are. */
  ghost predicate Orphan(q: Tq) {
    q.wire.toDevice != [] && forall p :: p in q.wire.toDevice ==> p.owner !in q.book.list
  }

  lemma {:induction false} WithoutLength(s: seq<nat>, id: nat)
    requires id in s
    ensures |Without(s, id)| == |s| - 1
  {
    if s[0] != id {
      WithoutLength(s[1..], id);
    }
  }

  lemma WfOf(q: Tq)
    requires TransferSafety.Inv(q)
    ensures Wf(q)
  {
  }

  lemma UnlinkAside(q: Tq)
    requires TransferSafety.Inv(q) && q.desk.worker.Popped?
    ensures q.desk.worker.id in q.book.urbs && q.desk.worker.id in q.book.list
    ensures var r := WorkerUnlink(q);
            Aside(q, r) && r.desk.worker.Unlinked? && |r.book.list| == |q.book.list| - 1
  {
    var id := q.desk.worker.id;
    assert id in q.book.list && Wf(q);
    WithoutLength(q.book.list, id);
    WithoutMembers(q.book.list, id);
    TransferSafety.WorkerUnlinkInv(q);
    hide TransferSafety.Inv, Without;
  }

  lemma GiveAside(q: Tq)
    requires TransferSafety.Inv(q) && q.desk.worker.Unlinked?
    ensures Aside(q, WorkerGive(q)) && WorkerGive(q).desk.worker == Resting && WorkerGive(q).book == q.book
  {
    TransferSafety.WorkerGiveInv(q);
    hide TransferSafety.Inv;
  }

  /** The worker, once it has taken a request, unlinks it and gives it back. */
  lemma UnlinkTaken(q: Tq, env: Env) returns (r: Tq)
    requires TransferSafety.Inv(q) && q.desk.worker.Popped? && Orphan(q)
    ensures Aside(q, r) && r.desk.worker == Resting && |r.book.list| == |q.book.list| - 1
    ensures OutRuns(q, [CancelUnlink] + [CancelGive], env, r)
  {
    hide TransferSafety.Inv, OutRuns, Wf, WorkerGive, WorkerUnlink;
    WfOf(q);
    UnlinkAside(q);
    var r1 := WorkerUnlink(q);
    WfOf(r1);
    GiveAside(r1);
    r := WorkerGive(r1);
    OneStep(q, CancelUnlink, env);
    OneStep(r1, CancelGive, env);
    OutRunsConcat(q, [CancelUnlink], r1, [CancelGive], r, env);
  }

  lemma CancelAside(q: Tq)
    requires TransferSafety.Inv(q) && q.desk.worker == Resting && q.desk.cancel == [] && q.book.list != []
    ensures var r := RequestCancel(q, q.book.list[0], -104);
            Aside(q, r) && r.desk.worker == Resting && r.desk.cancel != [] && r.book.list == q.book.list
  {
    var id := q.book.list[0];
    assert id in q.book.list && q.book.urbs[id].state != Cancelled;
    TransferSafety.RequestCancelInv(q, id, -104);
    hide TransferSafety.Inv;
  }

  lemma PopAside(q: Tq)
    requires TransferSafety.Inv(q) && q.desk.worker == Resting && q.desk.cancel != []
    ensures Aside(q, WorkerPop(q)) && WorkerPop(q).desk.worker.Popped? && WorkerPop(q).book.list == q.book.list
  {
    TransferSafety.WorkerPopInv(q);
    hide TransferSafety.Inv;
  }

  /** A linked request gets into the worker's hand. */
  lemma TakeOne(q: Tq, env: Env) returns (steps: seq<Step>, r: Tq)
    requires TransferSafety.Inv(q) && q.desk.worker == Resting && q.book.list != []
    ensures Aside(q, r) && r.desk.worker.Popped? && r.book.list == q.book.list
    ensures OutRuns(q, steps, env, r)
  {
    hide TransferSafety.Inv, OutRuns, Wf, RequestCancel, WorkerPop;
    WfOf(q);
    if q.desk.cancel == [] {
      var step := CancelRequest(q.book.list[0], -104);
      CancelAside(q);
      OneStep(q, step, env);
      var q1 := RequestCancel(q, q.book.list[0], -104);
      WfOf(q1);
      PopAside(q1);
      OneStep(q1, CancelPop, env);
      r := WorkerPop(q1);
      OutRunsConcat(q, [step], q1, [CancelPop], r, env);
      steps := [step] + [CancelPop];
    } else {
      PopAside(q);
      OneStep(q, CancelPop, env);
      steps, r := [CancelPop], WorkerPop(q);
    }
  }

  /** All linked requests can be cancelled and given back while the orphan stays in flight. */
  lemma {:induction false} ClearAll(q: Tq, env: Env) returns (steps: seq<Step>, r: Tq)
    requires TransferSafety.Inv(q) && Orphan(q) && q.desk.worker == Resting
    ensures Aside(q, r) && r.book.list == []
    ensures OutRuns(q, steps, env, r)
    decreases |q.book.list|
  {
    hide TransferSafety.Inv, OutRuns;
    if q.book.list == [] {
      assert OutRuns(q, [], env, q) by { NoSteps(q, env); }
      return [], q;
    }
    var first, q1 := TakeOne(q, env);
    var q2 := UnlinkTaken(q1, env);
    var rest, q3 := ClearAll(q2, env);
    OutRunsConcat(q, first, q1, [CancelUnlink] + [CancelGive], q2, env);
    OutRunsConcat(q, first + ([CancelUnlink] + [CancelGive]), q2, rest, q3, env);
    return first + ([CancelUnlink] + [CancelGive]) + rest, q3;
  }

  lemma NoSteps(q: Tq, env: Env)
    ensures OutRuns(q, [], env, q)
  {
  }

  /** Wherever the worker is. */
  lemma ClearList(q: Tq, env: Env) returns (steps: seq<Step>, r: Tq)
    requires TransferSafety.Inv(q) && Orphan(q)
    ensures Aside(q, r) && r.book.list == []
    ensures OutRuns(q, steps, env, r)
  {
    hide TransferSafety.Inv, OutRuns;
    if q.desk.worker == Resting {
      steps, r := ClearAll(q, env);
    } else {
      var q1, first;
      if q.desk.worker.Popped? {
        q1 := UnlinkTaken(q, env);
        first := [CancelUnlink] + [CancelGive];
      } else {
        WfOf(q);
        GiveAside(q);
        q1, first := WorkerGive(q), [CancelGive];
        OneStep(q, CancelGive, env);
      }
      var rest, q2 := ClearAll(q1, env);
      OutRunsConcat(q, first, q1, rest, q2, env);
      steps, r := first + rest, q2;
    }
  }

  // ------------------------------------------------------------------ breaking exactness

  /** Reservations and allocations fail before tick t and succeed from then on. */
  function Switch(t: nat): Env {
    (k: nat) => Grants(k >= t, true, true, k >= t)
  }

  /** An empty endpoint is reopened. */
  lemma ReopenEmpty(q: Tq, env: Env)
    requires TransferSafety.Inv(q) && q.book.list == [] && q.evq == [] && !q.control && q.maxActive > 0
    ensures Wf(q) && DoResume(q, env) == Activate(q) && Empty(Activate(q))
    ensures TransferSafety.Inv(Activate(q)) && OutRuns(q, [Reopen], env, Activate(q))
  {
    assert Wf(q) && q.book.remaining == q.maxActive by {
      assert TransferSafety.Holders(q.book) == {};
    }
    var a := Activate(q);
    assert Wf(a);
    TransferSafety.FlagsInv(q, q.evq, a.flags);
    assert ResumeUrbs(a, [], env) == a;
    NothingPending(a, env);
    OneStep(q, Reopen, env);
    hide TransferSafety.Inv, OutRuns, DeliverPending, ResumeUrbs;
  }

  lemma WindowRefused(q: Tq, t: nat)
    requires Empty(q) && q.tick < t
    ensures Event(q, WINDOW, Switch(t)) == q.(tick := q.tick + 1)
  {
    NothingPending(q, Switch(t));
    hide DeliverPending;
  }

  /** Windows that cannot be kept pass the time on an empty endpoint. */
  lemma {:induction false} PassTime(q: Tq, t: nat) returns (steps: seq<Step>, r: Tq)
    requires Empty(q)
    ensures Empty(r) && r.wire == q.wire && r.tick >= t && OutRuns(q, steps, Switch(t), r)
    decreases t - q.tick
  {
    hide OutRuns, Event;
    if q.tick >= t {
      NoSteps(q, Switch(t));
      return [], q;
    }
    var q1 := q.(tick := q.tick + 1);
    WindowRefused(q, t);
    OneStep(q, Incoming(WINDOW), Switch(t));
    var rest, last := PassTime(q1, t);
    hide Empty, Wf;
    OutRunsConcat(q, [Incoming(WINDOW)], q1, rest, last, Switch(t));
    return [Incoming(WINDOW)] + rest, last;
  }

  lemma {:induction false} FreshId(s: set<nat>) returns (id: nat)
    ensures forall x :: x in s ==> x < id
    decreases |s|
  {
    if s == {} {
      return 0;
    }
    var x :| x in s;
    var y := FreshId(s - {x});
    id := Max(x + 1, y);
    assert forall z :: z in s ==> z == x || z in s - {x};
  }

  lemma DropAside(q: Tq, env: Env)
    requires TransferSafety.Inv(q)
    ensures TransferSafety.Inv(q.(evq := [])) && OutRuns(q, [DropEvents], env, q.(evq := []))
  {
    WfOf(q);
    TransferSafety.FlagsInv(q, [], q.flags);
    OneStep(q, DropEvents, env);
    hide TransferSafety.Inv, OutRuns;
  }

  /** From an idle, reopened endpoint with an orphan in flight, the next request is given back for it. */
  lemma NextIsWrong(q: Tq, env: Env) returns (steps: seq<Step>, r: Tq)
    requires Empty(q) && q.wire.toDevice != [] && Granted(env(q.tick + 1))
    ensures OutRuns(q, steps, env, r) && !Exact(r.wire, r.requests, r.desk.given)
  {
    var id := FreshId(q.desk.accepted + {q.wire.toDevice[0].owner});
    hide OutRuns, Wf, LinkSteps, Exact;
    var q1 := LinkAndPost(q, id, 0x2000, env);
    r := CreditedToOldest(q1, id, 0x2000, env);
    OutRunsConcat(q, LinkSteps(id, 0x2000), q1, CREDIT_STEPS, r, env);
    steps := LinkSteps(id, 0x2000) + CREDIT_STEPS;
  }

  /** An orphan in flight has a calm continuation after which a request is wrongly given back with status 0. */
  lemma OrphanBreaks(q: Tq, t: nat) returns (steps: seq<Step>, r: Tq)
    requires TransferSafety.Inv(q) && !q.control && q.maxActive > 0 && Orphan(q)
    ensures OutRuns(q, steps, Switch(t), r) && !Exact(r.wire, r.requests, r.desk.given)
  {
    var env := Switch(t);
    hide TransferSafety.Inv, OutRuns, Wf, Exact;
    DropAside(q, env);
    var q1 := q.(evq := []);
    var clear, q2 := ClearList(q1, env);
    OutRunsConcat(q, [DropEvents], q1, clear, q2, env);
    ReopenEmpty(q2, env);
    var q3 := Activate(q2);
    OutRunsConcat(q, [DropEvents] + clear, q2, [Reopen], q3, env);
    var pass, q4 := PassTime(q3, t);
    OutRunsConcat(q, [DropEvents] + clear + [Reopen], q3, pass, q4, env);
    var wrong;
    wrong, r := NextIsWrong(q4, env);
    OutRunsConcat(q, [DropEvents] + clear + [Reopen] + pass, q4, wrong, r, env);
    steps := [DropEvents] + clear + [Reopen] + pass + wrong;
  }

  // ------------------------------------------------------------------ reopening over a live submission

  ghost predicate AllOut(b: Book)
    requires BookWf(b)
  {
    forall x :: x in b.list ==> b.urbs[x].dir == Out && !b.urbs[x].control
  }

  /** Request h is gone, or it is the oldest and waits for a window although its submission is in flight. */
  ghost predicate Standing(q: Tq, h: nat)
    requires Wf(q)
  {
    h in q.book.list ==> q.book.list[0] == h && q.book.urbs[h].state == WaitRequest && Unfinished(q.book.urbs[h]) && q.flags.active
  }

  /** Without a reservation a message ends the request or is kept for later. */
  lemma DeniedUpdate(u: Urb, m: Message, g: Grants)
    requires Sane(u) && u.dir == Out && !u.control && !g.toDevice
    ensures var o := Update(u, m, g);
            && o.post == None && o.urb.dir == Out
            && (Stays(o.verdict) ==> o == Outcome(u, None, Again))
            && (u.state == WaitRequest && Unfinished(u) && m.cmd == CMD_TRANSFER_REQUEST && m.param2 > 0 ==> !Stays(o.verdict))
  {
    hide OutSubmission;
  }

  ghost predicate Denies(env: Env, t: nat) {
    forall k: nat :: k < t ==> !env(k).toDevice
  }

  /** What the walks below leave alone. */
  ghost predicate Still(q: Tq, r: Tq, ticks: nat) {
    && TransferSafety.Inv(r) && SameEndpoint(q, r) && r.wire == q.wire && AllOut(r.book)
    && q.tick <= r.tick <= q.tick + ticks
  }

  /** An event that leaves the request as it was, or ends it, changes nothing else that matters here. */
  lemma DeniedSettle(q: Tq, id: nat, o: Outcome, h: nat)
    requires Wf(q) && AllOut(q.book) && id in q.book.list && id == q.book.list[0] && Standing(q, h)
    requires o.post == None && o.urb.dir == Out && o.urb.control == q.book.urbs[id].control
    requires Stays(o.verdict) ==> o.urb == q.book.urbs[id]
    ensures var r := Settle(q, id, o);
            && r.wire == q.wire && r.tick == q.tick + 1 && r.evq == q.evq && SameEndpoint(q, r) && |r.book.list| <= |q.book.list|
            && (forall x :: x in r.book.list ==> x in q.book.list && (x != id || Stays(o.verdict)))
            && (Wf(r) ==> AllOut(r.book) && Standing(r, h))
  {
    hide Sound, WireWf, Without;
    WithoutMembers(q.book.list, id);
    WithoutLength(q.book.list, id);
  }

  lemma DeniedOffer(q: Tq, m: Message, env: Env, h: nat)
    requires TransferSafety.Inv(q) && AllOut(q.book) && q.book.list != [] && !env(q.tick).toDevice && Standing(q, h)
    ensures var o := UpdateHead(q, m, env);
            var r := Settle(q, q.book.list[0], o);
            && Still(q, r, 1) && Standing(r, h) && |r.book.list| <= |q.book.list| && r.evq == q.evq
            && (h in q.book.list && m.cmd == CMD_TRANSFER_REQUEST && m.param2 > 0 ==> o.verdict != Again && h !in r.book.list)
  {
    var id := q.book.list[0];
    var u := q.book.urbs[id];
    assert id in q.book.list && !u.control && Sane(u);
    TransferSafety.UpdateTame(u, m, env(q.tick));
    hide Update, TransferSafety.Inv, Sound, Settle, WireWf;
    DeniedUpdate(u, m, env(q.tick));
    assert q.control == false by { DataEndpoint(q); }
    TransferSafety.UpdateHeadInv(q, m, env);
    WfOf(q);
    DeniedSettle(q, id, UpdateHead(q, m, env), h);
    WfOf(Settle(q, id, UpdateHead(q, m, env)));
  }

  lemma DataEndpoint(q: Tq)
    requires TransferSafety.Inv(q) && AllOut(q.book) && q.book.list != []
    ensures !q.control
  {
    assert q.book.list[0] in q.book.list;
  }

  lemma {:induction false} DeniedDeliver(q: Tq, env: Env, t: nat, h: nat)
    requires TransferSafety.Inv(q) && AllOut(q.book) && Standing(q, h)
    requires q.tick + |q.evq| <= t && Denies(env, t)
    ensures var r := Deliver(q, env); Still(q, r, |q.evq|) && Standing(r, h) && |r.book.list| <= |q.book.list|
    decreases |q.evq|
  {
    WfOf(q);
    if q.book.list != [] && q.evq != [] {
      DeniedOffer(q, q.evq[0], env, h);
      UpdateHeadWf(q, q.evq[0], env);
      var o := UpdateHead(q, q.evq[0], env);
      var q1 := Settle(q, q.book.list[0], o);
      TransferSafety.FlagsInv(q1, q.evq[1..], q1.flags);
      hide TransferSafety.Inv, Settle, UpdateHead;
      if o.verdict != Again {
        DeniedDeliver(q1.(evq := q.evq[1..]), env, t, h);
      }
    }
  }

  /** Starting OUT requests posts nothing, and touches only requests that waited for a credit. */
  lemma StartStill(q: Tq, id: nat, env: Env)
    requires TransferSafety.Inv(q) && AllOut(q.book) && id in q.book.list && q.book.urbs[id].state == InitPending
    ensures var r := TransferQueues.Start(q, id, env);
            && Still(q, r, 1) && r.book.list == q.book.list && r.evq == q.evq && r.flags == q.flags
            && forall x :: x in q.book.list && x != id ==> r.book.urbs[x] == q.book.urbs[x]
  {
    WfOf(q);
    TransferSafety.StartInv(q, id, env);
    StartWf(q, id, env);
    hide TransferSafety.Inv, Sound, TransferIn;
  }

  lemma {:induction false} InitStill(q: Tq, ids: seq<nat>, env: Env)
    requires TransferSafety.Inv(q) && AllOut(q.book) && forall id :: id in ids ==> id in q.book.list
    ensures var r := InitPendingUrbs(q, ids, env);
            && Still(q, r, |ids|) && r.book.list == q.book.list && r.evq == q.evq && r.flags == q.flags
            && forall x :: x in q.book.list && q.book.urbs[x].state != InitPending ==> r.book.urbs[x] == q.book.urbs[x]
    decreases |ids|
  {
    WfOf(q);
    hide TransferSafety.Inv, TransferQueues.Start;
    if ids != [] && q.book.remaining > 0 {
      if q.book.urbs[ids[0]].state == InitPending {
        StartStill(q, ids[0], env);
        StartWf(q, ids[0], env);
        InitStill(TransferQueues.Start(q, ids[0], env), ids[1..], env);
      } else {
        InitStill(q, ids[1..], env);
      }
    }
  }

  /** A walk over some requests changed at most their records. */
  ghost predicate Walked(q: Tq, r: Tq, ids: seq<nat>)
    requires Wf(q)
  {
    && Still(q, r, |ids|) && r.book.list == q.book.list && r.evq == q.evq && r.flags == q.flags
    && forall x :: x in q.book.list && x !in ids ==> r.book.urbs[x] == q.book.urbs[x]
  }

  lemma WalkedOn(q: Tq, a: Tq, r: Tq, ids: seq<nat>)
    requires ids != [] && Wf(q) && Wf(a) && Walked(q, a, [ids[0]]) && Walked(a, r, ids[1..])
    ensures Walked(q, r, ids)
  {
    hide TransferSafety.Inv, Sound, WireWf;
    assert forall x :: x !in ids ==> x != ids[0] && x !in ids[1..];
  }

  /** An OUT request posts nothing when it is resumed, and stays linked. */
  lemma ResumedOut(u: Urb, g: Grants)
    requires Sane(u) && u.dir == Out && !u.control
    ensures var o := Resume(u, g);
            && o.verdict == Fine && o.post == None && o.urb.dir == Out && !o.urb.control
            && (u.state == WaitCompletion && Unfinished(u) ==> o.urb.state == WaitRequest && Unfinished(o.urb))
  {
  }

  lemma ResumeOneStill(q: Tq, id: nat, env: Env)
    requires TransferSafety.Inv(q) && AllOut(q.book) && id in q.book.list
    ensures Wf(q) && Walked(q, ResumeOne(q, id, env), [id])
    ensures q.book.urbs[id].state == WaitCompletion && Unfinished(q.book.urbs[id]) ==>
              var v := ResumeOne(q, id, env).book.urbs[id]; v.state == WaitRequest && Unfinished(v)
  {
    hide TransferSafety.Inv, TransferQueues.Start, Resume, WireWf, Unfinished, Settle;
    WfOf(q);
    TransferSafety.ResumeOneInv(q, id, env);
    WfOf(ResumeOne(q, id, env));
    assert Sane(q.book.urbs[id]);
    hide Sound;
    if q.book.urbs[id].state == InitPending {
      StartStill(q, id, env);
    } else {
      ResumedOut(q.book.urbs[id], env(q.tick));
      SettleStays(q, id, Resume(q.book.urbs[id], env(q.tick)));
    }
  }

  /** An event that posts nothing and keeps its request linked. */
  lemma SettleStays(q: Tq, id: nat, o: Outcome)
    requires Wf(q) && id in q.book.list && o.verdict == Fine && o.post == None
    requires AllOut(q.book) && o.urb.dir == Out && !o.urb.control
    ensures var r := Settle(q, id, o);
            && r.book.list == q.book.list && r.book.urbs == q.book.urbs[id := o.urb] && r.wire == q.wire && r.evq == q.evq
            && r.flags == q.flags && r.tick == q.tick + 1 && SameEndpoint(q, r) && (Wf(r) ==> AllOut(r.book))
  {
    hide Sound, WireWf;
  }

  lemma {:induction false} ResumeStill(q: Tq, ids: seq<nat>, env: Env)
    requires TransferSafety.Inv(q) && AllOut(q.book) && Distinct(ids) && forall id :: id in ids ==> id in q.book.list
    ensures Wf(q) && Walked(q, ResumeUrbs(q, ids, env), ids)
    decreases |ids|
  {
    WfOf(q);
    hide TransferSafety.Inv, ResumeOne, WireWf;
    if ids != [] && (q.book.urbs[ids[0]].state != InitPending || q.book.remaining > 0) {
      assert ids[0] !in ids[1..];
      ResumeOneWf(q, ids[0], env);
      ResumeOneStill(q, ids[0], env);
      var q1 := ResumeOne(q, ids[0], env);
      assert TransferSafety.Inv(q1) && AllOut(q1.book) && q1.book.list == q.book.list;
      hide Walked;
      ResumeStill(q1, ids[1..], env);
      WalkedOn(q, q1, ResumeUrbs(q1, ids[1..], env), ids);
    }
  }

  /** The walk sends a live request back to waiting, with its submission still in flight. */
  lemma WalkStands(q: Tq, env: Env)
    requires TransferSafety.Inv(q) && AllOut(q.book) && q.book.list != [] && q.flags.active
    requires var u := q.book.urbs[q.book.list[0]]; u.state == WaitCompletion && Unfinished(u)
    ensures var r := ResumeUrbs(q, q.book.list, env);
            Still(q, r, |q.book.list|) && Standing(r, q.book.list[0]) && r.book.list == q.book.list && r.evq == q.evq
  {
    var ids := q.book.list;
    hide TransferSafety.Inv, ResumeOne, Sound, WireWf, Unfinished;
    WfOf(q);
    assert ids[0] in ids && ids[0] !in ids[1..];
    ResumeOneWf(q, ids[0], env);
    ResumeOneStill(q, ids[0], env);
    var q1 := ResumeOne(q, ids[0], env);
    TransferSafety.RestOfWalk(ids, q.book.list, q1.book.list);
    ResumeStill(q1, ids[1..], env);
    WalkedOn(q, q1, ResumeUrbs(q1, ids[1..], env), ids);
    hide BookWf, Distinct;
  }

  lemma InitStands(q: Tq, env: Env, h: nat)
    requires TransferSafety.Inv(q) && AllOut(q.book) && Standing(q, h)
    ensures var r := InitPendingUrbs(q, q.book.list, env);
            Still(q, r, |q.book.list|) && Standing(r, h) && r.book.list == q.book.list && r.evq == q.evq
  {
    WfOf(q);
    InitStill(q, q.book.list, env);
    hide TransferSafety.Inv, InitPendingUrbs, Sound, WireWf;
  }

  lemma ReopenStands(q: Tq, env: Env, t: nat)
    requires TransferSafety.Inv(q) && AllOut(q.book) && q.book.list != []
    requires var u := q.book.urbs[q.book.list[0]]; u.state == WaitCompletion && Unfinished(u)
    requires Denies(env, t) && q.tick + 2 * |q.book.list| + |q.evq| <= t
    ensures var r := DoResume(q, env); Still(q, r, 2 * |q.book.list| + |q.evq|) && Standing(r, q.book.list[0]) && |r.book.list| <= |q.book.list|
  {
    WfOf(q);
    var a, h := Activate(q), q.book.list[0];
    TransferSafety.FlagsInv(q, q.evq, a.flags);
    WfOf(a);
    hide TransferSafety.Inv, ResumeUrbs, Deliver, InitPendingUrbs, Wf;
    WalkStands(a, env);
    var w := ResumeUrbs(a, q.book.list, env);
    DeniedDeliver(w, env, t, h);
    var d := Deliver(w, env);
    InitStands(d, env, h);
  }

  const CROSSING: Message := Message(CMD_TRANSFER_REQUEST, 0, 1)

  /** The next window ends the waiting request, and its submission is an orphan. */
  lemma WindowEnds(q: Tq, env: Env, t: nat, h: nat)
    requires TransferSafety.Inv(q) && AllOut(q.book) && Standing(q, h) && h in q.book.list && q.evq == []
    requires Denies(env, t) && q.tick + |q.book.list| < t
    ensures Wf(q)
    ensures var r := Event(q, CROSSING, env); TransferSafety.Inv(r) && SameEndpoint(q, r) && r.wire == q.wire && h !in r.book.list
  {
    WfOf(q);
    DataEndpoint(q);
    TransferSafety.DataStruckEvent(q, CROSSING, env);
    TransferSafety.EventInv(q, CROSSING, env);
    InitStands(q, env, h);
    var q1 := DeliverPending(q, env);
    assert q1 == InitPendingUrbs(q, q.book.list, env) by { hide InitPendingUrbs; }
    hide TransferSafety.Inv, InitPendingUrbs, DeliverPending, Wf;
    DeniedOffer(q1, CROSSING, env, h);
    UpdateHeadWf(q1, CROSSING, env);
    var q2 := Settle(q1, q1.book.list[0], UpdateHead(q1, CROSSING, env));
    hide Settle, UpdateHead;
    InitStill(q2, q2.book.list, env);
  }

  lemma OutInvFacts(q: Tq)
    requires OutInv(q) && q.wire.toDevice != []
    ensures TransferSafety.Inv(q) && AllOut(q.book) && q.book.list != [] && q.maxActive > 0
    ensures q.wire.toDevice == [q.wire.toDevice[0]] && q.wire.toDevice[0].owner == q.book.list[0]
    ensures Unfinished(q.book.urbs[q.book.list[0]])
  {
    var h := q.book.list[0];
    assert h in q.book.list && OutUrb(q.book.urbs[h], q.wire.moved[h]);
    assert h in TransferSafety.Holders(q.book);
    hide Sound, Covers, Moving, Exact, Kept;
  }

  /** Unlinking the request a submission in flight belongs to: some calm continuation breaks exactness. */
  lemma UnlinkBreaks(q: Tq) returns (env: Env, steps: seq<Step>, r: Tq)
    requires OutInv(q) && !q.control && Enabled(q, CancelUnlink) && !Calm(q, CancelUnlink)
    ensures OutRuns(Next(q, CancelUnlink, env), steps, env, r) && !Exact(r.wire, r.requests, r.desk.given)
  {
    hide OutInv, TransferSafety.Inv, OutRuns, Exact, WorkerUnlink, Orphan;
    OutInvFacts(q);
    WfOf(q);
    UnlinkAside(q);
    UnlinkOrphans(q);
    env := Switch(0);
    steps, r := OrphanBreaks(WorkerUnlink(q), 0);
  }

  lemma UnlinkOrphans(q: Tq)
    requires Wf(q) && Enabled(q, CancelUnlink) && q.wire.toDevice != []
    requires forall p :: p in q.wire.toDevice ==> p.owner == q.desk.worker.id
    ensures Orphan(WorkerUnlink(q))
  {
    hide Without;
    WithoutMembers(q.book.list, q.desk.worker.id);
  }

  /** Whether it is already gone or still waits, the request's submission becomes an orphan. */
  lemma EndWaiting(q: Tq, env: Env, t: nat, h: nat) returns (steps: seq<Step>, r: Tq)
    requires TransferSafety.Inv(q) && AllOut(q.book) && Standing(q, h) && Denies(env, t) && q.tick + |q.book.list| < t
    requires |q.wire.toDevice| == 1 && q.wire.toDevice[0].owner == h
    ensures TransferSafety.Inv(r) && SameEndpoint(q, r) && Orphan(r) && OutRuns(q, steps, env, r)
  {
    hide TransferSafety.Inv, OutRuns, Event, Unfinished;
    WfOf(q);
    DropAside(q, env);
    steps, r := [DropEvents], q.(evq := []);
    if h in r.book.list {
      WfOf(r);
      WindowEnds(r, env, t, h);
      OneStep(r, Incoming(CROSSING), env);
      OutRunsConcat(q, steps, r, [Incoming(CROSSING)], Event(r, CROSSING, env), env);
      steps, r := steps + [Incoming(CROSSING)], Event(r, CROSSING, env);
    }
  }

  /** Reopening over a live submission: some calm continuation breaks exactness. */
  lemma ReopenBreaks(q: Tq) returns (env: Env, steps: seq<Step>, r: Tq)
    requires OutInv(q) && !q.control && !Calm(q, Reopen)
    ensures OutRuns(Next(q, Reopen, env), steps, env, r) && !Exact(r.wire, r.requests, r.desk.given)
  {
    OutInvFacts(q);
    var h, t := q.book.list[0], q.tick + 3 * |q.book.list| + |q.evq| + 1;
    env := Switch(t);
    hide OutInv, TransferSafety.Inv, OutRuns, Exact, DoResume, Unfinished, Orphan;
    ReopenStands(q, env, t);
    var q1 := DoResume(q, env);
    hide Standing, AllOut;
    var first, q2 := EndWaiting(q1, env, t, h);
    var rest, last := OrphanBreaks(q2, t);
    OutRunsConcat(q1, first, q2, rest, last, env);
    steps, r := first + rest, last;
  }

  /** Whatever calm steps follow this one, every request given back with status 0 had exactly its bytes moved. */
  ghost predicate StaysExact(q: Tq, step: Step)
    requires Wf(q) && Enabled(q, step)
  {
    forall env: Env, steps: seq<Step>, r: Tq :: OutRuns(Next(q, step, env), steps, env, r) ==> Exact(r.wire, r.requests, r.desk.given)
  }

  /**
   The condition is exact: from every state that calm runs reach, a step leaves OUT
   transfers exact whatever follows if and only if it is calm.
   */
  lemma CalmExactly(q: Tq, step: Step)
    requires OutInv(q) && !q.control && Enabled(q, step) && (step.Submit? ==> Calm(q, step))
    ensures Calm(q, step) <==> StaysExact(q, step)
  {
    WfOf(q);
    hide TransferSafety.Inv, Wf, Next, OutRuns;
    if Calm(q, step) {
      forall env: Env, steps: seq<Step>, r: Tq | OutRuns(Next(q, step, env), steps, env, r)
        ensures Exact(r.wire, r.requests, r.desk.given)
      {
        NextOut(q, step, env);
        RunOut(Next(q, step, env), steps, env, r);
      }
    } else {
      var env, steps, r;
      if step == Reopen {
        env, steps, r := ReopenBreaks(q);
      } else {
        env, steps, r := UnlinkBreaks(q);
      }
      assert OutRuns(Next(q, step, env), steps, env, r);
    }
  }

  // ------------------------------------------------------------------ three runs

  const ALL: Env := Switch(0)

  /** The runs of the exactness theorem do complete requests. */
  lemma SomeRequestCompletes() returns (steps: seq<Step>, r: Tq)
    ensures 0 in r.requests && r.requests[0] == BulkOut(0x1000)
    ensures Giveback(0, 0) in r.desk.given && 0 in r.wire.moved && r.wire.moved[0] == Bytes(0x1000, 512)
    ensures OutRuns(Fresh(false, 1), steps, ALL, r)
  {
    hide OutRuns, Wf, LinkSteps, Retire, Bytes;
    TransferSafety.FreshInv(false, 1);
    var q := Fresh(false, 1);
    assert Empty(q);
    var q1 := LinkAndPost(q, 0, 0x1000, ALL);
    r := CreditSteps(q1, 0, 0x1000, ALL);
    steps := LinkSteps(0, 0x1000) + CREDIT_STEPS;
    OutRunsConcat(q, LinkSteps(0, 0x1000), q1, CREDIT_STEPS, r, ALL);
    OutExact(1, steps, ALL, r, Giveback(0, 0));
    assert |Bytes(0x1000, 512)| == 512;
  }

  lemma {:induction false} RunsConcat(q: Tq, a: seq<Step>, r: Tq, b: seq<Step>, s: Tq, env: Env)
    requires Runs(q, a, env, r) && Runs(r, b, env, s)
    ensures Runs(q, a + b, env, s)
    decreases |a|
  {
    hide Next, Wf, Enabled;
    if a == [] {
      assert a + b == b;
    } else {
      RunsConcat(Next(q, a[0], env), a[1..], r, b, s, env);
      assert (a + b)[1..] == a[1..] + b;
    }
  }

  function UnlinkSteps(id: nat): seq<Step> {
    [CancelRequest(id, -104), CancelPop, CancelUnlink]
  }

  /** Cancelling and unlinking the only request, whatever is in flight. */
  lemma UnlinkOnly(q: Tq, id: nat, env: Env) returns (r: Tq)
    requires Wf(q) && q.book.list == [id] && q.book.urbs[id].state == WaitCompletion
    requires q.desk.cancel == [] && q.desk.worker == Resting
    ensures r.control == q.control && r.flags == q.flags && r.evq == q.evq && r.desk == q.desk.(worker := Unlinked(id, -104))
    ensures r.book.list == [] && r.book.remaining == q.book.remaining + 1 && r.wire == q.wire && r.tick == q.tick
    ensures Wf(r) && Runs(q, UnlinkSteps(id), env, r)
  {
    var r1 := RequestCancel(q, id, -104);
    var r2 := WorkerPop(r1);
    assert r2.desk.worker == Popped(id) && Wf(r1) && Wf(r2);
    r := WorkerUnlink(r2);
    hide RequestCancel, WorkerPop, WorkerUnlink, Wf;
    UnlinkRuns(q, id, env, r1, r2, r);
  }

  lemma UnlinkRuns(q: Tq, id: nat, env: Env, r1: Tq, r2: Tq, r: Tq)
    requires Wf(q) && Wf(r1) && Wf(r2) && Enabled(r1, CancelPop) && Enabled(r2, CancelUnlink)
    requires r1 == RequestCancel(q, id, -104) && r2 == WorkerPop(r1) && r == WorkerUnlink(r2)
    ensures Runs(q, UnlinkSteps(id), env, r)
  {
    var steps := UnlinkSteps(id);
    hide RequestCancel, WorkerPop, WorkerUnlink, Wf;
    assert steps[1..][1..][1..] == [];
    assert Runs(r2, steps[1..][1..], env, r);
    assert Runs(r1, steps[1..], env, r);
  }

  /** A request is posted, then cancelled and unlinked while its submission is in flight. */
  lemma Abandon(q: Tq, id: nat, dma: nat) returns (steps: seq<Step>, r: Tq)
    requires Empty(q) && id !in q.desk.accepted && q.desk.cancel == [] && q.desk.worker == Resting
    ensures Empty(r) && r.desk.accepted == q.desk.accepted + {id}
    ensures r.wire.toDevice == q.wire.toDevice + [Posted(id, Single(dma, 512))]
    ensures Runs(q, steps, ALL, r)
  {
    hide Runs, OutRuns, LinkSteps, UnlinkSteps, Wf;
    var q1 := LinkAndPost(q, id, dma, ALL);
    CalmRunsAreRuns(q, LinkSteps(id, dma), ALL, q1);
    r := UnlinkOnly(q1, id, ALL);
    RunsConcat(q, LinkSteps(id, dma), q1, UnlinkSteps(id), r, ALL);
    steps := LinkSteps(id, dma) + UnlinkSteps(id);
  }

  /**
   The worker unlinks a request even when its pause failed. If that leaves a
   submission in flight, its completion is credited to the next request, which
   is given back with status 0 although nothing of it was moved.
   */
  lemma FailedPauseCreditsTheWrongRequest() returns (steps: seq<Step>, r: Tq)
    ensures Giveback(1, 0) in r.desk.given && 1 in r.wire.moved && r.wire.moved[1] == []
    ensures !Exact(r.wire, r.requests, r.desk.given)
    ensures Runs(Fresh(false, 1), steps, ALL, r)
  {
    hide Runs, OutRuns, Wf, LinkSteps, Exact;
    var q0 := Fresh(false, 1);
    TransferSafety.FreshInv(false, 1);
    assert Empty(q0);
    var first, q1 := Abandon(q0, 0, 0x1000);
    var q2 := LinkAndPost(q1, 1, 0x2000, ALL);
    r := CreditedToOldest(q2, 1, 0x2000, ALL);
    OutRunsConcat(q1, LinkSteps(1, 0x2000), q2, CREDIT_STEPS, r, ALL);
    CalmRunsAreRuns(q1, LinkSteps(1, 0x2000) + CREDIT_STEPS, ALL, r);
    RunsConcat(q0, first, q1, LinkSteps(1, 0x2000) + CREDIT_STEPS, r, ALL);
    steps := first + (LinkSteps(1, 0x2000) + CREDIT_STEPS);
  }
}
