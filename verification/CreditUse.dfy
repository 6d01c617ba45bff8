/**
 What the entry points of a transfer queue get done, beside keeping it safe: no
 credit stays idle, and no deferred message is kept that its request would take.
 */
module CreditUse {
  import Prelude
  import SegmentLists
  import opened Urbs
  import opened TransferQueues

  /** Between these two moments a start of this request was attempted, and failed. */
  ghost predicate Tried(u: Urb, env: Env, from: nat, to: nat)
    requires Sane(u)
  {
    exists t :: from <= t < to && FailsAt(u, env, t)
  }

  ghost predicate FailsAt(u: Urb, env: Env, t: nat)
    requires Sane(u)
  {
    Begin(u, env(t)).status != 0
  }

  /** These requests wait for a credit only because none is left, or because their start has just failed. */
  ghost predicate Used(r: Tq, ids: seq<nat>, env: Env, from: nat)
    requires Wf(r) && forall id :: id in ids ==> id in r.book.list
  {
    r.book.remaining > 0 ==>
      forall id :: id in ids && r.book.urbs[id].state == InitPending ==> Tried(r.book.urbs[id], env, from, r.tick)
  }

  /** No credit is idle: a request that still waits although one is free failed to start. */
  ghost predicate CreditsUsed(r: Tq, env: Env, from: nat)
    requires Wf(r)
  {
    Used(r, r.book.list, env, from)
  }

  lemma TriedLonger(u: Urb, env: Env, from: nat, to: nat, from': nat, to': nat)
    requires Sane(u) && Tried(u, env, from, to) && from' <= from && to <= to'
    ensures Tried(u, env, from', to')
  {
    var t :| from <= t < to && FailsAt(u, env, t);
    assert from' <= t < to' && FailsAt(u, env, t);
  }

  /** A start that failed would have failed from the record it leaves as well. */
  lemma FailedStart(q: Tq, id: nat, env: Env)
    requires Wf(q) && id in q.book.list && q.book.remaining > 0 && q.book.urbs[id].state == InitPending
    ensures var r := TransferQueues.Start(q, id, env);
            && Wf(r) && id in r.book.list && r.tick == q.tick + 1
            && (r.book.urbs[id].state == InitPending ==> Tried(r.book.urbs[id], env, q.tick, r.tick))
  {
    var u, g := q.book.urbs[id], env(q.tick);
    StartWf(q, id, env);
    BeginSound(u, g);
    if Begin(u, g).status != 0 {
      BeginFails(u, g);
      assert Begin(u.(requestEnd := u.length), g).status == Begin(u, g).status;
      assert FailsAt(Begin(u, g).urb, env, q.tick);
    }
    hide Begin;
  }

  /** Starting one request leaves the others as they are. */
  lemma StartOther(q: Tq, id: nat, env: Env, x: nat)
    requires Wf(q) && id in q.book.list && x in q.book.list && x != id
    ensures x in TransferQueues.Start(q, id, env).book.urbs && TransferQueues.Start(q, id, env).book.urbs[x] == q.book.urbs[x]
  {
    hide Begin, Hand;
  }

  lemma {:induction false} InitOther(q: Tq, ids: seq<nat>, env: Env, x: nat)
    requires Wf(q) && (forall id :: id in ids ==> id in q.book.list) && x in q.book.list && x !in ids
    ensures InitPendingUrbs(q, ids, env).book.urbs[x] == q.book.urbs[x] && q.tick <= InitPendingUrbs(q, ids, env).tick
    decreases |ids|
  {
    hide Begin, WireWf, Sound;
    if ids != [] && q.book.remaining > 0 {
      if q.book.urbs[ids[0]].state == InitPending {
        StartWf(q, ids[0], env);
        StartOther(q, ids[0], env, x);
        assert q.tick <= TransferQueues.Start(q, ids[0], env).tick;
        hide TransferQueues.Start;
        InitOther(TransferQueues.Start(q, ids[0], env), ids[1..], env, x);
      } else {
        InitOther(q, ids[1..], env, x);
      }
    }
  }

  lemma {:induction false} InitUses(q: Tq, ids: seq<nat>, env: Env, from: nat)
    requires Wf(q) && Distinct(ids) && (forall id :: id in ids ==> id in q.book.list) && from <= q.tick
    ensures Used(InitPendingUrbs(q, ids, env), ids, env, from) && q.tick <= InitPendingUrbs(q, ids, env).tick
    decreases |ids|
  {
    hide TransferQueues.Start, WireWf, Tried, Sane;
    if ids != [] && q.book.remaining > 0 {
      var id, rest := ids[0], ids[1..];
      assert id !in rest && ids == [id] + rest;
      var q1 := q;
      if q.book.urbs[id].state == InitPending {
        FailedStart(q, id, env);
        StartWf(q, id, env);
        q1 := TransferQueues.Start(q, id, env);
      }
      InitUses(q1, rest, env, from);
      InitOther(q1, rest, env, id);
      var r := InitPendingUrbs(q, ids, env);
      if r.book.urbs[id].state == InitPending {
        TriedLonger(r.book.urbs[id], env, q.tick, q1.tick, from, r.tick);
      }
    }
  }

  // ------------------------------------------------------------------ time

  lemma {:induction false} DeliverTick(q: Tq, env: Env)
    requires Wf(q)
    ensures q.tick <= Deliver(q, env).tick
    decreases |q.evq|
  {
    if q.book.list != [] && q.evq != [] {
      var o := UpdateHead(q, q.evq[0], env);
      UpdateHeadWf(q, q.evq[0], env);
      var q1 := Settle(q, q.book.list[0], o);
      assert q1.tick == q.tick + 1 && Wf(q1.(evq := q.evq[1..]));
      hide Settle, UpdateHead, Wf;
      if o.verdict != Again {
        DeliverTick(q1.(evq := q.evq[1..]), env);
      }
    }
  }

  lemma {:induction false} CompleteTick(q: Tq, dir: Direction, cs: seq<Completed>, env: Env)
    requires Wf(q)
    ensures q.tick <= CompleteMany(q, dir, cs, env).tick
    decreases |cs|
  {
    if cs != [] && InFlight(q.wire, dir) != [] {
      var q1 := CompleteOne(q, dir, cs[0], env);
      assert q.tick <= q1.tick;
      hide CompleteOne, Wf;
      CompleteTick(q1, dir, cs[1..], env);
    }
  }

  lemma {:induction false} ResumeTick(q: Tq, ids: seq<nat>, env: Env)
    requires Wf(q) && Distinct(ids) && forall id :: id in ids ==> id in q.book.list
    ensures q.tick <= ResumeUrbs(q, ids, env).tick
    decreases |ids|
  {
    if ids != [] && !(q.book.urbs[ids[0]].state == InitPending && q.book.remaining == 0) {
      ResumeOneWf(q, ids[0], env);
      var q1 := ResumeOne(q, ids[0], env);
      assert q.tick <= q1.tick;
      assert ids[0] !in ids[1..];
      hide ResumeOne, Wf;
      ResumeTick(q1, ids[1..], env);
    }
  }

  // ------------------------------------------------------------------ credits

  lemma PendingUses(q: Tq, env: Env, from: nat)
    requires Wf(q) && from <= q.tick
    ensures CreditsUsed(DeliverPending(q, env), env, from) && q.tick <= DeliverPending(q, env).tick
  {
    DeliverTick(q, env);
    hide Deliver, InitPendingUrbs;
    var q1 := Deliver(q, env);
    InitUses(q1, q1.book.list, env, from);
  }

  /** A message that must wait leaves everything but the time as it was. */
  lemma AgainKeeps(q: Tq, m: Message, env: Env)
    requires Wf(q) && q.book.list != [] && UpdateHead(q, m, env).verdict == Again
    ensures UpdateHead(q, m, env) == Outcome(q.book.urbs[q.book.list[0]], Prelude.None, Again)
    ensures Settle(q, q.book.list[0], UpdateHead(q, m, env)) == q.(tick := q.tick + 1)
  {
    var id := q.book.list[0];
    AgainUnchanged(q.book.urbs[id], m, env(q.tick));
    hide Update;
    assert q.book.urbs[id := q.book.urbs[id]] == q.book.urbs;
  }

  lemma AgainUnchanged(u: Urb, m: Message, g: Grants)
    requires Sane(u) && Update(u, m, g).verdict == Again
    ensures Update(u, m, g) == Outcome(u, Prelude.None, Again)
  {
    hide ContinueOut;
  }

  lemma UsedLater(r: Tq, env: Env, from: nat, to: nat)
    requires Wf(r) && CreditsUsed(r, env, from) && r.tick <= to
    ensures CreditsUsed(r.(tick := to), env, from)
  {
    hide WireWf, Tried, Sane;
    if r.book.remaining > 0 {
      forall id | id in r.book.list && r.book.urbs[id].state == InitPending
        ensures Tried(r.book.urbs[id], env, from, to)
      {
        TriedLonger(r.book.urbs[id], env, from, r.tick, from, to);
      }
    }
  }

  lemma DeferUses(r: Tq, m: Message, env: Env, from: nat)
    requires Wf(r) && CreditsUsed(r, env, from)
    ensures Wf(Defer(r, m, env)) && CreditsUsed(Defer(r, m, env), env, from)
  {
    hide Tried, Sane, WireWf;
    UsedLater(r, env, from, r.tick + 1);
  }

  lemma EventUses(q: Tq, m: Message, env: Env)
    requires Wf(q) && q.flags.active
    ensures CreditsUsed(Event(q, m, env), env, q.tick)
  {
    PendingUses(q, env, q.tick);
    var q1 := DeliverPending(q, env);
    hide DeliverPending, CreditsUsed, Defer, InitPendingUrbs, Update;
    DeferUses(q1, m, env, q.tick);
    if q1.book.list != [] {
      var o := UpdateHead(q1, m, env);
      UpdateHeadWf(q1, m, env);
      var q2 := Settle(q1, q1.book.list[0], o);
      assert q2.tick == q1.tick + 1;
      if o.verdict == Again {
        AgainKeeps(q1, m, env);
        UsedLater(q1, env, q.tick, q1.tick + 1);
        DeferUses(q2, m, env, q.tick);
      } else {
        AllUsed(q2, env, q.tick);
      }
    }
  }

  lemma AllUsed(q: Tq, env: Env, from: nat)
    requires Wf(q) && from <= q.tick
    ensures CreditsUsed(InitPendingUrbs(q, q.book.list, env), env, from)
  {
    hide InitPendingUrbs;
    InitUses(q, q.book.list, env, from);
  }

  /** The steps after which the driver has looked for requests to start. */
  predicate Restarts(q: Tq, step: Step, env: Env) {
    match step
    case Submit(_, u, linked) =>
      linked && (!q.flags.active || q.book.remaining == 0 || (Sane(u) && Begin(u, env(q.tick)).status == 0))
    case Incoming(_) => q.flags.active
    case Finished(_, _) => true
    case PauseFailed => true
    case Reopen => true
    case _ => false
  }

  lemma CreateUses(q: Tq, id: nat, u: Urb, env: Env)
    requires Wf(q) && id !in q.book.list && New(u) && Restarts(q, Submit(id, u, true), env)
    ensures CreditsUsed(Create(q, id, u, true, env), env, q.tick)
  {
    LinkWf(q, id, u);
    var q1 := Link(q, id, u).(desk := q.desk.(accepted := q.desk.accepted + {id}));
    var q2 := q1.(flags := q.flags.(resetQueued := q.flags.resetQueued || q.flags.stalled));
    assert Wf(q1) && Wf(q2) && q1.tick == q2.tick == q.tick && q1.book.urbs[id] == u && id in q1.book.list;
    StartWf(q1, id, env);
    assert q.tick <= TransferQueues.Start(q1, id, env).tick;
    hide DeliverPending, CreditsUsed, TransferQueues.Start, Link, Begin, Wf, New;
    PendingUses(q1, env, q.tick);
    PendingUses(q2, env, q.tick);
    PendingUses(TransferQueues.Start(q1, id, env), env, q.tick);
  }

  /**
   No credit stays idle: after a completion, a message to an active endpoint, a
   submission, a resume or a failed pause, a request that still waits although a credit
   is free has just failed to start.
   */
  lemma NoIdleCredit(q: Tq, step: Step, env: Env)
    requires Wf(q) && Enabled(q, step) && Restarts(q, step, env)
    ensures Wf(Next(q, step, env)) && CreditsUsed(Next(q, step, env), env, q.tick)
  {
    hide DeliverPending, CreditsUsed, Create, Event, CompleteMany, ResumeUrbs, Begin, New;
    match step
    case Submit(id, u, linked) => CreateUses(q, id, u, env);
    case Incoming(m) => EventUses(q, m, env);
    case Finished(dir, cs) =>
      CompleteTick(q, dir, cs, env);
      PendingUses(CompleteMany(q, dir, cs, env), env, q.tick);
    case PauseFailed => PendingUses(Activate(q), env, q.tick);
    case Reopen =>
      ResumeTick(Activate(q), q.book.list, env);
      PendingUses(ResumeUrbs(Activate(q), q.book.list, env), env, q.tick);
  }

  /** The request's scatterlist, if it has one, is as long as the request. */
  ghost predicate Fits(u: Urb) {
    BufferOk(u) && (u.buffer.Scatter? ==> u.length <= u.buffer.list.dataSize)
  }

  /** Only a start of IN data can fail, and it does so exactly for want of a slot for its message or its submission. */
  lemma StartsExactly(u: Urb, g: Grants)
    requires Sane(u) && Fits(u)
    ensures Begin(u, g).status == if u.control || u.dir == Out || (g.message && g.fromDevice) then 0 else Prelude.ENOMEM
  {
    if u.buffer.Scatter? {
      SegmentLists.NextRangeExact(u.buffer.list, u.receiveOffset, u.length - u.receiveOffset);
    }
    hide SegmentLists.NextRange, SegmentLists.SubmissionBytes, SegmentLists.ListBytes;
  }

  /** So with reservations granted, the credits run out or every linked request has been started. */
  lemma NobodyWaits(q: Tq, step: Step, env: Env)
    requires Wf(q) && Enabled(q, step) && Restarts(q, step, env)
    requires forall t :: env(t).message && env(t).fromDevice
    ensures var r := Next(q, step, env);
            && Wf(r)
            && ((forall id :: id in r.book.list ==> Fits(r.book.urbs[id])) ==>
                  r.book.remaining == 0 || forall id :: id in r.book.list ==> r.book.urbs[id].state != InitPending)
  {
    NoIdleCredit(q, step, env);
    var r := Next(q, step, env);
    hide Next, Restarts, Enabled, Fits, WireWf, Sane, Begin;
    if r.book.remaining > 0 && forall id :: id in r.book.list ==> Fits(r.book.urbs[id]) {
      forall id | id in r.book.list
        ensures r.book.urbs[id].state != InitPending
      {
        var u := r.book.urbs[id];
        if u.state == InitPending {
          var t :| q.tick <= t < r.tick && FailsAt(u, env, t);
          StartsExactly(u, env(t));
          assert false;
        }
      }
    }
  }

  /**
   A submission is accepted unless usbcore refuses the link, or its start is attempted at
   once and fails; then it leaves nothing behind.
   */
  lemma AcceptedExactly(q: Tq, id: nat, u: Urb, linked: bool, env: Env)
    requires Wf(q) && id !in q.book.list && id !in q.desk.accepted && New(u)
    ensures var r := Create(q, id, u, linked, env);
            && (id in r.desk.accepted <==>
                  linked && !(q.flags.active && q.book.remaining > 0 && Begin(u, env(q.tick)).status != 0))
            && (id !in r.desk.accepted ==> r == q.(tick := r.tick))
  {
    if linked {
      LinkWf(q, id, u);
      var q1 := Link(q, id, u).(desk := q.desk.(accepted := q.desk.accepted + {id}));
      var q2 := q1.(flags := q.flags.(resetQueued := q.flags.resetQueued || q.flags.stalled));
      assert Wf(q1) && Wf(q2) && id in q1.book.list && q1.book.urbs[id] == u;
      assert id in q1.desk.accepted && id in q2.desk.accepted;
      StartWf(q1, id, env);
      assert TransferQueues.Start(q1, id, env).desk == q1.desk;
      hide DeliverPending, TransferQueues.Start, Link, Begin, Wf, New;
      PendingDesk(q1, env);
      PendingDesk(q2, env);
      PendingDesk(TransferQueues.Start(q1, id, env), env);
    }
  }

  lemma {:induction false} InitDesk(q: Tq, ids: seq<nat>, env: Env)
    requires Wf(q) && forall id :: id in ids ==> id in q.book.list
    ensures InitPendingUrbs(q, ids, env).desk == q.desk
    decreases |ids|
  {
    hide WireWf, Sound, Begin;
    if ids != [] && q.book.remaining > 0 {
      if q.book.urbs[ids[0]].state == InitPending {
        StartWf(q, ids[0], env);
        assert TransferQueues.Start(q, ids[0], env).desk == q.desk;
        hide TransferQueues.Start;
        InitDesk(TransferQueues.Start(q, ids[0], env), ids[1..], env);
      } else {
        InitDesk(q, ids[1..], env);
      }
    }
  }

  lemma {:induction false} DeliverDesk(q: Tq, env: Env)
    requires Wf(q)
    ensures Deliver(q, env).desk == q.desk
    decreases |q.evq|
  {
    if q.book.list != [] && q.evq != [] {
      var o := UpdateHead(q, q.evq[0], env);
      UpdateHeadWf(q, q.evq[0], env);
      var q1 := Settle(q, q.book.list[0], o);
      assert q1.desk == q.desk && Wf(q1.(evq := q.evq[1..]));
      hide Settle, UpdateHead, Wf;
      if o.verdict != Again {
        DeliverDesk(q1.(evq := q.evq[1..]), env);
      }
    }
  }

  lemma PendingDesk(q: Tq, env: Env)
    requires Wf(q)
    ensures DeliverPending(q, env).desk == q.desk
  {
    hide Deliver, InitPendingUrbs;
    DeliverDesk(q, env);
    InitDesk(Deliver(q, env), Deliver(q, env).book.list, env);
  }

  // ------------------------------------------------------------------ deferred messages

  /** The message cannot be taken in this state, whatever is granted. */
  ghost predicate Waits(u: Urb, m: Message)
    requires Sane(u)
  {
    forall g :: Update(u, m, g).verdict == Again
  }

  lemma AgainWaits(u: Urb, m: Message, g: Grants)
    requires Sane(u) && Update(u, m, g).verdict == Again
    ensures Waits(u, m)
  {
    hide ContinueOut;
  }

  /** These messages are taken one after the other, each by the request that is the oldest by then. */
  ghost predicate Given(q: Tq, ms: seq<Message>, env: Env, r: Tq)
    decreases |ms|
  {
    if ms == [] then q == r
    else
      && Wf(q) && q.book.list != [] && UpdateHead(q, ms[0], env).verdict != Again
      && Given(Settle(q, q.book.list[0], UpdateHead(q, ms[0], env)), ms[1..], env, r)
  }

  /** Only the messages still deferred and the time tell the two apart. */
  predicate SameUpTo(r: Tq, d: Tq) {
    d == r.(evq := d.evq, tick := d.tick)
  }

  /** The deferred list does not matter to who takes a message. */
  lemma {:induction false} GivenEvq(q: Tq, ms: seq<Message>, env: Env, r: Tq, evq: seq<Message>)
    requires Given(q.(evq := evq), ms, env, r)
    ensures Given(q, ms, env, r.(evq := q.evq))
    decreases |ms|
  {
    if ms != [] {
      var q1 := Settle(q, q.book.list[0], UpdateHead(q, ms[0], env));
      assert Settle(q.(evq := evq), q.book.list[0], UpdateHead(q, ms[0], env)) == q1.(evq := evq) && q1.evq == q.evq;
      hide Settle, UpdateHead;
      GivenEvq(q1, ms[1..], env, r, evq);
    }
  }

  /** Nothing more can be delivered. */
  ghost predicate Exhausted(r: Tq)
    requires Wf(r)
  {
    r.book.list == [] || r.evq == [] || Waits(r.book.urbs[r.book.list[0]], r.evq[0])
  }

  /**
   Deferred messages are delivered in order: a front of them is taken, each by the oldest
   request, and the rest is kept because no request is left or the oldest cannot
   take the next one.
   */
  lemma {:induction false} DeliverExact(q: Tq, env: Env) returns (k: nat, r: Tq)
    requires Wf(q)
    ensures k <= |q.evq| && Given(q, q.evq[..k], env, r) && SameUpTo(r, Deliver(q, env))
    ensures Deliver(q, env).evq == q.evq[k..] && Exhausted(Deliver(q, env))
    decreases |q.evq|
  {
    k, r := 0, q;
    if q.book.list != [] && q.evq != [] {
      var m, o := q.evq[0], UpdateHead(q, q.evq[0], env);
      UpdateHeadWf(q, m, env);
      var q1 := Settle(q, q.book.list[0], o);
      if o.verdict == Again {
        AgainKeeps(q, m, env);
        AgainWaits(q.book.urbs[q.book.list[0]], m, env(q.tick));
      } else {
        var next := q1.(evq := q.evq[1..]);
        assert q1.evq == q.evq;
        hide Settle, UpdateHead, Exhausted;
        var j, s := DeliverExact(next, env);
        GivenEvq(q1, next.evq[..j], env, s, next.evq);
        k, r := j + 1, s.(evq := q.evq);
        assert q.evq[..k][1..] == next.evq[..j] && q.evq[k..] == next.evq[j..];
      }
    }
  }

  /** A request that was waiting for a credit when messages were delivered, and was started after that. */
  ghost predicate StartedSince(v: Urb, env: Env, to: nat) {
    exists u: Urb, t: nat {:trigger Starts(u, env, t, v)} :: t < to && Starts(u, env, t, v)
  }

  ghost predicate Starts(u: Urb, env: Env, t: nat, v: Urb) {
    Sane(u) && u.state == InitPending && Begin(u, env(t)).status == 0 && Begin(u, env(t)).urb == v
  }

  /** A deferred message is kept only for want of a request that could have taken it. */
  ghost predicate KeptForCause(r: Tq, env: Env)
    requires Wf(r)
  {
    Exhausted(r) || StartedSince(r.book.urbs[r.book.list[0]], env, r.tick)
  }

  /** Starting requests from the list leaves the oldest one as it is, or has just started it. */
  lemma {:induction false} InitHead(q: Tq, ids: seq<nat>, env: Env, x: nat)
    requires Wf(q) && (forall id :: id in ids ==> id in q.book.list) && x in q.book.list
    ensures var r := InitPendingUrbs(q, ids, env);
            && r.evq == q.evq && q.tick <= r.tick
            && (r.book.urbs[x].state == InitPending || r.book.urbs[x] == q.book.urbs[x] || StartedSince(r.book.urbs[x], env, r.tick))
    decreases |ids|
  {
    hide WireWf, Sane, Begin, StartedSince;
    if ids != [] && q.book.remaining > 0 {
      if q.book.urbs[ids[0]].state == InitPending {
        StartWf(q, ids[0], env);
        StartHead(q, ids[0], env, x);
        var q1 := TransferQueues.Start(q, ids[0], env);
        hide TransferQueues.Start;
        if q1.book.urbs[x].state == InitPending || q1.book.urbs[x] == q.book.urbs[x] {
          InitHead(q1, ids[1..], env, x);
          if q1.book.urbs[x].state != InitPending {
            InitOnward(q1, ids[1..], env, x);
          }
        } else {
          InitOnward(q1, ids[1..], env, x);
          StartedLonger(q1.book.urbs[x], env, q1.tick, InitPendingUrbs(q1, ids[1..], env).tick);
        }
      } else {
        InitHead(q, ids[1..], env, x);
      }
    }
  }

  lemma StartedLonger(v: Urb, env: Env, to: nat, to': nat)
    requires StartedSince(v, env, to) && to <= to'
    ensures StartedSince(v, env, to')
  {
    var u: Urb, t: nat :| t < to && Starts(u, env, t, v);
    assert t < to' && Starts(u, env, t, v);
  }

  lemma StartHead(q: Tq, id: nat, env: Env, x: nat)
    requires Wf(q) && id in q.book.list && x in q.book.list && q.book.remaining > 0 && q.book.urbs[id].state == InitPending
    ensures var r := TransferQueues.Start(q, id, env);
            && r.evq == q.evq && r.tick == q.tick + 1 && x in r.book.urbs
            && (if x != id then r.book.urbs[x] == q.book.urbs[x]
                else r.book.urbs[x].state == InitPending || StartedSince(r.book.urbs[x], env, r.tick))
  {
    var u, g := q.book.urbs[id], env(q.tick);
    assert Sane(u);
    BeginSound(u, g);
    if Begin(u, g).status != 0 {
      BeginFails(u, g);
    } else {
      assert Starts(u, env, q.tick, Begin(u, g).urb);
    }
    hide Begin, Hand, Sane, Starts;
  }

  /** A request that has been started is not touched again. */
  lemma {:induction false} InitOnward(q: Tq, ids: seq<nat>, env: Env, x: nat)
    requires Wf(q) && (forall id :: id in ids ==> id in q.book.list) && x in q.book.list && q.book.urbs[x].state != InitPending
    ensures var r := InitPendingUrbs(q, ids, env);
            r.book.urbs[x] == q.book.urbs[x] && r.evq == q.evq && q.tick <= r.tick
    decreases |ids|
  {
    hide WireWf, Sane, Begin, StartedSince;
    if ids != [] && q.book.remaining > 0 {
      if q.book.urbs[ids[0]].state == InitPending {
        StartWf(q, ids[0], env);
        StartHead(q, ids[0], env, x);
        hide TransferQueues.Start;
        InitOnward(TransferQueues.Start(q, ids[0], env), ids[1..], env, x);
      } else {
        InitOnward(q, ids[1..], env, x);
      }
    }
  }

  lemma InitialWaits(u: Urb, m: Message)
    requires Sane(u) && u.state == InitPending
    ensures Waits(u, m)
  {
  }

  lemma PendingExhausts(q: Tq, env: Env)
    requires Wf(q)
    ensures KeptForCause(DeliverPending(q, env), env)
  {
    hide Deliver, Given, SameUpTo, InitPendingUrbs, KeptForCause, Exhausted, Wf;
    var k, s := DeliverExact(q, env);
    InitExhausts(Deliver(q, env), env);
  }

  lemma InitExhausts(d: Tq, env: Env)
    requires Wf(d) && Exhausted(d)
    ensures KeptForCause(InitPendingUrbs(d, d.book.list, env), env)
  {
    hide InitPendingUrbs, Waits, StartedSince, WireWf, Sane;
    var r := InitPendingUrbs(d, d.book.list, env);
    if d.book.list != [] {
      var x := d.book.list[0];
      InitHead(d, d.book.list, env, x);
      if d.evq != [] && r.book.urbs[x].state == InitPending {
        InitialWaits(r.book.urbs[x], r.evq[0]);
      }
    }
  }

  /** The steps after which everything deferred that could be delivered has been. */
  lemma NoMessageKept(q: Tq, step: Step, env: Env)
    requires Wf(q) && Enabled(q, step) && (step.Finished? || step.PauseFailed? || step.Reopen?)
    ensures Wf(Next(q, step, env)) && KeptForCause(Next(q, step, env), env)
  {
    hide DeliverPending, KeptForCause, CompleteMany, ResumeUrbs;
    match step
    case Finished(dir, cs) => PendingExhausts(CompleteMany(q, dir, cs, env), env);
    case PauseFailed => PendingExhausts(Activate(q), env);
    case Reopen => PendingExhausts(ResumeUrbs(Activate(q), q.book.list, env), env);
  }

  /** Starting requests leaves the deferred messages alone. */
  lemma {:induction false} InitEvq(q: Tq, ids: seq<nat>, env: Env)
    requires Wf(q) && forall id :: id in ids ==> id in q.book.list
    ensures InitPendingUrbs(q, ids, env).evq == q.evq
    decreases |ids|
  {
    hide WireWf, Sound, Begin;
    if ids != [] && q.book.remaining > 0 {
      if q.book.urbs[ids[0]].state == InitPending {
        StartWf(q, ids[0], env);
        assert TransferQueues.Start(q, ids[0], env).evq == q.evq;
        hide TransferQueues.Start;
        InitEvq(TransferQueues.Start(q, ids[0], env), ids[1..], env);
      } else {
        InitEvq(q, ids[1..], env);
      }
    }
  }

  /**
   On an active endpoint a window neither overtakes a deferred one nor gets lost: it
   queues behind those that could not be delivered, waits for a request when there is
   none, and is otherwise taken unless the oldest request cannot take it now.
   */
  lemma WindowKeepsItsTurn(q: Tq, m: Message, env: Env)
    requires Wf(q) && q.flags.active && m.cmd == CMD_TRANSFER_REQUEST && forall t :: env(t).memory
    ensures var d, p, r := Deliver(q, env), DeliverPending(q, env), Event(q, m, env);
            && d.book.list == p.book.list
            && (d.evq != [] || d.book.list == [] ==> r.evq == d.evq + [m])
            && (d.evq == [] && d.book.list != [] ==>
                  r.evq == if Waits(p.book.urbs[p.book.list[0]], m) then [m] else [])
  {
    var d, p := Deliver(q, env), DeliverPending(q, env);
    InitEvq(d, d.book.list, env);
    hide Deliver, InitPendingUrbs, Update, Waits;
    if d.book.list != [] {
      var u, o := p.book.urbs[p.book.list[0]], UpdateHead(p, m, env);
      UpdateHeadWf(p, m, env);
      var q2 := Settle(p, p.book.list[0], o);
      InitEvq(q2, q2.book.list, env);
      if o.verdict == Again {
        AgainWaits(u, m, env(p.tick));
      } else {
        NotWaits(u, m, env(p.tick));
      }
    }
  }

  lemma NotWaits(u: Urb, m: Message, g: Grants)
    requires Sane(u) && Update(u, m, g).verdict != Again
    ensures !Waits(u, m)
  {
  }

  /** An inactive endpoint keeps windows exactly while it is suspended, the control endpoint also during internal work. */
  lemma InactiveKeepsWindows(q: Tq, m: Message, env: Env)
    requires Wf(q) && !q.flags.active && env(q.tick).memory
    ensures var r, kept := Event(q, m, env),
              m.cmd == CMD_TRANSFER_REQUEST && (Prelude.Suspend in q.flags.pausedBy || (q.control && Prelude.InternalWork in q.flags.pausedBy));
            r == if kept then q.(evq := q.evq + [m], tick := q.tick + 1) else q
  {
  }

  // ------------------------------------------------------------------ completions and resumes

  /** Completions can be handled one by one or in batches, as the interrupts come. */
  lemma {:induction false} BatchesSplit(q: Tq, dir: Direction, a: seq<Completed>, b: seq<Completed>, env: Env)
    requires Wf(q)
    ensures CompleteMany(q, dir, a + b, env) == CompleteMany(CompleteMany(q, dir, a, env), dir, b, env)
    decreases |a|
  {
    hide CompleteOne, Wf;
    if a == [] {
      assert a + b == b;
    } else if InFlight(q.wire, dir) != [] {
      assert (a + b)[0] == a[0] && (a + b)[1..] == a[1..] + b;
      BatchesSplit(CompleteOne(q, dir, a[0], env), dir, a[1..], b, env);
    }
  }

  /** A completion takes the oldest submission off its ring; all that is posted goes behind the others. */
  lemma CompleteOneRing(q: Tq, dir: Direction, c: Completed, env: Env)
    requires Wf(q) && InFlight(q.wire, dir) != []
    ensures InFlight(q.wire, dir)[1..] <= InFlight(CompleteOne(q, dir, c, env).wire, dir)
    ensures CompleteMany(q, dir, [c], env) == CompleteOne(q, dir, c, env)
  {
    hide TransferDone, Enter, Mark;
    assert [c][1..] == [];
  }

  ghost predicate OnRing(ring: seq<Posted>, id: nat) {
    exists i :: 0 <= i < |ring| && ring[i].owner == id
  }

  lemma OnRingMore(ring: seq<Posted>, more: seq<Posted>, id: nat)
    requires OnRing(ring, id) && ring <= more
    ensures OnRing(more, id)
  {
    var i :| 0 <= i < |ring| && ring[i].owner == id;
    assert more[i].owner == id;
  }

  lemma ResumeSetsUp(u: Urb, g: Grants)
    requires Sound(u) && Stays(Resume(u, g).verdict)
    ensures Resume(u, g).urb.state == WaitCompletion ==>
              u.dir == Resume(u, g).urb.dir == In && Resume(u, g).post.Some? && Resume(u, g).post.value.FromDevice?
    ensures u.state == WaitCompletion && u.dir == Out ==>
              Resume(u, g).urb.state == WaitRequest && Resume(u, g).urb.requestEnd == u.receiveOffset == Resume(u, g).urb.receiveOffset
  {
    if u.buffer.Scatter? {
      RangeFits(u.buffer.list, u.receiveOffset, u.length - u.receiveOffset);
    }
    hide SegmentLists.NextRange;
  }

  /** One request of the walk. */
  lemma ResumeOneSetsUp(q: Tq, id: nat, env: Env)
    requires Wf(q) && id in q.book.list && q.book.urbs[id].state != InitPending
    ensures var r := ResumeOne(q, id, env);
            && q.wire.fromDevice <= r.wire.fromDevice && id in r.book.urbs
            && (id in r.book.list ==> Rearmed(q.book.urbs[id], r, id))
  {
    hide Resume, WireWf, Sane;
    var o := Resume(q.book.urbs[id], env(q.tick));
    SettleFields(q, id, o);
    hide Settle, OnRing;
    var r := Settle(q, id, o);
    if Stays(o.verdict) {
      ResumeSetsUp(q.book.urbs[id], env(q.tick));
      if o.urb.state == WaitCompletion {
        LastOnRing(q.wire.fromDevice, Posted(id, o.post.value.sub));
      }
    }
  }

  lemma LastOnRing(ring: seq<Posted>, p: Posted)
    ensures OnRing(ring + [p], p.owner)
  {
    assert (ring + [p])[|ring|] == p;
  }

  /** What settling a request leaves of it and of the IN ring. */
  lemma SettleFields(q: Tq, id: nat, o: Outcome)
    requires Wf(q) && id in q.book.list
    ensures var r := Settle(q, id, o);
            && r.wire.fromDevice == q.wire.fromDevice +
                 (if o.post.Some? && o.post.value.FromDevice? then [Posted(id, o.post.value.sub)] else [])
            && id in r.book.urbs && r.book.urbs[id] == o.urb && (id in r.book.list ==> Stays(o.verdict))
  {
    WithoutMembers(q.book.list, id);
    hide WireWf, Sound, Without, Mark;
  }

  /** An IN request waits for a submission that is on the ring; an OUT request that waited has given up its window. */
  ghost predicate Rearmed(u: Urb, r: Tq, id: nat)
    requires id in r.book.urbs
  {
    && (r.book.urbs[id].state == WaitCompletion ==> r.book.urbs[id].dir == In && OnRing(r.wire.fromDevice, id))
    && (u.state == WaitCompletion && u.dir == Out ==>
          r.book.urbs[id].state == WaitRequest && r.book.urbs[id].requestEnd == u.receiveOffset)
  }

  /** Some request before the k-th waits for a credit, and none is left: there the walk over the list ends. */
  ghost predicate EndsBefore(r: Tq, ids: seq<nat>, k: nat)
    requires k <= |ids|
  {
    r.book.remaining == 0 && exists j :: 0 <= j < k && ids[j] in r.book.urbs && r.book.urbs[ids[j]].state == InitPending
  }

  lemma {:induction false} ResumeOthers(q: Tq, ids: seq<nat>, env: Env, x: nat)
    requires Wf(q) && Distinct(ids) && (forall id :: id in ids ==> id in q.book.list) && x in q.book.urbs && x !in ids
    ensures var r := ResumeUrbs(q, ids, env);
            && x in r.book.urbs && r.book.urbs[x] == q.book.urbs[x] && q.wire.fromDevice <= r.wire.fromDevice
            && (x in r.book.list <==> x in q.book.list)
    decreases |ids|
  {
    if ids != [] && !(q.book.urbs[ids[0]].state == InitPending && q.book.remaining == 0) {
      ResumeOneWf(q, ids[0], env);
      ResumeOneElse(q, ids[0], env, x);
      assert ids[0] !in ids[1..];
      var q1 := ResumeOne(q, ids[0], env);
      hide ResumeOne, WireWf, Sound;
      ResumeOthers(q1, ids[1..], env, x);
    }
  }

  lemma ResumeOneElse(q: Tq, id: nat, env: Env, x: nat)
    requires Wf(q) && id in q.book.list && x in q.book.urbs && x != id
    ensures var r := ResumeOne(q, id, env);
            && x in r.book.urbs && r.book.urbs[x] == q.book.urbs[x] && q.wire.fromDevice <= r.wire.fromDevice
            && (x in r.book.list <==> x in q.book.list)
  {
    WithoutMembers(q.book.list, id);
    hide Begin, Resume, Sound, WireWf;
  }

  /**
   After an endpoint is resumed, no linked request waits for a completion that will not
   come: its submission is on the ring again, or it waits for a new window. The walk
   reaches every request that has no waiting one before it when the credits are used up.
   */
  lemma {:induction false} ResumeReaches(q: Tq, ids: seq<nat>, env: Env, k: nat)
    requires Wf(q) && Distinct(ids) && (forall id :: id in ids ==> id in q.book.list) && k < |ids|
    requires q.book.urbs[ids[k]].state != InitPending
    ensures var r := ResumeUrbs(q, ids, env);
            && ids[k] in r.book.urbs
            && (EndsBefore(r, ids, k) || (ids[k] in r.book.list ==> Rearmed(q.book.urbs[ids[k]], r, ids[k])))
    decreases |ids|
  {
    var id, rest := ids[0], ids[1..];
    assert id !in rest;
    if q.book.urbs[id].state == InitPending && q.book.remaining == 0 {
      assert EndsBefore(q, ids, k);
    } else {
      ResumeOneWf(q, id, env);
      var q1 := ResumeOne(q, id, env);
      if k == 0 {
        ResumeOneSetsUp(q, id, env);
        hide ResumeOne, WireWf, Sound;
        ResumeOthers(q1, rest, env, id);
        RearmedStays(q.book.urbs[id], q1, ResumeUrbs(q1, rest, env), id);
      } else {
        assert ids[k] == rest[k - 1] && ids[k] in ids;
        ResumeOneElse(q, id, env, ids[k]);
        hide ResumeOne, WireWf, Sound, Rearmed;
        ResumeReaches(q1, rest, env, k - 1);
        EndsLater(ResumeUrbs(q1, rest, env), ids, k);
      }
    }
  }

  lemma EndsLater(r: Tq, ids: seq<nat>, k: nat)
    requires 0 < k <= |ids|
    ensures EndsBefore(r, ids[1..], k - 1) ==> EndsBefore(r, ids, k)
  {
    if EndsBefore(r, ids[1..], k - 1) {
      var j :| 0 <= j < k - 1 && ids[1..][j] in r.book.urbs && r.book.urbs[ids[1..][j]].state == InitPending;
      assert ids[j + 1] == ids[1..][j];
    }
  }

  lemma RearmedStays(u: Urb, m: Tq, r: Tq, id: nat)
    requires id in m.book.urbs && id in r.book.urbs && r.book.urbs[id] == m.book.urbs[id] && m.wire.fromDevice <= r.wire.fromDevice
    ensures Rearmed(u, m, id) ==> Rearmed(u, r, id)
  {
    if OnRing(m.wire.fromDevice, id) {
      OnRingMore(m.wire.fromDevice, r.wire.fromDevice, id);
    }
  }

  /** An IN request that waits for a completion has a submission on the ring. */
  ghost predicate Armed(r: Tq, x: nat) {
    x in r.book.urbs &&
    (r.book.urbs[x].state == WaitCompletion && r.book.urbs[x].dir == In ==> OnRing(r.wire.fromDevice, x))
  }

  lemma BeginArms(u: Urb, g: Grants)
    requires Sane(u) && u.state == InitPending
    ensures var a := Begin(u, g);
            && a.urb.dir == u.dir
            && (a.status == 0 && a.urb.state == WaitCompletion && u.dir == In ==> a.post.Some? && a.post.value.FromDevice?)
            && (a.status != 0 ==> a.urb.state == InitPending)
  {
    if u.buffer.Scatter? {
      RangeFits(u.buffer.list, u.receiveOffset, u.length - u.receiveOffset);
    }
    hide SegmentLists.NextRange;
  }

  lemma StartArmed(q: Tq, id: nat, env: Env, x: nat)
    requires Wf(q) && id in q.book.list && q.book.urbs[id].state == InitPending && Armed(q, x)
    ensures Armed(TransferQueues.Start(q, id, env), x)
  {
    var r := TransferQueues.Start(q, id, env);
    BeginArms(q.book.urbs[id], env(q.tick));
    hide Begin, Sound, WireWf;
    if OnRing(q.wire.fromDevice, x) {
      OnRingMore(q.wire.fromDevice, r.wire.fromDevice, x);
    } else if x == id && r.book.urbs[x].state == WaitCompletion && r.book.urbs[x].dir == In {
      assert r.wire.fromDevice[|q.wire.fromDevice|].owner == id;
    }
  }

  lemma {:induction false} InitArmed(q: Tq, ids: seq<nat>, env: Env, x: nat)
    requires Wf(q) && (forall id :: id in ids ==> id in q.book.list) && Armed(q, x)
    ensures Armed(InitPendingUrbs(q, ids, env), x)
    decreases |ids|
  {
    hide TransferQueues.Start, WireWf, Sound, Armed;
    if ids != [] && q.book.remaining > 0 {
      if q.book.urbs[ids[0]].state == InitPending {
        StartWf(q, ids[0], env);
        StartArmed(q, ids[0], env, x);
        InitArmed(TransferQueues.Start(q, ids[0], env), ids[1..], env, x);
      } else {
        InitArmed(q, ids[1..], env, x);
      }
    }
  }

  /** A message never makes an IN request wait for a completion. */
  lemma UpdateArms(u: Urb, m: Message, g: Grants)
    requires Sound(u)
    ensures var o := Update(u, m, g);
            o.urb.dir == u.dir && (u.dir == In && o.urb.state == WaitCompletion ==> u.state == WaitCompletion)
  {
    hide OutSubmission;
  }

  lemma OfferArmed(q: Tq, m: Message, env: Env, x: nat)
    requires Wf(q) && q.book.list != [] && Armed(q, x)
    ensures Armed(Settle(q, q.book.list[0], UpdateHead(q, m, env)), x)
  {
    var h := q.book.list[0];
    assert Sound(q.book.urbs[h]);
    UpdateArms(q.book.urbs[h], m, env(q.tick));
    hide Update, Sound, WireWf, Without;
    var r := Settle(q, h, UpdateHead(q, m, env));
    if OnRing(q.wire.fromDevice, x) {
      OnRingMore(q.wire.fromDevice, r.wire.fromDevice, x);
    }
  }

  lemma {:induction false} DeliverArmed(q: Tq, env: Env, x: nat)
    requires Wf(q) && Armed(q, x)
    ensures Armed(Deliver(q, env), x)
    decreases |q.evq|
  {
    if q.book.list != [] && q.evq != [] {
      var o := UpdateHead(q, q.evq[0], env);
      UpdateHeadWf(q, q.evq[0], env);
      OfferArmed(q, q.evq[0], env, x);
      var q1 := Settle(q, q.book.list[0], o);
      assert Wf(q1.(evq := q.evq[1..])) && Armed(q1.(evq := q.evq[1..]), x);
      hide Settle, UpdateHead, Wf, Armed;
      if o.verdict != Again {
        DeliverArmed(q1.(evq := q.evq[1..]), env, x);
      }
    }
  }

  /**
   So after an endpoint is reopened, every IN request that was started before and still
   waits for a completion has a submission on the ring, with the same exception.
   */
  lemma ReopenReaches(q: Tq, env: Env, k: nat)
    requires Wf(q) && k < |q.book.list| && q.book.urbs[q.book.list[k]].state != InitPending
    ensures var m, r, id := ResumeUrbs(Activate(q), q.book.list, env), Next(q, Reopen, env), q.book.list[k];
            EndsBefore(m, q.book.list, k) || (id in m.book.list ==> Armed(r, id))
  {
    hide ResumeUrbs, EndsBefore, DeliverPending, WireWf, Sound;
    var m, id := ResumeUrbs(Activate(q), q.book.list, env), q.book.list[k];
    assert Next(q, Reopen, env) == DeliverPending(m, env);
    hide Next;
    ResumeReaches(Activate(q), q.book.list, env, k);
    if !EndsBefore(m, q.book.list, k) && id in m.book.list {
      PendingArmed(m, env, id);
    }
  }

  lemma PendingArmed(q: Tq, env: Env, x: nat)
    requires Wf(q) && Armed(q, x)
    ensures Armed(DeliverPending(q, env), x)
  {
    hide Deliver, InitPendingUrbs, Armed;
    DeliverArmed(q, env, x);
    InitArmed(Deliver(q, env), Deliver(q, env).book.list, env, x);
  }
}
