/** A cancelled request is given back by the worker, oldest cancellation first, with the status usbcore asked for. */
module CancelStatus {
  import opened Urbs
  import opened TransferQueues

  /** A section leaves the cancellation of request x as it is. */
  ghost predicate Keeps(q: Tq, r: Tq, x: nat) {
    && r.desk == q.desk
    && (x in q.book.urbs ==> x in r.book.urbs && r.book.urbs[x].cancelStatus == q.book.urbs[x].cancelStatus)
    && (x in r.book.list ==> x in q.book.list)
    && (x in q.book.urbs && q.book.urbs[x].state == Cancelled && x in r.book.list ==> r.book.urbs[x].state == Cancelled)
  }

  /** An event on a request does, too. */
  ghost predicate Spares(u: Urb, o: Outcome) {
    o.urb.cancelStatus == u.cancelStatus && (u.state == Cancelled && Stays(o.verdict) ==> o.urb.state == Cancelled)
  }

  lemma DataUpdateSpares(u: Urb, m: Message, g: Grants)
    requires Sane(u)
    ensures Spares(u, DataUpdate(u, m, g))
  {
    hide OutSubmission;
  }

  lemma DataDoneSpares(u: Urb, c: Completed, g: Grants)
    requires Sane(u)
    ensures Spares(u, DataDone(u, c, g))
  {
    hide OutSubmission, InSubmission;
  }

  lemma TransferInSpares(u: Urb, g: Grants)
    requires u.receiveOffset <= u.length
    ensures TransferIn(u, g).urb.cancelStatus == u.cancelStatus
  {
    hide InSubmission;
  }

  lemma ReactSpares(u: Urb, e: UrbEvent, g: Grants)
    requires Sane(u)
    ensures Spares(u, React(u, e, g))
  {
    hide DataUpdate, DataDone, TransferIn;
    TransferInSpares(u, g);
    match e
    case Told(m) => DataUpdateSpares(u, m, g);
    case Done(c) => DataDoneSpares(u, c, g);
    case Resumed =>
  }

  lemma SettleKeeps(q: Tq, id: nat, o: Outcome, x: nat)
    requires Wf(q) && id in q.book.list && Spares(q.book.urbs[id], o)
    ensures Keeps(q, Settle(q, id, o), x)
  {
    hide Hand, Sound, WireWf;
    WithoutMembers(q.book.list, id);
  }

  lemma StartKeeps(q: Tq, id: nat, env: Env, x: nat)
    requires Wf(q) && id in q.book.list && q.book.urbs[id].state == InitPending
    ensures Keeps(q, TransferQueues.Start(q, id, env), x)
  {
    assert Begin(q.book.urbs[id], env(q.tick)).urb.cancelStatus == q.book.urbs[id].cancelStatus by {
      hide InSubmission;
    }
    hide Begin, Hand, Sound, WireWf;
  }

  lemma KeepsOn(q: Tq, m: Tq, r: Tq, x: nat)
    requires Keeps(q, m, x) && Keeps(m, r, x) && Wf(m)
    ensures Keeps(q, r, x)
  {
  }

  lemma {:induction false} InitKeeps(q: Tq, ids: seq<nat>, env: Env, x: nat)
    requires Wf(q) && forall id :: id in ids ==> id in q.book.list
    ensures Keeps(q, InitPendingUrbs(q, ids, env), x)
    decreases |ids|
  {
    hide TransferQueues.Start, WireWf, Sound;
    if ids != [] && q.book.remaining > 0 {
      if q.book.urbs[ids[0]].state == InitPending {
        StartWf(q, ids[0], env);
        StartKeeps(q, ids[0], env, x);
        InitKeeps(TransferQueues.Start(q, ids[0], env), ids[1..], env, x);
      } else {
        InitKeeps(q, ids[1..], env, x);
      }
    }
  }

  lemma OfferKeeps(q: Tq, m: Message, env: Env, x: nat)
    requires Wf(q) && q.book.list != []
    ensures Keeps(q, Settle(q, q.book.list[0], UpdateHead(q, m, env)), x)
  {
    ReactSpares(q.book.urbs[q.book.list[0]], Told(m), env(q.tick));
    hide Update, Settle, WireWf;
    SettleKeeps(q, q.book.list[0], UpdateHead(q, m, env), x);
  }

  lemma {:induction false} DeliverKeeps(q: Tq, env: Env, x: nat)
    requires Wf(q)
    ensures Keeps(q, Deliver(q, env), x)
    decreases |q.evq|
  {
    if q.book.list != [] && q.evq != [] {
      var o := UpdateHead(q, q.evq[0], env);
      UpdateHeadWf(q, q.evq[0], env);
      OfferKeeps(q, q.evq[0], env, x);
      var q1 := Settle(q, q.book.list[0], o);
      assert Wf(q1.(evq := q.evq[1..]));
      hide Settle, UpdateHead, Wf;
      if o.verdict != Again {
        DeliverKeeps(q1.(evq := q.evq[1..]), env, x);
      }
    }
  }

  lemma PendingKeeps(q: Tq, env: Env, x: nat)
    requires Wf(q)
    ensures Keeps(q, DeliverPending(q, env), x)
  {
    hide Deliver, InitPendingUrbs, Keeps;
    DeliverKeeps(q, env, x);
    var q1 := Deliver(q, env);
    InitKeeps(q1, q1.book.list, env, x);
    KeepsOn(q, q1, DeliverPending(q, env), x);
  }

  lemma EventKeeps(q: Tq, m: Message, env: Env, x: nat)
    requires Wf(q)
    ensures Keeps(q, Event(q, m, env), x)
  {
    if q.flags.active {
      PendingKeeps(q, env, x);
      var q1 := DeliverPending(q, env);
      hide DeliverPending, InitPendingUrbs, Update, Wf;
      if q1.book.list != [] {
        UpdateHeadWf(q1, m, env);
        OfferKeeps(q1, m, env, x);
        var q2 := Settle(q1, q1.book.list[0], UpdateHead(q1, m, env));
        hide Settle, UpdateHead;
        KeepsOn(q, q1, q2, x);
        InitKeeps(q2, q2.book.list, env, x);
        KeepsOn(q, q2, InitPendingUrbs(q2, q2.book.list, env), x);
      }
    }
  }

  lemma CompleteOneKeeps(q: Tq, dir: Direction, c: Completed, env: Env, x: nat)
    requires Wf(q) && InFlight(q.wire, dir) != []
    ensures Keeps(q, CompleteOne(q, dir, c, env), x)
  {
    RetireWf(q.wire, q.book.list, dir, c);
    var q1 := q.(wire := Retire(q.wire, dir, c));
    assert Wf(q1);
    if q1.book.list != [] {
      ReactSpares(q1.book.urbs[q1.book.list[0]], Done(c), env(q1.tick));
    }
    hide Retire, TransferDone, Settle, WireWf;
    if q1.book.list != [] {
      SettleKeeps(q1, q1.book.list[0], TransferDone(q1.book.urbs[q1.book.list[0]], c, env(q1.tick)), x);
    }
  }

  lemma {:induction false} CompleteManyKeeps(q: Tq, dir: Direction, cs: seq<Completed>, env: Env, x: nat)
    requires Wf(q)
    ensures Keeps(q, CompleteMany(q, dir, cs, env), x)
    decreases |cs|
  {
    if cs != [] && InFlight(q.wire, dir) != [] {
      CompleteOneKeeps(q, dir, cs[0], env, x);
      hide CompleteOne, Keeps, Wf;
      var q1 := CompleteOne(q, dir, cs[0], env);
      CompleteManyKeeps(q1, dir, cs[1..], env, x);
      KeepsOn(q, q1, CompleteMany(q, dir, cs, env), x);
    } else {
      hide Wf;
    }
  }

  lemma {:induction false} ResumeKeeps(q: Tq, ids: seq<nat>, env: Env, x: nat)
    requires Wf(q) && Distinct(ids) && forall id :: id in ids ==> id in q.book.list
    ensures Keeps(q, ResumeUrbs(q, ids, env), x)
    decreases |ids|
  {
    if ids != [] && !(q.book.urbs[ids[0]].state == InitPending && q.book.remaining == 0) {
      ResumeOneWf(q, ids[0], env);
      ResumeOneKeeps(q, ids[0], env, x);
      assert ids[0] !in ids[1..];
      var q1 := ResumeOne(q, ids[0], env);
      hide ResumeOne, Keeps, Wf;
      ResumeKeeps(q1, ids[1..], env, x);
      KeepsOn(q, q1, ResumeUrbs(q1, ids[1..], env), x);
    }
  }

  lemma ResumeOneKeeps(q: Tq, id: nat, env: Env, x: nat)
    requires Wf(q) && id in q.book.list
    ensures Keeps(q, ResumeOne(q, id, env), x)
  {
    if q.book.urbs[id].state == InitPending {
      StartKeeps(q, id, env, x);
    } else {
      ReactSpares(q.book.urbs[id], Resumed, env(q.tick));
      SettleKeeps(q, id, Resume(q.book.urbs[id], env(q.tick)), x);
    }
    hide Resume, Settle, TransferQueues.Start, Keeps;
  }

  lemma CreateKeeps(q: Tq, id: nat, u: Urb, linked: bool, env: Env, x: nat)
    requires Wf(q) && id !in q.book.list && New(u) && x != id
    ensures Keeps(q.(desk := Create(q, id, u, linked, env).desk), Create(q, id, u, linked, env), x)
    ensures Create(q, id, u, linked, env).desk == q.desk.(accepted := q.desk.accepted + {id}) || Create(q, id, u, linked, env).desk == q.desk
  {
    assert Keeps(q, q, x) && Keeps(q, q.(tick := q.tick + 1), x);
    hide DeliverPending, TransferQueues.Start, Begin, New, Link, Wf, Keeps;
    if linked {
      var q1 := Link(q, id, u).(desk := q.desk.(accepted := q.desk.accepted + {id}));
      var q2 := q1.(flags := q.flags.(resetQueued := q.flags.resetQueued || q.flags.stalled));
      LinkKeeps(q, id, u, x);
      hide Create;
      if q.flags.active {
        CreateActive(q, id, u, env);
        LinkedKeeps(q, q1, q1, env, x);
        StartWf(q1, id, env);
        StartKeeps(q1, id, env, x);
        LinkedKeeps(q, q1, TransferQueues.Start(q1, id, env), env, x);
      } else {
        CreateInactive(q, id, u, env);
        LinkedKeeps(q, q1, q2, env, x);
      }
    }
  }

  lemma LinkKeeps(q: Tq, id: nat, u: Urb, x: nat)
    requires Wf(q) && id !in q.book.list && New(u) && x != id
    ensures var q1 := Link(q, id, u).(desk := q.desk.(accepted := q.desk.accepted + {id}));
            var q2 := q1.(flags := q.flags.(resetQueued := q.flags.resetQueued || q.flags.stalled));
            && Wf(q1) && Wf(q2) && id in q1.book.list && q1.book.urbs[id].state == InitPending
            && Keeps(q.(desk := q1.desk), q1, x) && Keeps(q1, q2, x) && Keeps(q1, q1, x)
  {
    LinkWf(q, id, u);
  }

  lemma LinkedKeeps(q: Tq, q1: Tq, m: Tq, env: Env, x: nat)
    requires Wf(q1) && Wf(m) && Keeps(q.(desk := q1.desk), q1, x) && Keeps(q1, m, x)
    ensures Keeps(q.(desk := q1.desk), DeliverPending(m, env), x) && DeliverPending(m, env).desk == q1.desk
  {
    hide DeliverPending, Wf;
    PendingKeeps(m, env, x);
    KeepsOn(q.(desk := q1.desk), q1, m, x);
    KeepsOn(q.(desk := q1.desk), m, DeliverPending(m, env), x);
  }

  /** Request x was cancelled with this status, and the worker has not given it back with another. */
  ghost predicate Asked(q: Tq, x: nat, status: int) {
    && Wf(q) && x in q.desk.accepted && x in q.book.urbs && q.book.urbs[x].cancelStatus == status
    && (x in q.book.list ==> q.book.urbs[x].state == Cancelled)
    && (q.desk.worker.Unlinked? && q.desk.worker.id == x ==> q.desk.worker.status == status)
  }

  lemma KeepsAsked(q: Tq, r: Tq, x: nat, status: int)
    requires Asked(q, x, status) && Keeps(q, r, x) && Wf(r)
    ensures Asked(r, x, status)
  {
    hide Wf;
  }

  lemma NextAsked(q: Tq, step: Step, env: Env, x: nat, status: int)
    requires Asked(q, x, status) && Enabled(q, step)
    ensures Wf(Next(q, step, env)) ==> Asked(Next(q, step, env), x, status)
  {
    var r := Next(q, step, env);
    if Wf(r) {
      match step
      case Submit(id, u, linked) =>
        CreateKeeps(q, id, u, linked, env, x);
        hide Create, Keeps, Wf;
        KeepsAsked(q.(desk := r.desk), r, x, status);
      case Incoming(m) => EventKeeps(q, m, env, x); hide Event, Keeps; KeepsAsked(q, r, x, status);
      case Finished(dir, cs) =>
        CompleteManyKeeps(q, dir, cs, env, x);
        var m := CompleteMany(q, dir, cs, env);
        PendingKeeps(m, env, x);
        hide CompleteMany, DeliverPending;
        KeepsOn(q, m, r, x);
        KeepsAsked(q, r, x, status);
      case PauseFailed => PendingKeeps(Activate(q), env, x); hide DeliverPending; KeepsAsked(Activate(q), r, x, status);
      case Reopen =>
        ResumeKeeps(Activate(q), q.book.list, env, x);
        var m := ResumeUrbs(Activate(q), q.book.list, env);
        PendingKeeps(m, env, x);
        hide ResumeUrbs, DeliverPending;
        KeepsOn(Activate(q), m, r, x);
        KeepsAsked(Activate(q), r, x, status);
      case CancelUnlink => WithoutMembers(q.book.list, q.desk.worker.id); hide WireWf;
      case _ => hide WireWf, Sound;
    }
  }

  lemma {:induction false} RunAsked(q: Tq, steps: seq<Step>, env: Env, r: Tq, x: nat, status: int)
    requires Asked(q, x, status) && Runs(q, steps, env, r) && Wf(r)
    ensures Asked(r, x, status)
    decreases |steps|
  {
    hide Next, Asked, Enabled, Wf;
    if steps != [] {
      NextAsked(q, steps[0], env, x, status);
      if |steps| == 1 {
        assert steps[1..] == [];
      }
      RunAsked(Next(q, steps[0], env), steps[1..], env, r, x, status);
    }
  }

  /**
   Once a linked request has been cancelled, the worker can only give it back with the
   status of that cancellation, in every run from there on.
   */
  lemma CancelledWithItsStatus(q: Tq, id: nat, status: int, steps: seq<Step>, env: Env, r: Tq)
    requires Wf(q) && id in q.book.list && id in q.desk.accepted && q.book.urbs[id].state != Cancelled
    requires !(q.desk.worker.Unlinked? && q.desk.worker.id == id)
    requires Runs(RequestCancel(q, id, status), steps, env, r) && Wf(r)
    ensures r.desk.worker.Unlinked? && r.desk.worker.id == id ==>
              r.desk.worker.status == status && WorkerGive(r).desk.given == r.desk.given + [Giveback(id, status)]
  {
    var q1 := RequestCancel(q, id, status);
    assert Asked(q1, id, status) by {
      hide WireWf;
    }
    hide Asked, Runs, Wf;
    RunAsked(q1, steps, env, r, id, status);
  }

  /** The worker takes the oldest cancellation first. */
  lemma OldestCancelledFirst(q: Tq, id: nat, status: int)
    requires Wf(q) && id in q.book.list && q.book.urbs[id].state != Cancelled && q.desk.worker == Resting
    ensures var q1 := RequestCancel(q, id, status);
            && q1.desk.cancel != [] && q1.desk.worker == Resting
            && WorkerPop(q1).desk.worker == Popped(if q.desk.cancel == [] then id else q.desk.cancel[0])
            && WorkerPop(q1).desk.cancel == if q.desk.cancel == [] then [] else q.desk.cancel[1..] + [id]
  {
  }
}
