/**
 Credits and ownership of requests over every run of a transfer queue. One event is
 set apart: on the control endpoint an error status that meets a cancelled request.
 */
module TransferSafety {
  import opened Prelude
  import opened Urbs
  import opened TransferQueues

  /** A linked request holds a credit once started; a cancelled one keeps it until the worker unlinks it. */
  predicate Holds(u: Urb) {
    if u.state == Cancelled then u.cancelWasActive else u.state != InitPending
  }

  function Holders(b: Book): set<nat>
    requires forall id :: id in b.list ==> id in b.urbs
  {
    set id | id in b.list && Holds(b.urbs[id])
  }

  ghost predicate Credited(b: Book, max: nat)
    requires forall id :: id in b.list ==> id in b.urbs
  {
    b.remaining + |Holders(b)| == max
  }

  /** The linked requests are all of the endpoint's kind. */
  ghost predicate OneKind(b: Book, control: bool)
    requires forall id :: id in b.list ==> id in b.urbs
  {
    forall id :: id in b.list ==> b.urbs[id].control == control
  }

  /** The cancelled requests that are linked are exactly those on the cancel list or in the worker's hand, each there once. */
  ghost predicate CancelOk(b: Book, d: Desk)
    requires forall id :: id in b.list ==> id in b.urbs
  {
    && Distinct(d.cancel)
    && (forall id :: id in d.cancel ==> id in b.list && b.urbs[id].state == Cancelled)
    && (d.worker.Popped? ==> d.worker.id in b.list && d.worker.id !in d.cancel && b.urbs[d.worker.id].state == Cancelled)
    && (forall id :: id in b.list && b.urbs[id].state == Cancelled ==> id in d.cancel || d.worker == Popped(id))
  }

  function Ids(s: seq<Giveback>): (r: seq<nat>)
    ensures |r| == |s|
  {
    seq(|s|, i requires 0 <= i < |s| => s[i].id)
  }

  function InHand(w: Worker): multiset<nat> {
    if w.Unlinked? then multiset{w.id} else multiset{}
  }

  /** Linked, waiting for giveback, in the worker's hand, or given back: each accepted request exactly once. */
  function Places(b: Book, d: Desk): multiset<nat> {
    multiset(b.list) + multiset(Ids(b.giveback)) + multiset(Ids(d.given)) + InHand(d.worker)
  }

  ghost predicate Inv(q: Tq) {
    && Wf(q)
    && Credited(q.book, q.maxActive)
    && OneKind(q.book, q.control)
    && CancelOk(q.book, q.desk)
    && Places(q.book, q.desk) == multiset(q.desk.accepted)
  }

  // ------------------------------------------------------------------ one event

  /** What one event can do to a request, seen from credits and cancellation. */
  ghost predicate Tame(u: Urb, o: Outcome) {
    && o.urb.control == u.control
    && (Stays(o.verdict) ==> Holds(o.urb) == Holds(u) && (u.state == Cancelled <==> o.urb.state == Cancelled))
    && (!Stays(o.verdict) ==> Holds(u) && u.state != Cancelled && o.urb.state != InitPending)
  }

  /** An error status meets a cancelled control request. */
  predicate Strikes(u: Urb, m: Message) {
    u.control && u.state == Cancelled && m.cmd == CMD_CONTROL_TRANSFER_STATUS && m.status != 0 && m.status != STATUS_SUCCESS
  }

  lemma DataUpdateTame(u: Urb, m: Message, g: Grants)
    requires Sane(u)
    ensures Tame(u, DataUpdate(u, m, g))
  {
    hide OutSubmission;
  }

  lemma AfterFullTame(u: Urb, g: Grants)
    requires u.receiveOffset <= u.requestEnd <= u.length && u.state == WaitCompletion
    ensures Tame(u, AfterFull(u, g))
  {
    hide ContinueIn, ContinueOut;
    ContinueKeeps(u, g);
  }

  lemma ContinueKeeps(u: Urb, g: Grants)
    requires u.receiveOffset <= u.requestEnd && u.state == WaitCompletion
    ensures ContinueIn(u, g).urb.control == u.control && ContinueIn(u, g).urb.state == WaitCompletion
    ensures ContinueOut(u, g).urb.control == u.control && ContinueOut(u, g).urb.state == WaitCompletion
  {
    hide OutSubmission, InSubmission;
  }

  lemma DataDoneTame(u: Urb, c: Completed, g: Grants)
    requires Sane(u)
    ensures Tame(u, DataDone(u, c, g))
  {
    hide AfterFull;
    if u.state == WaitCompletion && c.dataSize <= u.submitted {
      AfterFullTame(u.(receiveOffset := u.receiveOffset + c.dataSize), g);
    }
  }

  /** A status check on a request that is started and not cancelled. */
  lemma CheckTame(u: Urb, v: Urb, post: Option<Post>)
    requires Holds(u) && u.state != Cancelled && v.state != Cancelled && v.state != InitPending && v.control == u.control
    ensures Tame(u, CheckStatus(v, post))
  {
  }

  lemma UpdateTame(u: Urb, m: Message, g: Grants)
    requires Sane(u) && !Strikes(u, m)
    ensures Tame(u, Update(u, m, g))
  {
    hide DataUpdate;
    DataUpdateTame(u, m, g);
    var o := DataUpdate(u, m, g);
    if u.state == WaitRequest || u.state == WaitCompletion {
      if o.verdict == Fine {
        CheckTame(u, o.urb, o.post);
      }
    }
  }

  lemma DoneTame(u: Urb, c: Completed, g: Grants)
    requires Sane(u)
    ensures Tame(u, TransferDone(u, c, g))
  {
    hide DataDone, InSubmission;
    DataDoneTame(u, c, g);
    var o := DataDone(u, c, g);
    if u.state == WaitRequest || u.state == WaitCompletion {
      if o.verdict == Fine {
        CheckTame(u, o.urb, o.post);
      }
    } else if u.state == SetupCompletion {
      TransferInSane(u, g);
    }
  }

  lemma ResumeTame(u: Urb, g: Grants)
    requires Sane(u)
    ensures Tame(u, Resume(u, g))
  {
    hide InSubmission;
  }

  lemma EnterCredited(b: Book, id: nat, o: Outcome, max: nat)
    requires BookWf(b) && id in b.list && Credited(b, max) && Tame(b.urbs[id], o)
    ensures (forall x :: x in Enter(b, id, o).list ==> x in Enter(b, id, o).urbs) && Credited(Enter(b, id, o), max)
  {
    hide Sound;
    WithoutMembers(b.list, id);
    var b' := Enter(b, id, o);
    if Stays(o.verdict) {
      assert Holders(b') == Holders(b);
    } else {
      assert id in Holders(b);
      assert Holders(b') == Holders(b) - {id};
    }
  }

  lemma EnterCancelOk(b: Book, d: Desk, id: nat, o: Outcome)
    requires BookWf(b) && id in b.list && CancelOk(b, d) && Tame(b.urbs[id], o)
    ensures (forall x :: x in Enter(b, id, o).list ==> x in Enter(b, id, o).urbs) && CancelOk(Enter(b, id, o), d)
  {
    hide Sound, Holds;
    WithoutMembers(b.list, id);
  }

  lemma IdsAppend(a: seq<Giveback>, b: seq<Giveback>)
    ensures Ids(a + b) == Ids(a) + Ids(b)
  {
  }

  lemma EnterPlaces(b: Book, d: Desk, id: nat, o: Outcome)
    requires id in b.list
    ensures Places(Enter(b, id, o), d) == Places(b, d)
  {
    if !Stays(o.verdict) {
      var g := Giveback(id, o.verdict.status);
      WithoutCount(b.list, id);
      IdsAppend(b.giveback, [g]);
      assert Ids([g]) == [id];
      assert multiset(Ids(b.giveback + [g])) == multiset(Ids(b.giveback)) + multiset{id};
      assert id in multiset(b.list);
      hide Ids, Without;
    }
  }

  lemma EnterOneKind(b: Book, id: nat, o: Outcome, control: bool)
    requires BookWf(b) && id in b.list && OneKind(b, control) && o.urb.control == control
    ensures (forall x :: x in Enter(b, id, o).list ==> x in Enter(b, id, o).urbs) && OneKind(Enter(b, id, o), control)
  {
    hide Sound;
    WithoutMembers(b.list, id);
  }

  lemma SettleInv(q: Tq, id: nat, o: Outcome)
    requires Inv(q) && id in q.book.list && Tame(q.book.urbs[id], o)
    requires Stays(o.verdict) ==> Sound(o.urb)
    ensures Inv(Settle(q, id, o))
  {
    SettleWf(q, id, o);
    EnterCredited(q.book, id, o, q.maxActive);
    EnterCancelOk(q.book, q.desk, id, o);
    EnterPlaces(q.book, q.desk, id, o);
    EnterOneKind(q.book, id, o, q.control);
    hide Enter, Hand, Mark, Credited, CancelOk, Places, OneKind, Tame, BookWf, WireWf;
  }

  // ------------------------------------------------------------------ starting

  lemma BeginTame(u: Urb, g: Grants)
    requires Sane(u) && u.state == InitPending
    ensures Begin(u, g).urb.control == u.control
    ensures if Begin(u, g).status == 0 then Begin(u, g).urb.state != InitPending && Begin(u, g).urb.state != Cancelled
            else Begin(u, g).urb.state == InitPending
  {
    hide InSubmission;
    TransferInSane(u, g);
    if Begin(u, g).status != 0 {
      BeginFails(u, g);
    }
  }

  /** The book after a start attempt that returned this request and status. */
  function Started(b: Book, id: nat, u: Urb, status: int): Book
    requires status == 0 ==> b.remaining > 0
  {
    var b1 := b.(urbs := b.urbs[id := u]);
    if status != 0 then b1 else b1.(remaining := b1.remaining - 1)
  }

  lemma StartedBook(b: Book, d: Desk, id: nat, u: Urb, status: int, max: nat, control: bool)
    requires BookWf(b) && id in b.list && b.urbs[id].state == InitPending && b.remaining > 0
    requires Credited(b, max) && OneKind(b, control) && CancelOk(b, d) && u.control == control
    requires if status == 0 then u.state != InitPending && u.state != Cancelled else u.state == InitPending
    ensures var b' := Started(b, id, u, status);
            && (forall x :: x in b'.list ==> x in b'.urbs)
            && Credited(b', max) && OneKind(b', control) && CancelOk(b', d)
  {
    hide Sound;
    var b' := Started(b, id, u, status);
    if status == 0 {
      assert Holders(b') == Holders(b) + {id};
    } else {
      assert Holders(b') == Holders(b);
    }
  }

  lemma StartInv(q: Tq, id: nat, env: Env)
    requires Inv(q) && id in q.book.list && q.book.urbs[id].state == InitPending
    ensures Inv(TransferQueues.Start(q, id, env))
  {
    StartWf(q, id, env);
    if q.book.remaining > 0 {
      var u, g := q.book.urbs[id], env(q.tick);
      assert Sane(u) && u.control == q.control;
      BeginTame(u, g);
      hide Begin;
      StartedBook(q.book, q.desk, id, Begin(u, g).urb, Begin(u, g).status, q.maxActive, q.control);
      hide Hand, Credited, CancelOk, OneKind, BookWf, WireWf;
    }
  }

  lemma {:induction false} InitPendingInv(q: Tq, ids: seq<nat>, env: Env)
    requires Inv(q) && forall id :: id in ids ==> id in q.book.list
    ensures Inv(InitPendingUrbs(q, ids, env))
    decreases |ids|
  {
    assert Wf(q);
    hide Inv, TransferQueues.Start;
    if ids != [] && q.book.remaining > 0 {
      if q.book.urbs[ids[0]].state == InitPending {
        StartInv(q, ids[0], env);
        StartWf(q, ids[0], env);
        InitPendingInv(TransferQueues.Start(q, ids[0], env), ids[1..], env);
      } else {
        InitPendingInv(q, ids[1..], env);
      }
    }
  }

  // ------------------------------------------------------------------ messages and completions

  ghost predicate StruckHead(q: Tq, m: Message)
    requires Wf(q)
  {
    q.control && q.book.list != [] && Strikes(q.book.urbs[q.book.list[0]], m)
  }

  /** Delivering the deferred messages makes an error status meet a cancelled request. */
  ghost predicate StruckDeliver(q: Tq, env: Env)
    requires Wf(q)
    decreases |q.evq|
  {
    && q.control && q.book.list != [] && q.evq != []
    && (|| StruckHead(q, q.evq[0])
        || (var o := UpdateHead(q, q.evq[0], env);
            UpdateHeadWf(q, q.evq[0], env);
            o.verdict != Again && StruckDeliver(Settle(q, q.book.list[0], o).(evq := q.evq[1..]), env)))
  }

  ghost predicate StruckEvent(q: Tq, m: Message, env: Env)
    requires Wf(q)
  {
    && q.control && q.flags.active
    && (|| StruckDeliver(q, env)
        || (var q1 := DeliverPending(q, env);
            !(m.cmd == CMD_TRANSFER_REQUEST && q1.evq != []) && StruckHead(q1, m)))
  }

  ghost predicate StruckCreate(q: Tq, id: nat, u: Urb, linked: bool, env: Env)
    requires Wf(q) && id !in q.book.list && New(u)
  {
    && q.control && linked
    && (LinkWf(q, id, u);
        var q1 := Link(q, id, u).(desk := q.desk.(accepted := q.desk.accepted + {id}));
        if !q.flags.active then
          StruckDeliver(q1.(flags := q.flags.(resetQueued := q.flags.resetQueued || q.flags.stalled)), env)
        else if q.book.remaining == 0 then StruckDeliver(q1, env)
        else
          StartWf(q1, id, env);
          Begin(u, env(q.tick)).status == 0 && StruckDeliver(TransferQueues.Start(q1, id, env), env))
  }

  /** The step makes an error status meet a cancelled control request. */
  ghost predicate Struck(q: Tq, step: Step, env: Env)
    requires Wf(q) && Enabled(q, step)
  {
    && q.control
    && match step {
         case Submit(id, u, linked) => StruckCreate(q, id, u, linked, env)
         case Incoming(m) => StruckEvent(q, m, env)
         case Finished(dir, cs) => StruckDeliver(CompleteMany(q, dir, cs, env), env)
         case PauseFailed => StruckDeliver(Activate(q), env)
         case Reopen => StruckDeliver(ResumeUrbs(Activate(q), q.book.list, env), env)
         case _ => false
       }
  }

  lemma UpdateHeadInv(q: Tq, m: Message, env: Env)
    requires Inv(q) && q.book.list != [] && !StruckHead(q, m)
    ensures Inv(Settle(q, q.book.list[0], UpdateHead(q, m, env)))
  {
    var u, g := q.book.urbs[q.book.list[0]], env(q.tick);
    assert Sound(u);
    hide Update, Settle, Sound, Inv;
    UpdateTame(u, m, g);
    UpdateSound(u, m, g);
    SettleInv(q, q.book.list[0], UpdateHead(q, m, env));
  }

  lemma {:induction false} DeliverInv(q: Tq, env: Env)
    requires Inv(q) && !StruckDeliver(q, env)
    ensures Inv(Deliver(q, env))
    decreases |q.evq|
  {
    assert Wf(q);
    if q.book.list != [] && q.evq != [] {
      var o := UpdateHead(q, q.evq[0], env);
      UpdateHeadInv(q, q.evq[0], env);
      UpdateHeadWf(q, q.evq[0], env);
      var q1 := Settle(q, q.book.list[0], o);
      assert Inv(q1.(evq := q.evq[1..]));
      hide Inv, Settle, UpdateHead, Wf;
      if o.verdict != Again {
        DeliverInv(q1.(evq := q.evq[1..]), env);
      }
    }
  }

  lemma DeliverPendingInv(q: Tq, env: Env)
    requires Inv(q) && !StruckDeliver(q, env)
    ensures Inv(DeliverPending(q, env))
  {
    assert Wf(q);
    hide Inv, Deliver, InitPendingUrbs;
    DeliverInv(q, env);
    var q1 := Deliver(q, env);
    InitPendingInv(q1, q1.book.list, env);
  }

  lemma DeferInv(q: Tq, m: Message, env: Env)
    requires Inv(q)
    ensures Inv(Defer(q, m, env))
  {
  }

  /** A message offered to the oldest request, and what follows. */
  lemma OfferInv(q: Tq, m: Message, env: Env)
    requires Inv(q) && Wf(q) && q.book.list != [] && !StruckHead(q, m)
    ensures var q1 := Settle(q, q.book.list[0], UpdateHead(q, m, env));
            Wf(q1) && Inv(Defer(q1, m, env)) && Inv(InitPendingUrbs(q1, q1.book.list, env))
  {
    hide Inv, Settle, UpdateHead, InitPendingUrbs, Defer, Wf, StruckHead;
    UpdateHeadInv(q, m, env);
    UpdateHeadWf(q, m, env);
    var q1 := Settle(q, q.book.list[0], UpdateHead(q, m, env));
    DeferInv(q1, m, env);
    InitPendingInv(q1, q1.book.list, env);
  }

  lemma EventInv(q: Tq, m: Message, env: Env)
    requires Wf(q) && Inv(q) && !StruckEvent(q, m, env)
    ensures Inv(Event(q, m, env))
  {
    hide Inv, Settle, UpdateHead, DeliverPending, InitPendingUrbs, Defer, Wf, StruckHead, StruckDeliver;
    if !q.flags.active {
      DeferInv(q, m, env);
    } else {
      assert !StruckDeliver(q, env) by { DataUnstruck(q, env); }
      DeliverPendingInv(q, env);
      var q1 := DeliverPending(q, env);
      DeferInv(q1, m, env);
      if q1.book.list != [] && !(m.cmd == CMD_TRANSFER_REQUEST && q1.evq != []) {
        assert !StruckHead(q1, m) by { DataHeadUnstruck(q1, m); }
        OfferInv(q1, m, env);
      }
    }
  }

  lemma DataUnstruck(q: Tq, env: Env)
    requires Wf(q)
    ensures !q.control ==> !StruckDeliver(q, env)
  {
  }

  lemma DataHeadUnstruck(q: Tq, m: Message)
    requires Wf(q)
    ensures !q.control ==> !StruckHead(q, m)
  {
  }

  lemma RetireInv(q: Tq, dir: Direction, c: Completed)
    requires Inv(q) && InFlight(q.wire, dir) != []
    ensures InFlight(q.wire, dir)[0].owner in q.wire.moved && Inv(q.(wire := Retire(q.wire, dir, c)))
  {
    RetireWf(q.wire, q.book.list, dir, c);
    hide Retire, WireWf;
  }

  lemma CompleteOneInv(q: Tq, dir: Direction, c: Completed, env: Env)
    requires Inv(q) && InFlight(q.wire, dir) != []
    ensures Inv(CompleteOne(q, dir, c, env))
  {
    RetireInv(q, dir, c);
    var q1 := q.(wire := Retire(q.wire, dir, c));
    if c.status != COMPLETED_ABORTED && q1.book.list != [] {
      var u, g := q1.book.urbs[q1.book.list[0]], env(q1.tick);
      assert Sound(u);
      hide TransferDone, Settle, Sound, Inv, Retire;
      DoneTame(u, c, g);
      TransferDoneSound(u, c, g);
      SettleInv(q1, q1.book.list[0], TransferDone(u, c, g));
    }
  }

  lemma {:induction false} CompleteManyInv(q: Tq, dir: Direction, cs: seq<Completed>, env: Env)
    requires Inv(q)
    ensures Inv(CompleteMany(q, dir, cs, env))
    decreases |cs|
  {
    assert Wf(q);
    hide Inv, CompleteOne;
    if cs != [] && InFlight(q.wire, dir) != [] {
      CompleteOneInv(q, dir, cs[0], env);
      CompleteManyInv(CompleteOne(q, dir, cs[0], env), dir, cs[1..], env);
    }
  }

  // ------------------------------------------------------------------ submission and cancellation

  lemma LinkedCredits(b: Book, d: Desk, id: nat, u: Urb, max: nat, control: bool)
    requires BookWf(b) && id !in b.list && New(u) && u.control == control
    requires Credited(b, max) && OneKind(b, control) && CancelOk(b, d)
    ensures var b' := b.(urbs := b.urbs[id := u], list := b.list + [id]);
            && (forall x :: x in b'.list ==> x in b'.urbs)
            && Credited(b', max) && OneKind(b', control) && CancelOk(b', d)
  {
    hide Sound;
    var b' := b.(urbs := b.urbs[id := u], list := b.list + [id]);
    assert forall x :: x in b'.list <==> x in b.list || x == id;
    assert Holders(b') == Holders(b);
  }

  lemma LinkInv(q: Tq, id: nat, u: Urb)
    requires Inv(q) && id !in q.book.list && id !in q.desk.accepted && New(u) && u.control == q.control
    ensures Inv(Link(q, id, u).(desk := q.desk.(accepted := q.desk.accepted + {id})))
  {
    LinkWf(q, id, u);
    LinkedCredits(q.book, q.desk, id, u, q.maxActive, q.control);
    assert multiset(q.desk.accepted + {id}) == multiset(q.desk.accepted) + multiset{id};
    assert multiset(q.book.list + [id]) == multiset(q.book.list) + multiset{id};
    hide Wf, Credited, OneKind, New;
  }

  lemma CreateInv(q: Tq, id: nat, u: Urb, linked: bool, env: Env)
    requires Inv(q) && id !in q.book.list && id !in q.desk.accepted && New(u) && u.control == q.control
    requires !StruckCreate(q, id, u, linked, env)
    ensures Inv(Create(q, id, u, linked, env))
  {
    assert Wf(q) && Inv(q.(tick := q.tick + 1));
    LinkInv(q, id, u);
    LinkWf(q, id, u);
    var q1 := Link(q, id, u).(desk := q.desk.(accepted := q.desk.accepted + {id}));
    assert id in q1.book.list && q1.book.urbs[id] == u && q1.book.remaining == q.book.remaining;
    var q2 := q1.(flags := q.flags.(resetQueued := q.flags.resetQueued || q.flags.stalled));
    assert Inv(q2);
    hide Inv, DeliverPending, TransferQueues.Start, Link, Wf;
    if linked {
      if !q.flags.active {
        DeliverPendingInv(q2, env);
      } else if q.book.remaining == 0 {
        DeliverPendingInv(q1, env);
      } else if Begin(u, env(q.tick)).status == 0 {
        StartWf(q1, id, env);
        StartInv(q1, id, env);
        DeliverPendingInv(TransferQueues.Start(q1, id, env), env);
      }
    }
  }

  lemma CancelledCredits(b: Book, d: Desk, id: nat, v: Urb, max: nat, control: bool)
    requires BookWf(b) && id in b.list && b.urbs[id].state != Cancelled && v.control == control && Sound(v)
    requires v.state == Cancelled && v.cancelWasActive == (b.urbs[id].state != InitPending)
    requires Credited(b, max) && OneKind(b, control) && CancelOk(b, d)
    ensures var b', d' := b.(urbs := b.urbs[id := v]), d.(cancel := d.cancel + [id]);
            BookWf(b') && Credited(b', max) && OneKind(b', control) && CancelOk(b', d')
  {
    hide Sound;
    var b', d' := b.(urbs := b.urbs[id := v]), d.(cancel := d.cancel + [id]);
    assert id !in d.cancel;
    assert forall i :: 0 <= i < |d.cancel| ==> d.cancel[i] in d.cancel;
    assert Holders(b') == Holders(b);
    assert forall x :: x in d'.cancel <==> x in d.cancel || x == id;
  }

  lemma RequestCancelInv(q: Tq, id: nat, status: int)
    requires Inv(q)
    ensures Inv(RequestCancel(q, id, status))
  {
    if id in q.book.list && q.book.urbs[id].state != Cancelled {
      var u := q.book.urbs[id];
      var v := u.(state := Cancelled, cancelStatus := status, cancelWasActive := u.state != InitPending);
      assert Sound(u) && Sound(v);
      CancelledCredits(q.book, q.desk, id, v, q.maxActive, q.control);
      hide BookWf, Credited, OneKind, CancelOk, Sound;
    }
  }

  lemma WorkerPopInv(q: Tq)
    requires Inv(q) && q.desk.worker == Resting && q.desk.cancel != []
    ensures Inv(WorkerPop(q))
  {
    var c := q.desk.cancel;
    assert c == [c[0]] + c[1..];
    assert c[0] in c && c[0] !in c[1..];
  }

  lemma UnlinkBook(b: Book, id: nat, max: nat, control: bool)
    requires BookWf(b) && id in b.list && Credited(b, max) && OneKind(b, control) && b.urbs[id].state == Cancelled
    ensures var b' := b.(list := Without(b.list, id), remaining := b.remaining + if b.urbs[id].cancelWasActive then 1 else 0);
            BookWf(b') && Credited(b', max) && OneKind(b', control)
  {
    hide Sound, Without;
    WithoutMembers(b.list, id);
    var b' := b.(list := Without(b.list, id));
    if Holds(b.urbs[id]) {
      assert id in Holders(b);
      assert Holders(b') == Holders(b) - {id};
    } else {
      assert Holders(b') == Holders(b);
    }
  }

  lemma UnlinkDesk(b: Book, d: Desk, id: nat, status: int)
    requires BookWf(b) && CancelOk(b, d) && d.worker == Popped(id)
    ensures var b', d' := b.(list := Without(b.list, id)), d.(worker := Unlinked(id, status));
            && (forall x :: x in b'.list ==> x in b'.urbs) && CancelOk(b', d')
            && Places(b', d') == Places(b, d)
  {
    hide Sound, Without;
    WithoutMembers(b.list, id);
    WithoutCount(b.list, id);
  }

  lemma UnlinkCredits(q: Tq, id: nat)
    requires Inv(q) && q.desk.worker == Popped(id)
    ensures var b := WorkerUnlink(q).book; BookWf(b) && Credited(b, q.maxActive) && OneKind(b, q.control)
  {
    hide Sound, Credited, OneKind, Without, WireWf;
    UnlinkBook(q.book, id, q.maxActive, q.control);
  }

  lemma UnlinkPlaces(q: Tq, id: nat)
    requires Inv(q) && q.desk.worker == Popped(id)
    ensures var r := WorkerUnlink(q);
            && (forall x :: x in r.book.list ==> x in r.book.urbs) && CancelOk(r.book, r.desk)
            && Places(r.book, r.desk) == Places(q.book, q.desk)
  {
    var r := WorkerUnlink(q);
    UnlinkDesk(q.book, q.desk, id, q.book.urbs[id].cancelStatus);
    hide Credited, CancelOk, Places, Without, WireWf, Sound;
    DeskApart(r.book, q.book.(list := r.book.list), r.desk);
  }

  lemma WorkerUnlinkInv(q: Tq)
    requires Inv(q) && q.desk.worker.Popped?
    ensures Inv(WorkerUnlink(q))
  {
    var id := q.desk.worker.id;
    assert id in q.book.list && Wf(q);
    UnlinkCredits(q, id);
    UnlinkPlaces(q, id);
    UnlinkListed(q, id);
    hide Credited, OneKind, CancelOk, Places, Without, WireWf, BookWf;
  }

  lemma UnlinkListed(q: Tq, id: nat)
    requires Wf(q)
    ensures WireWf(q.wire, Without(q.book.list, id))
  {
    WithoutMembers(q.book.list, id);
    LessListed(q.wire, q.book.list, Without(q.book.list, id));
    hide WireWf, Without, Sound;
  }

  /** Cancellation and places do not depend on the credits left. */
  lemma DeskApart(b: Book, c: Book, d: Desk)
    requires b == c.(remaining := b.remaining) && forall x :: x in c.list ==> x in c.urbs
    ensures CancelOk(b, d) <==> CancelOk(c, d)
    ensures Places(b, d) == Places(c, d)
  {
  }

  lemma LessListed(w: Wire, list: seq<nat>, list': seq<nat>)
    requires WireWf(w, list) && forall x :: x in list' ==> x in list
    ensures WireWf(w, list')
  {
  }

  lemma WorkerGiveInv(q: Tq)
    requires Inv(q) && q.desk.worker.Unlinked?
    ensures Inv(WorkerGive(q))
  {
    var g := Giveback(q.desk.worker.id, q.desk.worker.status);
    IdsAppend(q.desk.given, [g]);
    assert Ids([g]) == [g.id];
    hide Wf, Holders;
  }

  lemma DrainInv(q: Tq)
    requires Inv(q)
    ensures Inv(DrainGiveback(q))
  {
    IdsAppend(q.desk.given, q.book.giveback);
    assert Ids([]) == [];
    assert Holders(DrainGiveback(q).book) == Holders(q.book);
  }

  lemma ResumeOneInv(q: Tq, id: nat, env: Env)
    requires Inv(q) && id in q.book.list
    ensures Inv(ResumeOne(q, id, env))
  {
    var u, g := q.book.urbs[id], env(q.tick);
    assert Sound(u);
    hide Inv, Resume, Settle, Sound, TransferQueues.Start;
    if u.state == InitPending {
      StartInv(q, id, env);
    } else {
      ResumeTame(u, g);
      ResumeSound(u, g);
      SettleInv(q, id, Resume(u, g));
    }
  }

  /** What is left of a walk after its first request. */
  lemma RestOfWalk(ids: seq<nat>, list: seq<nat>, list': seq<nat>)
    requires ids != [] && Distinct(ids) && forall id :: id in ids ==> id in list
    requires forall x :: x in list && x != ids[0] ==> x in list'
    ensures Distinct(ids[1..]) && forall id :: id in ids[1..] ==> id in list'
  {
    assert ids[0] !in ids[1..];
  }

  lemma {:induction false} ResumeUrbsInv(q: Tq, ids: seq<nat>, env: Env)
    requires Inv(q) && Distinct(ids) && forall id :: id in ids ==> id in q.book.list
    ensures Inv(ResumeUrbs(q, ids, env))
    decreases |ids|
  {
    assert Wf(q);
    hide Inv, ResumeOne, WireWf, Sound, SameEndpoint;
    if ids != [] && (q.book.urbs[ids[0]].state != InitPending || q.book.remaining > 0) {
      ResumeOneWf(q, ids[0], env);
      ResumeOneInv(q, ids[0], env);
      var q1 := ResumeOne(q, ids[0], env);
      RestOfWalk(ids, q.book.list, q1.book.list);
      hide Distinct, BookWf;
      ResumeUrbsInv(q1, ids[1..], env);
    }
  }

  lemma DoResumeInv(q: Tq, env: Env)
    requires Inv(q) && !StruckDeliver(ResumeUrbs(Activate(q), q.book.list, env), env)
    ensures Inv(DoResume(q, env))
  {
    var a := Activate(q);
    assert Inv(a) && Wf(a);
    hide StruckDeliver, Inv, ResumeUrbs, DeliverPending, Activate;
    ResumeUrbsInv(a, q.book.list, env);
    DeliverPendingInv(ResumeUrbs(a, q.book.list, env), env);
  }

  lemma FlagsInv(q: Tq, evq: seq<Message>, flags: Flags)
    requires Inv(q)
    ensures Inv(q.(evq := evq, flags := flags))
  {
  }

  lemma CancelKeepsEndpoint(q: Tq, step: Step, env: Env)
    requires Wf(q) && Enabled(q, step)
    requires step.CancelRequest? || step.CancelPop? || step.CancelUnlink? || step.CancelGive? || step.HandBack?
    ensures SameEndpoint(q, Next(q, step, env))
  {
  }

  predicate IsDesk(step: Step) {
    step.CancelRequest? || step.CancelPop? || step.CancelUnlink? || step.CancelGive? || step.HandBack?
  }

  predicate IsFlag(step: Step) {
    step.Pause? || step.DropEvents? || step.Flushed? || step.Stall? || step.SetPaused? || step.ResetDone?
  }

  /** Cancellation and giveback. */
  lemma DeskInv(q: Tq, step: Step, env: Env)
    requires Inv(q) && Wf(q) && Enabled(q, step) && IsDesk(step)
    ensures Inv(Next(q, step, env)) && SameEndpoint(q, Next(q, step, env))
  {
    hide Inv, Wf, RequestCancel, WorkerPop, WorkerUnlink, WorkerGive, DrainGiveback;
    hide Create, Event, Completions, DeliverPending, DoResume, New, SameEndpoint;
    CancelKeepsEndpoint(q, step, env);
    match step
    case CancelRequest(id, status) => RequestCancelInv(q, id, status);
    case CancelPop => WorkerPopInv(q);
    case CancelUnlink => WorkerUnlinkInv(q);
    case CancelGive => WorkerGiveInv(q);
    case HandBack => DrainInv(q);
  }

  lemma FlagStepInv(q: Tq, step: Step, env: Env)
    requires Inv(q) && Wf(q) && Enabled(q, step) && IsFlag(step)
    ensures Inv(Next(q, step, env)) && SameEndpoint(q, Next(q, step, env))
  {
    hide Inv, Wf;
    var r := Next(q, step, env);
    assert r == q.(evq := r.evq, flags := r.flags);
    FlagsInv(q, r.evq, r.flags);
  }

  lemma SubmitInv(q: Tq, step: Step, env: Env)
    requires Inv(q) && Wf(q) && Enabled(q, step) && step.Submit? && !Struck(q, step, env)
    ensures Inv(Next(q, step, env)) && SameEndpoint(q, Next(q, step, env))
  {
    hide Inv, Wf, New, Create, StruckCreate;
    DataStruckCreate(q, step.id, step.urb, step.linked, env);
    CreateInv(q, step.id, step.urb, step.linked, env);
  }

  lemma IncomingInv(q: Tq, step: Step, env: Env)
    requires Inv(q) && Wf(q) && Enabled(q, step) && step.Incoming? && !Struck(q, step, env)
    ensures Inv(Next(q, step, env)) && SameEndpoint(q, Next(q, step, env))
  {
    hide Inv, Wf, Event, StruckEvent;
    DataStruckEvent(q, step.m, env);
    EventInv(q, step.m, env);
  }

  lemma FinishedInv(q: Tq, step: Step, env: Env)
    requires Inv(q) && Wf(q) && Enabled(q, step) && step.Finished? && !Struck(q, step, env)
    ensures Inv(Next(q, step, env)) && SameEndpoint(q, Next(q, step, env))
  {
    hide Inv, Wf, CompleteMany, DeliverPending, StruckDeliver;
    var q1 := CompleteMany(q, step.dir, step.cs, env);
    CompleteManyInv(q, step.dir, step.cs, env);
    DataUnstruck(q1, env);
    DeliverPendingInv(q1, env);
  }

  lemma PauseFailedInv(q: Tq, env: Env)
    requires Inv(q) && Wf(q) && !Struck(q, PauseFailed, env)
    ensures Inv(Next(q, PauseFailed, env)) && SameEndpoint(q, Next(q, PauseFailed, env))
  {
    hide Inv, DeliverPending, StruckDeliver;
    FlagsInv(q, q.evq, Activate(q).flags);
    DataUnstruck(Activate(q), env);
    DeliverPendingInv(Activate(q), env);
  }

  lemma NextInv(q: Tq, step: Step, env: Env)
    requires Inv(q) && Enabled(q, step) && !Struck(q, step, env)
    ensures Inv(Next(q, step, env)) && SameEndpoint(q, Next(q, step, env))
  {
    assert Wf(q);
    hide Inv, Wf, Next, Enabled, Struck, SameEndpoint;
    match step
    case Submit(_, _, _) => SubmitInv(q, step, env);
    case Incoming(_) => IncomingInv(q, step, env);
    case Finished(_, _) => FinishedInv(q, step, env);
    case PauseFailed => PauseFailedInv(q, env);
    case Reopen => ReopenInv(q, env);
    case CancelRequest(_, _) => DeskInv(q, step, env);
    case CancelPop => DeskInv(q, step, env);
    case CancelUnlink => DeskInv(q, step, env);
    case CancelGive => DeskInv(q, step, env);
    case HandBack => DeskInv(q, step, env);
    case _ => FlagStepInv(q, step, env);
  }

  lemma ReopenInv(q: Tq, env: Env)
    requires Inv(q) && Wf(q) && !Struck(q, Reopen, env)
    ensures Inv(Next(q, Reopen, env)) && SameEndpoint(q, Next(q, Reopen, env))
  {
    hide Inv, StruckDeliver, ResumeUrbs, DoResume;
    DataUnstruck(ResumeUrbs(Activate(q), q.book.list, env), env);
    DoResumeInv(q, env);
  }

  lemma DataStruckCreate(q: Tq, id: nat, u: Urb, linked: bool, env: Env)
    requires Wf(q) && id !in q.book.list && New(u)
    ensures !q.control ==> !StruckCreate(q, id, u, linked, env)
  {
  }

  lemma DataStruckEvent(q: Tq, m: Message, env: Env)
    requires Wf(q)
    ensures !q.control ==> !StruckEvent(q, m, env)
  {
  }

  lemma {:induction false} RunInv(q: Tq, steps: seq<Step>, env: Env, r: Tq)
    requires Inv(q) && !q.control && Runs(q, steps, env, r)
    ensures Inv(r) && SameEndpoint(q, r)
    decreases |steps|
  {
    hide Inv, Next;
    if steps != [] {
      NextInv(q, steps[0], env);
      RunInv(Next(q, steps[0], env), steps[1..], env, r);
    }
  }

  lemma FreshInv(control: bool, maxActive: nat)
    ensures Inv(Fresh(control, maxActive))
  {
    assert Holders(Fresh(control, maxActive).book) == {};
  }

  // ------------------------------------------------------------------ main results

  /**
   Credits are conserved on a non-control endpoint: over every run, the free ones
   and the linked requests that hold one add up to the limit.
   */
  lemma CreditsConserved(maxActive: nat, steps: seq<Step>, env: Env, r: Tq)
    requires Runs(Fresh(false, maxActive), steps, env, r)
    ensures forall id :: id in r.book.list ==> id in r.book.urbs
    ensures r.book.remaining + |Holders(r.book)| == maxActive
  {
    FreshInv(false, maxActive);
    RunInv(Fresh(false, maxActive), steps, env, r);
  }

  /** A request that was given back was accepted, is not linked, and was given back once. */
  lemma PlacedOnce(r: Tq, i: nat, j: nat)
    requires Inv(r) && i < |r.desk.given|
    ensures r.desk.given[i].id in r.desk.accepted
    ensures r.desk.given[i].id !in r.book.list
    ensures j < |r.desk.given| && r.desk.given[i].id == r.desk.given[j].id ==> i == j
  {
    var ids := Ids(r.desk.given);
    var x := ids[i];
    assert x in multiset(ids);
    hide Wf, Credited, OneKind, CancelOk;
    assert Places(r.book, r.desk)[x] == multiset(r.desk.accepted)[x] <= 1;
    assert multiset(ids)[x] == 1 && x !in multiset(r.book.list);
    if i < j < |ids| && ids[j] == x {
      OneIndex(ids, i, j);
    } else if j < i && ids[j] == x {
      OneIndex(ids, j, i);
    }
  }

  /**
   Over every run each accepted request is in exactly one place, so it is given
   back at most once and never while still linked, by whichever path.
   */
  lemma GivenBackOnce(maxActive: nat, steps: seq<Step>, env: Env, r: Tq, i: nat, j: nat)
    requires Runs(Fresh(false, maxActive), steps, env, r)
    requires i < |r.desk.given|
    ensures r.desk.given[i].id in r.desk.accepted
    ensures r.desk.given[i].id !in r.book.list
    ensures j < |r.desk.given| && r.desk.given[i].id == r.desk.given[j].id ==> i == j
  {
    FreshInv(false, maxActive);
    hide Inv, Runs;
    RunInv(Fresh(false, maxActive), steps, env, r);
    PlacedOnce(r, i, j);
  }

  /** Two positions with the same value count twice. */
  lemma OneIndex(s: seq<nat>, i: nat, j: nat)
    requires i < j < |s| && s[i] == s[j]
    ensures multiset(s)[s[i]] >= 2
  {
    assert s == s[..j] + s[j..];
    assert s[..j][i] == s[i] && s[i] in multiset(s[..j]);
    assert s[j..][0] == s[j] && s[j] in multiset(s[j..]);
  }
}
