/**
 The control endpoint: credits and single giveback hold exactly as long as no error
 status meets a cancelled request.
 */
module ControlSafety {
  import opened Urbs
  import opened TransferQueues
  import opened TransferSafety

  /** Runs in which no error status meets a cancelled control request. */
  ghost predicate UnstruckRuns(q: Tq, steps: seq<Step>, env: Env, r: Tq)
    decreases |steps|
  {
    if steps == [] then q == r
    else
      && Wf(q) && Enabled(q, steps[0]) && !Struck(q, steps[0], env)
      && UnstruckRuns(Next(q, steps[0], env), steps[1..], env, r)
  }

  lemma {:induction false} UnstruckInv(q: Tq, steps: seq<Step>, env: Env, r: Tq)
    requires Inv(q) && UnstruckRuns(q, steps, env, r)
    ensures Inv(r) && SameEndpoint(q, r)
    decreases |steps|
  {
    hide Inv, Next, Struck;
    if steps != [] {
      NextInv(q, steps[0], env);
      UnstruckInv(Next(q, steps[0], env), steps[1..], env, r);
    }
  }

  /** Over every such run of any endpoint, free credits and requests that hold one add up to the limit. */
  lemma UnstruckCredits(control: bool, maxActive: nat, steps: seq<Step>, env: Env, r: Tq)
    requires UnstruckRuns(Fresh(control, maxActive), steps, env, r)
    ensures forall id :: id in r.book.list ==> id in r.book.urbs
    ensures r.book.remaining + |Holders(r.book)| == maxActive
  {
    hide UnstruckRuns;
    FreshInv(control, maxActive);
    UnstruckInv(Fresh(control, maxActive), steps, env, r);
  }

  /** Some request was given back more than once. */
  ghost predicate Twice(given: seq<Giveback>) {
    exists i, j :: 0 <= i < j < |given| && given[i].id == given[j].id
  }

  lemma InvOnce(q: Tq)
    requires Inv(q)
    ensures !Twice(q.desk.given)
  {
    if Twice(q.desk.given) {
      var i, j :| 0 <= i < j < |q.desk.given| && q.desk.given[i].id == q.desk.given[j].id;
      PlacedOnce(q, i, j);
    }
  }

  // ------------------------------------------------------------------ an error status meets a cancelled request

  /** Sections only add to the records and to the requests queued for giveback, and leave the cancel worker alone. */
  ghost predicate Grows(q: Tq, r: Tq) {
    && r.desk == q.desk && q.book.giveback <= r.book.giveback
    && forall x :: x in q.book.urbs ==> x in r.book.urbs
  }

  /** The worker knows every request it still has to give back. */
  ghost predicate Known(q: Tq) {
    && Wf(q)
    && (forall x :: x in q.desk.cancel ==> x in q.book.urbs)
    && (q.desk.worker.Popped? ==> q.desk.worker.id in q.book.urbs)
  }

  lemma InvKnown(q: Tq)
    requires Inv(q)
    ensures Known(q)
  {
  }

  /** Request h is finished, or given back already, and the worker will still give it back. */
  ghost predicate Doomed(q: Tq, h: nat) {
    && Known(q)
    && (exists g :: g in q.book.giveback + q.desk.given && g.id == h)
    && (h in q.desk.cancel || q.desk.worker == Popped(h))
  }

  lemma GrowsDoomed(q: Tq, r: Tq, h: nat)
    requires Grows(q, r) && Doomed(q, h) && Wf(r)
    ensures Doomed(r, h)
  {
    var g :| g in q.book.giveback + q.desk.given && g.id == h;
    assert g in r.book.giveback + r.desk.given;
  }

  lemma SettleGrows(q: Tq, id: nat, o: Outcome)
    ensures Grows(q, Settle(q, id, o))
  {
    hide Without, Hand;
  }

  lemma StartGrows(q: Tq, id: nat, env: Env)
    requires Wf(q) && id in q.book.list
    ensures Grows(q, TransferQueues.Start(q, id, env))
  {
    hide Begin, Hand;
  }

  lemma {:induction false} InitGrows(q: Tq, ids: seq<nat>, env: Env)
    requires Wf(q) && forall id :: id in ids ==> id in q.book.list
    ensures Grows(q, InitPendingUrbs(q, ids, env))
    decreases |ids|
  {
    hide TransferQueues.Start, WireWf, Sound;
    if ids != [] && q.book.remaining > 0 {
      if q.book.urbs[ids[0]].state == InitPending {
        StartWf(q, ids[0], env);
        StartGrows(q, ids[0], env);
        InitGrows(TransferQueues.Start(q, ids[0], env), ids[1..], env);
      } else {
        InitGrows(q, ids[1..], env);
      }
    }
  }

  lemma {:induction false} DeliverGrows(q: Tq, env: Env)
    requires Wf(q)
    ensures Grows(q, Deliver(q, env))
    decreases |q.evq|
  {
    hide Settle, UpdateHead, Wf;
    if q.book.list != [] && q.evq != [] {
      var o := UpdateHead(q, q.evq[0], env);
      UpdateHeadWf(q, q.evq[0], env);
      SettleGrows(q, q.book.list[0], o);
      var q1 := Settle(q, q.book.list[0], o);
      if o.verdict != Again {
        WfEvq(q1, q.evq[1..]);
        DeliverGrows(q1.(evq := q.evq[1..]), env);
      }
    }
  }

  lemma WfEvq(q: Tq, evq: seq<Message>)
    requires Wf(q)
    ensures Wf(q.(evq := evq))
  {
  }

  lemma DeliverPendingGrows(q: Tq, env: Env)
    requires Wf(q)
    ensures Grows(q, DeliverPending(q, env))
  {
    hide Deliver, InitPendingUrbs, Wf;
    DeliverGrows(q, env);
    var q1 := Deliver(q, env);
    InitGrows(q1, q1.book.list, env);
  }

  /** The blow: the request is finished although the worker has it too. */
  lemma HeadDooms(q: Tq, m: Message, env: Env)
    requires Inv(q) && StruckHead(q, m)
    ensures q.book.list != [] && UpdateHead(q, m, env).verdict.Halt?
    ensures Doomed(Settle(q, q.book.list[0], UpdateHead(q, m, env)), q.book.list[0])
  {
    var h := q.book.list[0];
    assert h in q.book.list;
    assert h in q.desk.cancel || q.desk.worker == Popped(h);
    var o := UpdateHead(q, m, env);
    assert o.verdict.Halt?;
    InvKnown(q);
    UpdateHeadWf(q, m, env);
    SettleGrows(q, h, o);
    hide Inv, Without, Update, Wf;
    var r := Settle(q, h, o);
    assert r.book.giveback == q.book.giveback + [Giveback(h, o.verdict.status)];
    assert Giveback(h, o.verdict.status) in r.book.giveback + r.desk.given;
  }

  lemma {:induction false} DeliverDooms(q: Tq, env: Env) returns (h: nat)
    requires Inv(q) && StruckDeliver(q, env)
    ensures Doomed(Deliver(q, env), h)
    decreases |q.evq|
  {
    var m := q.evq[0];
    UpdateHeadWf(q, m, env);
    var o := UpdateHead(q, m, env);
    var q1 := Settle(q, q.book.list[0], o);
    var q2 := q1.(evq := q.evq[1..]);
    if StruckHead(q, m) {
      HeadDooms(q, m, env);
      h := q.book.list[0];
      hide Settle, UpdateHead, StruckHead, Inv;
      DeliverGrows(q2, env);
      assert Grows(q1, q2);
      GrowsDoomed(q1, q2, h);
      GrowsDoomed(q2, Deliver(q2, env), h);
    } else {
      UpdateHeadInv(q, m, env);
      FlagsInv(q1, q.evq[1..], q1.flags);
      hide Settle, UpdateHead, StruckHead, Inv;
      h := DeliverDooms(q2, env);
    }
  }

  lemma PendingDooms(q: Tq, env: Env) returns (h: nat)
    requires Inv(q) && StruckDeliver(q, env)
    ensures Doomed(DeliverPending(q, env), h)
  {
    assert Wf(q);
    hide Inv, Deliver, InitPendingUrbs, StruckDeliver, Doomed;
    h := DeliverDooms(q, env);
    var q1 := Deliver(q, env);
    InitGrows(q1, q1.book.list, env);
    GrowsDoomed(q1, InitPendingUrbs(q1, q1.book.list, env), h);
  }

  lemma DeferGrows(q: Tq, m: Message, env: Env)
    ensures Grows(q, Defer(q, m, env)) && (Wf(q) ==> Wf(Defer(q, m, env)))
  {
  }

  lemma OfferGrows(q: Tq, m: Message, env: Env)
    requires Wf(q) && q.book.list != []
    ensures var q1 := Settle(q, q.book.list[0], UpdateHead(q, m, env));
            Wf(q1) && Wf(Defer(q1, m, env)) && Grows(q, Defer(q1, m, env)) && Grows(q, InitPendingUrbs(q1, q1.book.list, env))
            && Grows(q1, InitPendingUrbs(q1, q1.book.list, env))
  {
    hide Settle, UpdateHead, InitPendingUrbs, Defer, Wf;
    var q1 := Settle(q, q.book.list[0], UpdateHead(q, m, env));
    UpdateHeadWf(q, m, env);
    SettleGrows(q, q.book.list[0], UpdateHead(q, m, env));
    DeferGrows(q1, m, env);
    InitGrows(q1, q1.book.list, env);
  }

  /** A request doomed by deferred messages stays so while the incoming one is handled. */
  lemma DoomedThrough(q: Tq, m: Message, env: Env, h: nat)
    requires Wf(q) && q.flags.active && Doomed(DeliverPending(q, env), h)
    ensures Doomed(Event(q, m, env), h)
  {
    var q1 := DeliverPending(q, env);
    hide Settle, UpdateHead, DeliverPending, InitPendingUrbs, Defer, Wf, Doomed;
    DeferGrows(q1, m, env);
    GrowsDoomed(q1, Defer(q1, m, env), h);
    if q1.book.list != [] {
      OfferGrows(q1, m, env);
      var q2 := Settle(q1, q1.book.list[0], UpdateHead(q1, m, env));
      GrowsDoomed(q1, Defer(q2, m, env), h);
      GrowsDoomed(q1, InitPendingUrbs(q2, q2.book.list, env), h);
    }
  }

  lemma IncomingDooms(q: Tq, m: Message, env: Env)
    requires Wf(q) && q.flags.active && StruckHead(DeliverPending(q, env), m) && Inv(DeliverPending(q, env))
    ensures DeliverPending(q, env).book.list != [] && Doomed(Event(q, m, env), DeliverPending(q, env).book.list[0])
  {
    var q1 := DeliverPending(q, env);
    hide Inv, Settle, UpdateHead, DeliverPending, InitPendingUrbs, Defer, Wf, Doomed, StruckHead;
    HeadDooms(q1, m, env);
    var h := q1.book.list[0];
    OfferGrows(q1, m, env);
    var q2 := Settle(q1, h, UpdateHead(q1, m, env));
    GrowsDoomed(q2, InitPendingUrbs(q2, q2.book.list, env), h);
    StruckByStatus(q1, m);
  }

  lemma EventDooms(q: Tq, m: Message, env: Env) returns (h: nat)
    requires Inv(q) && Wf(q) && StruckEvent(q, m, env)
    ensures Doomed(Event(q, m, env), h)
  {
    hide Inv, Event, DeliverPending, Wf, StruckDeliver, Doomed, StruckHead;
    if StruckDeliver(q, env) {
      h := PendingDooms(q, env);
      DoomedThrough(q, m, env, h);
    } else {
      DeliverPendingInv(q, env);
      IncomingDooms(q, m, env);
      h := DeliverPending(q, env).book.list[0];
    }
  }

  lemma StruckByStatus(q: Tq, m: Message)
    requires Wf(q) && StruckHead(q, m)
    ensures m.cmd == CMD_CONTROL_TRANSFER_STATUS
  {
  }

  lemma CreateDooms(q: Tq, id: nat, u: Urb, linked: bool, env: Env) returns (h: nat)
    requires Inv(q) && id !in q.book.list && id !in q.desk.accepted && New(u) && u.control == q.control
    requires StruckCreate(q, id, u, linked, env)
    ensures Wf(q) && Doomed(Create(q, id, u, linked, env), h)
  {
    LinkInv(q, id, u);
    LinkWf(q, id, u);
    var q1 := Link(q, id, u).(desk := q.desk.(accepted := q.desk.accepted + {id}));
    assert id in q1.book.list && q1.book.urbs[id] == u && q1.book.remaining == q.book.remaining;
    var q2 := q1.(flags := q.flags.(resetQueued := q.flags.resetQueued || q.flags.stalled));
    FlagsInv(q1, q1.evq, q2.flags);
    assert Wf(q) && u.state == InitPending;
    hide Inv, DeliverPending, TransferQueues.Start, Link, Wf, StruckDeliver, New, Doomed;
    if !q.flags.active {
      h := PendingDooms(q2, env);
    } else if q.book.remaining == 0 {
      h := PendingDooms(q1, env);
    } else {
      StartWf(q1, id, env);
      StartInv(q1, id, env);
      h := PendingDooms(TransferQueues.Start(q1, id, env), env);
    }
  }

  lemma NextDooms(q: Tq, step: Step, env: Env) returns (h: nat)
    requires Inv(q) && Wf(q) && Enabled(q, step) && Struck(q, step, env)
    ensures Doomed(Next(q, step, env), h)
  {
    hide Inv, Wf, New, Create, Event, CompleteMany, DeliverPending, ResumeUrbs, Doomed;
    hide StruckCreate, StruckEvent, StruckDeliver;
    match step
    case Submit(id, u, linked) => h := CreateDooms(q, id, u, linked, env);
    case Incoming(m) => h := EventDooms(q, m, env);
    case Finished(dir, cs) =>
      CompleteManyInv(q, dir, cs, env);
      h := PendingDooms(CompleteMany(q, dir, cs, env), env);
    case PauseFailed =>
      FlagsInv(q, q.evq, Activate(q).flags);
      h := PendingDooms(Activate(q), env);
    case Reopen =>
      FlagsInv(q, q.evq, Activate(q).flags);
      assert BookWf(q.book) by { WfBook(q); }
      ResumeUrbsInv(Activate(q), q.book.list, env);
      h := PendingDooms(ResumeUrbs(Activate(q), q.book.list, env), env);
  }

  lemma WfBook(q: Tq)
    requires Wf(q)
    ensures BookWf(q.book)
  {
  }

  // ------------------------------------------------------------------ the worker gives it back again

  /** Request h was given back, and the worker will do it again. */
  ghost predicate Ahead(q: Tq, h: nat) {
    Known(q) && (exists g :: g in q.desk.given && g.id == h) && (h in q.desk.cancel || q.desk.worker == Popped(h))
  }

  lemma WorkerKnown(q: Tq)
    requires Known(q)
    ensures q.desk.worker == Resting && q.desk.cancel != [] ==> Known(WorkerPop(q))
    ensures q.desk.worker.Popped? ==> Known(WorkerUnlink(q))
    ensures q.desk.worker.Unlinked? ==> Known(WorkerGive(q))
  {
    if q.desk.worker.Popped? {
      WithoutMembers(q.book.list, q.desk.worker.id);
    }
    hide Sound, Without;
  }

  lemma OneUnstruck(q: Tq, step: Step, steps: seq<Step>, env: Env, r: Tq)
    requires Wf(q) && Enabled(q, step) && !Struck(q, step, env) && UnstruckRuns(Next(q, step, env), steps, env, r)
    ensures UnstruckRuns(q, [step] + steps, env, r)
  {
    hide Wf, Enabled, Next, Struck;
    assert ([step] + steps)[1..] == steps;
  }

  lemma GivenAgain(given: seq<Giveback>, g: Giveback)
    requires exists x :: x in given && x.id == g.id
    ensures Twice(given + [g])
  {
    var x :| x in given && x.id == g.id;
    var i :| 0 <= i < |given| && given[i] == x;
    assert (given + [g])[i].id == (given + [g])[|given|].id;
  }

  lemma WorkerUnstruck(q: Tq, step: Step, env: Env)
    requires Wf(q) && Enabled(q, step) && (step.CancelPop? || step.CancelUnlink? || step.CancelGive? || step.HandBack?)
    ensures !Struck(q, step, env)
  {
  }

  /** What the worker does with a request, seen from the desk. */
  lemma WorkerDesk(q: Tq)
    requires Known(q)
    ensures q.desk.worker.Popped? ==>
              var r := WorkerUnlink(q);
              r.desk == q.desk.(worker := r.desk.worker) && r.desk.worker.Unlinked? && r.desk.worker.id == q.desk.worker.id
    ensures q.desk.worker.Unlinked? ==>
              var r := WorkerGive(q);
              r.desk == q.desk.(worker := Resting, given := q.desk.given + [Giveback(q.desk.worker.id, q.desk.worker.status)])
  {
    hide Without, Wf;
  }

  lemma AheadOn(q: Tq, r: Tq, h: nat)
    requires Ahead(q, h) && Known(r) && q.desk.given <= r.desk.given && (h in r.desk.cancel || r.desk.worker == Popped(h))
    ensures Ahead(r, h)
  {
    var x :| x in q.desk.given && x.id == h;
    assert x in r.desk.given;
  }

  /** The worker gives back what it holds; when that is h, it does so a second time. */
  lemma GiveHeld(q: Tq, h: nat, env: Env) returns (r: Tq)
    requires Known(q) && q.desk.worker.Unlinked? && exists x :: x in q.desk.given && x.id == h
    ensures r == WorkerGive(q) && Known(r) && r.desk.worker == Resting && r.desk.cancel == q.desk.cancel
    ensures q.desk.given <= r.desk.given && (q.desk.worker.id == h ==> Twice(r.desk.given))
    ensures UnstruckRuns(q, [CancelGive], env, r)
  {
    WorkerKnown(q);
    WorkerDesk(q);
    r := WorkerGive(q);
    if q.desk.worker.id == h {
      GivenAgain(q.desk.given, Giveback(h, q.desk.worker.status));
    }
    hide Wf, WorkerGive, Twice, Struck;
    WorkerUnstruck(q, CancelGive, env);
    assert [CancelGive][1..] == [];
  }

  lemma {:induction false} UnstruckConcat(q: Tq, a: seq<Step>, r: Tq, b: seq<Step>, s: Tq, env: Env)
    requires UnstruckRuns(q, a, env, r) && UnstruckRuns(r, b, env, s)
    ensures UnstruckRuns(q, a + b, env, s)
    decreases |a|
  {
    hide Next, Wf, Enabled, Struck;
    if a == [] {
      assert a + b == b;
    } else {
      UnstruckConcat(Next(q, a[0], env), a[1..], r, b, s, env);
      assert (a + b)[1..] == a[1..] + b;
    }
  }

  /** Running the worker on gives h back a second time. */
  lemma {:induction false} WorkerGivesAgain(q: Tq, h: nat, env: Env) returns (steps: seq<Step>, r: Tq)
    requires Ahead(q, h)
    ensures UnstruckRuns(q, steps, env, r) && Twice(r.desk.given)
    decreases |q.desk.cancel|, if q.desk.worker == Resting then 0 else 1
  {
    WorkerKnown(q);
    WorkerDesk(q);
    hide Wf, UnstruckRuns, Twice, WorkerUnlink, Struck;
    if q.desk.worker == Resting {
      var q1 := WorkerPop(q);
      assert q.desk.cancel == [q.desk.cancel[0]] + q.desk.cancel[1..];
      AheadOn(q, q1, h);
      WorkerUnstruck(q, CancelPop, env);
      steps, r := WorkerGivesAgain(q1, h, env);
      OneUnstruck(q, CancelPop, steps, env, r);
      steps := [CancelPop] + steps;
    } else if q.desk.worker.Unlinked? {
      var q1 := GiveHeld(q, h, env);
      AheadOn(q, q1, h);
      steps, r := WorkerGivesAgain(q1, h, env);
      UnstruckConcat(q, [CancelGive], q1, steps, r, env);
      steps := [CancelGive] + steps;
    } else {
      var q1 := WorkerUnlink(q);
      WorkerUnstruck(q, CancelUnlink, env);
      var q2 := GiveHeld(q1, h, env);
      OneUnstruck(q, CancelUnlink, [CancelGive], env, q2);
      if q.desk.worker.id == h {
        return [CancelUnlink] + [CancelGive], q2;
      }
      AheadOn(q, q2, h);
      steps, r := WorkerGivesAgain(q2, h, env);
      UnstruckConcat(q, [CancelUnlink] + [CancelGive], q2, steps, r, env);
      steps := [CancelUnlink] + [CancelGive] + steps;
    }
  }

  /** A doomed request is given back twice. */
  lemma DoomedTwice(q: Tq, h: nat, env: Env) returns (steps: seq<Step>, r: Tq)
    requires Doomed(q, h)
    ensures UnstruckRuns(q, steps, env, r) && Twice(r.desk.given)
  {
    var q1 := DrainGiveback(q);
    var g :| g in q.book.giveback + q.desk.given && g.id == h;
    assert g in q1.desk.given;
    assert Known(q1) && Ahead(q1, h);
    hide Wf, UnstruckRuns, Twice, Struck, Ahead, Doomed;
    WorkerUnstruck(q, HandBack, env);
    var rest;
    rest, r := WorkerGivesAgain(q1, h, env);
    OneUnstruck(q, HandBack, rest, env, r);
    steps := [HandBack] + rest;
  }

  // ------------------------------------------------------------------ the exact condition

  /** Whatever follows this step without another blow, every request is given back at most once. */
  ghost predicate StaysSingle(q: Tq, step: Step, env: Env)
    requires Wf(q) && Enabled(q, step)
  {
    forall steps: seq<Step>, r: Tq :: UnstruckRuns(Next(q, step, env), steps, env, r) ==> !Twice(r.desk.given)
  }

  /**
   The condition is exact: from every state in which the invariant holds, a step keeps
   single giveback whatever follows if and only if it is no such blow.
   */
  lemma UnstruckExactly(q: Tq, step: Step, env: Env)
    requires Inv(q) && Enabled(q, step)
    ensures Wf(q) && (!Struck(q, step, env) <==> StaysSingle(q, step, env))
  {
    assert Wf(q);
    hide Inv, Wf, Next, UnstruckRuns, Struck, Twice, Doomed;
    if !Struck(q, step, env) {
      forall steps: seq<Step>, r: Tq | UnstruckRuns(Next(q, step, env), steps, env, r)
        ensures !Twice(r.desk.given)
      {
        NextInv(q, step, env);
        UnstruckInv(Next(q, step, env), steps, env, r);
        InvOnce(r);
      }
    } else {
      var h := NextDooms(q, step, env);
      var steps, r := DoomedTwice(Next(q, step, env), h, env);
      assert UnstruckRuns(Next(q, step, env), steps, env, r);
    }
  }

  // ------------------------------------------------------------------ a condition on messages alone

  predicate ErrorStatus(m: Message) {
    m.cmd == CMD_CONTROL_TRANSFER_STATUS && m.status != 0 && m.status != STATUS_SUCCESS
  }

  predicate ErrorFree(evq: seq<Message>) {
    forall m :: m in evq ==> !ErrorStatus(m)
  }

  lemma {:induction false} ErrorFreeDeliver(q: Tq, env: Env)
    requires Wf(q) && ErrorFree(q.evq)
    ensures !StruckDeliver(q, env) && ErrorFree(Deliver(q, env).evq)
    decreases |q.evq|
  {
    if q.book.list != [] && q.evq != [] {
      assert q.evq[0] in q.evq && forall m :: m in q.evq[1..] ==> m in q.evq;
      UpdateHeadWf(q, q.evq[0], env);
      var q1 := Settle(q, q.book.list[0], UpdateHead(q, q.evq[0], env));
      assert q1.evq == q.evq && !StruckHead(q, q.evq[0]);
      hide Settle, UpdateHead, StruckHead;
      WfEvq(q1, q.evq[1..]);
      ErrorFreeDeliver(q1.(evq := q.evq[1..]), env);
    }
  }

  lemma {:induction false} CompleteManyEvq(q: Tq, dir: Direction, cs: seq<Completed>, env: Env)
    requires Wf(q)
    ensures CompleteMany(q, dir, cs, env).evq == q.evq
    decreases |cs|
  {
    hide Retire, TransferDone, Enter, Hand, Mark;
    if cs != [] && InFlight(q.wire, dir) != [] {
      assert CompleteOne(q, dir, cs[0], env).evq == q.evq;
      hide CompleteOne;
      CompleteManyEvq(CompleteOne(q, dir, cs[0], env), dir, cs[1..], env);
    }
  }

  lemma {:induction false} ResumeUrbsEvq(q: Tq, ids: seq<nat>, env: Env)
    requires Wf(q) && Distinct(ids) && forall id :: id in ids ==> id in q.book.list
    ensures ResumeUrbs(q, ids, env).evq == q.evq
    decreases |ids|
  {
    hide WireWf, Sound, Begin, Resume, Enter, Hand, Mark;
    if ids != [] && (q.book.urbs[ids[0]].state != InitPending || q.book.remaining > 0) {
      ResumeOneWf(q, ids[0], env);
      var q1 := ResumeOne(q, ids[0], env);
      assert q1.evq == q.evq;
      RestOfWalk(ids, q.book.list, q1.book.list);
      hide ResumeOne, Distinct, BookWf;
      ResumeUrbsEvq(q1, ids[1..], env);
    }
  }

  lemma ErrorFreeCreate(q: Tq, id: nat, u: Urb, linked: bool, env: Env)
    requires Wf(q) && id !in q.book.list && New(u) && ErrorFree(q.evq)
    ensures !StruckCreate(q, id, u, linked, env)
  {
    LinkWf(q, id, u);
    var q1 := Link(q, id, u).(desk := q.desk.(accepted := q.desk.accepted + {id}));
    var q2 := q1.(flags := q.flags.(resetQueued := q.flags.resetQueued || q.flags.stalled));
    assert Wf(q1) && Wf(q2) && id in q1.book.list && q1.book.urbs[id] == u && u.state == InitPending && q1.evq == q.evq;
    hide Link, StruckDeliver, New, Begin, Hand, Wf;
    ErrorFreeDeliver(q1, env);
    ErrorFreeDeliver(q2, env);
    StartWf(q1, id, env);
    var q3 := TransferQueues.Start(q1, id, env);
    assert q3.evq == q.evq;
    hide TransferQueues.Start;
    ErrorFreeDeliver(q3, env);
  }

  /** No blow falls on a step with no error status deferred or arriving: what a caller can test before it. */
  lemma ErrorFreeUnstruck(q: Tq, step: Step, env: Env)
    requires Wf(q) && Enabled(q, step) && ErrorFree(q.evq) && (step.Incoming? ==> !ErrorStatus(step.m))
    ensures !Struck(q, step, env)
  {
    hide StruckCreate, StruckDeliver, CompleteMany, ResumeUrbs, New;
    match step
    case Submit(id, u, linked) => ErrorFreeCreate(q, id, u, linked, env);
    case Incoming(m) =>
      ErrorFreeDeliver(q, env);
      hide DeliverPending;
    case Finished(dir, cs) =>
      CompleteManyEvq(q, dir, cs, env);
      ErrorFreeDeliver(CompleteMany(q, dir, cs, env), env);
    case PauseFailed => ErrorFreeDeliver(Activate(q), env);
    case Reopen =>
      ResumeUrbsEvq(Activate(q), q.book.list, env);
      ErrorFreeDeliver(ResumeUrbs(Activate(q), q.book.list, env), env);
    case _ =>
  }

  /** On the other endpoints every run is of this kind. */
  lemma {:induction false} DataRunsUnstruck(q: Tq, steps: seq<Step>, env: Env, r: Tq)
    requires Inv(q) && !q.control && Runs(q, steps, env, r)
    ensures UnstruckRuns(q, steps, env, r)
    decreases |steps|
  {
    hide Inv, Next;
    if steps != [] {
      assert !Struck(q, steps[0], env);
      hide Struck;
      NextInv(q, steps[0], env);
      DataRunsUnstruck(Next(q, steps[0], env), steps[1..], env, r);
    }
  }

  // ------------------------------------------------------------------ a run

  const ALL: Env := (t: nat) => Grants(true, true, true, true)

  const REQUEST: Urb := Urb(Out, true, false, 0, Linear(0), 0x1000, false, InitPending, 0, 0, 0, 0, 0, false, false)

  const ERROR: Message := Message(CMD_CONTROL_TRANSFER_STATUS, 2, 0)

  lemma FirstRequest() returns (q: Tq)
    ensures Inv(q) && Wf(q) && q.control && q.flags.active && q.evq == [] && q.book.list == [0] && q.book.urbs[0].state == SetupRequest
    ensures UnstruckRuns(Fresh(true, 1), [Submit(0, REQUEST, true)], ALL, q)
  {
    hide Inv, Create, Struck, UnstruckRuns, Wf;
    var f, step := Fresh(true, 1), Submit(0, REQUEST, true);
    FreshInv(true, 1);
    InvKnown(f);
    q := FirstCreated(f);
    ErrorFreeUnstruck(f, step, ALL);
    NextInv(f, step, ALL);
    NoneUnstruck(q);
    OneUnstruck(f, step, [], ALL, q);
    assert [step] + [] == [step];
  }

  lemma NoneUnstruck(q: Tq)
    ensures UnstruckRuns(q, [], ALL, q)
  {
  }

  lemma FirstCreated(f: Tq) returns (q: Tq)
    requires Wf(f) && f == Fresh(true, 1)
    ensures q == Create(f, 0, REQUEST, true, ALL) && Wf(q) && q.control
    ensures q.flags.active && q.evq == [] && q.book.list == [0] && q.book.urbs[0].state == SetupRequest
  {
    LinkWf(f, 0, REQUEST);
    var q1 := Link(f, 0, REQUEST).(desk := f.desk.(accepted := f.desk.accepted + {0}));
    assert q1.book.list == [0] && q1.evq == [];
    StartWf(q1, 0, ALL);
    q := TransferQueues.Start(q1, 0, ALL);
    assert q.book.urbs[0] == REQUEST.(state := SetupRequest) && q.book.remaining == 0;
    NobodyPending(q, 0);
    hide DeliverPending, Link;
  }

  /** With one request that does not wait for a credit, and nothing deferred, delivery does nothing. */
  lemma NobodyPending(q: Tq, id: nat)
    requires Wf(q) && q.evq == [] && q.book.list == [id] && q.book.urbs[id].state != InitPending
    ensures DeliverPending(q, ALL) == q
  {
    hide TransferQueues.Start, Sound, WireWf;
    assert [id][1..] == [];
    assert InitPendingUrbs(q, [], ALL) == q;
  }

  /** A control request that is cancelled and then refused by the firmware is given back twice. */
  lemma RefusedAfterCancel() returns (steps: seq<Step>, r: Tq)
    ensures Runs(Fresh(true, 1), steps, ALL, r) && Twice(r.desk.given)
  {
    hide Inv, Runs, UnstruckRuns, Twice, Doomed, Struck, RequestCancel;
    var q1 := FirstRequest();
    var q2 := CancelFirst(q1);
    var h := NextDooms(q2, Incoming(ERROR), ALL);
    var rest;
    rest, r := DoomedTwice(Event(q2, ERROR, ALL), h, ALL);
    UnstruckAreRuns(Fresh(true, 1), [Submit(0, REQUEST, true)], ALL, q1);
    UnstruckAreRuns(Event(q2, ERROR, ALL), rest, ALL, r);
    RunOn(q2, Incoming(ERROR), rest, ALL, r);
    RunOn(q1, CancelRequest(0, -104), [Incoming(ERROR)] + rest, ALL, r);
    steps := [Submit(0, REQUEST, true)] + ([CancelRequest(0, -104)] + ([Incoming(ERROR)] + rest));
    RunsAfter(Fresh(true, 1), Submit(0, REQUEST, true), q1, [CancelRequest(0, -104)] + ([Incoming(ERROR)] + rest), ALL, r);
  }

  lemma CancelFirst(q: Tq) returns (r: Tq)
    requires Inv(q) && Wf(q) && q.control && q.flags.active && q.evq == [] && q.book.list == [0] && q.book.urbs[0].state == SetupRequest
    ensures r == RequestCancel(q, 0, -104) && Inv(r) && Wf(r) && Struck(r, Incoming(ERROR), ALL)
  {
    assert 0 in q.book.list && q.book.urbs[0].control;
    hide Inv, DeliverPending, StruckDeliver, Wf;
    r := RequestCancel(q, 0, -104);
    RequestCancelInv(q, 0, -104);
    InvKnown(r);
    assert r.book.list == [0] && r.book.urbs[0].state == Cancelled && r.book.urbs[0].control && r.evq == [];
    hide RequestCancel;
    NobodyPending(r, 0);
    assert StruckHead(r, ERROR);
  }

  lemma {:induction false} UnstruckAreRuns(q: Tq, steps: seq<Step>, env: Env, r: Tq)
    requires UnstruckRuns(q, steps, env, r)
    ensures Runs(q, steps, env, r)
    decreases |steps|
  {
    hide Next, Wf, Enabled, Struck;
    if steps != [] {
      UnstruckAreRuns(Next(q, steps[0], env), steps[1..], env, r);
    }
  }

  lemma RunOn(q: Tq, step: Step, steps: seq<Step>, env: Env, r: Tq)
    requires Wf(q) && Enabled(q, step) && Runs(Next(q, step, env), steps, env, r)
    ensures Runs(q, [step] + steps, env, r)
  {
    hide Next, Wf, Enabled;
    assert ([step] + steps)[1..] == steps;
  }

  lemma RunsAfter(q: Tq, step: Step, m: Tq, steps: seq<Step>, env: Env, r: Tq)
    requires Runs(q, [step], env, m) && Runs(m, steps, env, r)
    ensures Runs(q, [step] + steps, env, r)
  {
    hide Next, Wf, Enabled;
    assert [step][1..] == [] && ([step] + steps)[1..] == steps;
  }
}
