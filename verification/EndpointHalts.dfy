/** Which completions end a request or halt its endpoint, and that a halted endpoint with requests gets its reset. */
module EndpointHalts {
  import opened Prelude
  import opened Urbs
  import opened TransferQueues

  // ------------------------------------------------------------------ completions

  /** The bytes of a completion fit what was submitted and what the buffer has left. */
  predicate Plausible(u: Urb, c: Completed) {
    c.dataSize <= u.submitted && u.receiveOffset + c.dataSize <= u.length
  }

  /** The errno of a completion that ends the request with an error. */
  function ErrorOf(u: Urb, c: Completed): int {
    if !Plausible(u, c) then EOVERFLOW else if c.status != COMPLETED_SUCCESS then EIO else EREMOTEIO
  }

  /** A completion is in error: implausible, failed, or short where all bytes were needed. */
  predicate InError(u: Urb, c: Completed) {
    !Plausible(u, c) || c.status != COMPLETED_SUCCESS || (c.dataSize < u.submitted && (u.dir == Out || u.shortNotOk))
  }

  /**
   A completion finishes a data request with status 0 exactly when it is in order and
   brings the end of the buffer or, for IN, a short packet; it ends it with an error
   when it is not in order, and halts the endpoint unless that was a short IN packet.
   */
  lemma CompletionVerdict(u: Urb, c: Completed, g: Grants)
    requires Sound(u) && !u.control && u.state == WaitCompletion
    ensures var o := TransferDone(u, c, g);
            && (o.verdict == Finish(0) <==>
                  !InError(u, c) && (u.receiveOffset + c.dataSize == u.length || c.dataSize < u.submitted))
            && (InError(u, c) ==>
                  o.verdict == if u.dir == In && Plausible(u, c) && c.status == COMPLETED_SUCCESS
                               then Finish(ErrorOf(u, c)) else Halt(ErrorOf(u, c), Always))
            && (Plausible(u, c) ==> o.urb.receiveOffset == u.receiveOffset + c.dataSize)
  {
    hide InSubmission, OutSubmission;
  }

  /** A window of no bytes halts an OUT endpoint that has some to send. */
  lemma EmptyWindowHalts(u: Urb, m: Message, g: Grants)
    requires Sane(u) && !u.control && u.state == WaitRequest && u.receiveOffset < u.length
    requires m.cmd == CMD_TRANSFER_REQUEST && m.param2 == 0
    ensures Update(u, m, g) == Outcome(u, None, Halt(EPROTO, Always))
  {
  }

  /** How a status message ends a control request in its data stage: a stall always halts, other errors once more requests wait. */
  lemma StatusVerdict(u: Urb, m: Message, g: Grants)
    requires Sane(u) && u.control && m.cmd == CMD_CONTROL_TRANSFER_STATUS && m.status != 0
    requires u.state == DataComplete || u.state == WaitRequest || u.state == WaitCompletion
    ensures var v := Update(u, m, g).verdict;
            && (m.status == STATUS_SUCCESS ==> v == if u.state == DataComplete then Finish(0) else Fine)
            && (m.status == STATUS_PIPE_STALL ==> v == Halt(EPIPE, Always))
            && (m.status != STATUS_SUCCESS && m.status != STATUS_PIPE_STALL ==> v == Halt(EPIPE, IfMoreUrbs))
  {
  }

  // ------------------------------------------------------------------ resets

  /** A halted endpoint is inactive, and has its reset queued as long as requests are linked. */
  ghost predicate Owed(q: Tq) {
    q.flags.stalled ==> !q.flags.active && (q.book.list != [] ==> q.flags.resetQueued)
  }

  /** A halt makes the endpoint inactive at once. */
  lemma HaltStops(q: Tq, id: nat, o: Outcome)
    requires o.verdict.Halt?
    ensures var r := Settle(q, id, o);
            !r.flags.active && r.flags.stalled && (r.flags.resetQueued <==> q.flags.resetQueued || o.verdict.rule == Always || r.book.list != [])
  {
  }

  lemma SettleOwed(q: Tq, id: nat, o: Outcome)
    requires Owed(q)
    ensures Owed(Settle(q, id, o))
  {
    hide Hand;
  }

  lemma StartOwed(q: Tq, id: nat, env: Env)
    requires Wf(q) && id in q.book.list && Owed(q)
    ensures Owed(TransferQueues.Start(q, id, env))
  {
    hide Begin, Hand;
  }

  lemma {:induction false} InitOwed(q: Tq, ids: seq<nat>, env: Env)
    requires Wf(q) && (forall id :: id in ids ==> id in q.book.list) && Owed(q)
    ensures Owed(InitPendingUrbs(q, ids, env))
    decreases |ids|
  {
    hide TransferQueues.Start, WireWf, Sound, Owed;
    if ids != [] && q.book.remaining > 0 {
      if q.book.urbs[ids[0]].state == InitPending {
        StartWf(q, ids[0], env);
        StartOwed(q, ids[0], env);
        InitOwed(TransferQueues.Start(q, ids[0], env), ids[1..], env);
      } else {
        InitOwed(q, ids[1..], env);
      }
    }
  }

  lemma {:induction false} DeliverOwed(q: Tq, env: Env)
    requires Wf(q) && Owed(q)
    ensures Owed(Deliver(q, env))
    decreases |q.evq|
  {
    if q.book.list != [] && q.evq != [] {
      var o := UpdateHead(q, q.evq[0], env);
      UpdateHeadWf(q, q.evq[0], env);
      SettleOwed(q, q.book.list[0], o);
      var q1 := Settle(q, q.book.list[0], o);
      assert Wf(q1.(evq := q.evq[1..]));
      hide Settle, UpdateHead, Wf;
      if o.verdict != Again {
        DeliverOwed(q1.(evq := q.evq[1..]), env);
      }
    }
  }

  lemma PendingOwed(q: Tq, env: Env)
    requires Wf(q) && Owed(q)
    ensures Owed(DeliverPending(q, env))
  {
    hide Deliver, InitPendingUrbs, Owed;
    DeliverOwed(q, env);
    InitOwed(Deliver(q, env), Deliver(q, env).book.list, env);
  }

  lemma EventOwed(q: Tq, m: Message, env: Env)
    requires Wf(q) && Owed(q)
    ensures Owed(Event(q, m, env))
  {
    if q.flags.active {
      PendingOwed(q, env);
      var q1 := DeliverPending(q, env);
      hide DeliverPending, InitPendingUrbs, Update, Wf;
      if q1.book.list != [] {
        UpdateHeadWf(q1, m, env);
        SettleOwed(q1, q1.book.list[0], UpdateHead(q1, m, env));
        var q2 := Settle(q1, q1.book.list[0], UpdateHead(q1, m, env));
        hide Settle, UpdateHead;
        InitOwed(q2, q2.book.list, env);
      }
    }
  }

  lemma {:induction false} CompleteOwed(q: Tq, dir: Direction, cs: seq<Completed>, env: Env)
    requires Wf(q) && Owed(q)
    ensures Owed(CompleteMany(q, dir, cs, env))
    decreases |cs|
  {
    if cs != [] && InFlight(q.wire, dir) != [] {
      CompleteOneOwed(q, dir, cs[0], env);
      hide CompleteOne, Owed, Wf;
      CompleteOwed(CompleteOne(q, dir, cs[0], env), dir, cs[1..], env);
    }
  }

  lemma CompleteOneOwed(q: Tq, dir: Direction, c: Completed, env: Env)
    requires Wf(q) && InFlight(q.wire, dir) != [] && Owed(q)
    ensures Owed(CompleteOne(q, dir, c, env))
  {
    RetireWf(q.wire, q.book.list, dir, c);
    var q1 := q.(wire := Retire(q.wire, dir, c));
    assert Wf(q1);
    hide Retire, TransferDone, Settle, WireWf;
    if q1.book.list != [] {
      SettleOwed(q1, q1.book.list[0], TransferDone(q1.book.urbs[q1.book.list[0]], c, env(q1.tick)));
    }
  }

  lemma {:induction false} ResumeOwed(q: Tq, ids: seq<nat>, env: Env)
    requires Wf(q) && Distinct(ids) && (forall id :: id in ids ==> id in q.book.list) && Owed(q)
    ensures Owed(ResumeUrbs(q, ids, env))
    decreases |ids|
  {
    if ids != [] && !(q.book.urbs[ids[0]].state == InitPending && q.book.remaining == 0) {
      ResumeOneWf(q, ids[0], env);
      if q.book.urbs[ids[0]].state == InitPending {
        StartOwed(q, ids[0], env);
      } else {
        SettleOwed(q, ids[0], Resume(q.book.urbs[ids[0]], env(q.tick)));
      }
      assert ids[0] !in ids[1..];
      assert Owed(ResumeOne(q, ids[0], env)) by {
        hide Settle, TransferQueues.Start, Owed;
      }
      hide ResumeOne, Owed, Wf;
      ResumeOwed(ResumeOne(q, ids[0], env), ids[1..], env);
    }
  }

  lemma CreateOwed(q: Tq, id: nat, u: Urb, linked: bool, env: Env)
    requires Wf(q) && id !in q.book.list && New(u) && Owed(q)
    ensures Owed(Create(q, id, u, linked, env))
  {
    if linked {
      var q1 := Link(q, id, u).(desk := q.desk.(accepted := q.desk.accepted + {id}));
      var q2 := q1.(flags := q.flags.(resetQueued := q.flags.resetQueued || q.flags.stalled));
      LinkOwed(q, id, u);
      if q.flags.active && q.book.remaining > 0 && Begin(u, env(q.tick)).status != 0 {
        assert Owed(q.(tick := q.tick + 1));
      }
      hide Create, DeliverPending, TransferQueues.Start, Begin, New, Link, Wf, Owed;
      if q.flags.active {
        CreateActive(q, id, u, env);
        StartWf(q1, id, env);
        StartOwed(q1, id, env);
        PendingOwed(q1, env);
        PendingOwed(TransferQueues.Start(q1, id, env), env);
      } else {
        CreateInactive(q, id, u, env);
        PendingOwed(q2, env);
      }
    }
  }

  lemma LinkOwed(q: Tq, id: nat, u: Urb)
    requires Wf(q) && id !in q.book.list && New(u) && Owed(q)
    ensures var q1 := Link(q, id, u).(desk := q.desk.(accepted := q.desk.accepted + {id}));
            var q2 := q1.(flags := q.flags.(resetQueued := q.flags.resetQueued || q.flags.stalled));
            && Wf(q1) && Wf(q2) && id in q1.book.list && q1.book.urbs[id].state == InitPending
            && Owed(q2) && (q.flags.active ==> Owed(q1))
  {
    LinkWf(q, id, u);
  }

  /** A halted endpoint is left alone until its reset, and the firmware halts only the control endpoint by itself. */
  ghost predicate Orderly(q: Tq, step: Step) {
    match step
    case PauseFailed => !q.flags.stalled
    case Reopen => !q.flags.stalled
    case Stall => q.control || q.book.list == [] || q.flags.resetQueued
    case _ => true
  }

  lemma NextOwed(q: Tq, step: Step, env: Env)
    requires Wf(q) && Owed(q) && Enabled(q, step) && Orderly(q, step)
    ensures Owed(Next(q, step, env))
  {
    match step
    case Submit(id, u, linked) => CreateOwed(q, id, u, linked, env);
    case Incoming(m) => EventOwed(q, m, env);
    case Finished(dir, cs) =>
      hide CompleteMany, DeliverPending, Owed;
      CompleteOwed(q, dir, cs, env);
      PendingOwed(CompleteMany(q, dir, cs, env), env);
    case PauseFailed =>
      assert Owed(Activate(q));
      hide DeliverPending, Owed;
      PendingOwed(Activate(q), env);
    case Reopen =>
      assert Owed(Activate(q));
      hide ResumeUrbs, DeliverPending, Owed;
      ResumeOwed(Activate(q), q.book.list, env);
      PendingOwed(ResumeUrbs(Activate(q), q.book.list, env), env);
    case CancelUnlink => WithoutMembers(q.book.list, q.desk.worker.id); hide WireWf, Sound;
    case _ => hide WireWf, Sound;
  }

  lemma {:induction false} InitFlags(q: Tq, ids: seq<nat>, env: Env)
    requires Wf(q) && forall id :: id in ids ==> id in q.book.list
    ensures InitPendingUrbs(q, ids, env).flags == q.flags
    decreases |ids|
  {
    hide WireWf, Sound, Begin;
    if ids != [] && q.book.remaining > 0 {
      if q.book.urbs[ids[0]].state == InitPending {
        StartWf(q, ids[0], env);
        assert TransferQueues.Start(q, ids[0], env).flags == q.flags;
        hide TransferQueues.Start;
        InitFlags(TransferQueues.Start(q, ids[0], env), ids[1..], env);
      } else {
        InitFlags(q, ids[1..], env);
      }
    }
  }

  lemma {:induction false} ResumeFlags(q: Tq, ids: seq<nat>, env: Env)
    requires Wf(q) && Distinct(ids) && forall id :: id in ids ==> id in q.book.list
    ensures ResumeUrbs(q, ids, env).flags == q.flags && ResumeUrbs(q, ids, env).evq == q.evq
    decreases |ids|
  {
    if ids != [] && !(q.book.urbs[ids[0]].state == InitPending && q.book.remaining == 0) {
      ResumeOneWf(q, ids[0], env);
      assert ids[0] !in ids[1..];
      var q1 := ResumeOne(q, ids[0], env);
      ResumeOneFlags(q, ids[0], env);
      hide ResumeOne, Wf;
      ResumeFlags(q1, ids[1..], env);
    }
  }

  lemma ResumeOneFlags(q: Tq, id: nat, env: Env)
    requires Wf(q) && id in q.book.list
    ensures ResumeOne(q, id, env).flags == q.flags && ResumeOne(q, id, env).evq == q.evq
  {
    assert !Resume(q.book.urbs[id], env(q.tick)).verdict.Halt? by {
      hide TransferIn;
    }
    hide Resume, Begin, Enter, Hand;
  }

  lemma PendingFlags(q: Tq, env: Env)
    requires Wf(q) && q.evq == []
    ensures DeliverPending(q, env).flags == q.flags
  {
    InitFlags(q, q.book.list, env);
  }

  /** With no message deferred that could halt it once more, any other step leaves a halted endpoint without what it is owed. */
  lemma OrderlyExactly(q: Tq, step: Step, env: Env)
    requires Wf(q) && Owed(q) && Enabled(q, step) && (step.PauseFailed? || step.Reopen? ==> q.evq == [])
    ensures Orderly(q, step) <==> Owed(Next(q, step, env))
  {
    if Orderly(q, step) {
      NextOwed(q, step, env);
    } else {
      hide DeliverPending, ResumeUrbs;
      match step
      case PauseFailed => PendingFlags(Activate(q), env);
      case Reopen =>
        ResumeFlags(Activate(q), q.book.list, env);
        PendingFlags(ResumeUrbs(Activate(q), q.book.list, env), env);
      case Stall =>
    }
  }

  ghost predicate OrderlyRuns(q: Tq, steps: seq<Step>, env: Env, r: Tq)
    decreases |steps|
  {
    if steps == [] then q == r
    else Wf(q) && Enabled(q, steps[0]) && Orderly(q, steps[0]) && OrderlyRuns(Next(q, steps[0], env), steps[1..], env, r)
  }

  lemma {:induction false} RunOwed(q: Tq, steps: seq<Step>, env: Env, r: Tq)
    requires OrderlyRuns(q, steps, env, r) && Owed(q)
    ensures Owed(r)
    decreases |steps|
  {
    hide Next, Owed, Enabled, Wf, Orderly;
    if steps != [] {
      NextOwed(q, steps[0], env);
      RunOwed(Next(q, steps[0], env), steps[1..], env, r);
    }
  }

  /** Over every such run, whatever fails: an endpoint that halted with requests linked has its reset queued. */
  lemma HaltedGetsReset(control: bool, maxActive: nat, steps: seq<Step>, env: Env, r: Tq)
    requires OrderlyRuns(Fresh(control, maxActive), steps, env, r) && r.flags.stalled
    ensures !r.flags.active && (r.book.list != [] ==> r.flags.resetQueued)
  {
    hide OrderlyRuns;
    RunOwed(Fresh(control, maxActive), steps, env, r);
  }
}
