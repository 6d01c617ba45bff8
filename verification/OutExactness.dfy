/**
 End-to-end exactness of OUT transfers: from the scatterlist through descriptor
 pages, firmware windows, pauses and cancellations to the bytes the device was given.
 */
module OutExactness {
  import opened Prelude
  import opened SegmentLists
  import opened Urbs
  import opened TransferQueues
  import TransferSafety

  /** Exactly the first n bytes of the buffer have been moved. */
  ghost predicate MovedTo(u: Urb, bytes: seq<nat>, n: nat) {
    n <= |BufferBytes(u)| && bytes == BufferBytes(u)[..n]
  }

  /** An OUT request and what has been moved for it. */
  ghost predicate Moving(u: Urb, bytes: seq<nat>) {
    && u.dir == Out && !u.control && BufferOk(u)
    && (if u.state == Cancelled then u.cancelStatus != 0 else MovedTo(u, bytes, u.receiveOffset))
  }

  /** A request that waits for a window or a completion has something left to send. */
  predicate Unfinished(u: Urb) {
    && (u.state == InitPending ==> u.receiveOffset == 0)
    && (u.state == WaitRequest || u.state == WaitCompletion ==> u.receiveOffset < u.length || IsZlp(u))
  }

  /** A linked OUT request between two events. */
  ghost predicate OutUrb(u: Urb, bytes: seq<nat>) {
    Moving(u, bytes) && Unfinished(u)
  }

  /** What an event may do to an OUT request for which `bytes` have been moved. */
  ghost predicate OutStep(u: Urb, bytes: seq<nat>, o: Outcome) {
    && SameRequest(u, o.urb)
    && (Stays(o.verdict) ==> OutUrb(o.urb, bytes))
    && (!Stays(o.verdict) && o.verdict.status == 0 ==> MovedTo(o.urb, bytes, o.urb.length))
    && (o.post.Some? ==> Stays(o.verdict) && o.post.value.ToDevice? && o.urb.state == WaitCompletion && Covers(o.urb, o.post.value.sub))
  }

  // ------------------------------------------------------------------ one request

  /** The request after a submission was posted for it. */
  function PostedUrb(u: Urb, sub: Submission): Urb {
    u.(submitted := SubmissionLength(sub), state := WaitCompletion)
  }

  lemma PostedOut(u: Urb, bytes: seq<nat>, sub: Submission)
    requires Moving(u, bytes) && u.state != Cancelled && Covers(u.(submitted := SubmissionLength(sub)), sub)
    requires u.receiveOffset < u.length || IsZlp(u)
    ensures SameRequest(u, PostedUrb(u, sub)) && OutUrb(PostedUrb(u, sub), bytes) && Covers(PostedUrb(u, sub), sub)
  {
    SameBytes(u, u.(submitted := SubmissionLength(sub)));
    SameBytes(u, PostedUrb(u, sub));
    hide BufferBytes, BufferOk, SubmissionBytes, SubmissionLength;
  }

  /** The only ways a continuation ends: an error, or one submission that covers what it counts. */
  lemma ContinueOutShape(u: Urb, g: Grants)
    requires u.dir == Out && BufferOk(u) && u.receiveOffset <= u.requestEnd <= u.length && u.receiveOffset <= |BufferBytes(u)|
    ensures var a := ContinueOut(u, g);
            if a.status != 0 then a.urb == u && a.post == None
            else a.post.Some? && a.post.value.ToDevice? && a.urb == PostedUrb(u, a.post.value.sub)
                 && (u.receiveOffset < u.length || IsZlp(u))
                 && Covers(u.(submitted := SubmissionLength(a.post.value.sub)), a.post.value.sub)
  {
    hide BufferBytes, BufferOk, Covers, OutSubmission, SubmissionLength;
    OutSubmissionCovers(u, if u.receiveOffset < u.requestEnd then u.requestEnd - u.receiveOffset else 0);
  }

  lemma ContinueOutStep(u: Urb, bytes: seq<nat>, g: Grants)
    requires Moving(u, bytes) && u.state != Cancelled && u.receiveOffset <= u.requestEnd <= u.length
    ensures var a := ContinueOut(u, g);
            OutStep(u, bytes, Outcome(a.urb, a.post, if a.status != 0 then Halt(a.status, Always) else Fine))
  {
    assert u.receiveOffset <= |BufferBytes(u)| && u.dir == Out && BufferOk(u);
    hide BufferBytes, BufferOk, ContinueOut, Moving, OutUrb, Covers, SubmissionLength, IsZlp;
    ContinueOutShape(u, g);
    var a := ContinueOut(u, g);
    if a.status == 0 {
      PostedOut(u, bytes, a.post.value.sub);
    }
  }

  /** A firmware message, whatever it asks for. */
  lemma UpdateStep(u: Urb, bytes: seq<nat>, m: Message, g: Grants)
    requires Sane(u) && OutUrb(u, bytes)
    ensures OutStep(u, bytes, Update(u, m, g))
    ensures u.state != WaitRequest ==> Update(u, m, g) == Outcome(u, None, Again)
  {
    hide ContinueOut, BufferBytes, BufferOk, Covers;
    if u.state == WaitRequest {
      var v := u.(requestEnd := u.receiveOffset + Min(u.length - u.receiveOffset, m.param2));
      SameBytes(u, v);
      assert Moving(v, bytes);
      ContinueOutStep(v, bytes, g);
    }
  }

  /** After a pause drained the ring, a request in flight goes back to waiting for a window. */
  lemma ResumeStep(u: Urb, bytes: seq<nat>, g: Grants)
    requires Sane(u) && OutUrb(u, bytes)
    ensures OutStep(u, bytes, Resume(u, g)) && Resume(u, g).post == None
  {
    SameBytes(u, Resume(u, g).urb);
    hide BufferBytes, BufferOk;
  }

  /** What completion c of `sub` adds to the moved bytes. */
  function Added(sub: Submission, c: Completed): seq<nat> {
    var b := SubmissionBytes(sub);
    b[..Min(c.dataSize, |b|)]
  }

  /** The request and the bytes moved for it once a full completion of a covering submission is in. */
  lemma AddedMoves(u: Urb, bytes: seq<nat>, sub: Submission, c: Completed)
    requires OutUrb(u, bytes) && u.state == WaitCompletion && Covers(u, sub) && c.dataSize == u.submitted
    ensures Moving(u.(receiveOffset := u.receiveOffset + c.dataSize), bytes + Added(sub, c))
  {
    var all, n := BufferBytes(u), u.receiveOffset;
    SameBytes(u, u.(receiveOffset := u.receiveOffset + c.dataSize));
    hide BufferBytes, SubmissionBytes, BufferOk;
    assert all[..n] + all[n..n + c.dataSize] == all[..n + c.dataSize];
  }

  /** The completion of a request's own submission. */
  lemma DoneStep(u: Urb, bytes: seq<nat>, sub: Submission, c: Completed, g: Grants)
    requires Sane(u) && OutUrb(u, bytes)
    requires u.state == Cancelled || (u.state == WaitCompletion && Covers(u, sub))
    ensures OutStep(u, bytes + Added(sub, c), TransferDone(u, c, g))
  {
    hide AfterFull, BufferBytes, BufferOk, Added, Covers, MovedTo, ControlDone;
    if u.state == WaitCompletion && c.dataSize == u.submitted {
      AddedMoves(u, bytes, sub, c);
      AfterFullStep(u.(receiveOffset := u.receiveOffset + c.dataSize), bytes + Added(sub, c), g);
    }
  }

  lemma AfterFullStep(v: Urb, bytes: seq<nat>, g: Grants)
    requires Moving(v, bytes) && v.state == WaitCompletion && v.receiveOffset <= v.requestEnd <= v.length
    ensures OutStep(v, bytes, AfterFull(v, g))
  {
    if v.receiveOffset < v.requestEnd {
      ContinueOutStep(v, bytes, g);
    }
    SameBytes(v, v.(state := WaitRequest));
    SameBytes(v, v.(state := DataComplete));
    hide ContinueOut, BufferBytes, BufferOk;
  }

  /**
   Remaining bytes are a progress measure: an event never takes bytes back, and a
   completion that leaves a non-empty request linked moves its offset forward.
   */
  lemma OutProgress(u: Urb, e: UrbEvent, g: Grants)
    requires Sound(u) && u.dir == Out && !u.control && BufferOk(u) && u.length > 0
    requires u.state == WaitCompletion ==> u.submitted > 0
    ensures var o := React(u, e, g);
            Stays(o.verdict) ==>
              && (o.urb.state == WaitCompletion ==> o.urb.submitted > 0)
              && u.receiveOffset <= o.urb.receiveOffset <= u.length
              && (e.Done? && u.state == WaitCompletion ==> u.receiveOffset < o.urb.receiveOffset)
  {
    hide ContinueOut, ContinueIn, TransferIn, ControlUpdate, ControlDone, ListOk;
    ReactSound(u, e, g);
    match e
    case Told(m) =>
      if u.state == WaitRequest {
        PostsBytes(u.(requestEnd := u.receiveOffset + Min(u.length - u.receiveOffset, m.param2)), g);
      }
    case Done(c) =>
      if u.state == WaitCompletion && c.dataSize == u.submitted {
        PostsBytes(u.(receiveOffset := u.receiveOffset + c.dataSize), g);
      }
    case Resumed =>
  }

  lemma PostsBytes(u: Urb, g: Grants)
    requires u.dir == Out && BufferOk(u) && u.receiveOffset <= u.requestEnd <= u.length && u.length > 0
    ensures var a := ContinueOut(u, g);
            a.status == 0 ==> a.urb.submitted > 0 && a.urb.receiveOffset == u.receiveOffset
  {
    if u.buffer.Scatter? {
      NextRangeExact(u.buffer.list, u.receiveOffset, u.requestEnd - u.receiveOffset);
    }
    hide NextRange, SubmissionBytes, ListBytes, BufferOk;
  }

  // ------------------------------------------------------------------ the queue

  /** Linked requests other than `skip` are as OutUrb says. */
  ghost predicate UrbsOut(b: Book, w: Wire, skip: set<nat>)
    requires BookWf(b) && WireWf(w, b.list)
  {
    forall x :: x in b.list && x !in skip ==> OutUrb(b.urbs[x], w.moved[x])
  }

  /** Linked requests still have the buffer they were submitted with. */
  ghost predicate Kept(b: Book, requests: map<nat, Urb>)
    requires BookWf(b)
  {
    forall x :: x in b.list ==> x in requests && SameRequest(requests[x], b.urbs[x])
  }

  ghost predicate Carried(u: Urb, sub: Submission) {
    (u.state == Cancelled && u.cancelWasActive) || (u.state == WaitCompletion && Covers(u, sub))
  }

  /** At most one submission is in flight, and it is the oldest request's. */
  ghost predicate Flight(b: Book, w: Wire)
    requires BookWf(b)
  {
    && w.fromDevice == [] && |w.toDevice| <= 1
    && (w.toDevice != [] ==>
          b.list != [] && w.toDevice[0].owner == b.list[0] && Carried(b.urbs[b.list[0]], w.toDevice[0].sub))
  }

  /** Every request given back with status 0 had exactly its first `length` bytes moved. */
  ghost predicate Exact(w: Wire, requests: map<nat, Urb>, gs: seq<Giveback>) {
    forall g :: g in gs && g.status == 0 ==>
      g.id in w.moved && g.id in requests && MovedTo(requests[g.id], w.moved[g.id], requests[g.id].length)
  }

  ghost predicate Settled(q: Tq) {
    && Exact(q.wire, q.requests, q.book.giveback)
    && Exact(q.wire, q.requests, q.desk.given)
    && (q.desk.worker.Unlinked? ==> q.desk.worker.status != 0)
  }

  ghost predicate OutInv(q: Tq) {
    && TransferSafety.Inv(q) && !q.control
    && UrbsOut(q.book, q.wire, {})
    && Kept(q.book, q.requests)
    && Flight(q.book, q.wire)
    && Settled(q)
  }

  lemma EnterOut(b: Book, w: Wire, requests: map<nat, Urb>, id: nat, o: Outcome)
    requires BookWf(b) && WireWf(w, b.list) && id in b.list && UrbsOut(b, w, {id}) && Kept(b, requests)
    requires OutStep(b.urbs[id], w.moved[id], o) && (Stays(o.verdict) ==> Sound(o.urb))
    ensures var b', w' := Enter(b, id, o), Hand(w, id, o.post);
            BookWf(b') && WireWf(w', b'.list) && UrbsOut(b', w', {}) && Kept(b', requests)
  {
    EnterWf(b, id, o);
    HandWf(w, b.list, id, o.post, Enter(b, id, o).list);
    hide Sound, OutUrb, Without;
  }

  /** What in-flight submissions an event may find and leave. */
  lemma EnterFlight(b: Book, w: Wire, id: nat, o: Outcome)
    requires BookWf(b) && id in b.list && w.fromDevice == [] && |w.toDevice| <= 1
    requires o.post.Some? ==> o.post.value.ToDevice? && Stays(o.verdict) && Carried(o.urb, o.post.value.sub)
    requires w.toDevice != [] ==> Flight(b, w) && Stays(o.verdict) && o.post == None && (id == b.list[0] ==> o.urb == b.urbs[id])
    requires o.post.Some? ==> id == b.list[0]
    requires Stays(o.verdict) ==> Sound(o.urb)
    ensures BookWf(Enter(b, id, o)) && Flight(Enter(b, id, o), Hand(w, id, o.post))
  {
    EnterWf(b, id, o);
    hide Sound, Without, OutUrb, Covers;
  }

  lemma EnterExact(w: Wire, requests: map<nat, Urb>, gs: seq<Giveback>, id: nat, o: Outcome)
    requires Exact(w, requests, gs)
    ensures Exact(Hand(w, id, o.post), requests, gs)
  {
  }

  lemma NewEntryExact(b: Book, w: Wire, requests: map<nat, Urb>, id: nat, o: Outcome)
    requires BookWf(b) && WireWf(w, b.list) && id in b.list && Kept(b, requests)
    requires OutStep(b.urbs[id], w.moved[id], o) && Exact(w, requests, b.giveback)
    ensures Exact(w, requests, Enter(b, id, o).giveback)
  {
    SameBytes(o.urb, requests[id]);
    hide BufferBytes, OutUrb, Without, Sound;
  }

  /** An event on a linked request, applied to a queue where only that request is out of step. */
  lemma SettleOut(q: Tq, id: nat, o: Outcome)
    requires TransferSafety.Inv(q) && !q.control && id in q.book.list
    requires TransferSafety.Tame(q.book.urbs[id], o) && (Stays(o.verdict) ==> Sound(o.urb))
    requires UrbsOut(q.book, q.wire, {id}) && Kept(q.book, q.requests) && Settled(q)
    requires OutStep(q.book.urbs[id], q.wire.moved[id], o)
    requires q.wire.fromDevice == [] && |q.wire.toDevice| <= 1
    requires q.wire.toDevice != [] ==>
               Flight(q.book, q.wire) && Stays(o.verdict) && o.post == None && (id == q.book.list[0] ==> o.urb == q.book.urbs[id])
    requires o.post.Some? ==> id == q.book.list[0]
    ensures OutInv(Settle(q, id, o))
  {
    hide Sound, Covers, OutUrb;
    TransferSafety.SettleInv(q, id, o);
    EnterOut(q.book, q.wire, q.requests, id, o);
    EnterFlight(q.book, q.wire, id, o);
    NewEntryExact(q.book, q.wire, q.requests, id, o);
    EnterExact(q.wire, q.requests, Enter(q.book, id, o).giveback, id, o);
    EnterExact(q.wire, q.requests, q.desk.given, id, o);
    hide TransferSafety.Inv, UrbsOut, Kept, Flight, Exact, Enter, Hand, Mark, BookWf, WireWf, OutStep;
  }

  // ------------------------------------------------------------------ sections

  lemma UpdateHeadOut(q: Tq, m: Message, env: Env)
    requires OutInv(q) && q.book.list != []
    ensures OutInv(Settle(q, q.book.list[0], UpdateHead(q, m, env)))
  {
    var id := q.book.list[0];
    var u, g := q.book.urbs[id], env(q.tick);
    assert Sound(u) && !u.control && OutUrb(u, q.wire.moved[id]);
    hide Update, Settle;
    UpdateStep(u, q.wire.moved[id], m, g);
    UpdateSound(u, m, g);
    TransferSafety.UpdateTame(u, m, g);
    hide Sound, OutUrb, OutStep, Covers, TransferSafety.Inv, TransferSafety.Tame;
    SettleOut(q, id, UpdateHead(q, m, env));
  }

  lemma {:induction false} DeliverOut(q: Tq, env: Env)
    requires OutInv(q)
    ensures OutInv(Deliver(q, env))
    decreases |q.evq|
  {
    assert Wf(q);
    if q.book.list != [] && q.evq != [] {
      var o := UpdateHead(q, q.evq[0], env);
      UpdateHeadOut(q, q.evq[0], env);
      UpdateHeadWf(q, q.evq[0], env);
      var q1 := Settle(q, q.book.list[0], o);
      EvqOut(q1, q.evq[1..], q1.flags, q1.tick);
      hide OutInv, Settle, UpdateHead, Wf;
      if o.verdict != Again {
        DeliverOut(q1.(evq := q.evq[1..]), env);
      }
    }
  }

  lemma EvqOut(q: Tq, evq: seq<Message>, flags: Flags, tick: nat)
    requires OutInv(q)
    ensures OutInv(q.(evq := evq, flags := flags, tick := tick))
  {
    hide UrbsOut, Kept, Flight, Exact;
  }

  /** Starting an OUT request posts nothing and moves nothing. */
  lemma BeginStep(u: Urb, bytes: seq<nat>, g: Grants)
    requires Sane(u) && OutUrb(u, bytes) && u.state == InitPending
    ensures var a := Begin(u, g);
            a.status == 0 && a.post == None && SameRequest(u, a.urb) && OutUrb(a.urb, bytes)
  {
    SameBytes(u, Begin(u, g).urb);
    hide BufferBytes, BufferOk, TransferIn;
  }

  /** One linked request that is not in flight changes. */
  lemma ReplaceOut(b: Book, w: Wire, requests: map<nat, Urb>, id: nat, u: Urb)
    requires BookWf(b) && WireWf(w, b.list) && id in b.list && b.urbs[id].state == InitPending
    requires UrbsOut(b, w, {}) && Kept(b, requests) && Flight(b, w)
    requires SameRequest(b.urbs[id], u) && OutUrb(u, w.moved[id]) && Sound(u)
    ensures var b' := b.(urbs := b.urbs[id := u]);
            BookWf(b') && UrbsOut(b', w, {}) && Kept(b', requests) && Flight(b', w)
  {
    hide Sound, OutUrb, Covers;
  }

  /** The queue after a start that posted nothing. */
  function Credited(q: Tq, id: nat, u: Urb): Tq
    requires q.book.remaining > 0
  {
    q.(book := q.book.(urbs := q.book.urbs[id := u], remaining := q.book.remaining - 1), tick := q.tick + 1)
  }

  lemma CreditedOut(q: Tq, id: nat, u: Urb)
    requires OutInv(q) && id in q.book.list && q.book.urbs[id].state == InitPending && q.book.remaining > 0
    requires SameRequest(q.book.urbs[id], u) && OutUrb(u, q.wire.moved[id]) && Sound(u)
    requires TransferSafety.Inv(Credited(q, id, u))
    ensures OutInv(Credited(q, id, u))
  {
    assert BookWf(q.book) && WireWf(q.wire, q.book.list);
    hide TransferSafety.Inv, Sound, OutUrb, SameRequest, Exact;
    ReplaceOut(q.book, q.wire, q.requests, id, u);
    hide UrbsOut, Kept, Flight;
  }

  lemma StartIsCredited(q: Tq, id: nat, env: Env)
    requires Wf(q) && id in q.book.list && q.book.remaining > 0
    requires Begin(q.book.urbs[id], env(q.tick)).status == 0 && Begin(q.book.urbs[id], env(q.tick)).post == None
    ensures TransferQueues.Start(q, id, env) == Credited(q, id, Begin(q.book.urbs[id], env(q.tick)).urb)
  {
    hide Begin;
  }

  lemma StartOut(q: Tq, id: nat, env: Env)
    requires OutInv(q) && id in q.book.list && q.book.urbs[id].state == InitPending
    ensures OutInv(TransferQueues.Start(q, id, env))
  {
    if q.book.remaining > 0 {
      var u, g := q.book.urbs[id], env(q.tick);
      assert Wf(q) && TransferSafety.Inv(q) && Sound(u) && OutUrb(u, q.wire.moved[id]);
      hide OutInv, Begin, TransferSafety.Inv, OutUrb, TransferQueues.Start, Credited, SameRequest;
      TransferSafety.StartInv(q, id, env);
      BeginStep(u, q.wire.moved[id], g);
      BeginSound(u, g);
      StartIsCredited(q, id, env);
      CreditedOut(q, id, Begin(u, g).urb);
    }
  }

  lemma {:induction false} InitPendingOut(q: Tq, ids: seq<nat>, env: Env)
    requires OutInv(q) && forall id :: id in ids ==> id in q.book.list
    ensures OutInv(InitPendingUrbs(q, ids, env))
    decreases |ids|
  {
    assert Wf(q);
    hide OutInv, TransferQueues.Start;
    if ids != [] && q.book.remaining > 0 {
      if q.book.urbs[ids[0]].state == InitPending {
        StartOut(q, ids[0], env);
        StartWf(q, ids[0], env);
        InitPendingOut(TransferQueues.Start(q, ids[0], env), ids[1..], env);
      } else {
        InitPendingOut(q, ids[1..], env);
      }
    }
  }

  lemma DeliverPendingOut(q: Tq, env: Env)
    requires OutInv(q)
    ensures OutInv(DeliverPending(q, env))
  {
    assert Wf(q);
    hide OutInv, Deliver, InitPendingUrbs;
    DeliverOut(q, env);
    var q1 := Deliver(q, env);
    InitPendingOut(q1, q1.book.list, env);
  }

  lemma DeferOut(q: Tq, m: Message, env: Env)
    requires OutInv(q)
    ensures OutInv(Defer(q, m, env))
  {
    EvqOut(q, Defer(q, m, env).evq, q.flags, q.tick + 1);
    hide OutInv;
  }

  /** A message offered to the oldest request, and what follows. */
  lemma OfferOut(q: Tq, m: Message, env: Env)
    requires OutInv(q) && Wf(q) && q.book.list != []
    ensures var o := UpdateHead(q, m, env);
            var q1 := Settle(q, q.book.list[0], o);
            Wf(q1) && OutInv(Defer(q1, m, env)) && OutInv(InitPendingUrbs(q1, q1.book.list, env))
  {
    hide OutInv, Settle, UpdateHead, InitPendingUrbs, Defer, Wf;
    UpdateHeadOut(q, m, env);
    UpdateHeadWf(q, m, env);
    var q1 := Settle(q, q.book.list[0], UpdateHead(q, m, env));
    DeferOut(q1, m, env);
    InitPendingOut(q1, q1.book.list, env);
  }

  lemma EventOut(q: Tq, m: Message, env: Env)
    requires OutInv(q)
    ensures OutInv(Event(q, m, env))
  {
    assert Wf(q);
    hide OutInv, Wf;
    if !q.flags.active {
      hide DeliverPending, Defer;
      DeferOut(q, m, env);
    } else {
      ActiveEventOut(q, m, env);
    }
  }

  lemma ActiveEventOut(q: Tq, m: Message, env: Env)
    requires OutInv(q) && Wf(q) && q.flags.active
    ensures OutInv(Event(q, m, env))
  {
    hide OutInv, Settle, UpdateHead, DeliverPending, InitPendingUrbs, Defer, Wf;
    DeliverPendingOut(q, env);
    var q1 := DeliverPending(q, env);
    DeferOut(q1, m, env);
    if q1.book.list != [] {
      OfferOut(q1, m, env);
    }
  }

  // ------------------------------------------------------------------ completions

  /** Retiring the oldest request's submission changes only what was moved for that request. */
  lemma RetireOut(q: Tq, c: Completed)
    requires OutInv(q) && q.wire.toDevice != []
    ensures q.wire.toDevice[0].owner == q.book.list[0] && q.book.list[0] in q.wire.moved
    ensures var w, id := Retire(q.wire, Out, c), q.book.list[0];
            && WireWf(w, q.book.list) && w.toDevice == [] && w.fromDevice == []
            && UrbsOut(q.book, w, {id}) && Settled(q.(wire := w))
            && w.moved[id] == q.wire.moved[id] + if c.status == COMPLETED_ABORTED then [] else Added(q.wire.toDevice[0].sub, c)
  {
    RetireWf(q.wire, q.book.list, Out, c);
    var id := q.book.list[0];
    NotGivenYet(q, id);
    hide OutUrb, MovedTo, Sound, Covers, SubmissionBytes;
  }

  /** A linked request has not been given back. */
  lemma NotGivenYet(q: Tq, id: nat)
    requires TransferSafety.Inv(q) && id in q.book.list
    ensures forall g :: g in q.book.giveback || g in q.desk.given ==> g.id != id
    ensures id in q.desk.accepted
  {
    var gb, gv := TransferSafety.Ids(q.book.giveback), TransferSafety.Ids(q.desk.given);
    hide Wf, TransferSafety.Credited, TransferSafety.OneKind, TransferSafety.CancelOk;
    assert id in multiset(q.book.list);
    assert TransferSafety.Places(q.book, q.desk)[id] == multiset(q.desk.accepted)[id] <= 1;
    assert id !in multiset(gb) && id !in multiset(gv);
    forall g | g in q.book.giveback || g in q.desk.given
      ensures g.id != id
    {
      if g in q.book.giveback {
        var i :| 0 <= i < |q.book.giveback| && q.book.giveback[i] == g;
        assert gb[i] in multiset(gb);
      } else {
        var i :| 0 <= i < |q.desk.given| && q.desk.given[i] == g;
        assert gv[i] in multiset(gv);
      }
    }
  }

  lemma CompleteOneOut(q: Tq, c: Completed, env: Env)
    requires OutInv(q) && q.wire.toDevice != []
    ensures OutInv(CompleteOne(q, Out, c, env))
  {
    var id, p := q.book.list[0], q.wire.toDevice[0];
    var u, g := q.book.urbs[id], env(q.tick);
    assert Sound(u) && OutUrb(u, q.wire.moved[id]) && Carried(u, p.sub);
    RetireOut(q, c);
    TransferSafety.RetireInv(q, Out, c);
    var q1 := q.(wire := Retire(q.wire, Out, c));
    if c.status == COMPLETED_ABORTED {
      assert q1.wire.moved == q.wire.moved;
      hide OutUrb, Covers, TransferSafety.Inv, Exact, Sound;
    } else {
      hide TransferDone, Settle, OutStep, OutUrb, Covers;
      DoneStep(u, q.wire.moved[id], p.sub, c, g);
      TransferSafety.DoneTame(u, c, g);
      TransferDoneSound(u, c, g);
      hide Sound, TransferSafety.Tame, TransferSafety.Inv, Flight, Retire, Kept, UrbsOut, Settled, Added;
      SettleOut(q1, id, TransferDone(u, c, g));
    }
  }

  lemma {:induction false} CompleteManyOut(q: Tq, dir: Direction, cs: seq<Completed>, env: Env)
    requires OutInv(q)
    ensures OutInv(CompleteMany(q, dir, cs, env))
    decreases |cs|
  {
    assert Wf(q) && q.wire.fromDevice == [];
    hide OutInv, CompleteOne;
    if cs != [] && InFlight(q.wire, dir) != [] {
      CompleteOneOut(q, cs[0], env);
      CompleteManyOut(CompleteOne(q, dir, cs[0], env), dir, cs[1..], env);
    }
  }

  // ------------------------------------------------------------------ submission and cancellation

  /** Everything given back, or queued for it, was accepted. */
  lemma GivenAccepted(q: Tq)
    requires TransferSafety.Inv(q)
    ensures forall g :: g in q.book.giveback || g in q.desk.given ==> g.id in q.desk.accepted
  {
    var gb, gv := TransferSafety.Ids(q.book.giveback), TransferSafety.Ids(q.desk.given);
    hide Wf, TransferSafety.Credited, TransferSafety.OneKind, TransferSafety.CancelOk;
    forall g | g in q.book.giveback || g in q.desk.given
      ensures g.id in q.desk.accepted
    {
      if g in q.book.giveback {
        var i :| 0 <= i < |q.book.giveback| && q.book.giveback[i] == g;
        assert gb[i] in multiset(gb);
      } else {
        var i :| 0 <= i < |q.desk.given| && q.desk.given[i] == g;
        assert gv[i] in multiset(gv);
      }
      assert TransferSafety.Places(q.book, q.desk)[g.id] == multiset(q.desk.accepted)[g.id];
    }
  }

  lemma LinkedBook(b: Book, w: Wire, requests: map<nat, Urb>, id: nat, u: Urb)
    requires BookWf(b) && WireWf(w, b.list) && UrbsOut(b, w, {}) && Kept(b, requests) && Flight(b, w)
    requires id !in b.list && OutUrb(u, [])
    ensures var b', w' := b.(urbs := b.urbs[id := u], list := b.list + [id]), w.(moved := w.moved[id := []]);
            BookWf(b') && WireWf(w', b'.list) ==> UrbsOut(b', w', {}) && Kept(b', requests[id := u]) && Flight(b', w')
  {
    hide OutUrb, Covers, Sound;
    var l, l' := b.list, b.list + [id];
    assert forall x :: x in l' <==> x in l || x == id;
    assert l != [] ==> l'[0] == l[0] && l[0] in l;
  }

  /** A new request leaves what was given back before it as it was. */
  lemma LinkedExact(w: Wire, requests: map<nat, Urb>, gs: seq<Giveback>, id: nat, u: Urb)
    requires Exact(w, requests, gs) && forall g :: g in gs ==> g.id != id
    ensures Exact(w.(moved := w.moved[id := []]), requests[id := u], gs)
  {
    hide MovedTo;
  }

  lemma LinkOut(q: Tq, id: nat, u: Urb)
    requires OutInv(q) && id !in q.book.list && id !in q.desk.accepted && New(u) && !u.control && u.dir == Out && BufferOk(u)
    ensures OutInv(Link(q, id, u).(desk := q.desk.(accepted := q.desk.accepted + {id})))
  {
    assert OutUrb(u, []);
    TransferSafety.LinkInv(q, id, u);
    GivenAccepted(q);
    hide TransferSafety.Inv, UrbsOut, Kept, Flight, OutUrb, BufferOk, New;
    LinkedBook(q.book, q.wire, q.requests, id, u);
    LinkedExact(q.wire, q.requests, q.book.giveback, id, u);
    LinkedExact(q.wire, q.requests, q.desk.given, id, u);
    LinkWf(q, id, u);
    hide Exact, BookWf, WireWf;
  }

  lemma CreateOut(q: Tq, id: nat, u: Urb, linked: bool, env: Env)
    requires OutInv(q) && id !in q.book.list && id !in q.desk.accepted && New(u) && !u.control && u.dir == Out && BufferOk(u)
    ensures OutInv(Create(q, id, u, linked, env))
  {
    assert Wf(q);
    EvqOut(q, q.evq, q.flags, q.tick + 1);
    LinkOut(q, id, u);
    LinkWf(q, id, u);
    var q1 := Link(q, id, u).(desk := q.desk.(accepted := q.desk.accepted + {id}));
    assert id in q1.book.list && q1.book.urbs[id] == u && q1.book.remaining == q.book.remaining;
    var flags := q.flags.(resetQueued := q.flags.resetQueued || q.flags.stalled);
    EvqOut(q1, q1.evq, flags, q1.tick);
    hide OutInv, DeliverPending, TransferQueues.Start, Link, Wf;
    if linked {
      if !q.flags.active {
        DeliverPendingOut(q1.(flags := flags), env);
      } else if q.book.remaining == 0 {
        DeliverPendingOut(q1, env);
      } else if Begin(u, env(q.tick)).status == 0 {
        StartWf(q1, id, env);
        StartOut(q1, id, env);
        DeliverPendingOut(TransferQueues.Start(q1, id, env), env);
      }
    }
  }

  lemma CancelledBook(b: Book, w: Wire, requests: map<nat, Urb>, id: nat, v: Urb)
    requires BookWf(b) && WireWf(w, b.list) && UrbsOut(b, w, {}) && Kept(b, requests) && Flight(b, w)
    requires id in b.list && SameRequest(b.urbs[id], v) && OutUrb(v, w.moved[id]) && Sound(v)
    requires v.state == Cancelled && v.cancelWasActive == (b.urbs[id].state != InitPending) && b.urbs[id].state != Cancelled
    ensures var b' := b.(urbs := b.urbs[id := v]);
            BookWf(b') && UrbsOut(b', w, {}) && Kept(b', requests) && Flight(b', w)
  {
    hide OutUrb, Covers, Sound;
  }

  lemma CancelledUrb(u: Urb, v: Urb, bytes: seq<nat>, status: int)
    requires OutUrb(u, bytes) && Sound(u) && status != 0
    requires v == u.(state := Cancelled, cancelStatus := status, cancelWasActive := u.state != InitPending)
    ensures OutUrb(v, bytes) && Sound(v) && SameRequest(u, v)
  {
    SameBytes(u, v);
  }

  lemma RequestCancelOut(q: Tq, id: nat, status: int)
    requires OutInv(q) && status != 0
    ensures OutInv(RequestCancel(q, id, status))
  {
    TransferSafety.RequestCancelInv(q, id, status);
    if id in q.book.list && q.book.urbs[id].state != Cancelled {
      var u := q.book.urbs[id];
      assert OutUrb(u, q.wire.moved[id]) && Sound(u);
      hide TransferSafety.Inv, OutUrb, Sound, UrbsOut, Kept, Flight, Exact, SameRequest;
      var v := u.(state := Cancelled, cancelStatus := status, cancelWasActive := u.state != InitPending);
      CancelledUrb(u, v, q.wire.moved[id], status);
      CancelledBook(q.book, q.wire, q.requests, id, v);
    }
  }

  lemma UnlinkedBook(b: Book, w: Wire, requests: map<nat, Urb>, id: nat, remaining: nat)
    requires BookWf(b) && WireWf(w, b.list) && UrbsOut(b, w, {}) && Kept(b, requests) && Flight(b, w)
    requires id in b.list && (w.toDevice == [] || w.toDevice[0].owner != id)
    ensures var b' := b.(list := Without(b.list, id), remaining := remaining);
            BookWf(b') && WireWf(w, b'.list) && UrbsOut(b', w, {}) && Kept(b', requests) && Flight(b', w)
  {
    hide OutUrb, Covers, Sound, SameRequest;
    WithoutMembers(b.list, id);
  }

  /** The worker unlinks a request that nothing in flight belongs to. */
  lemma WorkerUnlinkOut(q: Tq)
    requires OutInv(q) && q.desk.worker.Popped? && q.desk.worker.id in q.book.urbs
    requires q.wire.toDevice == [] || q.wire.toDevice[0].owner != q.desk.worker.id
    ensures OutInv(WorkerUnlink(q))
  {
    var id := q.desk.worker.id;
    assert id in q.book.list && q.book.urbs[id].state == Cancelled;
    assert OutUrb(q.book.urbs[id], q.wire.moved[id]);
    assert q.book.urbs[id].cancelStatus != 0;
    TransferSafety.WorkerUnlinkInv(q);
    hide TransferSafety.Inv, UrbsOut, Kept, Flight, Exact, OutUrb;
    UnlinkedBook(q.book, q.wire, q.requests, id, WorkerUnlink(q).book.remaining);
  }

  lemma ExactConcat(w: Wire, requests: map<nat, Urb>, a: seq<Giveback>, b: seq<Giveback>)
    requires Exact(w, requests, a) && Exact(w, requests, b)
    ensures Exact(w, requests, a + b) && Exact(w, requests, [])
  {
    hide MovedTo;
  }

  lemma DrainOut(q: Tq)
    requires OutInv(q)
    ensures OutInv(DrainGiveback(q))
  {
    TransferSafety.DrainInv(q);
    ExactConcat(q.wire, q.requests, q.desk.given, q.book.giveback);
    hide TransferSafety.Inv, OutUrb, Covers, Exact;
  }

  lemma WorkerGiveOut(q: Tq)
    requires OutInv(q) && q.desk.worker.Unlinked?
    ensures OutInv(WorkerGive(q))
  {
    TransferSafety.WorkerGiveInv(q);
    var g := Giveback(q.desk.worker.id, q.desk.worker.status);
    assert Exact(q.wire, q.requests, [g]);
    ExactConcat(q.wire, q.requests, q.desk.given, [g]);
    hide TransferSafety.Inv, UrbsOut, Kept, Flight, Exact;
  }

  lemma WorkerPopOut(q: Tq)
    requires OutInv(q) && q.desk.worker == Resting && q.desk.cancel != []
    ensures OutInv(WorkerPop(q))
  {
    TransferSafety.WorkerPopInv(q);
    hide TransferSafety.Inv, UrbsOut, Kept, Flight, Exact;
  }

  /** The oldest request waits for the completion of a submission that is in flight. */
  predicate Live(q: Tq)
    requires forall id :: id in q.book.list ==> id in q.book.urbs
  {
    q.wire.toDevice != [] && q.book.list != [] && q.book.urbs[q.book.list[0]].state == WaitCompletion
  }

  lemma ResumeOneOut(q: Tq, id: nat, env: Env)
    requires OutInv(q) && id in q.book.list && !Live(q)
    ensures OutInv(ResumeOne(q, id, env)) && !Live(ResumeOne(q, id, env))
  {
    if q.book.urbs[id].state == InitPending {
      StartNotLive(q, id, env);
      hide OutInv, TransferQueues.Start, Live;
      StartOut(q, id, env);
    } else {
      hide OutInv, Settle, Resume, Live;
      ReArmOut(q, id, env);
    }
  }

  lemma StartNotLive(q: Tq, id: nat, env: Env)
    requires OutInv(q) && id in q.book.list && !Live(q) && q.book.urbs[id].state == InitPending
    ensures Wf(q) && Wf(TransferQueues.Start(q, id, env)) && !Live(TransferQueues.Start(q, id, env))
  {
    var u, g := q.book.urbs[id], env(q.tick);
    assert Sound(u) && OutUrb(u, q.wire.moved[id]);
    StartWf(q, id, env);
    BeginStep(u, q.wire.moved[id], g);
    assert q.wire.toDevice != [] ==> q.book.list[0] != id;
    hide Begin, OutUrb, Sound, Covers, OutInv;
  }

  /** A request in flight goes back to waiting, unless its submission is live. */
  lemma ReArmOut(q: Tq, id: nat, env: Env)
    requires OutInv(q) && Wf(q) && id in q.book.list && !Live(q) && q.book.urbs[id].state != InitPending
    ensures var r := Settle(q, id, Resume(q.book.urbs[id], env(q.tick))); OutInv(r) && Wf(r) && !Live(r)
  {
    var u, g := q.book.urbs[id], env(q.tick);
    assert Sound(u) && !u.control && OutUrb(u, q.wire.moved[id]);
    ResumeStep(u, q.wire.moved[id], g);
    assert q.wire.toDevice != [] && id == q.book.list[0] ==> u.state == Cancelled && Resume(u, g) == Outcome(u, None, Fine);
    assert Stays(Resume(u, g).verdict) && Resume(u, g).post == None;
    TransferSafety.ResumeTame(u, g);
    ResumeSound(u, g);
    hide Resume, OutUrb, OutStep, Sound, TransferSafety.Inv, TransferSafety.Tame;
    SettleOut(q, id, Resume(u, g));
    SettleWf(q, id, Resume(u, g));
  }

  lemma {:induction false} ResumeUrbsOut(q: Tq, ids: seq<nat>, env: Env)
    requires OutInv(q) && !Live(q) && Distinct(ids) && forall id :: id in ids ==> id in q.book.list
    ensures OutInv(ResumeUrbs(q, ids, env))
    decreases |ids|
  {
    assert Wf(q);
    hide OutInv, ResumeOne, WireWf, Sound, SameEndpoint, Live;
    if ids != [] && (q.book.urbs[ids[0]].state != InitPending || q.book.remaining > 0) {
      ResumeOneWf(q, ids[0], env);
      ResumeOneOut(q, ids[0], env);
      var q1 := ResumeOne(q, ids[0], env);
      TransferSafety.RestOfWalk(ids, q.book.list, q1.book.list);
      hide Distinct, BookWf;
      ResumeUrbsOut(q1, ids[1..], env);
    }
  }

  lemma DoResumeOut(q: Tq, env: Env)
    requires OutInv(q) && !Live(q)
    ensures OutInv(DoResume(q, env))
  {
    var a := Activate(q);
    EvqOut(q, q.evq, a.flags, q.tick);
    assert Wf(a) && !Live(a);
    hide OutInv, ResumeUrbs, DeliverPending, Activate, Live;
    ResumeUrbsOut(a, q.book.list, env);
    DeliverPendingOut(ResumeUrbs(a, q.book.list, env), env);
  }

  // ------------------------------------------------------------------ runs

  /**
   An OUT endpoint is not reopened over a live submission, and the worker does not
   unlink the request a submission in flight belongs to. The driver counts the
   submissions in flight, and both follow from a count of zero.
   */
  ghost predicate Calm(q: Tq, step: Step)
    requires Wf(q)
  {
    match step
    case Submit(_, u, _) => u.dir == Out && BufferOk(u)
    case CancelUnlink => q.desk.worker.Popped? ==> forall p :: p in q.wire.toDevice ==> p.owner != q.desk.worker.id
    case Reopen => !Live(q)
    case _ => true
  }

  ghost predicate OutRuns(q: Tq, steps: seq<Step>, env: Env, r: Tq)
    decreases |steps|
  {
    if steps == [] then q == r
    else Wf(q) && Enabled(q, steps[0]) && Calm(q, steps[0]) && OutRuns(Next(q, steps[0], env), steps[1..], env, r)
  }

  lemma DeskOut(q: Tq, step: Step, env: Env)
    requires OutInv(q) && Wf(q) && Enabled(q, step) && Calm(q, step) && TransferSafety.IsDesk(step)
    ensures OutInv(Next(q, step, env))
  {
    hide OutInv, Wf, Create, Event, Completions, DeliverPending, DoResume, New, BufferOk, Live;
    hide RequestCancel, WorkerPop, WorkerUnlink, WorkerGive, DrainGiveback;
    match step
    case CancelRequest(id, status) => RequestCancelOut(q, id, status);
    case CancelPop => WorkerPopOut(q);
    case CancelUnlink => WorkerUnlinkOut(q);
    case CancelGive => WorkerGiveOut(q);
    case HandBack => DrainOut(q);
  }

  lemma FlagOut(q: Tq, step: Step, env: Env)
    requires OutInv(q) && Wf(q) && Enabled(q, step) && TransferSafety.IsFlag(step)
    ensures OutInv(Next(q, step, env))
  {
    hide OutInv, Wf;
    var r := Next(q, step, env);
    assert r == q.(evq := r.evq, flags := r.flags, tick := q.tick);
    EvqOut(q, r.evq, r.flags, q.tick);
  }

  lemma SubmitOut(q: Tq, step: Step, env: Env)
    requires OutInv(q) && Wf(q) && !q.control && Enabled(q, step) && Calm(q, step) && step.Submit?
    ensures OutInv(Next(q, step, env))
  {
    hide OutInv, Wf, New, Create, BufferOk;
    CreateOut(q, step.id, step.urb, step.linked, env);
  }

  lemma FinishedOut(q: Tq, step: Step, env: Env)
    requires OutInv(q) && Wf(q) && Enabled(q, step) && step.Finished?
    ensures OutInv(Next(q, step, env))
  {
    hide OutInv, Wf, CompleteMany, DeliverPending;
    CompleteManyOut(q, step.dir, step.cs, env);
    DeliverPendingOut(CompleteMany(q, step.dir, step.cs, env), env);
  }

  lemma ReopenOut(q: Tq, env: Env)
    requires OutInv(q) && Wf(q) && Calm(q, Reopen)
    ensures OutInv(Next(q, Reopen, env))
  {
    hide OutInv, Wf, DoResume, Live;
    DoResumeOut(q, env);
  }

  lemma PauseFailedOut(q: Tq, env: Env)
    requires OutInv(q) && Wf(q)
    ensures OutInv(Next(q, PauseFailed, env))
  {
    hide OutInv, DeliverPending;
    var a := Activate(q);
    EvqOut(q, q.evq, a.flags, q.tick);
    assert a == q.(evq := q.evq, flags := a.flags, tick := q.tick) && Wf(a);
    hide Wf;
    DeliverPendingOut(a, env);
  }

  lemma IncomingOut(q: Tq, step: Step, env: Env)
    requires OutInv(q) && Wf(q) && Enabled(q, step) && step.Incoming?
    ensures OutInv(Next(q, step, env))
  {
    hide OutInv, Wf, Event;
    EventOut(q, step.m, env);
  }

  lemma NextOut(q: Tq, step: Step, env: Env)
    requires OutInv(q) && Enabled(q, step) && Calm(q, step) && !q.control
    ensures OutInv(Next(q, step, env)) && SameEndpoint(q, Next(q, step, env))
  {
    assert Wf(q) && TransferSafety.Inv(q);
    assert !TransferSafety.Struck(q, step, env);
    hide TransferSafety.Inv, TransferSafety.Struck, OutInv, Wf, Next, Enabled, Calm, SameEndpoint;
    TransferSafety.NextInv(q, step, env);
    match step
    case Submit(_, _, _) => SubmitOut(q, step, env);
    case Incoming(_) => IncomingOut(q, step, env);
    case Finished(_, _) => FinishedOut(q, step, env);
    case PauseFailed => PauseFailedOut(q, env);
    case Reopen => ReopenOut(q, env);
    case CancelRequest(_, _) => DeskOut(q, step, env);
    case CancelPop => DeskOut(q, step, env);
    case CancelUnlink => DeskOut(q, step, env);
    case CancelGive => DeskOut(q, step, env);
    case HandBack => DeskOut(q, step, env);
    case _ => FlagOut(q, step, env);
  }

  lemma {:induction false} RunOut(q: Tq, steps: seq<Step>, env: Env, r: Tq)
    requires OutInv(q) && !q.control && OutRuns(q, steps, env, r)
    ensures OutInv(r)
    decreases |steps|
  {
    hide OutInv, Next, Calm;
    if steps != [] {
      NextOut(q, steps[0], env);
      RunOut(Next(q, steps[0], env), steps[1..], env, r);
    }
  }

  /**
   Over every such run, with any windows, pauses, completions and cancellations,
   a request given back with status 0 had moved exactly the first `length` bytes
   of its buffer: each one once, in order, none skipped.
   */
  lemma OutExact(maxActive: nat, steps: seq<Step>, env: Env, r: Tq, g: Giveback)
    requires OutRuns(Fresh(false, maxActive), steps, env, r)
    requires g in r.desk.given && g.status == 0
    ensures g.id in r.requests && g.id in r.wire.moved
    ensures var u := r.requests[g.id];
            u.length <= |BufferBytes(u)| && r.wire.moved[g.id] == BufferBytes(u)[..u.length]
  {
    TransferSafety.FreshInv(false, maxActive);
    RunOut(Fresh(false, maxActive), steps, env, r);
  }

  /** For a scatterlist request these are the DMA bytes of the scatterlist itself. */
  lemma OutExactScatter(maxActive: nat, steps: seq<Step>, env: Env, r: Tq, g: Giveback, sgl: seq<Segment>)
    requires OutRuns(Fresh(false, maxActive), steps, env, r)
    requires g in r.desk.given && g.status == 0
    requires g.id in r.requests && r.requests[g.id].buffer.Scatter? && Represents(r.requests[g.id].buffer.list, sgl)
    requires forall i :: 0 <= i < |sgl| ==> 0 < sgl[i].len
    ensures r.requests[g.id].length <= |Flat(sgl)| && g.id in r.wire.moved
    ensures r.wire.moved[g.id] == Flat(sgl)[..r.requests[g.id].length]
  {
    hide OutRuns, Represents, Flat, ListBytes;
    OutExact(maxActive, steps, env, r, g);
    RepresentsFlat(r.requests[g.id].buffer.list, sgl);
  }
}
