/**
 The transfer queue of one USB endpoint: linked requests, deferred firmware
 messages, request credits, cancellation, and what is in flight on its rings.

 Each function is one section the driver runs under the queue's lock. `Env`
 answers the reservations and allocations those sections attempt, in order.
 */
module TransferQueues {
  import opened Prelude
  import opened SegmentLists
  import opened Urbs

  datatype Giveback = Giveback(id: nat, status: int)

  /** Linked requests, oldest first, with their records, credits, and the requests queued for giveback. */
  datatype Book = Book(urbs: map<nat, Urb>, list: seq<nat>, remaining: nat, giveback: seq<Giveback>)

  /** The cancel worker: at rest, holding a request it took off the cancel list, or about to give one back. */
  datatype Worker = Resting | Popped(id: nat) | Unlinked(id: nat, status: int)

  /** Cancellation, and on record: every request handed back to usbcore and every request ever accepted. */
  datatype Desk = Desk(cancel: seq<nat>, worker: Worker, given: seq<Giveback>, accepted: set<nat>)

  datatype Posted = Posted(owner: nat, sub: Submission)

  /** Submissions not yet completed on each ring, and on record: the DMA bytes completed for each request. */
  datatype Wire = Wire(toDevice: seq<Posted>, fromDevice: seq<Posted>, moved: map<nat, seq<nat>>)

  datatype Flags = Flags(active: bool, stalled: bool, pausedBy: set<PauseSource>, resetQueued: bool)

  datatype Tq = Tq(
    control: bool,
    maxActive: nat,
    book: Book,
    desk: Desk,
    wire: Wire,
    evq: seq<Message>,
    flags: Flags,
    tick: nat,                // attempts made so far
    requests: map<nat, Urb>)  // on record: every request as it was submitted

  type Env = nat -> Grants

  ghost predicate Distinct(s: seq<nat>) {
    forall i, j :: 0 <= i < j < |s| ==> s[i] != s[j]
  }

  ghost predicate BookWf(b: Book) {
    && Distinct(b.list)
    && forall id :: id in b.list ==> id in b.urbs && Sound(b.urbs[id])
  }

  ghost predicate WireWf(w: Wire, list: seq<nat>) {
    && (forall id :: id in list ==> id in w.moved)
    && (forall p :: p in w.toDevice ==> p.owner in w.moved)
    && (forall p :: p in w.fromDevice ==> p.owner in w.moved)
  }

  ghost predicate Wf(q: Tq) {
    BookWf(q.book) && WireWf(q.wire, q.book.list)
  }

  predicate SameEndpoint(q: Tq, r: Tq) {
    r.control == q.control && r.maxActive == q.maxActive
  }

  /** Removes the first occurrence. */
  function Without(s: seq<nat>, id: nat): seq<nat> {
    if s == [] then []
    else if s[0] == id then s[1..]
    else [s[0]] + Without(s[1..], id)
  }

  lemma {:induction false} WithoutMembers(s: seq<nat>, id: nat)
    requires Distinct(s)
    ensures Distinct(Without(s, id))
    ensures forall x :: x in Without(s, id) <==> x in s && x != id
  {
    if s != [] {
      assert s == [s[0]] + s[1..];
      if s[0] != id {
        WithoutMembers(s[1..], id);
        assert s[0] !in s[1..];
      }
    }
  }

  lemma {:induction false} WithoutCount(s: seq<nat>, id: nat)
    ensures multiset(Without(s, id)) == multiset(s) - multiset{id}
  {
    if s != [] {
      assert s == [s[0]] + s[1..];
      if s[0] != id {
        WithoutCount(s[1..], id);
      }
    }
  }

  // ------------------------------------------------------------------ one request

  function Hand(w: Wire, id: nat, post: Option<Post>): Wire {
    if post.None? then w
    else if post.value.ToDevice? then w.(toDevice := w.toDevice + [Posted(id, post.value.sub)])
    else w.(fromDevice := w.fromDevice + [Posted(id, post.value.sub)])
  }

  /** Unlinks a finished request, returns its credit, and queues it for giveback. */
  function Complete(b: Book, id: nat, status: int): Book
    requires id in b.urbs
  {
    b.(list := Without(b.list, id),
       giveback := b.giveback + [Giveback(id, status)],
       remaining := b.remaining + if b.urbs[id].state != InitPending then 1 else 0)
  }

  /** The book after an event on a linked request. */
  function Enter(b: Book, id: nat, o: Outcome): Book {
    var b1 := b.(urbs := b.urbs[id := o.urb]);
    if Stays(o.verdict) then b1 else Complete(b1, id, o.verdict.status)
  }

  function Mark(f: Flags, v: Verdict, more: bool): Flags {
    if v.Halt? then f.(active := false, stalled := true, resetQueued := f.resetQueued || v.rule == Always || more)
    else f
  }

  /** Applies what an event did to a linked request. */
  function Settle(q: Tq, id: nat, o: Outcome): Tq {
    var b := Enter(q.book, id, o);
    q.(book := b, wire := Hand(q.wire, id, o.post), flags := Mark(q.flags, o.verdict, b.list != []), tick := q.tick + 1)
  }

  lemma EnterWf(b: Book, id: nat, o: Outcome)
    requires BookWf(b) && id in b.list
    requires Stays(o.verdict) ==> Sound(o.urb)
    ensures BookWf(Enter(b, id, o))
    ensures forall x :: x in Enter(b, id, o).list <==> x in b.list && (x != id || Stays(o.verdict))
  {
    hide Sound;
    WithoutMembers(b.list, id);
  }

  lemma HandWf(w: Wire, list: seq<nat>, id: nat, post: Option<Post>, list': seq<nat>)
    requires WireWf(w, list) && id in list && forall x :: x in list' ==> x in list
    ensures WireWf(Hand(w, id, post), list')
  {
  }

  lemma SettleWf(q: Tq, id: nat, o: Outcome)
    requires Wf(q) && id in q.book.list
    requires Stays(o.verdict) ==> Sound(o.urb)
    ensures Wf(Settle(q, id, o))
    ensures forall x :: x in Settle(q, id, o).book.list <==> x in q.book.list && (x != id || Stays(o.verdict))
  {
    hide BookWf, WireWf, Enter, Hand;
    EnterWf(q.book, id, o);
    HandWf(q.wire, q.book.list, id, o.post, Enter(q.book, id, o).list);
  }

  /** Starts a request that waits for a credit; it keeps waiting when the start fails. */
  function Start(q: Tq, id: nat, env: Env): Tq
    requires Wf(q) && id in q.book.list
  {
    if q.book.remaining == 0 then q
    else
      var a := Begin(q.book.urbs[id], env(q.tick));
      var b1 := q.book.(urbs := q.book.urbs[id := a.urb]);
      if a.status != 0 then q.(book := b1, tick := q.tick + 1)
      else q.(book := b1.(remaining := b1.remaining - 1), wire := Hand(q.wire, id, a.post), tick := q.tick + 1)
  }

  /** A failed start leaves the request as it was, up to the end of its window. */
  lemma BeginFails(u: Urb, g: Grants)
    requires Sane(u) && Begin(u, g).status != 0
    ensures !u.control && u.dir == In && Begin(u, g).post == None
    ensures Begin(u, g).urb == u || Begin(u, g).urb == u.(requestEnd := u.length)
  {
    hide NextRange;
  }

  lemma StartWf(q: Tq, id: nat, env: Env)
    requires Wf(q) && id in q.book.list && q.book.urbs[id].state == InitPending
    ensures Wf(Start(q, id, env)) && Start(q, id, env).book.list == q.book.list
  {
    var u, g := q.book.urbs[id], env(q.tick);
    assert Sound(u) && Sound(u.(requestEnd := u.length));
    BeginSound(u, g);
    if Begin(u, g).status != 0 {
      BeginFails(u, g);
    }
    hide Begin, WireWf, Hand, Sound;
    HandWf(q.wire, q.book.list, id, Begin(u, g).post, q.book.list);
  }

  // ------------------------------------------------------------------ list walks

  /** Starts waiting requests in list order while credits last. */
  function InitPendingUrbs(q: Tq, ids: seq<nat>, env: Env): (r: Tq)
    requires Wf(q) && forall id :: id in ids ==> id in q.book.list
    ensures Wf(r) && SameEndpoint(q, r) && r.book.list == q.book.list
    decreases |ids|
  {
    if ids == [] || q.book.remaining == 0 then q
    else if q.book.urbs[ids[0]].state == InitPending then
      StartWf(q, ids[0], env);
      InitPendingUrbs(Start(q, ids[0], env), ids[1..], env)
    else InitPendingUrbs(q, ids[1..], env)
  }

  /** Offers a firmware message to the oldest request. */
  function UpdateHead(q: Tq, m: Message, env: Env): Outcome
    requires Wf(q) && q.book.list != []
  {
    Update(q.book.urbs[q.book.list[0]], m, env(q.tick))
  }

  lemma UpdateHeadWf(q: Tq, m: Message, env: Env)
    requires Wf(q) && q.book.list != []
    ensures Wf(Settle(q, q.book.list[0], UpdateHead(q, m, env)))
  {
    hide Update, Settle, WireWf;
    UpdateSound(q.book.urbs[q.book.list[0]], m, env(q.tick));
    SettleWf(q, q.book.list[0], UpdateHead(q, m, env));
  }

  /** Delivers deferred messages until one must keep waiting. */
  function Deliver(q: Tq, env: Env): (r: Tq)
    requires Wf(q)
    ensures Wf(r) && SameEndpoint(q, r)
    decreases |q.evq|
  {
    if q.book.list == [] || q.evq == [] then q
    else
      var o := UpdateHead(q, q.evq[0], env);
      UpdateHeadWf(q, q.evq[0], env);
      var q1 := Settle(q, q.book.list[0], o);
      if o.verdict == Again then q1 else Deliver(q1.(evq := q.evq[1..]), env)
  }

  function DeliverPending(q: Tq, env: Env): (r: Tq)
    requires Wf(q)
    ensures Wf(r) && SameEndpoint(q, r)
  {
    var q1 := Deliver(q, env);
    InitPendingUrbs(q1, q1.book.list, env)
  }

  // ------------------------------------------------------------------ entry points

  /** Keeps a message for later; the allocation may fail. */
  function Defer(q: Tq, m: Message, env: Env): Tq {
    q.(evq := if env(q.tick).memory then q.evq + [m] else q.evq, tick := q.tick + 1)
  }

  function Event(q: Tq, m: Message, env: Env): (r: Tq)
    requires Wf(q)
    ensures Wf(r) && SameEndpoint(q, r)
  {
    if !q.flags.active then
      var keep := Suspend in q.flags.pausedBy || (q.control && InternalWork in q.flags.pausedBy);
      if m.cmd == CMD_TRANSFER_REQUEST && keep then Defer(q, m, env) else q
    else
      var q1 := DeliverPending(q, env);
      if m.cmd == CMD_TRANSFER_REQUEST && (q1.evq != [] || q1.book.list == []) then Defer(q1, m, env)
      else if q1.book.list == [] then q1
      else
        var o := UpdateHead(q1, m, env);
        UpdateHeadWf(q1, m, env);
        var q2 := Settle(q1, q1.book.list[0], o);
        if o.verdict == Again then Defer(q2, m, env) else InitPendingUrbs(q2, q2.book.list, env)
  }

  /** Which ring a completion comes from. */
  function InFlight(w: Wire, dir: Direction): seq<Posted> {
    if dir == Out then w.toDevice else w.fromDevice
  }

  /** The device finishes the oldest submission of a ring: it leaves the ring, and its bytes are on record. */
  function Retire(w: Wire, dir: Direction, c: Completed): Wire
    requires InFlight(w, dir) != [] && InFlight(w, dir)[0].owner in w.moved
  {
    var p := InFlight(w, dir)[0];
    var bytes := SubmissionBytes(p.sub);
    var moved := if c.status == COMPLETED_ABORTED then w.moved
                 else w.moved[p.owner := w.moved[p.owner] + bytes[..Min(c.dataSize, |bytes|)]];
    if dir == Out then w.(toDevice := w.toDevice[1..], moved := moved)
    else w.(fromDevice := w.fromDevice[1..], moved := moved)
  }

  lemma RetireWf(w: Wire, list: seq<nat>, dir: Direction, c: Completed)
    requires WireWf(w, list) && InFlight(w, dir) != []
    ensures InFlight(w, dir)[0].owner in w.moved
    ensures WireWf(Retire(w, dir, c), list)
  {
  }

  /** One completion: aborted ones only release their slot, others go to the oldest request. */
  function CompleteOne(q: Tq, dir: Direction, c: Completed, env: Env): (r: Tq)
    requires Wf(q) && InFlight(q.wire, dir) != []
    ensures Wf(r) && SameEndpoint(q, r)
  {
    RetireWf(q.wire, q.book.list, dir, c);
    var q1 := q.(wire := Retire(q.wire, dir, c));
    if c.status == COMPLETED_ABORTED || q1.book.list == [] then q1
    else
      var id := q1.book.list[0];
      var o := TransferDone(q1.book.urbs[id], c, env(q1.tick));
      TransferDoneSound(q1.book.urbs[id], c, env(q1.tick));
      SettleWf(q1, id, o);
      Settle(q1, id, o)
  }

  /** The completions of one ring, in order. */
  function CompleteMany(q: Tq, dir: Direction, cs: seq<Completed>, env: Env): (r: Tq)
    requires Wf(q)
    ensures Wf(r) && SameEndpoint(q, r)
    decreases |cs|
  {
    if cs == [] || InFlight(q.wire, dir) == [] then q
    else CompleteMany(CompleteOne(q, dir, cs[0], env), dir, cs[1..], env)
  }

  function Completions(q: Tq, dir: Direction, cs: seq<Completed>, env: Env): (r: Tq)
    requires Wf(q)
    ensures Wf(r) && SameEndpoint(q, r)
  {
    DeliverPending(CompleteMany(q, dir, cs, env), env)
  }

  /** A request as usbcore hands it over. */
  predicate New(u: Urb) {
    && u.state == InitPending && u.receivedStatus == 0 && !u.short
    && u.receiveOffset == u.requestEnd == u.submitted == 0
  }

  function Link(q: Tq, id: nat, u: Urb): Tq {
    q.(book := q.book.(urbs := q.book.urbs[id := u], list := q.book.list + [id]),
       wire := q.wire.(moved := q.wire.moved[id := []]),
       requests := q.requests[id := u])
  }

  lemma LinkWf(q: Tq, id: nat, u: Urb)
    requires Wf(q) && id !in q.book.list && New(u)
    ensures Wf(Link(q, id, u))
  {
    var l, l' := q.book.list, q.book.list + [id];
    assert forall i :: 0 <= i < |l| ==> l[i] in l;
    assert forall x :: x in l' <==> x in l || x == id;
  }

  /** A new request starts at once when it can; otherwise it waits, and a halted endpoint is reset. */
  function Create(q: Tq, id: nat, u: Urb, linked: bool, env: Env): (r: Tq)
    requires Wf(q) && id !in q.book.list && New(u)
    ensures Wf(r) && SameEndpoint(q, r)
  {
    if !linked then q
    else
      LinkWf(q, id, u);
      var q1 := Link(q, id, u).(desk := q.desk.(accepted := q.desk.accepted + {id}));
      if !q.flags.active then
        DeliverPending(q1.(flags := q.flags.(resetQueued := q.flags.resetQueued || q.flags.stalled)), env)
      else if q.book.remaining == 0 then DeliverPending(q1, env)
      else if Begin(u, env(q.tick)).status != 0 then q.(tick := q.tick + 1)
      else
        StartWf(q1, id, env);
        DeliverPending(Start(q1, id, env), env)
  }

  /** What a submission to an inactive endpoint comes down to. */
  lemma CreateInactive(q: Tq, id: nat, u: Urb, env: Env)
    requires Wf(q) && id !in q.book.list && New(u) && !q.flags.active
    ensures var q1 := Link(q, id, u).(desk := q.desk.(accepted := q.desk.accepted + {id}));
            var q2 := q1.(flags := q.flags.(resetQueued := q.flags.resetQueued || q.flags.stalled));
            Wf(q2) && Create(q, id, u, true, env) == DeliverPending(q2, env)
  {
    LinkWf(q, id, u);
    hide DeliverPending, Begin;
  }

  /** And one to an active endpoint. */
  lemma CreateActive(q: Tq, id: nat, u: Urb, env: Env)
    requires Wf(q) && id !in q.book.list && New(u) && q.flags.active
    ensures var q1 := Link(q, id, u).(desk := q.desk.(accepted := q.desk.accepted + {id}));
            var r := Create(q, id, u, true, env);
            && Wf(q1) && id in q1.book.list && q1.book.urbs[id].state == InitPending
            && (q.book.remaining == 0 ==> r == DeliverPending(q1, env))
            && (q.book.remaining > 0 && Begin(u, env(q.tick)).status != 0 ==> r == q.(tick := q.tick + 1))
            && (q.book.remaining > 0 && Begin(u, env(q.tick)).status == 0 ==>
                  Wf(Start(q1, id, env)) && r == DeliverPending(Start(q1, id, env), env))
  {
    LinkWf(q, id, u);
    var q1 := Link(q, id, u).(desk := q.desk.(accepted := q.desk.accepted + {id}));
    assert Wf(q1) && q1.book.urbs[id] == u && id in q1.book.list;
    hide DeliverPending, Begin, Hand;
    StartWf(q1, id, env);
  }

  /** Marks a linked request cancelled and leaves the rest to the worker. */
  function RequestCancel(q: Tq, id: nat, status: int): Tq
    requires Wf(q)
  {
    if id !in q.book.list || q.book.urbs[id].state == Cancelled then q
    else
      var u := q.book.urbs[id];
      var v := u.(state := Cancelled, cancelStatus := status, cancelWasActive := u.state != InitPending);
      q.(book := q.book.(urbs := q.book.urbs[id := v]), desk := q.desk.(cancel := q.desk.cancel + [id]))
  }

  function WorkerPop(q: Tq): Tq
    requires q.desk.worker == Resting && q.desk.cancel != []
  {
    q.(desk := q.desk.(cancel := q.desk.cancel[1..], worker := Popped(q.desk.cancel[0])))
  }

  function WorkerUnlink(q: Tq): Tq
    requires q.desk.worker.Popped? && q.desk.worker.id in q.book.urbs
  {
    var id := q.desk.worker.id;
    var u := q.book.urbs[id];
    q.(book := q.book.(list := Without(q.book.list, id), remaining := q.book.remaining + if u.cancelWasActive then 1 else 0),
       desk := q.desk.(worker := Unlinked(id, u.cancelStatus)))
  }

  function WorkerGive(q: Tq): Tq
    requires q.desk.worker.Unlinked?
  {
    q.(desk := q.desk.(worker := Resting, given := q.desk.given + [Giveback(q.desk.worker.id, q.desk.worker.status)]))
  }

  function DrainGiveback(q: Tq): Tq {
    q.(book := q.book.(giveback := []), desk := q.desk.(given := q.desk.given + q.book.giveback))
  }

  /** One request of the walk: a waiting one is started, a flushed one is set up again. */
  function ResumeOne(q: Tq, id: nat, env: Env): Tq
    requires Wf(q) && id in q.book.list
  {
    if q.book.urbs[id].state == InitPending then Start(q, id, env)
    else Settle(q, id, Resume(q.book.urbs[id], env(q.tick)))
  }

  lemma ResumeOneWf(q: Tq, id: nat, env: Env)
    requires Wf(q) && id in q.book.list
    ensures Wf(ResumeOne(q, id, env)) && SameEndpoint(q, ResumeOne(q, id, env))
    ensures forall x :: x in q.book.list && x != id ==> x in ResumeOne(q, id, env).book.list
  {
    if q.book.urbs[id].state == InitPending {
      StartWf(q, id, env);
    } else {
      ResumeSound(q.book.urbs[id], env(q.tick));
      SettleWf(q, id, Resume(q.book.urbs[id], env(q.tick)));
    }
    hide Resume, WireWf, BookWf, Enter, Hand, Begin;
  }

  /** Walks the requests that were linked when the endpoint became active again. */
  function ResumeUrbs(q: Tq, ids: seq<nat>, env: Env): (r: Tq)
    requires Wf(q) && Distinct(ids) && forall id :: id in ids ==> id in q.book.list
    ensures Wf(r) && SameEndpoint(q, r)
    decreases |ids|
  {
    if ids == [] || (q.book.urbs[ids[0]].state == InitPending && q.book.remaining == 0) then q
    else
      ResumeOneWf(q, ids[0], env);
      assert ids[0] !in ids[1..];
      ResumeUrbs(ResumeOne(q, ids[0], env), ids[1..], env)
  }

  function Activate(q: Tq): Tq {
    q.(flags := q.flags.(active := true))
  }

  function DoResume(q: Tq, env: Env): (r: Tq)
    requires Wf(q)
    ensures Wf(r) && SameEndpoint(q, r)
  {
    DeliverPending(ResumeUrbs(Activate(q), q.book.list, env), env)
  }

  // ------------------------------------------------------------------ runs

  datatype Step =
    | Submit(id: nat, urb: Urb, linked: bool)
    | Incoming(m: Message)
    | Finished(dir: Direction, cs: seq<Completed>)
    | CancelRequest(id: nat, status: int)
    | CancelPop
    | CancelUnlink
    | CancelGive
    | HandBack
    | Pause                                // do_pause begins, or a reset does
    | DropEvents                           // remove_pending
    | Flushed                              // a flush has returned: the rings are empty
    | PauseFailed                          // restore_active
    | Reopen                               // do_resume has been acknowledged
    | Stall                                // firmware reports the endpoint stalled
    | SetPaused(sources: set<PauseSource>)
    | ResetDone

  ghost predicate Enabled(q: Tq, step: Step) {
    match step
    case Submit(id, u, _) => id !in q.desk.accepted && id !in q.book.list && New(u) && u.control == q.control
    case CancelRequest(_, status) => status != 0
    case CancelPop => q.desk.worker == Resting && q.desk.cancel != []
    case CancelUnlink => q.desk.worker.Popped? && q.desk.worker.id in q.book.urbs
    case CancelGive => q.desk.worker.Unlinked?
    case Flushed => q.wire.toDevice == [] && q.wire.fromDevice == []
    case _ => true
  }

  function Next(q: Tq, step: Step, env: Env): Tq
    requires Wf(q) && Enabled(q, step)
  {
    match step
    case Submit(id, u, linked) => Create(q, id, u, linked, env)
    case Incoming(m) => Event(q, m, env)
    case Finished(dir, cs) => Completions(q, dir, cs, env)
    case CancelRequest(id, status) => RequestCancel(q, id, status)
    case CancelPop => WorkerPop(q)
    case CancelUnlink => WorkerUnlink(q)
    case CancelGive => WorkerGive(q)
    case HandBack => DrainGiveback(q)
    case Pause => q.(flags := q.flags.(active := false))
    case DropEvents => q.(evq := [])
    case Flushed => q
    case PauseFailed => DeliverPending(Activate(q), env)
    case Reopen => DoResume(q, env)
    case Stall => q.(flags := q.flags.(active := false, stalled := true, resetQueued := q.flags.resetQueued || q.control))
    case SetPaused(sources) => q.(flags := q.flags.(pausedBy := sources))
    case ResetDone => q.(flags := q.flags.(stalled := false, resetQueued := false))
  }

  function Fresh(control: bool, maxActive: nat): Tq {
    Tq(control, maxActive, Book(map[], [], maxActive, []), Desk([], Resting, [], {}), Wire([], [], map[]), [],
       Flags(true, false, {}, false), 0, map[])
  }

  ghost predicate Runs(q: Tq, steps: seq<Step>, env: Env, r: Tq)
    decreases |steps|
  {
    if steps == [] then q == r
    else Wf(q) && Enabled(q, steps[0]) && Runs(Next(q, steps[0], env), steps[1..], env, r)
  }
}
