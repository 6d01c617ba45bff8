/** The transfer queue as the driver holds it: one object whose fields and lists change in place, section by section. */
module TransferEngine {
  import opened Prelude
  import opened Urbs
  import opened TransferQueues
  import TransferSafety

  class TransferQueue {
    const control: bool
    const maxActive: nat
    var urbs: map<nat, Urb>        // the record behind each linked request
    var urbList: seq<nat>
    var remaining: nat
    var givebackList: seq<Giveback>
    var evq: seq<Message>
    var active: bool
    var stalled: bool
    var resetQueued: bool
    var pausedBy: set<PauseSource>
    var desk: Desk
    var wire: Wire
    var tick: nat
    var requests: map<nat, Urb>

    function View(): Tq
      reads this
    {
      Tq(control, maxActive, Book(urbs, urbList, remaining, givebackList), desk, wire, evq,
         Flags(active, stalled, pausedBy, resetQueued), tick, requests)
    }

    /** On an endpoint other than the control one: credits add up, and every accepted request is in one place. */
    ghost predicate Healthy()
      reads this
    {
      !control && TransferSafety.Inv(View())
    }

    constructor (control: bool, maxActive: nat)
      ensures View() == Fresh(control, maxActive) && (!control ==> Healthy())
    {
      if !control {
        TransferSafety.FreshInv(false, maxActive);
      }
      this.control, this.maxActive := control, maxActive;
      urbs, urbList, remaining, givebackList := map[], [], maxActive, [];
      evq, active, stalled, resetQueued, pausedBy := [], true, false, false, {};
      desk, wire, tick, requests := Desk([], Resting, [], {}), Wire([], [], map[]), 0, map[];
    }

    method CompleteUrb(id: nat, status: int)
      requires id in urbs
      modifies this
      ensures View() == old(View()).(book := Complete(old(View()).book, id, status))
    {
      urbList := Without(urbList, id);
      if urbs[id].state != InitPending {
        remaining := remaining + 1;
      }
      givebackList := givebackList + [Giveback(id, status)];
    }

    /** Carries out what an event decided for a linked request. */
    method Apply(id: nat, o: Outcome)
      modifies this
      ensures View() == Settle(old(View()), id, o)
    {
      hide Hand, Complete, Mark;
      urbs := urbs[id := o.urb];
      wire := Hand(wire, id, o.post);
      tick := tick + 1;
      Conclude(id, o.verdict);
    }

    /** A finished request is completed; a failed one halts the endpoint as well. */
    method Conclude(id: nat, v: Verdict)
      requires id in urbs
      modifies this
      ensures var b := if Stays(v) then old(View()).book else Complete(old(View()).book, id, v.status);
              View() == old(View()).(book := b, flags := Mark(old(View()).flags, v, b.list != []))
    {
      hide Complete;
      if v.Finish? {
        CompleteUrb(id, v.status);
      } else if v.Halt? {
        active, stalled := false, true;
        CompleteUrb(id, v.status);
        if v.rule == Always || urbList != [] {
          resetQueued := true;
        }
      }
    }

    method InitUrb(id: nat, env: Env)
      requires Wf(View()) && id in urbList
      modifies this
      ensures View() == Start(old(View()), id, env)
    {
      if remaining > 0 {
        var a := Begin(urbs[id], env(tick));
        urbs := urbs[id := a.urb];
        tick := tick + 1;
        if a.status == 0 {
          remaining := remaining - 1;
          wire := Hand(wire, id, a.post);
        }
      }
    }

    method InitWaiting(env: Env)
      requires Wf(View())
      modifies this
      ensures View() == InitPendingUrbs(old(View()), old(urbList), env)
    {
      ghost var q := View();
      var ids, i := urbList, 0;
      hide Start, WireWf, Sound;
      while i < |ids| && remaining > 0
        invariant Wf(View()) && urbList == ids && i <= |ids|
        invariant forall x :: x in ids[i..] ==> x in ids
        invariant InitPendingUrbs(q, ids, env) == InitPendingUrbs(View(), ids[i..], env)
        decreases |ids| - i
      {
        assert ids[i..][1..] == ids[i + 1..] && ids[i..][0] == ids[i] && ids[i] in ids;
        InitOn(View(), ids[i..], env);
        if urbs[ids[i]].state == InitPending {
          InitUrb(ids[i], env);
        }
        i := i + 1;
      }
      InitOver(View(), ids[i..], env);
    }

    method DeliverPendingEvents(env: Env)
      requires Wf(View())
      modifies this
      ensures View() == DeliverPending(old(View()), env)
    {
      ghost var q := View();
      var waiting := false;
      while urbList != [] && evq != [] && !waiting
        invariant Wf(View())
        invariant Deliver(q, env) == if waiting then View() else Deliver(View(), env)
        decreases |evq|, !waiting
      {
        var id := urbList[0];
        var o := Update(urbs[id], evq[0], env(tick));
        UpdateHeadWf(View(), evq[0], env);
        Apply(id, o);
        if o.verdict == Again {
          waiting := true;
        } else {
          evq := evq[1..];
        }
      }
      InitWaiting(env);
    }

    method DeferEvent(m: Message, env: Env)
      modifies this
      ensures View() == Defer(old(View()), m, env)
    {
      if env(tick).memory {
        evq := evq + [m];
      }
      tick := tick + 1;
    }

    method HandleEvent(m: Message, env: Env)
      requires Wf(View())
      modifies this
      ensures View() == Event(old(View()), m, env)
      ensures old(Healthy()) ==> Healthy()
    {
      hide TransferSafety.Inv;
      if Healthy() {
        TransferSafety.EventInv(View(), m, env);
      }
      if !active {
        if m.cmd == CMD_TRANSFER_REQUEST && (Suspend in pausedBy || (control && InternalWork in pausedBy)) {
          DeferEvent(m, env);
        }
        return;
      }
      DeliverPendingEvents(env);
      hide DeliverPending, InitPendingUrbs, Settle, Update, Defer;
      if m.cmd == CMD_TRANSFER_REQUEST && (evq != [] || urbList == []) {
        DeferEvent(m, env);
      } else if urbList != [] {
        var id := urbList[0];
        var o := Update(urbs[id], m, env(tick));
        UpdateHeadWf(View(), m, env);
        Apply(id, o);
        if o.verdict == Again {
          DeferEvent(m, env);
        } else {
          InitWaiting(env);
        }
      }
    }

    /** One completion: its slot is released, and unless it was aborted it goes to the oldest request. */
    method HandleCompletion(dir: Direction, c: Completed, env: Env)
      requires Wf(View()) && InFlight(wire, dir) != []
      modifies this
      ensures View() == CompleteOne(old(View()), dir, c, env)
    {
      RetireWf(wire, urbList, dir, c);
      wire := Retire(wire, dir, c);
      if c.status != COMPLETED_ABORTED && urbList != [] {
        hide Retire, TransferDone, Settle;
        var o := TransferDone(urbs[urbList[0]], c, env(tick));
        Apply(urbList[0], o);
      }
    }

    /** The completions `cs` of one ring, until the ring holds no submission they could belong to. */
    method HandleCompletions(dir: Direction, cs: seq<Completed>, env: Env)
      requires Wf(View())
      modifies this
      ensures View() == Completions(old(View()), dir, cs, env)
      ensures old(Healthy()) ==> Healthy()
    {
      hide TransferSafety.Inv;
      if Healthy() {
        TransferSafety.CompleteManyInv(View(), dir, cs, env);
        TransferSafety.DeliverPendingInv(CompleteMany(View(), dir, cs, env), env);
      }
      ghost var q := View();
      var i := 0;
      hide CompleteOne;
      while i < |cs| && InFlight(wire, dir) != []
        invariant i <= |cs| && Wf(View())
        invariant CompleteMany(q, dir, cs, env) == CompleteMany(View(), dir, cs[i..], env)
      {
        var c := cs[i];
        assert cs[i..][0] == c && cs[i..][1..] == cs[i + 1..];
        HandleCompletion(dir, c, env);
        i := i + 1;
      }
      assert CompleteMany(View(), dir, cs[i..], env) == View();
      hide CompleteMany;
      DeliverPendingEvents(env);
    }

    /** Drops the deferred messages one by one. */
    method RemovePending()
      modifies this
      ensures View() == old(View()).(evq := [])
      ensures old(Healthy()) ==> Healthy()
    {
      hide TransferSafety.Inv;
      if Healthy() {
        TransferSafety.FlagsInv(View(), [], View().flags);
      }
      while evq != []
        invariant View() == old(View()).(evq := evq)
        decreases |evq|
      {
        evq := evq[1..];
      }
    }

    /** Hands finished requests to usbcore in the order they finished. */
    method GivebackAll()
      modifies this
      ensures View() == DrainGiveback(old(View()))
      ensures old(Healthy()) ==> Healthy()
    {
      hide TransferSafety.Inv;
      if Healthy() {
        TransferSafety.DrainInv(View());
      }
      while givebackList != []
        invariant View() == old(View()).(book := old(View()).book.(giveback := givebackList), desk := old(desk).(given := desk.given))
        invariant desk.given + givebackList == old(desk).given + old(givebackList)
        decreases |givebackList|
      {
        var g := givebackList[0];
        givebackList := givebackList[1..];
        desk := desk.(given := desk.given + [g]);
      }
    }

    method LinkUrb(id: nat, u: Urb)
      modifies this
      ensures View() == Link(old(View()), id, u).(desk := old(desk).(accepted := old(desk).accepted + {id}))
    {
      urbs, urbList := urbs[id := u], urbList + [id];
      wire := wire.(moved := wire.moved[id := []]);
      requests := requests[id := u];
      desk := desk.(accepted := desk.accepted + {id});
    }

    /** Links a request and starts it if it can be started; a failed start takes the link back. */
    method CreateUrb(id: nat, u: Urb, linkStatus: int, env: Env) returns (status: int)
      requires Wf(View()) && id !in urbList && New(u)
      modifies this
      ensures View() == Create(old(View()), id, u, linkStatus == 0, env)
      ensures status == if linkStatus != 0 then linkStatus
                        else if old(active && remaining > 0) then Begin(u, env(old(tick))).status else 0
      ensures status != 0 ==> urbList == old(urbList) && wire == old(wire)
      ensures old(Healthy()) && id !in old(desk).accepted && !u.control ==> Healthy()
    {
      hide TransferSafety.Inv;
      if Healthy() && id !in desk.accepted && !u.control {
        TransferSafety.CreateInv(View(), id, u, linkStatus == 0, env);
      }
      if linkStatus != 0 {
        return linkStatus;
      }
      ghost var q := View();
      if active && remaining > 0 {
        status := Begin(u, env(tick)).status;
        if status != 0 {
          tick := tick + 1;
          return;
        }
      }
      status := 0;
      LinkWf(q, id, u);
      LinkUrb(id, u);
      ghost var q1 := View();
      hide New, Begin, Link, Start, DeliverPending;
      if active {
        if remaining > 0 {
          StartWf(q1, id, env);
          InitUrb(id, env);
        }
      } else if stalled {
        resetQueued := true;
      }
      DeliverPendingEvents(env);
    }

    method RequestUrbCancel(id: nat, status: int)
      requires Wf(View())
      modifies this
      ensures View() == RequestCancel(old(View()), id, status)
      ensures old(Healthy()) ==> Healthy()
    {
      hide TransferSafety.Inv;
      if Healthy() {
        TransferSafety.RequestCancelInv(View(), id, status);
      }
      if id in urbList && urbs[id].state != Cancelled {
        var u := urbs[id];
        urbs := urbs[id := u.(state := Cancelled, cancelStatus := status, cancelWasActive := u.state != InitPending)];
        desk := desk.(cancel := desk.cancel + [id]);
      }
    }

    /** The worker's first locked section: take the next request off the cancel list, if there is one. */
    method TakeCancelled() returns (taken: bool)
      requires desk.worker == Resting
      modifies this
      ensures taken == (old(desk).cancel != [])
      ensures View() == if taken then WorkerPop(old(View())) else old(View())
      ensures old(Healthy()) ==> Healthy()
    {
      if Healthy() {
        if desk.cancel != [] {
          TransferSafety.WorkerPopInv(View());
        }
      }
      taken := desk.cancel != [];
      if taken {
        desk := desk.(cancel := desk.cancel[1..], worker := Popped(desk.cancel[0]));
      }
    }

    /** Its second: unlink the request and return its credit. */
    method UnlinkCancelled()
      requires desk.worker.Popped? && desk.worker.id in urbs
      modifies this
      ensures View() == WorkerUnlink(old(View()))
      ensures old(Healthy()) ==> Healthy()
    {
      if Healthy() {
        TransferSafety.WorkerUnlinkInv(View());
      }
      var u := urbs[desk.worker.id];
      if u.cancelWasActive {
        remaining := remaining + 1;
      }
      urbList := Without(urbList, desk.worker.id);
      desk := desk.(worker := Unlinked(desk.worker.id, u.cancelStatus));
    }

    /** And, without the lock, give it back. */
    method GiveCancelled()
      requires desk.worker.Unlinked?
      modifies this
      ensures View() == WorkerGive(old(View()))
      ensures old(Healthy()) ==> Healthy()
    {
      if Healthy() {
        TransferSafety.WorkerGiveInv(View());
      }
      desk := desk.(worker := Resting, given := desk.given + [Giveback(desk.worker.id, desk.worker.status)]);
    }

    /** One request of the walk after a pause. */
    method ResumeUrb(id: nat, env: Env)
      requires Wf(View()) && id in urbList
      modifies this
      ensures View() == ResumeOne(old(View()), id, env)
    {
      hide Start, Settle, Resume;
      if urbs[id].state == InitPending {
        InitUrb(id, env);
      } else {
        Apply(id, Resume(urbs[id], env(tick)));
      }
    }

    /** The endpoint is active again: walk the requests linked at that moment, then deliver what waited. */
    method ResumeEndpoint(env: Env)
      requires Wf(View())
      modifies this
      ensures View() == DoResume(old(View()), env)
      ensures old(Healthy()) ==> Healthy()
    {
      hide TransferSafety.Inv;
      if Healthy() {
        TransferSafety.DoResumeInv(View(), env);
      }
      hide ResumeOne;
      active := true;
      ghost var q := View();
      var ids, i := urbList, 0;
      FirstKnown(q, ids);
      hide Remains;
      while i < |ids| && !(urbs[ids[i]].state == InitPending && remaining == 0)
        invariant i <= |ids| && (i < |ids| ==> ids[i] in urbs)
        invariant Remains(View(), ids[i..]) && ResumeUrbs(q, ids, env) == ResumeUrbs(View(), ids[i..], env)
        decreases |ids| - i
      {
        assert ids[i..][0] == ids[i] && ids[i..][1..] == ids[i + 1..];
        WalkOn(View(), ids[i..], env);
        ResumeUrb(ids[i], env);
        i := i + 1;
        FirstKnown(View(), ids[i..]);
      }
      WalkOver(View(), ids[i..], env);
      hide ResumeUrbs;
      DeliverPendingEvents(env);
    }
  }

  lemma InitOn(q: Tq, ids: seq<nat>, env: Env)
    requires Wf(q) && ids != [] && q.book.remaining > 0 && forall x :: x in ids ==> x in q.book.list
    ensures ids[0] in q.book.urbs && forall x :: x in ids[1..] ==> x in ids
    ensures if q.book.urbs[ids[0]].state != InitPending then InitPendingUrbs(q, ids, env) == InitPendingUrbs(q, ids[1..], env)
            else var r := Start(q, ids[0], env);
                 Wf(r) && r.book.list == q.book.list && InitPendingUrbs(q, ids, env) == InitPendingUrbs(r, ids[1..], env)
  {
    hide Start, WireWf, Sound;
    if q.book.urbs[ids[0]].state == InitPending {
      StartWf(q, ids[0], env);
    }
  }

  lemma InitOver(q: Tq, ids: seq<nat>, env: Env)
    requires Wf(q) && (forall x :: x in ids ==> x in q.book.list) && (ids == [] || q.book.remaining == 0)
    ensures InitPendingUrbs(q, ids, env) == q
  {
  }

  /** Requests of a walk that are still to come. */
  ghost predicate Remains(q: Tq, ids: seq<nat>) {
    Wf(q) && Distinct(ids) && forall id :: id in ids ==> id in q.book.list
  }

  lemma FirstKnown(q: Tq, ids: seq<nat>)
    requires Remains(q, ids)
    ensures ids != [] ==> ids[0] in q.book.urbs && ids[0] in q.book.list
  {
  }

  lemma WalkOn(q: Tq, ids: seq<nat>, env: Env)
    requires Remains(q, ids) && ids != []
    requires ids[0] in q.book.urbs && !(q.book.urbs[ids[0]].state == InitPending && q.book.remaining == 0)
    ensures Wf(q) && ids[0] in q.book.list && Remains(ResumeOne(q, ids[0], env), ids[1..])
    ensures ResumeUrbs(q, ids, env) == ResumeUrbs(ResumeOne(q, ids[0], env), ids[1..], env)
  {
    hide ResumeOne, WireWf, Sound;
    ResumeOneWf(q, ids[0], env);
    TransferSafety.RestOfWalk(ids, q.book.list, ResumeOne(q, ids[0], env).book.list);
  }

  lemma WalkOver(q: Tq, ids: seq<nat>, env: Env)
    requires Remains(q, ids)
    requires ids == [] || (ids[0] in q.book.urbs && q.book.urbs[ids[0]].state == InitPending && q.book.remaining == 0)
    ensures ResumeUrbs(q, ids, env) == q
  {
    hide ResumeOne, WireWf, Sound;
  }

  /** So credits are conserved on the object, and no request it gave back is linked or was given back before. */
  lemma HealthyQueue(q: TransferQueue, i: nat, j: nat)
    requires q.Healthy()
    ensures forall id :: id in q.urbList ==> id in q.urbs
    ensures q.remaining + |TransferSafety.Holders(q.View().book)| == q.maxActive
    ensures i < |q.desk.given| ==> q.desk.given[i].id !in q.urbList
    ensures i < j < |q.desk.given| ==> q.desk.given[i].id != q.desk.given[j].id
  {
    var v := q.View();
    if i < |v.desk.given| {
      TransferSafety.PlacedOnce(v, i, j);
    }
  }
}
