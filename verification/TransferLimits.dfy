/** Where the transfer engine does less than its comments promise, and exactly when. */
module TransferLimits {
  import opened Prelude
  import opened Urbs
  import opened TransferQueues

  /**
   A cancelled request waits for the worker through every event but one: on the
   control endpoint an error status still finishes it.
   */
  lemma CancelledFinishesExactly(u: Urb, e: UrbEvent, g: Grants)
    requires Sane(u) && u.state == Cancelled
    ensures Stays(React(u, e, g).verdict) <==>
            !(u.control && e.Told? && e.m.cmd == CMD_CONTROL_TRANSFER_STATUS && e.m.status != 0 && e.m.status != STATUS_SUCCESS)
    ensures Stays(React(u, e, g).verdict) ==> React(u, e, g).urb == u.(receivedStatus := React(u, e, g).urb.receivedStatus)
  {
    hide DataStart, ContinueOut, AfterFull, TransferIn;
  }

  /** The youngest request, which waits for a credit. */
  ghost predicate Youngest(q: Tq, id: nat, u: Urb) {
    Wf(q) && q.book.list != [] && q.book.list[|q.book.list| - 1] == id && q.book.urbs[id] == u && u.state == InitPending
  }

  function Earlier(q: Tq): seq<nat>
    requires q.book.list != []
  {
    q.book.list[..|q.book.list| - 1]
  }

  lemma {:induction false} WithoutKeepsLast(s: seq<nat>, id: nat)
    requires s != [] && s[|s| - 1] != id
    ensures Without(s, id) != [] && Without(s, id)[|Without(s, id)| - 1] == s[|s| - 1]
  {
    if s[0] != id && |s| > 1 {
      WithoutKeepsLast(s[1..], id);
    }
  }

  /** A message for the oldest request leaves a waiting youngest one alone, even when they are the same. */
  lemma OfferKeepsYoungest(q: Tq, m: Message, env: Env, id: nat, u: Urb)
    requires Youngest(q, id, u)
    ensures var o := UpdateHead(q, m, env);
            Youngest(Settle(q, q.book.list[0], o), id, u) && (q.book.list[0] == id ==> o.verdict == Again)
  {
    var h := q.book.list[0];
    UpdateHeadWf(q, m, env);
    if h != id {
      WithoutKeepsLast(q.book.list, h);
    } else {
      assert UpdateHead(q, m, env) == Outcome(u, None, Again);
    }
    hide Update, Without, Sound, Hand;
  }

  lemma {:induction false} DeliverKeepsYoungest(q: Tq, env: Env, id: nat, u: Urb)
    requires Youngest(q, id, u)
    ensures Youngest(Deliver(q, env), id, u)
    decreases |q.evq|
  {
    if q.evq != [] {
      OfferKeepsYoungest(q, q.evq[0], env, id, u);
      UpdateHeadWf(q, q.evq[0], env);
      var o := UpdateHead(q, q.evq[0], env);
      var q1 := Settle(q, q.book.list[0], o);
      assert Youngest(q1.(evq := q.evq[1..]), id, u);
      hide Settle, UpdateHead, Youngest, Wf;
      if o.verdict != Again {
        DeliverKeepsYoungest(q1.(evq := q.evq[1..]), env, id, u);
      }
    }
  }

  /** Starting the requests of a list is starting those of its front, then those of the rest. */
  lemma {:induction false} InitSplit(q: Tq, a: seq<nat>, b: seq<nat>, env: Env)
    requires Wf(q) && forall x :: x in a + b ==> x in q.book.list
    ensures (forall x :: x in a ==> x in q.book.list) && forall x :: x in b ==> x in InitPendingUrbs(q, a, env).book.list
    ensures InitPendingUrbs(q, a + b, env) == InitPendingUrbs(InitPendingUrbs(q, a, env), b, env)
    decreases |a|
  {
    hide TransferQueues.Start, WireWf, Sound;
    assert forall x :: x in a ==> x in a + b;
    assert forall x :: x in b ==> x in a + b;
    if a == [] {
      assert a + b == b;
    } else if q.book.remaining > 0 {
      assert (a + b)[1..] == a[1..] + b && (a + b)[0] == a[0];
      if q.book.urbs[a[0]].state == InitPending {
        StartWf(q, a[0], env);
        InitSplit(TransferQueues.Start(q, a[0], env), a[1..], b, env);
      } else {
        InitSplit(q, a[1..], b, env);
      }
    }
  }

  /** Starting others does not touch a request. */
  lemma {:induction false} InitKeeps(q: Tq, ids: seq<nat>, env: Env, id: nat)
    requires Wf(q) && (forall x :: x in ids ==> x in q.book.list) && id !in ids && id in q.book.list
    ensures InitPendingUrbs(q, ids, env).book.urbs[id] == q.book.urbs[id]
    decreases |ids|
  {
    hide WireWf, Sound, Begin;
    if ids != [] && q.book.remaining > 0 {
      if q.book.urbs[ids[0]].state == InitPending {
        StartWf(q, ids[0], env);
        assert TransferQueues.Start(q, ids[0], env).book.urbs[id] == q.book.urbs[id];
        hide TransferQueues.Start;
        InitKeeps(TransferQueues.Start(q, ids[0], env), ids[1..], env, id);
      } else {
        InitKeeps(q, ids[1..], env, id);
      }
    }
  }

  lemma StartOnly(q: Tq, id: nat, env: Env)
    requires Wf(q) && id in q.book.list && q.book.urbs[id].state == InitPending
    ensures var r := InitPendingUrbs(q, [id], env);
            && id in r.book.urbs
            && (r.book.urbs[id].state != InitPending <==> q.book.remaining > 0 && Begin(q.book.urbs[id], env(q.tick)).status == 0)
  {
    var u, g := q.book.urbs[id], env(q.tick);
    BeginSound(u, g);
    if Begin(u, g).status != 0 {
      BeginFails(u, g);
    }
    hide Begin, Hand;
    if q.book.remaining > 0 {
      StartWf(q, id, env);
      var r := TransferQueues.Start(q, id, env);
      assert [id][1..] == [];
      assert InitPendingUrbs(q, [id], env) == InitPendingUrbs(r, [], env) == r;
    }
  }

  /** The queue once deferred messages were delivered and every earlier waiting request was tried. */
  function BeforeYoungest(q: Tq, env: Env): Tq
    requires Wf(q)
  {
    var d := Deliver(q, env);
    if d.book.list == [] then d else InitPendingUrbs(d, Earlier(d), env)
  }

  lemma YoungestStarts(q: Tq, env: Env, id: nat, u: Urb)
    requires Youngest(q, id, u)
    ensures var m, r := BeforeYoungest(q, env), DeliverPending(q, env);
            && id in r.book.list
            && (r.book.urbs[id].state != InitPending <==> m.book.remaining > 0 && Begin(u, env(m.tick)).status == 0)
  {
    hide Deliver, Begin, InitPendingUrbs;
    DeliverKeepsYoungest(q, env, id, u);
    InitYoungest(Deliver(q, env), env, id, u);
  }

  lemma InitYoungest(d: Tq, env: Env, id: nat, u: Urb)
    requires Youngest(d, id, u)
    ensures (forall x :: x in Earlier(d) ==> x in d.book.list) && id in d.book.list
    ensures var m, r := InitPendingUrbs(d, Earlier(d), env), InitPendingUrbs(d, d.book.list, env);
            id in r.book.list && (r.book.urbs[id].state != InitPending <==> m.book.remaining > 0 && Begin(u, env(m.tick)).status == 0)
  {
    assert d.book.list == Earlier(d) + [id];
    assert id !in Earlier(d);
    hide Begin, InitPendingUrbs, WireWf, Sound;
    InitSplit(d, Earlier(d), [id], env);
    InitKeeps(d, Earlier(d), env, id);
    StartOnly(InitPendingUrbs(d, Earlier(d), env), id, env);
  }

  /**
   A request submitted to an inactive endpoint is started all the same: exactly when
   a credit is left once the earlier waiting requests were tried, and its own start succeeds.
   */
  lemma InactiveEndpointStarts(q: Tq, id: nat, u: Urb, env: Env)
    requires Wf(q) && !q.flags.active && id !in q.book.list && New(u)
    ensures var q1 := Link(q, id, u).(desk := q.desk.(accepted := q.desk.accepted + {id}),
                                      flags := q.flags.(resetQueued := q.flags.resetQueued || q.flags.stalled));
            var r := Create(q, id, u, true, env);
            && Wf(q1) && id in r.book.list && id in r.book.urbs
            && (r.book.urbs[id].state != InitPending <==>
                BeforeYoungest(q1, env).book.remaining > 0 && Begin(u, env(BeforeYoungest(q1, env).tick)).status == 0)
  {
    LinkWf(q, id, u);
    var q1 := Link(q, id, u).(desk := q.desk.(accepted := q.desk.accepted + {id}),
                              flags := q.flags.(resetQueued := q.flags.resetQueued || q.flags.stalled));
    assert Youngest(q1, id, u);
    hide BeforeYoungest, DeliverPending, Begin, New;
    YoungestStarts(q1, env, id, u);
  }

  /**
   An OUT request can be started into a state no event ever changes, so that only
   a cancellation returns it: exactly when it is empty and not bulk.
   */
  lemma EmptyOutStuckExactly(u: Urb, g: Grants)
    requires New(u) && u.dir == Out && !u.control
    ensures var v := Begin(u, g).urb;
            Sane(v) && ((forall e, h :: React(v, e, h).urb == v && Stays(React(v, e, h).verdict)) <==> u.length == 0 && !u.bulk)
  {
    var v := Begin(u, g).urb;
    if u.length > 0 || u.bulk {
      var e, h := Told(Message(CMD_TRANSFER_REQUEST, 0, 1)), Grants(true, true, true, true);
      hide OutSubmission;
      assert React(v, e, h).urb != v;
    }
  }
}
