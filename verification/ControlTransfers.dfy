/**
 Control transfers (section 8.5.3 of the USB 2.0 specification): setup, data and
 status stage of one request, over every order of firmware messages and completions.
 */
module ControlTransfers {
  import opened Prelude
  import opened SegmentLists
  import opened Urbs

  datatype Stimulus = Stimulus(e: UrbEvent, g: Grants)

  /** The request u is still linked, as v, after these events. */
  ghost predicate Reaches(u: Urb, events: seq<Stimulus>, v: Urb)
    decreases |events|
  {
    if events == [] then u == v
    else
      exists m {:trigger StepsTo(m, events[|events| - 1], v)} ::
        Reaches(u, events[..|events| - 1], m) && StepsTo(m, events[|events| - 1], v)
  }

  ghost predicate StepsTo(m: Urb, s: Stimulus, v: Urb) {
    Sane(m) && Stays(React(m, s.e, s.g).verdict) && React(m, s.e, s.g).urb == v
  }

  /** A freshly started control request. */
  predicate Started(u: Urb) {
    && u.control && !u.bulk && u.state == SetupRequest && u.receivedStatus == 0
    && u.receiveOffset == u.requestEnd == u.submitted == 0 && !u.short
  }

  /** The data stage is over: all bytes of an OUT stage, all bytes or a short packet for IN. */
  predicate DataFinished(u: Urb) {
    u.receiveOffset == u.length || (u.dir == In && u.short)
  }

  /** A completion arrived while the setup packet was outstanding. */
  ghost predicate SetupSeen(u: Urb, events: seq<Stimulus>) {
    exists j, m {:trigger Reaches(u, events[..j], m)} ::
      0 <= j < |events| && events[j].e.Done? && Reaches(u, events[..j], m) && m.state == SetupCompletion
  }

  predicate IsSuccess(s: Stimulus) {
    s.e.Told? && s.e.m.cmd == CMD_CONTROL_TRANSFER_STATUS && s.e.m.status == STATUS_SUCCESS
  }

  ghost predicate SuccessSeen(events: seq<Stimulus>) {
    exists i :: 0 <= i < |events| && IsSuccess(events[i])
  }

  predicate InDataStage(s: UrbState) {
    s == WaitRequest || s == WaitCompletion || s == DataComplete
  }

  predicate ControlShape(u: Urb) {
    && u.control && !u.bulk && Sound(u)
    && (u.state == SetupRequest || u.state == SetupCompletion || InDataStage(u.state))
    && (u.state == DataComplete ==> DataFinished(u))
  }

  lemma DataUpdateControl(u: Urb, m: Message, g: Grants)
    requires ControlShape(u) && (u.state == WaitRequest || u.state == WaitCompletion)
    ensures var o := DataUpdate(u, m, g);
            && o.urb.control && !o.urb.bulk && o.urb.receivedStatus == u.receivedStatus
            && (Stays(o.verdict) ==> o.urb.state == WaitRequest || o.urb.state == WaitCompletion)
            && !o.verdict.Finish?
  {
    hide OutSubmission;
  }

  lemma DataDoneControl(u: Urb, c: Completed, g: Grants)
    requires ControlShape(u) && (u.state == WaitRequest || u.state == WaitCompletion)
    ensures var o := DataDone(u, c, g);
            && o.urb.control && !o.urb.bulk && o.urb.receivedStatus == u.receivedStatus
            && (Stays(o.verdict) ==> InDataStage(o.urb.state))
            && (Stays(o.verdict) && o.urb.state == DataComplete ==> DataFinished(o.urb))
            && o.verdict != Finish(0) && o.verdict != Again
  {
    hide OutSubmission, InSubmission;
  }

  /** One event of a control request: where its stages can come from. */
  lemma ControlStep(u: Urb, s: Stimulus)
    requires ControlShape(u)
    ensures var o := React(u, s.e, s.g);
            && (Stays(o.verdict) ==> ControlShape(o.urb))
            && (Stays(o.verdict) && InDataStage(o.urb.state) ==>
                  InDataStage(u.state) || (s.e.Done? && u.state == SetupCompletion))
            && (o.urb.receivedStatus == STATUS_SUCCESS ==> u.receivedStatus == STATUS_SUCCESS || IsSuccess(s))
            && (o.verdict == Finish(0) ==>
                  InDataStage(u.state) && DataFinished(o.urb) && o.urb.receivedStatus == STATUS_SUCCESS)
  {
    hide DataUpdate, DataDone, TransferIn;
    ReactSound(u, s.e, s.g);
    if u.state == WaitRequest || u.state == WaitCompletion {
      if s.e.Told? {
        DataUpdateControl(u, s.e.m, s.g);
      } else if s.e.Done? {
        DataDoneControl(u, s.e.c, s.g);
      }
    }
    TransferInKeeps(u, s.g);
  }

  lemma TransferInKeeps(u: Urb, g: Grants)
    requires u.receiveOffset <= u.length
    ensures var a := TransferIn(u, g);
            && a.urb.control == u.control && a.urb.bulk == u.bulk && a.urb.receivedStatus == u.receivedStatus
            && (a.status == 0 ==> a.urb.state == WaitCompletion)
  {
    TransferInSane(u, g);
    hide InSubmission;
  }

  lemma SetupSeenExtends(u: Urb, events: seq<Stimulus>, s: Stimulus)
    requires SetupSeen(u, events)
    ensures SetupSeen(u, events + [s])
  {
    var j, m :| 0 <= j < |events| && events[j].e.Done? && Reaches(u, events[..j], m) && m.state == SetupCompletion;
    assert (events + [s])[..j] == events[..j];
    assert (events + [s])[j] == events[j];
  }

  lemma SetupSeenNow(u: Urb, events: seq<Stimulus>, m: Urb, s: Stimulus)
    requires Reaches(u, events, m) && m.state == SetupCompletion && s.e.Done?
    ensures SetupSeen(u, events + [s])
  {
    var all := events + [s];
    assert all[..|events|] == events;
    assert all[|events|].e.Done? && Reaches(u, all[..|events|], m);
  }

  /** The request as it is after these events, while it is linked. */
  ghost function StateAfter(u: Urb, events: seq<Stimulus>): Option<Urb>
    decreases |events|
  {
    if events == [] then Some(u)
    else
      var m := StateAfter(u, events[..|events| - 1]);
      var s := events[|events| - 1];
      if m.Some? && Sane(m.value) && Stays(React(m.value, s.e, s.g).verdict) then Some(React(m.value, s.e, s.g).urb) else None
  }

  lemma {:induction false} ReachesState(u: Urb, events: seq<Stimulus>, v: Urb)
    requires Reaches(u, events, v)
    ensures StateAfter(u, events) == Some(v)
    decreases |events|
  {
    hide React;
    if events != [] {
      var m :| Reaches(u, events[..|events| - 1], m) && StepsTo(m, events[|events| - 1], v);
      ReachesState(u, events[..|events| - 1], m);
    }
  }

  /** Every submission these events made the request post, in order. */
  ghost function Posts(u: Urb, events: seq<Stimulus>): seq<Post>
    decreases |events|
  {
    if events == [] then []
    else
      var init, s := events[..|events| - 1], events[|events| - 1];
      var m := StateAfter(u, init);
      Posts(u, init) + if m.Some? && Sane(m.value) then Listed(React(m.value, s.e, s.g).post) else []
  }

  function Listed(post: Option<Post>): seq<Post> {
    if post.Some? then [post.value] else []
  }

  /** A submission of the data stage moves a part of the request's buffer, in its direction. */
  ghost predicate MovesBuffer(u: Urb, p: Post) {
    && (p.FromDevice? <==> u.dir == In)
    && (SubmissionBytes(p.sub) == [] || exists k :: PartAt(u, p.sub, k))
  }

  ghost predicate PartAt(u: Urb, sub: Submission, k: nat) {
    k + |SubmissionBytes(sub)| <= |BufferBytes(u)| && SubmissionBytes(sub) == BufferBytes(u)[k..k + |SubmissionBytes(sub)|]
  }

  /** The setup packet goes out first and once; everything after it belongs to the data stage. */
  ghost predicate SetupThenData(u: Urb, posts: seq<Post>) {
    && posts != [] && SetupPost(u, posts[0])
    && forall i :: 1 <= i < |posts| ==> MovesBuffer(u, posts[i])
  }

  lemma DataPostMoves(u: Urb, v: Urb, o: Outcome)
    requires SameRequest(u, v) && DataPost(v, o) && o.post.Some?
    ensures MovesBuffer(u, o.post.value)
  {
    SameBytes(u, o.urb);
    var sub, w := o.post.value.sub, o.urb.(submitted := SubmissionLength(o.post.value.sub));
    SameBytes(o.urb, w);
    hide BufferBytes, SubmissionBytes, SubmissionLength, BufferOk;
    if SubmissionLength(sub) > 0 {
      assert Covers(w, sub);
      assert PartAt(u, sub, w.receiveOffset);
    }
  }

  /** Until the setup packet is asked for nothing is posted; from then on the posts are the setup packet and data. */
  lemma {:induction false} ControlPosts(u: Urb, events: seq<Stimulus>, v: Urb)
    requires Started(u) && BufferOk(u) && Reaches(u, events, v)
    ensures SameRequest(u, v) && ControlShape(v)
    ensures if v.state == SetupRequest then Posts(u, events) == [] else SetupThenData(u, Posts(u, events))
    decreases |events|
  {
    hide React;
    if events != [] {
      var init, s := events[..|events| - 1], events[|events| - 1];
      var m :| Reaches(u, init, m) && StepsTo(m, s, v);
      ControlPosts(u, init, m);
      ReachesState(u, init, m);
      ControlStep(m, s);
      hide ControlShape;
      PostsOn(u, m, s, Posts(u, init));
    }
  }

  lemma PostsOn(u: Urb, m: Urb, s: Stimulus, posts: seq<Post>)
    requires ControlShape(m) && BufferOk(u) && SameRequest(u, m) && Stays(React(m, s.e, s.g).verdict)
    requires if m.state == SetupRequest then posts == [] else SetupThenData(u, posts)
    ensures var o := React(m, s.e, s.g);
            && SameRequest(u, o.urb)
            && if o.urb.state == SetupRequest then posts + Listed(o.post) == [] else SetupThenData(u, posts + Listed(o.post))
  {
    SameBytes(u, m);
    ReactPosts(m, s.e, s.g);
    var o := React(m, s.e, s.g);
    SetupStage(m, s);
    hide React, DataPost, SetupPost, MovesBuffer, BufferOk, BufferBytes;
    if o.post.Some? {
      if m.state == SetupRequest {
        SetupPostSame(u, m, o.post);
      } else {
        DataPostMoves(u, m, o);
      }
    }
  }

  lemma SetupPostSame(u: Urb, m: Urb, post: Option<Post>)
    requires SameRequest(u, m) && post.Some? && SetupPost(m, post.value)
    ensures SetupPost(u, post.value)
  {
  }

  /** The setup stage is left by posting its packet, and never entered again. */
  lemma SetupStage(m: Urb, s: Stimulus)
    requires ControlShape(m) && Stays(React(m, s.e, s.g).verdict)
    ensures var o := React(m, s.e, s.g);
            && (m.state == SetupRequest ==> (o.post.Some? <==> o.urb.state != SetupRequest))
            && (m.state != SetupRequest ==> o.urb.state != SetupRequest)
  {
    hide DataUpdate, DataDone, TransferIn;
    if m.state == WaitRequest || m.state == WaitCompletion {
      if s.e.Told? {
        DataUpdateControl(m, s.e.m, s.g);
      } else if s.e.Done? {
        DataDoneControl(m, s.e.c, s.g);
      }
    }
    TransferInKeeps(m, s.g);
  }

  /** What the state of a linked control request says about the events so far. */
  lemma {:induction false} ControlHistory(u: Urb, events: seq<Stimulus>, v: Urb)
    requires Started(u) && Reaches(u, events, v)
    ensures ControlShape(v)
    ensures InDataStage(v.state) ==> SetupSeen(u, events)
    ensures v.receivedStatus == STATUS_SUCCESS ==> SuccessSeen(events)
    decreases |events|
  {
    hide React;
    if events != [] {
      var init, last := events[..|events| - 1], events[|events| - 1];
      var m :| Reaches(u, init, m) && StepsTo(m, last, v);
      ControlHistory(u, init, m);
      ControlStep(m, last);
      assert init + [last] == events;
      if InDataStage(v.state) {
        if InDataStage(m.state) {
          SetupSeenExtends(u, init, last);
        } else {
          SetupSeenNow(u, init, m, last);
        }
      }
      if v.receivedStatus == STATUS_SUCCESS {
        SuccessCarries(init, last, m.receivedStatus == STATUS_SUCCESS);
      }
    }
  }

  lemma SuccessCarries(init: seq<Stimulus>, last: Stimulus, before: bool)
    requires before ==> SuccessSeen(init)
    requires before || IsSuccess(last)
    ensures SuccessSeen(init + [last])
  {
    var all := init + [last];
    if before {
      var i :| 0 <= i < |init| && IsSuccess(init[i]);
      assert IsSuccess(all[i]);
    } else {
      assert IsSuccess(all[|init|]);
    }
  }

  /**
   Over every order of messages and completions, a control request is given back
   with status 0 only after its setup packet was sent, once and as the request has
   it, a completion for that, a finished data stage, and a SUCCESS status message; the
   last two may come in either order.
   */
  lemma ControlSafe(u: Urb, events: seq<Stimulus>, v: Urb, last: Stimulus)
    requires Started(u) && Reaches(u, events, v) && Sane(v)
    requires React(v, last.e, last.g).verdict == Finish(0)
    ensures SetupSeen(u, events)
    ensures DataFinished(React(v, last.e, last.g).urb)
    ensures SuccessSeen(events + [last])
    ensures BufferOk(u) ==> SetupThenData(u, Posts(u, events))
  {
    if BufferOk(u) {
      ControlPosts(u, events, v);
    }
    hide Posts, BufferOk, SetupThenData;
    ControlHistory(u, events, v);
    ControlStep(v, last);
    SuccessCarries(events, last, v.receivedStatus == STATUS_SUCCESS);
  }

  /** Both orders do end the request: status after data, and data after status. */
  lemma EitherOrderFinishes(u: Urb, g: Grants, m: Message, c: Completed)
    requires ControlShape(u)
    ensures u.state == DataComplete && IsSuccess(Stimulus(Told(m), g)) ==> React(u, Told(m), g).verdict == Finish(0)
    ensures u.state == WaitCompletion && u.receivedStatus == STATUS_SUCCESS &&
            c.status == COMPLETED_SUCCESS && c.dataSize == u.submitted && u.receiveOffset + c.dataSize == u.length ==>
              React(u, Done(c), g).verdict == Finish(0)
  {
    hide OutSubmission, InSubmission;
  }

  /** A request whose three stages are over although it was not given back. */
  predicate Stuck(u: Urb) {
    u.state == DataComplete && u.receivedStatus == STATUS_SUCCESS
  }

  /**
   The one order that leaves a finished request linked: SUCCESS before the setup
   completion of a request without a data stage. No other event gets there.
   */
  lemma StuckExactly(u: Urb, s: Stimulus)
    requires ControlShape(u) && !Stuck(u)
    ensures var o := React(u, s.e, s.g);
            Stays(o.verdict) && Stuck(o.urb) <==>
              && s.e.Done? && u.state == SetupCompletion
              && u.dir == Out && u.length == 0 && u.receivedStatus == STATUS_SUCCESS
  {
    hide DataUpdate, DataDone, TransferIn;
    if u.state == WaitRequest || u.state == WaitCompletion {
      if s.e.Told? {
        DataUpdateControl(u, s.e.m, s.g);
      } else if s.e.Done? {
        DataDoneControl(u, s.e.c, s.g);
      }
    }
    TransferInKeeps(u, s.g);
  }

  /** A stuck request is given back by the next status message other than an empty one, and by nothing else. */
  lemma StuckLeavesExactly(u: Urb, e: UrbEvent, g: Grants)
    requires ControlShape(u) && Stuck(u)
    ensures Stays(React(u, e, g).verdict) <==> !(e.Told? && e.m.cmd == CMD_CONTROL_TRANSFER_STATUS && e.m.status != 0)
    ensures Stays(React(u, e, g).verdict) && (e.Told? ==> e.m.cmd != CMD_CONTROL_TRANSFER_STATUS) ==> React(u, e, g).urb == u
    ensures IsSuccess(Stimulus(e, g)) ==> React(u, e, g).verdict == Finish(0)
  {
    hide DataUpdate, DataDone, TransferIn;
  }

  lemma ReachesOne(u: Urb, events: seq<Stimulus>, m: Urb, s: Stimulus, v: Urb)
    requires Reaches(u, events, m) && StepsTo(m, s, v)
    ensures Reaches(u, events + [s], v)
  {
    var all := events + [s];
    assert all[..|all| - 1] == events && all[|all| - 1] == s;
  }

  /** The stuck state is reached: setup requested, SUCCESS, and only then the setup completion. */
  lemma EarlySuccessSticks(u: Urb) returns (events: seq<Stimulus>, v: Urb)
    requires Started(u) && u.dir == Out && u.length == 0
    ensures Reaches(u, events, v) && Stuck(v) && ControlShape(v)
  {
    var g := Grants(true, true, true, true);
    var request := Stimulus(Told(Message(CMD_TRANSFER_REQUEST, 0, 0)), g);
    var success := Stimulus(Told(Message(CMD_CONTROL_TRANSFER_STATUS, STATUS_SUCCESS, 0)), g);
    var setup := Stimulus(Done(Completed(COMPLETED_SUCCESS, SETUP_SIZE)), g);
    var a := u.(state := SetupCompletion);
    var b := a.(receivedStatus := STATUS_SUCCESS);
    v := b.(state := DataComplete);
    assert StepsTo(u, request, a);
    assert StepsTo(a, success, b);
    assert StepsTo(b, setup, v);
    assert Reaches(u, [], u);
    hide Reaches, StepsTo;
    ReachesOne(u, [], u, request, a);
    ReachesOne(u, [] + [request], a, success, b);
    ReachesOne(u, [] + [request] + [success], b, setup, v);
    events := [] + [request] + [success] + [setup];
  }
}
