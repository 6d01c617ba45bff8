/**
 One USB request inside the transfer engine: how its state answers firmware
 messages, DMA completions and an endpoint resume. Reservation outcomes are
 inputs; a transition returns the new record, what it posted, and its verdict.
 */
module Urbs {
  import opened Prelude
  import opened SegmentLists

  const CMD_TRANSFER_REQUEST: nat := 0x1000
  const CMD_CONTROL_TRANSFER_STATUS: nat := 0x1005
  const STATUS_SUCCESS: nat := 1
  const STATUS_PIPE_STALL: nat := 3
  const COMPLETED_SUCCESS: nat := 0
  const COMPLETED_ABORTED: nat := 2
  const SETUP_SIZE: nat := 8

  datatype Direction = In | Out

  datatype UrbState =
    | InitPending
    | WaitRequest
    | WaitCompletion
    | DataComplete
    | SetupRequest
    | SetupCompletion
    | ControlComplete
    | Cancelled

  datatype Buffer = Linear(dma: nat) | Scatter(list: SegmentList)

  datatype Urb = Urb(
    dir: Direction,
    control: bool,
    bulk: bool,
    length: nat,
    buffer: Buffer,
    setupDma: nat,
    shortNotOk: bool,
    state: UrbState,
    receivedStatus: nat,
    receiveOffset: nat,
    requestEnd: nat,
    submitted: nat,
    cancelStatus: int,
    cancelWasActive: bool,
    short: bool)  // observation: the last IN completion was short

  datatype Message = Message(cmd: nat, status: nat, param2: nat)

  datatype Completed = Completed(status: nat, dataSize: nat)

  /**
   Whether a reservation on the OUT ring, the IN ring and the request message ring
   would be granted now, and whether a small allocation would succeed.
   */
  datatype Grants = Grants(toDevice: bool, fromDevice: bool, message: bool, memory: bool)

  datatype Post = ToDevice(sub: Submission) | FromDevice(sub: Submission)

  /** When an endpoint reset is queued for a halted endpoint. */
  datatype ResetRule = Always | IfMoreUrbs

  datatype Verdict = Fine | Again | Finish(status: int) | Halt(status: int, rule: ResetRule)

  datatype Outcome = Outcome(urb: Urb, post: Option<Post>, verdict: Verdict)

  datatype Attempt = Attempt(urb: Urb, post: Option<Post>, status: int)

  /** The byte counters never leave the buffer, and what is in flight lies inside the open window. */
  predicate Sane(u: Urb) {
    && u.receiveOffset <= u.length
    && u.requestEnd <= u.length
    && (u.state == WaitCompletion ==> u.receiveOffset + u.submitted <= u.requestEnd)
    && (u.state == WaitCompletion && u.dir == In ==> u.requestEnd == u.length)
  }

  predicate IsZlp(u: Urb) {
    u.dir == Out && u.bulk && u.length == 0
  }

  function SubmissionLength(sub: Submission): nat {
    match sub
    case Single(_, size) => size
    case Range(_, _, length) => length
  }

  // ------------------------------------------------------------------ submissions

  /** An IN submission at the receive offset; only a non-empty scatter request is cut at a page. */
  function InSubmission(u: Urb, size: nat): Result<Submission> {
    if u.buffer.Scatter? && size > 0 then NextRange(u.buffer.list, u.receiveOffset, size)
    else if u.buffer.Linear? then Ok(Single(u.buffer.dma + u.receiveOffset, size))
    else Ok(Single(u.receiveOffset, size))
  }

  function PrepareIn(u: Urb, size: nat): Attempt {
    match InSubmission(u, size)
    case Err(e) => Attempt(u, None, e)
    case Ok(sub) => Attempt(u.(submitted := SubmissionLength(sub), state := WaitCompletion), Some(FromDevice(sub)), 0)
  }

  function ContinueIn(u: Urb, g: Grants): Attempt
    requires u.receiveOffset <= u.requestEnd
  {
    if !g.fromDevice then Attempt(u, None, EPIPE) else PrepareIn(u, u.requestEnd - u.receiveOffset)
  }

  function TransferIn(u: Urb, g: Grants): Attempt
    requires u.receiveOffset <= u.length
  {
    if !g.message || !g.fromDevice then Attempt(u, None, ENOMEM)
    else PrepareIn(u.(requestEnd := u.length), u.length - u.receiveOffset)
  }

  function OutSubmission(u: Urb, size: nat): Result<Submission> {
    if size == 0 then Ok(Single(0, 0))
    else match u.buffer
      case Scatter(list) => NextRange(list, u.receiveOffset, size)
      case Linear(dma) => Ok(Single(dma + u.receiveOffset, size))
  }

  function ContinueOut(u: Urb, g: Grants): Attempt {
    if !(u.receiveOffset < u.requestEnd) && !IsZlp(u) then Attempt(u, None, EINVAL)
    else if !g.toDevice then Attempt(u, None, EPIPE)
    else
      var size := if u.receiveOffset < u.requestEnd then u.requestEnd - u.receiveOffset else 0;
      match OutSubmission(u, size)
      case Err(e) => Attempt(u, None, e)
      case Ok(sub) => Attempt(u.(submitted := SubmissionLength(sub), state := WaitCompletion), Some(ToDevice(sub)), 0)
  }

  function DataStart(u: Urb, g: Grants): Attempt
    requires u.receiveOffset <= u.length
  {
    if u.dir == Out then
      Attempt(u.(state := if u.length > 0 || IsZlp(u) then WaitRequest else DataComplete), None, 0)
    else TransferIn(u, g)
  }

  /** Starting a request that was waiting for a credit. */
  function Begin(u: Urb, g: Grants): Attempt
    requires u.receiveOffset <= u.length
  {
    if u.control then Attempt(u.(state := SetupRequest), None, 0) else DataStart(u, g)
  }

  // ------------------------------------------------------------------ data stage

  function DataUpdate(u: Urb, m: Message, g: Grants): Outcome
    requires Sane(u)
  {
    if u.state == WaitRequest && m.cmd == CMD_TRANSFER_REQUEST then
      var remaining := u.length - u.receiveOffset;
      var request := Min(remaining, m.param2);
      if remaining == 0 && !IsZlp(u) then Outcome(u, None, Again)
      else if remaining > 0 && request == 0 then Outcome(u, None, Halt(EPROTO, Always))
      else
        var a := ContinueOut(u.(requestEnd := u.receiveOffset + request), g);
        Outcome(a.urb, a.post, if a.status != 0 then Halt(a.status, Always) else Fine)
    else Outcome(u, None, Again)
  }

  /** What follows a successful completion that was as long as its submission. */
  function AfterFull(u: Urb, g: Grants): Outcome
    requires u.receiveOffset <= u.requestEnd <= u.length
  {
    if u.dir == In && u.receiveOffset < u.requestEnd then
      var a := ContinueIn(u, g);
      Outcome(a.urb, a.post, if a.status != 0 then Halt(a.status, Always) else Fine)
    else if u.dir == Out && u.receiveOffset < u.requestEnd then
      var a := ContinueOut(u, g);
      Outcome(a.urb, a.post, if a.status != 0 then Halt(a.status, Always) else Fine)
    else if u.dir == Out && u.receiveOffset < u.length then
      Outcome(u.(state := WaitRequest), None, Fine)
    else
      Outcome(u.(state := DataComplete), None, if u.control then Fine else Finish(0))
  }

  function DataDone(u: Urb, c: Completed, g: Grants): Outcome
    requires Sane(u)
  {
    if u.state != WaitCompletion then Outcome(u, None, Fine)
    else if c.dataSize > u.submitted || c.dataSize > u.length - u.receiveOffset then
      Outcome(u, None, Halt(EOVERFLOW, Always))
    else
      var v := u.(receiveOffset := u.receiveOffset + c.dataSize);
      if c.status != COMPLETED_SUCCESS then Outcome(v, None, Halt(EIO, Always))
      else if u.dir == Out && c.dataSize != u.submitted then Outcome(v, None, Halt(EREMOTEIO, Always))
      else if u.dir == In && c.dataSize < u.submitted then
        if u.shortNotOk then Outcome(v, None, Finish(EREMOTEIO))
        else Outcome(v.(state := DataComplete, short := true), None, if u.control then Fine else Finish(0))
      else AfterFull(v, g)
  }

  // ------------------------------------------------------------------ control stages

  function CheckStatus(u: Urb, post: Option<Post>): Outcome {
    if u.receivedStatus == 0 then Outcome(u, post, Fine)
    else if u.state == DataComplete ||
            (u.receivedStatus != STATUS_SUCCESS && u.state != SetupRequest && u.state != SetupCompletion) then
      var v := u.(state := ControlComplete);
      Outcome(v, post,
              if u.receivedStatus == STATUS_SUCCESS then Finish(0)
              else if u.receivedStatus == STATUS_PIPE_STALL then Halt(EPIPE, Always)
              else Halt(EPIPE, IfMoreUrbs))
    else Outcome(u, post, Fine)
  }

  function ControlUpdate(u: Urb, m: Message, g: Grants): Outcome
    requires Sane(u)
  {
    if m.cmd == CMD_CONTROL_TRANSFER_STATUS then CheckStatus(u.(receivedStatus := m.status), None)
    else if u.state == SetupRequest && m.cmd == CMD_TRANSFER_REQUEST then
      if !g.toDevice then Outcome(u, None, Fine)
      else Outcome(u.(state := SetupCompletion), Some(ToDevice(Single(u.setupDma, SETUP_SIZE))), Fine)
    else if u.state == WaitRequest || u.state == WaitCompletion then
      var o := DataUpdate(u, m, g);
      if o.verdict != Fine then o else CheckStatus(o.urb, o.post)
    else Outcome(u, None, Again)
  }

  function ControlDone(u: Urb, c: Completed, g: Grants): Outcome
    requires Sane(u)
  {
    if u.state == SetupCompletion then
      var a := DataStart(u, g);
      Outcome(a.urb, a.post, if a.status != 0 then Finish(a.status) else Fine)
    else if u.state == WaitRequest || u.state == WaitCompletion then
      var o := DataDone(u, c, g);
      if o.verdict != Fine then o else CheckStatus(o.urb, o.post)
    else Outcome(u, None, Fine)
  }

  // ------------------------------------------------------------------ entry points

  datatype UrbEvent = Told(m: Message) | Done(c: Completed) | Resumed

  function Update(u: Urb, m: Message, g: Grants): Outcome
    requires Sane(u)
  {
    if u.state == InitPending then Outcome(u, None, Again)
    else if u.control then ControlUpdate(u, m, g)
    else DataUpdate(u, m, g)
  }

  function TransferDone(u: Urb, c: Completed, g: Grants): Outcome
    requires Sane(u)
  {
    if u.control then ControlDone(u, c, g) else DataDone(u, c, g)
  }

  /** After an endpoint pause flushed it, an IN submission is posted again and an OUT one waits for a new window. */
  function Resume(u: Urb, g: Grants): Outcome
    requires Sane(u)
  {
    if u.state != WaitCompletion then Outcome(u, None, Fine)
    else if u.dir == In then
      var a := TransferIn(u, g);
      Outcome(a.urb, a.post, if a.status != 0 then Finish(a.status) else Fine)
    else Outcome(u.(requestEnd := u.receiveOffset, submitted := 0, state := WaitRequest), None, Fine)
  }

  function React(u: Urb, e: UrbEvent, g: Grants): Outcome
    requires Sane(u)
  {
    match e
    case Told(m) => Update(u, m, g)
    case Done(c) => TransferDone(u, c, g)
    case Resumed => Resume(u, g)
  }

  /** The verdicts after which the request stays linked. */
  predicate Stays(v: Verdict) {
    v == Fine || v == Again
  }

  // ------------------------------------------------------------------ byte counters

  /** Only an OUT request ever waits for a transfer window. */
  predicate Sound(u: Urb) {
    Sane(u) && (u.state == WaitRequest ==> u.dir == Out)
  }

  lemma RangeFits(list: SegmentList, offset: nat, size: nat)
    ensures var r := NextRange(list, offset, size);
            if r.Ok? then SubmissionLength(r.value) <= size else r.error == EINVAL
  {
  }

  lemma PrepareInSane(u: Urb, size: nat)
    requires u.receiveOffset + size <= u.requestEnd <= u.length && (u.dir == In ==> u.requestEnd == u.length)
    ensures PrepareIn(u, size).status == 0 ==> Sane(PrepareIn(u, size).urb) && PrepareIn(u, size).urb.state == WaitCompletion
  {
    hide NextRange;
    if u.buffer.Scatter? {
      RangeFits(u.buffer.list, u.receiveOffset, size);
    }
  }

  lemma ContinueOutSane(u: Urb, g: Grants)
    requires u.receiveOffset <= u.requestEnd <= u.length && u.dir == Out
    ensures ContinueOut(u, g).status == 0 ==> Sane(ContinueOut(u, g).urb)
  {
    hide NextRange;
    if u.buffer.Scatter? {
      RangeFits(u.buffer.list, u.receiveOffset, u.requestEnd - u.receiveOffset);
    }
  }

  lemma TransferInSane(u: Urb, g: Grants)
    requires u.receiveOffset <= u.length
    ensures TransferIn(u, g).status == 0 ==> Sane(TransferIn(u, g).urb) && TransferIn(u, g).urb.state == WaitCompletion
  {
    hide NextRange, PrepareIn;
    PrepareInSane(u.(requestEnd := u.length), u.length - u.receiveOffset);
  }

  lemma BeginSound(u: Urb, g: Grants)
    requires Sane(u)
    ensures Begin(u, g).status == 0 ==> Sound(Begin(u, g).urb) && Begin(u, g).urb.state != InitPending
  {
    hide TransferIn;
    TransferInSane(u, g);
  }

  lemma DataUpdateSound(u: Urb, m: Message, g: Grants)
    requires Sound(u)
    ensures Stays(DataUpdate(u, m, g).verdict) ==> Sound(DataUpdate(u, m, g).urb)
  {
    hide NextRange, OutSubmission;
    if u.state == WaitRequest {
      ContinueOutSane(u.(requestEnd := u.receiveOffset + Min(u.length - u.receiveOffset, m.param2)), g);
    }
  }

  lemma DataDoneSound(u: Urb, c: Completed, g: Grants)
    requires Sound(u)
    ensures Stays(DataDone(u, c, g).verdict) ==> Sound(DataDone(u, c, g).urb)
  {
    hide NextRange, OutSubmission, InSubmission;
    if u.state == WaitCompletion && c.dataSize <= u.submitted {
      var v := u.(receiveOffset := u.receiveOffset + c.dataSize);
      if v.receiveOffset < v.requestEnd {
        if u.dir == In {
          PrepareInSane(v, v.requestEnd - v.receiveOffset);
        } else {
          ContinueOutSane(v, g);
        }
      }
    }
  }

  lemma UpdateSound(u: Urb, m: Message, g: Grants)
    requires Sound(u)
    ensures Stays(Update(u, m, g).verdict) ==> Sound(Update(u, m, g).urb)
  {
    hide DataUpdate;
    DataUpdateSound(u, m, g);
  }

  lemma TransferDoneSound(u: Urb, c: Completed, g: Grants)
    requires Sound(u)
    ensures Stays(TransferDone(u, c, g).verdict) ==> Sound(TransferDone(u, c, g).urb)
  {
    hide DataDone, TransferIn;
    DataDoneSound(u, c, g);
    TransferInSane(u, g);
  }

  lemma ResumeSound(u: Urb, g: Grants)
    requires Sound(u)
    ensures Stays(Resume(u, g).verdict) ==> Sound(Resume(u, g).urb)
  {
    hide TransferIn;
    TransferInSane(u, g);
  }

  /** Every event that leaves the request linked keeps its counters inside the buffer. */
  lemma ReactSound(u: Urb, e: UrbEvent, g: Grants)
    requires Sound(u)
    ensures Stays(React(u, e, g).verdict) ==> Sound(React(u, e, g).urb)
  {
    hide Update, TransferDone, Resume;
    match e
    case Told(m) => UpdateSound(u, m, g);
    case Done(c) => TransferDoneSound(u, c, g);
    case Resumed => ResumeSound(u, g);
  }

  // ------------------------------------------------------------------ what is posted

  /** The DMA bytes of a request's transfer buffer, in order. */
  function BufferBytes(u: Urb): seq<nat> {
    match u.buffer
    case Linear(dma) => Bytes(dma, u.length)
    case Scatter(list) => ListBytes(list)
  }

  ghost predicate BufferOk(u: Urb) {
    u.buffer.Scatter? ==> ListOk(u.buffer.list)
  }

  /** The submission covers exactly the bytes after the receive offset that the request counts as submitted. */
  ghost predicate Covers(u: Urb, sub: Submission) {
    && u.receiveOffset + u.submitted <= |BufferBytes(u)|
    && SubmissionBytes(sub) == BufferBytes(u)[u.receiveOffset..u.receiveOffset + u.submitted]
  }

  predicate SameRequest(u: Urb, v: Urb) {
    && v.dir == u.dir && v.control == u.control && v.bulk == u.bulk && v.length == u.length && v.buffer == u.buffer
    && v.setupDma == u.setupDma
  }

  lemma SameBytes(u: Urb, v: Urb)
    requires SameRequest(u, v)
    ensures BufferBytes(v) == BufferBytes(u) && BufferOk(v) == BufferOk(u)
  {
  }

  lemma OutSubmissionCovers(u: Urb, size: nat)
    requires u.dir == Out && BufferOk(u) && u.receiveOffset + size <= u.length
    requires u.receiveOffset <= |BufferBytes(u)|
    ensures var r := OutSubmission(u, size);
            if r.Ok? then Covers(u.(submitted := SubmissionLength(r.value)), r.value) else r.error != 0
  {
    if size > 0 && u.buffer.Scatter? {
      NextRangeExact(u.buffer.list, u.receiveOffset, size);
      RangeFits(u.buffer.list, u.receiveOffset, size);
      hide NextRange, ListBytes, SubmissionBytes;
    } else if size > 0 {
      assert Bytes(u.buffer.dma + u.receiveOffset, size) == Bytes(u.buffer.dma, u.length)[u.receiveOffset..u.receiveOffset + size];
    }
  }

  lemma InSubmissionCovers(u: Urb, size: nat)
    requires BufferOk(u) && u.receiveOffset + size <= u.length
    ensures var r := InSubmission(u, size);
            if r.Ok? then PostsPart(u, size, r.value) else r.error != 0
  {
    if u.buffer.Scatter? && size > 0 {
      NextRangeExact(u.buffer.list, u.receiveOffset, size);
      RangeFits(u.buffer.list, u.receiveOffset, size);
      hide NextRange, ListBytes, SubmissionBytes;
    } else if u.buffer.Linear? {
      assert Bytes(u.buffer.dma + u.receiveOffset, size) == Bytes(u.buffer.dma, u.length)[u.receiveOffset..u.receiveOffset + size];
    }
  }

  /** A submission of up to `size` bytes: exactly those of the buffer at the receive offset, cut only at a descriptor page. */
  ghost predicate PostsPart(u: Urb, size: nat, sub: Submission) {
    && |SubmissionBytes(sub)| == SubmissionLength(sub) <= size
    && (size > 0 ==> SubmissionLength(sub) > 0 && Covers(u.(submitted := SubmissionLength(sub)), sub))
    && (u.buffer.Linear? ==> SubmissionLength(sub) == size)
  }

  /** What a request counts as submitted is what was posted, out of what its window leaves. */
  ghost predicate PostsWindow(u: Urb, sub: Submission) {
    && u.receiveOffset <= u.requestEnd <= u.length && u.submitted == SubmissionLength(sub)
    && PostsPart(u, u.requestEnd - u.receiveOffset, sub)
  }

  lemma PrepareInPosts(u: Urb, size: nat)
    requires BufferOk(u) && u.receiveOffset + size == u.requestEnd <= u.length
    ensures var a := PrepareIn(u, size);
            && SameRequest(u, a.urb) && a.urb.requestEnd == u.requestEnd && a.urb.receiveOffset == u.receiveOffset
            && (a.post.Some? <==> a.status == 0)
            && (a.post.Some? ==> a.post.value.FromDevice? && PostsWindow(a.urb, a.post.value.sub))
  {
    InSubmissionCovers(u, size);
    var r := InSubmission(u, size);
    if r.Ok? {
      CoversOnly(u, PrepareIn(u, size).urb, size, r.value);
    }
    hide InSubmission, PostsPart;
  }

  /** Only the buffer and the receive offset count here. */
  lemma CoversOnly(u: Urb, v: Urb, size: nat, sub: Submission)
    requires SameRequest(u, v) && v.receiveOffset == u.receiveOffset && PostsPart(u, size, sub)
    ensures PostsPart(v, size, sub)
  {
    SameBytes(u, v);
    SameBytes(u, u.(submitted := SubmissionLength(sub)));
    SameBytes(v, v.(submitted := SubmissionLength(sub)));
    hide BufferBytes, SubmissionBytes, SubmissionLength;
  }

  lemma OutSubmissionPosts(u: Urb, size: nat)
    requires BufferOk(u) && u.receiveOffset + size <= u.length
    ensures var r := OutSubmission(u, size);
            if r.Ok? then PostsPart(u, size, r.value) else r.error != 0
  {
    if size > 0 && u.buffer.Scatter? {
      NextRangeExact(u.buffer.list, u.receiveOffset, size);
      RangeFits(u.buffer.list, u.receiveOffset, size);
      hide NextRange, ListBytes, SubmissionBytes;
    } else if size > 0 {
      assert Bytes(u.buffer.dma + u.receiveOffset, size) == Bytes(u.buffer.dma, u.length)[u.receiveOffset..u.receiveOffset + size];
    }
  }

  lemma ContinueOutPosts(u: Urb, g: Grants)
    requires BufferOk(u) && u.receiveOffset <= u.requestEnd <= u.length
    ensures var a := ContinueOut(u, g);
            && SameRequest(u, a.urb) && a.urb.requestEnd == u.requestEnd && a.urb.receiveOffset == u.receiveOffset
            && (a.post.Some? <==> a.status == 0)
            && (a.post.Some? ==> a.post.value.ToDevice? && PostsWindow(a.urb, a.post.value.sub))
  {
    hide OutSubmission, PostsPart, IsZlp, BufferOk, SubmissionLength;
    var size := u.requestEnd - u.receiveOffset;
    OutSubmissionPosts(u, size);
    var r := OutSubmission(u, size);
    if r.Ok? {
      CoversOnly(u, u.(submitted := SubmissionLength(r.value), state := WaitCompletion), size, r.value);
    }
  }

  /** A post of the data stage: on the ring of the request's direction, out of its open window. */
  ghost predicate DataPost(u: Urb, o: Outcome) {
    && SameRequest(u, o.urb)
    && (o.post.Some? ==>
          && (o.post.value.FromDevice? <==> u.dir == In)
          && PostsWindow(o.urb, o.post.value.sub)
          && (u.dir == In ==> o.urb.requestEnd == u.length))
  }

  /** The end of the window a firmware message opens. */
  ghost predicate OpensWindow(u: Urb, m: Message) {
    u.requestEnd <= u.receiveOffset + m.param2 && (u.requestEnd == u.length || u.requestEnd == u.receiveOffset + m.param2)
  }

  lemma TransferInPosts(u: Urb, g: Grants)
    requires Sane(u) && BufferOk(u)
    ensures var a := TransferIn(u, g);
            && SameRequest(u, a.urb) && (a.post.Some? <==> a.status == 0)
            && (a.post.Some? ==> a.post.value.FromDevice? && PostsWindow(a.urb, a.post.value.sub) && a.urb.requestEnd == u.length)
  {
    var v := u.(requestEnd := u.length);
    SameBytes(u, v);
    PrepareInPosts(v, u.length - u.receiveOffset);
    hide PrepareIn, PostsWindow, BufferOk, BufferBytes;
  }

  lemma DataUpdatePosts(u: Urb, m: Message, g: Grants)
    requires Sound(u) && BufferOk(u)
    ensures var o := DataUpdate(u, m, g);
            DataPost(u, o) && (o.post.Some? ==> u.state == WaitRequest && u.dir == Out && OpensWindow(o.urb, m))
  {
    hide ContinueOut, PostsWindow, BufferOk, BufferBytes;
    if u.state == WaitRequest {
      var v := u.(requestEnd := u.receiveOffset + Min(u.length - u.receiveOffset, m.param2));
      SameBytes(u, v);
      ContinueOutPosts(v, g);
    }
  }

  lemma DataDonePosts(u: Urb, c: Completed, g: Grants)
    requires Sound(u) && BufferOk(u)
    ensures var o := DataDone(u, c, g);
            && DataPost(u, o)
            && (o.post.Some? ==> u.state == WaitCompletion && o.urb.requestEnd == u.requestEnd)
  {
    hide AfterFull, PostsWindow, BufferOk, BufferBytes;
    if u.state == WaitCompletion && c.dataSize <= u.submitted {
      var v := u.(receiveOffset := u.receiveOffset + c.dataSize);
      SameBytes(u, v);
      AfterFullPosts(v, g);
    }
  }

  lemma AfterFullPosts(u: Urb, g: Grants)
    requires BufferOk(u) && u.receiveOffset <= u.requestEnd <= u.length && (u.dir == In ==> u.requestEnd == u.length)
    ensures var o := AfterFull(u, g);
            DataPost(u, o) && o.urb.requestEnd == u.requestEnd
  {
    hide ContinueOut, PrepareIn, PostsWindow, BufferOk, BufferBytes;
    if u.receiveOffset < u.requestEnd {
      ContinueOutPosts(u, g);
      PrepareInPosts(u, u.requestEnd - u.receiveOffset);
    }
  }

  /** Settling the status stage changes nothing about a post. */
  lemma CheckStatusPosts(u: Urb, w: Urb, post: Option<Post>)
    requires DataPost(u, Outcome(w, post, Fine))
    ensures DataPost(u, CheckStatus(w, post))
    ensures CheckStatus(w, post).post == post && CheckStatus(w, post).urb.requestEnd == w.requestEnd
            && CheckStatus(w, post).urb.receiveOffset == w.receiveOffset && SameRequest(w, CheckStatus(w, post).urb)
  {
    hide PostsPart;
    if post.Some? {
      CoversOnly(w, CheckStatus(w, post).urb, w.requestEnd - w.receiveOffset, post.value.sub);
    }
  }

  /** The setup packet: its eight bytes go out from where the request keeps them. */
  ghost predicate SetupPost(u: Urb, post: Post) {
    post.ToDevice? && SubmissionBytes(post.sub) == Bytes(u.setupDma, SETUP_SIZE)
  }

  /**
   Everything an event posts: the setup packet of a control request, once; and
   otherwise exactly the buffer's bytes at the receive offset, out of a window that is
   the rest of the buffer for IN, and for OUT what the firmware asked for.
   */
  lemma ReactPosts(u: Urb, e: UrbEvent, g: Grants)
    requires Sound(u) && BufferOk(u)
    ensures var o := React(u, e, g);
            && SameRequest(u, o.urb)
            && (o.post.Some? ==>
                  if u.state == SetupRequest then SetupPost(u, o.post.value) && o.urb == u.(state := SetupCompletion)
                  else DataPost(u, o))
            && (o.post.Some? && u.state != SetupRequest && u.dir == Out ==>
                  if e.Told? then OpensWindow(o.urb, e.m) else o.urb.requestEnd == u.requestEnd)
  {
    hide DataUpdate, DataDone, TransferIn, PostsWindow, BufferOk, BufferBytes, CheckStatus;
    match e
    case Told(m) =>
      DataUpdatePosts(u, m, g);
      var o := DataUpdate(u, m, g);
      CheckStatusPosts(u, o.urb, o.post);
      CheckStatusPosts(u, u.(receivedStatus := m.status), None);
    case Done(c) =>
      DataDonePosts(u, c, g);
      TransferInPosts(u, g);
      var o := DataDone(u, c, g);
      CheckStatusPosts(u, o.urb, o.post);
    case Resumed =>
      TransferInPosts(u, g);
  }

  /** With every reservation granted, a window for an OUT request that has bytes left is answered by a post. */
  lemma WindowIsAnswered(u: Urb, m: Message, g: Grants)
    requires Sound(u) && BufferOk(u) && u.state == WaitRequest && g.toDevice
    requires m.cmd == CMD_TRANSFER_REQUEST && m.param2 > 0 && u.receiveOffset < u.length
    requires u.buffer.Scatter? ==> u.length <= u.buffer.list.dataSize
    ensures Update(u, m, g).post.Some? && Update(u, m, g).urb.submitted > 0
  {
    var v := u.(requestEnd := u.receiveOffset + Min(u.length - u.receiveOffset, m.param2));
    if u.buffer.Scatter? {
      NextRangeExact(u.buffer.list, u.receiveOffset, v.requestEnd - v.receiveOffset);
    }
    hide NextRange, ListBytes, SubmissionBytes;
  }
}
