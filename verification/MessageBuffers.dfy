/**
 Audio message buffers: each direction owns 20 data buffers that are handed to
 the device through a 21-slot ring, in rotation.
 */
module MessageBuffers {
  import opened Prelude
  import opened Rings
  import opened RingSafety

  const BUFFERS: nat := 20

  // -------------------------------------------------------------- in-place handler

  /** A message queue: its ring plus the rotation indices of its buffers. */
  datatype Channel = Channel(q: Queue, dataHead: nat, dataTail: nat)

  ghost predicate ChannelShaped(c: Channel) {
    Shaped(c.q) && c.dataHead < BUFFERS && c.dataTail < BUFFERS
  }

  /** Hands the next buffer of the rotation to the device. */
  function PostNext(c: Channel): Channel
    requires ChannelShaped(c)
  {
    c.(q := Push(Take(c.q), c.dataTail), dataTail := (c.dataTail + 1) % BUFFERS)
  }

  /** Posts buffers until the count is reached or a reservation fails; `open(i)` is the gate at the i-th attempt. */
  function PostMany(c: Channel, count: nat, open: nat -> bool, i: nat): (r: Channel)
    requires ChannelShaped(c)
    ensures ChannelShaped(r) && r.q.elCount == c.q.elCount
    decreases count
  {
    if count == 0 || !open(i) || c.q.available <= 0 then c else PostMany(PostNext(c), count - 1, open, i + 1)
  }

  /** Fetches one completion, reads its buffer, and releases the slot. */
  function ReceiveOne(c: Channel): Channel
    requires ChannelShaped(c)
  {
    c.(q := NotifyDone(Pop(c.q)), dataHead := (c.dataHead + 1) % BUFFERS)
  }

  function Unfetched(q: Queue): (n: nat)
    requires Shaped(q)
    ensures n == 0 <==> q.completionIndex == q.completionTail
  {
    if q.completionIndex <= q.completionTail then q.completionTail - q.completionIndex
    else q.completionTail + q.elCount - q.completionIndex
  }

  lemma ReceiveShrinks(c: Channel)
    requires ChannelShaped(c) && c.q.completionIndex != c.q.completionTail
    ensures ChannelShaped(ReceiveOne(c)) && Unfetched(ReceiveOne(c).q) == Unfetched(c.q) - 1
  {
    Wrap(c.q.completionIndex, c.q.elCount);
    Wrap(c.q.head, c.q.elCount);
  }

  function ReceiveAll(c: Channel): (r: Channel)
    requires ChannelShaped(c)
    ensures ChannelShaped(r)
    decreases Unfetched(c.q)
  {
    if c.q.completionIndex == c.q.completionTail then c
    else
      ReceiveShrinks(c);
      ReceiveAll(ReceiveOne(c))
  }

  /** The buffer and completion of every message one handler call delivers, in order. */
  function Delivered(c: Channel): seq<(nat, Completion)>
    requires ChannelShaped(c)
    decreases Unfetched(c.q)
  {
    if c.q.completionIndex == c.q.completionTail then []
    else
      ReceiveShrinks(c);
      [(c.dataHead, c.q.completions[c.q.completionIndex])] + Delivered(ReceiveOne(c))
  }

  /** A ring index some steps further on. */
  function RingAhead(x: nat, d: nat, n: nat): nat
    requires n > 0
  {
    (x + d) % n
  }

  lemma RingAheadStep(x: nat, d: nat, n: nat)
    requires n > 0 && d > 0
    ensures RingAhead((x + 1) % n, d - 1, n) == RingAhead(x, d, n)
  {
    RingDistance(x + 1, d - 1, n);
  }

  lemma RingAheadNone(x: nat, n: nat)
    requires x < n
    ensures RingAhead(x, 0, n) == x
  {
    DivModUnique(x, n, 0, x);
  }

  lemma {:induction false} DeliveredAhead(c: Channel, i: nat)
    requires ChannelShaped(c)
    ensures |Delivered(c)| == Unfetched(c.q)
    ensures RingAhead(c.q.completionIndex, i, c.q.elCount) < |c.q.completions|
    ensures i < |Delivered(c)| ==>
              Delivered(c)[i] == (RingAhead(c.dataHead, i, BUFFERS), c.q.completions[RingAhead(c.q.completionIndex, i, c.q.elCount)])
    decreases Unfetched(c.q)
  {
    assert RingAhead(c.q.completionIndex, i, c.q.elCount) < |c.q.completions|;
    hide RingAhead;
    if c.q.completionIndex != c.q.completionTail {
      ReceiveShrinks(c);
      ReceiveFields(c);
      hide ReceiveOne, Unfetched, ChannelShaped;
      DeliveredAhead(ReceiveOne(c), if i == 0 then 0 else i - 1);
      if i > 0 {
        RingAheadStep(c.dataHead, i, BUFFERS);
        RingAheadStep(c.q.completionIndex, i, c.q.elCount);
      } else {
        RingAheadNone(c.dataHead, BUFFERS);
        RingAheadNone(c.q.completionIndex, c.q.elCount);
      }
    }
  }

  lemma ReceiveFields(c: Channel)
    requires ChannelShaped(c) && c.q.completionIndex != c.q.completionTail
    ensures var r := ReceiveOne(c);
            && r.q.elCount == c.q.elCount && r.q.completions == c.q.completions && r.q.completionTail == c.q.completionTail
            && r.dataHead == (c.dataHead + 1) % BUFFERS && r.q.completionIndex == (c.q.completionIndex + 1) % c.q.elCount
            && c.dataHead < BUFFERS && c.q.completionIndex < c.q.elCount
  {
  }

  /** A handler call delivers every unfetched completion, in ring order, each from the next buffer of the rotation. */
  lemma DeliveredInOrder(c: Channel, i: nat)
    requires ChannelShaped(c)
    ensures |Delivered(c)| == Unfetched(c.q)
    ensures i < |Delivered(c)| ==>
              && Delivered(c)[i].0 == (c.dataHead + i) % BUFFERS
              && Delivered(c)[i].1 == c.q.completions[(c.q.completionIndex + i) % c.q.elCount]
  {
    hide Delivered, Unfetched;
    DeliveredAhead(c, i);
  }

  /** It leaves nothing unfetched and releases exactly the slots it fetched. */
  lemma {:induction false} ReceiveAllReleases(c: Channel)
    requires ChannelShaped(c)
    ensures Unfetched(ReceiveAll(c).q) == 0
    ensures ReceiveAll(c).q.available == c.q.available + Unfetched(c.q)
    ensures ReceiveAll(c).dataTail == c.dataTail && ReceiveAll(c).q.slots == c.q.slots
    decreases Unfetched(c.q)
  {
    if c.q.completionIndex != c.q.completionTail {
      ReceiveShrinks(c);
      ReceiveAllReleases(ReceiveOne(c));
    }
  }

  /** How many reservations are granted: until the count is reached, the gate is closed, or no slot is left. */
  function Granted(available: int, count: nat, open: nat -> bool, i: nat): (n: nat)
    ensures n <= count && (n > 0 ==> n <= available)
    ensures n == count || !open(i + n) || available <= n
    ensures forall k :: i <= k < i + n ==> open(k)
    decreases count
  {
    if count == 0 || !open(i) || available <= 0 then 0 else 1 + Granted(available - 1, count - 1, open, i + 1)
  }

  predicate Grants(available: int, count: nat, open: nat -> bool, i: nat) {
    count > 0 && open(i) && available > 0
  }

  lemma PostManyStep(c: Channel, count: nat, open: nat -> bool, i: nat)
    requires ChannelShaped(c)
    ensures Grants(c.q.available, count, open, i) ==>
              && ChannelShaped(PostNext(c)) && PostNext(c).q.available == c.q.available - 1
              && PostMany(c, count, open, i) == PostMany(PostNext(c), count - 1, open, i + 1)
              && Granted(c.q.available, count, open, i) == 1 + Granted(c.q.available - 1, count - 1, open, i + 1)
    ensures !Grants(c.q.available, count, open, i) ==>
              PostMany(c, count, open, i) == c && Granted(c.q.available, count, open, i) == 0
  {
    if Grants(c.q.available, count, open, i) {
      PostNextFields(c);
    }
    hide PostNext;
  }

  /** The d-th slot from the tail holds the d-th buffer of the rotation. */
  ghost predicate Handed(c: Channel, r: Channel, d: nat)
    requires ChannelShaped(c)
  {
    var j := RingAhead(c.q.tail, d, c.q.elCount);
    j < |r.q.slots| && r.q.slots[j] == RingAhead(c.dataTail, d, BUFFERS)
  }

  /** What posting one buffer leaves. */
  lemma PostNextFields(c: Channel)
    requires ChannelShaped(c) && c.q.available > 0
    ensures var c1 := PostNext(c);
            && ChannelShaped(c1) && c1.q.elCount == c.q.elCount && c1.q.available == c.q.available - 1
            && c1.dataHead == c.dataHead && c1.q == c.q.(available := c1.q.available, slots := c1.q.slots, tail := c1.q.tail)
            && c1.dataTail == (c.dataTail + 1) % BUFFERS && c1.q.tail == (c.q.tail + 1) % c.q.elCount
            && c1.q.slots == c.q.slots[c.q.tail := c.dataTail]
  {
  }

  lemma {:induction false} PostManyAhead(c: Channel, count: nat, open: nat -> bool, i: nat)
    requires ChannelShaped(c)
    ensures var n := Granted(c.q.available, count, open, i);
            var r := PostMany(c, count, open, i);
            && r.q == c.q.(available := c.q.available - n, slots := r.q.slots, tail := r.q.tail) && r.dataHead == c.dataHead
            && r.dataTail == RingAhead(c.dataTail, n, BUFFERS)
            && r.q.tail == RingAhead(c.q.tail, n, c.q.elCount)
    decreases count
  {
    hide RingAhead, PostNext;
    if count == 0 || !open(i) || c.q.available <= 0 {
      RingAheadNone(c.dataTail, BUFFERS);
      RingAheadNone(c.q.tail, c.q.elCount);
    } else {
      var n := Granted(c.q.available, count, open, i);
      PostNextFields(c);
      hide ChannelShaped;
      PostManyAhead(PostNext(c), count - 1, open, i + 1);
      RingAheadStep(c.dataTail, n, BUFFERS);
      RingAheadStep(c.q.tail, n, c.q.elCount);
    }
  }

  /** A slot none of the posts reaches keeps its content. */
  lemma {:induction false} PostManyElsewhere(c: Channel, count: nat, open: nat -> bool, i: nat, j: nat)
    requires ChannelShaped(c) && j < c.q.elCount
    requires forall d :: 0 <= d < Granted(c.q.available, count, open, i) ==> RingAhead(c.q.tail, d, c.q.elCount) != j
    ensures PostMany(c, count, open, i).q.slots[j] == c.q.slots[j]
    decreases count
  {
    hide RingAhead, PostNext;
    if count > 0 && open(i) && c.q.available > 0 {
      PostNextFields(c);
      RingAheadNone(c.q.tail, c.q.elCount);
      assert RingAhead(c.q.tail, 0, c.q.elCount) != j;
      var c1 := PostNext(c);
      forall d | 0 <= d < Granted(c1.q.available, count - 1, open, i + 1)
        ensures RingAhead(c1.q.tail, d, c1.q.elCount) != j
      {
        RingAheadStep(c.q.tail, d + 1, c.q.elCount);
        assert RingAhead(c.q.tail, d + 1, c.q.elCount) != j;
      }
      PostManyElsewhere(c1, count - 1, open, i + 1, j);
    }
  }

  lemma RingAheadApart(x: nat, d: nat, e: nat, n: nat)
    requires n > 0 && d < e < d + n
    ensures RingAhead(x, d, n) != RingAhead(x, e, n)
  {
    RingApart(x + d, x + e, n);
  }

  /** The d-th slot written holds the d-th buffer of the rotation, unless the posts went round the ring again. */
  lemma {:induction false} PostManySlot(c: Channel, count: nat, open: nat -> bool, i: nat, d: nat)
    requires ChannelShaped(c) && d < Granted(c.q.available, count, open, i) <= d + c.q.elCount
    ensures RingAhead(c.q.tail, d, c.q.elCount) < c.q.elCount
    ensures PostMany(c, count, open, i).q.slots[RingAhead(c.q.tail, d, c.q.elCount)] == RingAhead(c.dataTail, d, BUFFERS)
    decreases count
  {
    assert RingAhead(c.q.tail, d, c.q.elCount) < c.q.elCount;
    hide RingAhead, PostNext;
    if d > 0 {
      PostNextFields(c);
      hide ChannelShaped;
      RingAheadStep(c.q.tail, d, c.q.elCount);
      RingAheadStep(c.dataTail, d, BUFFERS);
      PostManySlot(PostNext(c), count - 1, open, i + 1, d - 1);
    } else {
      hide PostMany;
      FirstSlot(c, count, open, i);
      RingAheadNone(c.q.tail, c.q.elCount);
      RingAheadNone(c.dataTail, BUFFERS);
    }
  }

  lemma FirstSlot(c: Channel, count: nat, open: nat -> bool, i: nat)
    requires ChannelShaped(c) && 0 < Granted(c.q.available, count, open, i) <= c.q.elCount
    ensures PostMany(c, count, open, i).q.slots[c.q.tail] == c.dataTail
  {
    var c1 := PostNext(c);
    hide RingAhead, PostNext;
    PostNextFields(c);
    forall e | 0 <= e < Granted(c1.q.available, count - 1, open, i + 1)
      ensures RingAhead(c1.q.tail, e, c1.q.elCount) != c.q.tail
    {
      RingAheadNone(c.q.tail, c.q.elCount);
      RingAheadStep(c.q.tail, e + 1, c.q.elCount);
      RingAheadApart(c.q.tail, 0, e + 1, c.q.elCount);
    }
    PostManyElsewhere(c1, count - 1, open, i + 1, c.q.tail);
  }

  /**
   Reposting hands over as many buffers as reservations are granted: they go, in
   rotation, into the slots from the tail on, and nothing else changes.
   */
  lemma PostManyPosts(c: Channel, count: nat, open: nat -> bool, i: nat)
    requires ChannelShaped(c) && c.q.available <= c.q.elCount
    ensures var n := Granted(c.q.available, count, open, i);
            var r := PostMany(c, count, open, i);
            && r.q == c.q.(available := c.q.available - n, slots := r.q.slots, tail := (c.q.tail + n) % c.q.elCount)
            && r.dataTail == (c.dataTail + n) % BUFFERS && r.dataHead == c.dataHead
            && (forall d :: 0 <= d < n ==> Handed(c, r, d))
            && (forall j :: 0 <= j < c.q.elCount && (forall d :: 0 <= d < n ==> RingAhead(c.q.tail, d, c.q.elCount) != j) ==>
                  r.q.slots[j] == c.q.slots[j])
  {
    hide PostMany, Granted;
    PostManyAhead(c, count, open, i);
    var n, r := Granted(c.q.available, count, open, i), PostMany(c, count, open, i);
    forall d | 0 <= d < n
      ensures Handed(c, r, d)
    {
      PostManySlot(c, count, open, i, d);
    }
    forall j | 0 <= j < c.q.elCount && (forall d :: 0 <= d < n ==> RingAhead(c.q.tail, d, c.q.elCount) != j)
      ensures r.q.slots[j] == c.q.slots[j]
    {
      PostManyElsewhere(c, count, open, i, j);
    }
  }

  lemma ReceiveOn(c: Channel, messages: seq<(nat, Completion)>)
    requires ChannelShaped(c) && c.q.completionIndex != c.q.completionTail
    ensures ChannelShaped(ReceiveOne(c)) && ReceiveAll(c) == ReceiveAll(ReceiveOne(c))
    ensures messages + Delivered(c) == messages + [(c.dataHead, c.q.completions[c.q.completionIndex])] + Delivered(ReceiveOne(c))
  {
    ReceiveShrinks(c);
    hide ReceiveOne;
  }

  lemma ReceiveNone(c: Channel, messages: seq<(nat, Completion)>)
    requires ChannelShaped(c) && c.q.completionIndex == c.q.completionTail
    ensures ReceiveAll(c) == c && messages + Delivered(c) == messages
  {
  }

  class MessageQueue {
    const sq: SubmissionQueue
    var dataHead: nat
    var dataTail: nat

    ghost function View(): Channel
      reads this, sq, sq.slots, sq.completions
    {
      Channel(sq.View(), dataHead, dataTail)
    }

    ghost predicate Valid()
      reads this, sq, sq.slots, sq.completions
    {
      ChannelShaped(View())
    }

    constructor ()
      ensures Valid() && View() == Channel(Fresh(BUFFERS + 1), 0, 0)
      ensures fresh(sq) && fresh(sq.slots) && fresh(sq.completions)
    {
      sq := new SubmissionQueue(BUFFERS + 1);
      dataHead, dataTail := 0, 0;
    }

    method SubmitPending(count: nat, open: nat -> bool)
      requires Valid()
      modifies this, sq, sq.slots
      ensures Valid() && View() == PostMany(old(View()), count, open, 0)
    {
      var i := 0;
      hide PostNext;
      while i < count && open(i) && sq.available > 0
        invariant 0 <= i <= count && Valid()
        invariant PostMany(View(), count - i, open, i) == PostMany(old(View()), count, open, 0)
      {
        PostBuffer();
        i := i + 1;
      }
    }

    method PostBuffer()
      requires Valid() && sq.available > 0
      modifies this, sq, sq.slots
      ensures Valid() && View() == PostNext(old(View()))
    {
      var taken := sq.TryTake();
      sq.NextSubmission(dataTail);
      dataTail := (dataTail + 1) % BUFFERS;
    }

    method HandleInbound() returns (messages: seq<(nat, Completion)>)
      requires Valid()
      modifies this, sq
      ensures Valid() && View() == ReceiveAll(old(View())) && messages == Delivered(old(View()))
    {
      messages := [];
      var c := sq.NextCompletion();
      ghost var rest := old(View());
      hide ReceiveAll, Delivered, Unfetched;
      while c.Some?
        invariant ChannelShaped(rest) && ReceiveAll(rest) == ReceiveAll(old(View()))
        invariant messages + Delivered(rest) == Delivered(old(View()))
        invariant View() == rest.(q := Pop(rest.q))
        invariant c == if rest.q.completionIndex == rest.q.completionTail then None
                       else Some(rest.q.completions[rest.q.completionIndex])
        decreases Unfetched(rest.q)
      {
        ReceiveShrinks(rest);
        ReceiveOn(rest, messages);
        messages := messages + [(dataHead, c.value)];
        ReleaseBuffer();
        rest := ReceiveOne(rest);
        c := sq.NextCompletion();
      }
      ReceiveNone(rest, messages);
    }

    method ReleaseBuffer()
      requires Valid()
      modifies this, sq
      ensures Valid() && View() == old(View()).(q := NotifyDone(old(View()).q), dataHead := (old(dataHead) + 1) % BUFFERS)
    {
      dataHead := (dataHead + 1) % BUFFERS;
      sq.NotifySubmissionComplete();
    }
  }

  // ------------------------------------------------------------------ interleavings

  datatype Link = Link(sys: System, dataHead: nat, dataTail: nat)

  datatype LinkStep =
    | Post(t: nat)      // write the buffer at dataTail and hand it over
    | Receive           // fetch a completion and read the buffer at dataHead
    | Other(step: Step) // any other ring step

  predicate LinkEnabled(l: Link, step: LinkStep) {
    match step
    case Post(t) => Enabled(l.sys, Write(t, l.dataTail))
    case Receive => Enabled(l.sys, Fetch)
    case Other(s) => !s.Write? && !s.Fetch? && !s.TimeOut? && Enabled(l.sys, s)
  }

  function LinkNext(l: Link, step: LinkStep): Link
    requires Shaped(l.sys.q) && LinkEnabled(l, step)
  {
    match step
    case Post(t) => l.(sys := Next(l.sys, Write(t, l.dataTail)), dataTail := (l.dataTail + 1) % BUFFERS)
    case Receive => l.(sys := Next(l.sys, Fetch), dataHead := (l.dataHead + 1) % BUFFERS)
    case Other(s) => l.(sys := Next(l.sys, s))
  }

  ghost predicate LinkRuns(l: Link, steps: seq<LinkStep>, m: Link)
    decreases |steps|
  {
    if steps == [] then l == m
    else Shaped(l.sys.q) && LinkEnabled(l, steps[0]) && LinkRuns(LinkNext(l, steps[0]), steps[1..], m)
  }

  /** Position k of the log used buffer k mod 20, and the rotation indices follow the log. */
  ghost predicate LinkInv(l: Link) {
    && Inv(l.sys) && l.sys.timeouts == 0 && l.sys.q.elCount == BUFFERS + 1
    && l.dataTail == |l.sys.posted| % BUFFERS
    && l.dataHead == l.sys.consumed % BUFFERS
    && forall k :: 0 <= k < |l.sys.posted| ==> l.sys.posted[k] == k % BUFFERS
  }

  lemma LinkNextInv(l: Link, step: LinkStep)
    requires LinkInv(l) && LinkEnabled(l, step)
    ensures LinkInv(LinkNext(l, step))
  {
    hide Inv;
    match step
    case Post(t) =>
      NextInv(l.sys, Write(t, l.dataTail));
      RingStep(|l.sys.posted|, BUFFERS);
    case Receive =>
      NextInv(l.sys, Fetch);
      RingStep(l.sys.consumed, BUFFERS);
    case Other(s) =>
      NextInv(l.sys, s);
  }

  function LinkStart(): Link {
    Link(Start(BUFFERS + 1), 0, 0)
  }

  lemma {:induction false} LinkRunInv(l: Link, steps: seq<LinkStep>, m: Link)
    requires LinkInv(l) && LinkRuns(l, steps, m)
    ensures LinkInv(m)
    decreases |steps|
  {
    hide LinkInv;
    if steps != [] {
      LinkNextInv(l, steps[0]);
      LinkRunInv(LinkNext(l, steps[0]), steps[1..], m);
    }
  }

  /** Over every run, the k-th completion is read from the buffer handed over in the k-th submission. */
  lemma CompletionReadsItsBuffer(steps: seq<LinkStep>, m: Link)
    requires LinkRuns(LinkStart(), steps, m) && LinkEnabled(m, Receive)
    ensures m.sys.consumed < |m.sys.posted| && m.dataHead == m.sys.posted[m.sys.consumed]
  {
    StartInv(BUFFERS + 1);
    LinkRunInv(LinkStart(), steps, m);
    FetchReady(m.sys);
  }

  /** Over every run, a thread that may fill or post the next buffer finds it outside every unreleased submission. */
  lemma NextBufferIsFree(steps: seq<LinkStep>, m: Link, t: nat)
    requires LinkRuns(LinkStart(), steps, m) && LinkEnabled(m, Post(t))
    ensures forall k :: m.sys.notified <= k < |m.sys.posted| ==> m.sys.posted[k] != m.dataTail
  {
    StartInv(BUFFERS + 1);
    LinkRunInv(LinkStart(), steps, m);
    RoomToWrite(m.sys, t);
    forall k | m.sys.notified <= k < |m.sys.posted|
      ensures m.sys.posted[k] != m.dataTail
    {
      RingApart(k, |m.sys.posted|, BUFFERS);
    }
  }

  // ------------------------------------------------------------------ the handler as a run

  /** What the message queue object holds of a link. */
  function ChannelOf(l: Link): Channel {
    Channel(l.sys.q, l.dataHead, l.dataTail)
  }

  lemma {:induction false} LinkExtend(l: Link, steps: seq<LinkStep>, m: Link, step: LinkStep)
    requires LinkRuns(l, steps, m) && Shaped(m.sys.q) && LinkEnabled(m, step)
    ensures LinkRuns(l, steps + [step], LinkNext(m, step))
    decreases |steps|
  {
    if steps != [] {
      LinkExtend(LinkNext(l, steps[0]), steps[1..], m, step);
      assert (steps + [step])[1..] == steps[1..] + [step];
    } else {
      assert (steps + [step])[1..] == [];
    }
  }

  /** A granted reservation and the post it is for, by one thread. */
  lemma PostRun(l: Link, steps: seq<LinkStep>, m: Link, t: nat) returns (steps': seq<LinkStep>, m': Link)
    requires LinkRuns(l, steps, m) && ChannelShaped(ChannelOf(m)) && m.sys.q.available > 0 && PhaseOf(m.sys, t) == Idle
    ensures LinkRuns(l, steps', m') && PhaseOf(m'.sys, t) == Idle
    ensures ChannelOf(m') == PostNext(ChannelOf(m))
    ensures m'.sys.posted == m.sys.posted + [m.dataTail]
    ensures m'.sys.notified == m.sys.notified && m'.sys.consumed == m.sys.consumed && m'.sys.reported == m.sys.reported
  {
    hide LinkRuns;
    var s1 := Other(OpenGate);
    LinkExtend(l, steps, m, s1);
    var m1 := LinkNext(m, s1);
    var s2 := Other(ReadGate(t));
    LinkExtend(l, steps + [s1], m1, s2);
    var m2 := LinkNext(m1, s2);
    var s3 := Other(TryTake(t, false));
    LinkExtend(l, steps + [s1] + [s2], m2, s3);
    var m3 := LinkNext(m2, s3);
    var s4 := Other(Recheck(t));
    LinkExtend(l, steps + [s1] + [s2] + [s3], m3, s4);
    var m4 := LinkNext(m3, s4);
    LinkExtend(l, steps + [s1] + [s2] + [s3] + [s4], m4, Post(t));
    steps', m' := steps + [s1] + [s2] + [s3] + [s4] + [Post(t)], LinkNext(m4, Post(t));
  }

  /** Reposting is a run of the interleaving model: reservations and posts of one thread. */
  lemma {:induction false} PostManyRun(l: Link, steps: seq<LinkStep>, m: Link, t: nat, count: nat, open: nat -> bool, i: nat)
    returns (steps': seq<LinkStep>, m': Link)
    requires LinkRuns(l, steps, m) && ChannelShaped(ChannelOf(m)) && PhaseOf(m.sys, t) == Idle
    ensures LinkRuns(l, steps', m') && ChannelOf(m') == PostMany(ChannelOf(m), count, open, i)
    ensures |m'.sys.posted| == |m.sys.posted| + Granted(m.sys.q.available, count, open, i)
    ensures m'.sys.notified == m.sys.notified && m'.sys.consumed == m.sys.consumed && m'.sys.reported == m.sys.reported
    decreases count
  {
    hide LinkRuns, PostNext, ChannelShaped, PhaseOf, PostMany, Granted;
    steps', m' := steps, m;
    PostManyStep(ChannelOf(m), count, open, i);
    if count > 0 && open(i) && m.sys.q.available > 0 {
      var st, m1 := PostRun(l, steps, m, t);
      steps', m' := PostManyRun(l, st, m1, t, count - 1, open, i + 1);
    }
  }

  /** So is the handler: each message is a fetch, the read of its buffer, and a release. */
  lemma {:induction false} ReceiveAllRun(l: Link, steps: seq<LinkStep>, m: Link)
    returns (steps': seq<LinkStep>, m': Link)
    requires LinkRuns(l, steps, m) && LinkInv(m) && ChannelShaped(ChannelOf(m))
    ensures LinkRuns(l, steps', m') && LinkInv(m') && ChannelOf(m') == ReceiveAll(ChannelOf(m))
    ensures m'.sys.posted == m.sys.posted && m'.sys.reported == m.sys.reported
    ensures m'.sys.consumed == |m.sys.reported| && m'.sys.notified == m.sys.notified + (m'.sys.consumed - m.sys.consumed)
    decreases Unfetched(m.sys.q)
  {
    FetchReady(m.sys);
    steps', m' := steps, m;
    if m.sys.q.completionIndex != m.sys.q.completionTail {
      LinkNextInv(m, Receive);
      var m1 := LinkNext(m, Receive);
      LinkExtend(l, steps, m, Receive);
      var note := Other(Notify);
      LinkNextInv(m1, note);
      LinkExtend(l, steps + [Receive], m1, note);
      ReceiveShrinks(ChannelOf(m));
      var m2 := LinkNext(m1, note);
      assert ChannelOf(m2) == ReceiveOne(ChannelOf(m));
      hide LinkRuns, LinkInv;
      steps', m' := ReceiveAllRun(l, steps + [Receive] + [note], m2);
    }
  }

  /** Over every run, the submissions not yet released name different buffers. */
  lemma UnreleasedDiffer(steps: seq<LinkStep>, m: Link, j: nat, k: nat)
    requires LinkRuns(LinkStart(), steps, m) && m.sys.notified <= j < k < |m.sys.posted|
    ensures m.sys.posted[j] != m.sys.posted[k]
  {
    StartInv(BUFFERS + 1);
    LinkRunInv(LinkStart(), steps, m);
    assert |m.sys.posted| - m.sys.notified <= BUFFERS;
    RingApart(j, k, BUFFERS);
  }

  /**
   A call of the repost loop in any reachable state hands over the buffers that
   follow in the rotation, and none of them is in a submission not yet released.
   */
  lemma RepostsFreeBuffers(steps: seq<LinkStep>, m: Link, t: nat, count: nat, open: nat -> bool, d: nat, k: nat)
    requires LinkRuns(LinkStart(), steps, m) && PhaseOf(m.sys, t) == Idle
    ensures ChannelShaped(ChannelOf(m)) && m.sys.q.available <= m.sys.q.elCount
    ensures d < Granted(m.sys.q.available, count, open, 0) ==>
              Handed(ChannelOf(m), PostMany(ChannelOf(m), count, open, 0), d)
    ensures d < Granted(m.sys.q.available, count, open, 0) && m.sys.notified <= k < |m.sys.posted| ==>
              m.sys.posted[k] != RingAhead(m.dataTail, d, BUFFERS)
  {
    StartInv(BUFFERS + 1);
    LinkRunInv(LinkStart(), steps, m);
    assert ChannelShaped(ChannelOf(m)) && m.sys.q.available <= m.sys.q.elCount;
    hide LinkRuns, PostMany, Granted, Inv, RingAhead, LinkInv, ChannelShaped;
    if d < Granted(m.sys.q.available, count, open, 0) {
      if m.sys.notified <= k < |m.sys.posted| {
        AheadIsFree(m, d, k);
      }
      PostManySlot(ChannelOf(m), count, open, 0, d);
    }
  }

  /** The buffers of the rotation that free slots are left for are in no unreleased submission. */
  lemma AheadIsFree(m: Link, d: nat, k: nat)
    requires LinkInv(m) && d < m.sys.q.available && m.sys.notified <= k < |m.sys.posted|
    ensures m.sys.posted[k] != RingAhead(m.dataTail, d, BUFFERS)
  {
    assert |m.sys.posted| + d - m.sys.notified < BUFFERS;
    hide Inv;
    RingDistance(|m.sys.posted|, d, BUFFERS);
    RingApart(k, |m.sys.posted| + d, BUFFERS);
  }

  /** A call of the handler in any reachable state delivers each completion with the buffer it was for. */
  lemma HandlerReadsItsBuffers(steps: seq<LinkStep>, m: Link, i: nat)
    requires LinkRuns(LinkStart(), steps, m)
    ensures ChannelShaped(ChannelOf(m)) && m.sys.consumed <= |m.sys.reported| <= |m.sys.posted|
    ensures var d := Delivered(ChannelOf(m));
            && |d| == |m.sys.reported| - m.sys.consumed
            && (i < |d| ==> d[i] == (m.sys.posted[m.sys.consumed + i], m.sys.reported[m.sys.consumed + i]))
  {
    StartInv(BUFFERS + 1);
    LinkRunInv(LinkStart(), steps, m);
    hide LinkRuns;
    UnfetchedCounts(m.sys);
    hide Delivered, Unfetched, RingAhead, Inv;
    DeliveredAhead(ChannelOf(m), i);
    if i < |Delivered(ChannelOf(m))| {
      NextCompletionAt(m, i);
    }
  }

  /** Where the i-th completion not yet fetched is, and the buffer it was for. */
  lemma NextCompletionAt(m: Link, i: nat)
    requires LinkInv(m) && m.sys.consumed + i < |m.sys.reported|
    ensures m.sys.consumed + i < |m.sys.posted| && m.sys.posted[m.sys.consumed + i] == RingAhead(m.dataHead, i, BUFFERS)
    ensures RingAhead(m.sys.q.completionIndex, i, m.sys.q.elCount) < |m.sys.q.completions|
    ensures m.sys.q.completions[RingAhead(m.sys.q.completionIndex, i, m.sys.q.elCount)] == m.sys.reported[m.sys.consumed + i]
  {
    hide Accounted;
    RingDistance(m.sys.consumed, i, BUFFERS);
    RingDistance(m.sys.consumed, i, m.sys.q.elCount);
    assert Stored(m.sys.q.completions, m.sys.reported, m.sys.consumed);
  }

  lemma UnfetchedCounts(s: System)
    requires Inv(s) && s.timeouts == 0
    ensures Unfetched(s.q) == |s.reported| - s.consumed
  {
    var n, d := s.q.elCount, |s.reported| - s.consumed;
    assert d <= |s.posted| - s.notified <= n - 1;
    RingDistance(s.consumed, d, n);
    var x := s.consumed % n + d;
    if x < n {
      DivModUnique(x, n, 0, x);
    } else {
      DivModUnique(x, n, 1, x - n);
    }
  }
}
