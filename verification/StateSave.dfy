/**
 Stateful suspend: the driver offers the firmware a buffer for its state, and
 grows it on request until the state is saved or the negotiation fails.
 Shifts and masks of the 64-bit mailbox word are written as quotients and
 remainders by powers of two.
 */
module StateSave {
  import opened Prelude

  const PAGE: nat := 0x1000
  const MAX_SIZE: nat := 0x10_0000
  const SAVE_STATE_AND_SLEEP: nat := 0x17
  const GROW: nat := 0x19
  const COMPLETE: nat := 0x1A
  const TYPE_UNIT: nat := 0x400_0000_0000_0000   // 2^58
  const ADDR_LIMIT: nat := 0x1000_0000_0000      // 2^44, the end of the address mask
  const DMA_LIMIT: nat := 0x20_0000_0000         // 2^37, the device's DMA mask
  const WORD: nat := 0x1_0000_0000_0000_0000

  // ------------------------------------------------------------------ mailbox words

  function Message(kind: nat, value: nat): nat {
    (kind * TYPE_UNIT) % WORD + value % TYPE_UNIT
  }

  function Kind(word: nat): nat {
    word / TYPE_UNIT
  }

  function Value(word: nat): nat {
    word % TYPE_UNIT
  }

  /** The bits of an address the message carries: a page number of 32 bits. */
  function Masked(addr: nat): nat {
    (addr / PAGE % 0x1_0000_0000) * PAGE
  }

  function SaveMessage(addr: nat, size: nat): nat {
    Message(SAVE_STATE_AND_SLEEP, Masked(addr) + size / PAGE)
  }

  /** What the firmware reads from a save message. */
  function OfferedAddress(word: nat): nat {
    Value(word) / PAGE * PAGE
  }

  function OfferedPages(word: nat): nat {
    Value(word) % PAGE
  }

  lemma MessageFields(kind: nat, value: nat)
    requires kind < 64 && value < TYPE_UNIT
    ensures Kind(Message(kind, value)) == kind && Value(Message(kind, value)) == value
  {
    DivModUnique(kind * TYPE_UNIT, WORD, 0, kind * TYPE_UNIT);
    DivModUnique(value, TYPE_UNIT, 0, value);
    DivModUnique(kind * TYPE_UNIT + value, TYPE_UNIT, kind, value);
  }

  /** A save message always names the buffer's page count, and its address exactly when that is below 2^44. */
  lemma SaveMessageExact(addr: nat, size: nat)
    requires addr % PAGE == 0 && size % PAGE == 0 && size <= MAX_SIZE
    ensures var word := SaveMessage(addr, size);
            && Kind(word) == SAVE_STATE_AND_SLEEP
            && OfferedPages(word) * PAGE == size
            && (OfferedAddress(word) == addr <==> addr < ADDR_LIMIT)
  {
    var number := addr / PAGE;
    var low := number % 0x1_0000_0000;
    assert addr == number * PAGE;
    MessageFields(SAVE_STATE_AND_SLEEP, low * PAGE + size / PAGE);
    DivModUnique(low * PAGE + size / PAGE, PAGE, low, size / PAGE);
    if number < 0x1_0000_0000 {
      DivModUnique(number, 0x1_0000_0000, 0, number);
    }
    hide Message, Kind, Value;
  }

  // ------------------------------------------------------------------ the negotiation

  /** What happens in one round: the allocation, the mapping, the mailbox exchange. */
  datatype Round = Round(granted: bool, mapped: Option<nat>, sendStatus: int, reply: nat)

  type Env = nat -> Round

  /** On record: the word sent, the address it was built from and the size of the buffer there. */
  datatype Sent = Sent(word: nat, addr: nat, size: nat)

  datatype Outcome = Outcome(status: int, buffer: Option<nat>, sent: seq<Sent>)

  predicate SizeOk(size: nat) {
    PAGE <= size <= MAX_SIZE && size % PAGE == 0
  }

  function Align(size: nat): nat {
    (size + PAGE - 1) / PAGE * PAGE
  }

  lemma AlignGrows(size: nat, requested: nat)
    requires SizeOk(size) && size < requested <= MAX_SIZE
    ensures SizeOk(Align(requested)) && size + PAGE <= Align(requested) && requested <= Align(requested) < requested + PAGE
  {
    assert size == size / PAGE * PAGE;
  }

  /** How one exchange over an allocated buffer ends. */
  datatype Turn = Ended(status: int, sent: seq<Sent>) | Grows(next: nat, sent: seq<Sent>)

  function Exchange(size: nat, r: Round): (t: Turn)
    requires SizeOk(size)
    ensures t.Grows? ==> SizeOk(t.next) && size + PAGE <= t.next
    ensures |t.sent| <= 1
  {
    if r.mapped.None? then Ended(ENOMEM, [])
    else if r.mapped.value % PAGE != 0 then Ended(EINVAL, [])
    else
      var sent := [Sent(SaveMessage(r.mapped.value, size), r.mapped.value, size)];
      if r.sendStatus != 0 then Ended(r.sendStatus, sent)
      else if Kind(r.reply) == COMPLETE then Ended(0, sent)
      else if Kind(r.reply) != GROW then Ended(EINVAL, sent)
      else if Value(r.reply) <= size || Value(r.reply) > MAX_SIZE then Ended(EINVAL, sent)
      else
        AlignGrows(size, Value(r.reply));
        Grows(Align(Value(r.reply)), sent)
  }

  /** Rounds from the k-th on, with a buffer of this size asked for. */
  function Negotiate(env: Env, k: nat, size: nat): (o: Outcome)
    requires SizeOk(size)
    ensures |o.sent| <= (MAX_SIZE - size) / PAGE + 1
    decreases MAX_SIZE - size
  {
    if !env(k).granted then Outcome(ENOMEM, None, [])
    else
      match Exchange(size, env(k))
      case Ended(status, sent) => Outcome(status, if status == 0 then Some(size) else None, sent)
      case Grows(next, sent) =>
        var o := Negotiate(env, k + 1, next);
        o.(sent := sent + o.sent)
  }

  /** One exchange sends at most one message, for the buffer at hand and the address mapped; it ends well only when confirmed. */
  lemma ExchangeSends(size: nat, r: Round)
    requires SizeOk(size)
    ensures var t := Exchange(size, r);
            && (t.sent != [] ==> t.sent[0].size == size && r.mapped == Some(t.sent[0].addr) && t.sent[0].addr % PAGE == 0
                                 && t.sent[0].word == SaveMessage(t.sent[0].addr, size))
            && (t.Grows? ==> t.sent != [])
            && (t == Ended(0, t.sent) ==> t.sent != [] && Kind(r.reply) == COMPLETE && r.sendStatus == 0)
  {
    hide SaveMessage, Kind, Value, Align;
  }

  /** Each message offers a well-formed buffer, strictly larger than the one before. */
  ghost predicate Growing(sent: seq<Sent>, above: nat) {
    && (forall i :: 0 <= i < |sent| ==> SizeOk(sent[i].size) && sent[i].size >= above && sent[i].addr % PAGE == 0)
    && (forall i, j :: 0 <= i < j < |sent| ==> sent[i].size < sent[j].size)
    && (forall i :: 0 <= i < |sent| ==> sent[i].word == SaveMessage(sent[i].addr, sent[i].size))
  }

  lemma {:induction false} NegotiateGrows(env: Env, k: nat, size: nat)
    requires SizeOk(size)
    ensures Growing(Negotiate(env, k, size).sent, size)
    decreases MAX_SIZE - size
  {
    hide Exchange, SaveMessage;
    var t := Exchange(size, env(k));
    ExchangeSends(size, env(k));
    if env(k).granted && t.Grows? {
      NegotiateGrows(env, k + 1, t.next);
    }
  }

  lemma {:induction false} KeptConfirmed(env: Env, k: nat, size: nat)
    requires SizeOk(size)
    ensures var o := Negotiate(env, k, size);
            && (o.buffer.Some? <==> o.status == 0)
            && (o.status == 0 ==> o.sent != [] && o.buffer == Some(o.sent[|o.sent| - 1].size)
                                  && Kind(env(k + |o.sent| - 1).reply) == COMPLETE && env(k + |o.sent| - 1).sendStatus == 0)
    decreases MAX_SIZE - size
  {
    hide Exchange, SaveMessage, Kind;
    var t := Exchange(size, env(k));
    ExchangeSends(size, env(k));
    if env(k).granted && t.Grows? {
      KeptConfirmed(env, k + 1, t.next);
    }
  }

  /** The round has a page-aligned buffer to offer. */
  predicate Offers(r: Round) {
    r.granted && r.mapped.Some? && r.mapped.value % PAGE == 0
  }

  /** The firmware asks for more than this, and for no more than the driver gives. */
  predicate AsksForMore(size: nat, r: Round) {
    r.sendStatus == 0 && Kind(r.reply) == GROW && size < Value(r.reply) <= MAX_SIZE
  }

  /** The status of a round that ends the negotiation. */
  function FinalStatus(r: Round): int {
    if !r.granted || r.mapped.None? then ENOMEM
    else if r.mapped.value % PAGE != 0 then EINVAL
    else if r.sendStatus != 0 then r.sendStatus
    else if Kind(r.reply) == COMPLETE then 0
    else EINVAL
  }

  /** The size a reply asks for, in whole pages. */
  predicate FitsRequest(size: nat, r: Round) {
    size % PAGE == 0 && Value(r.reply) <= size < Value(r.reply) + PAGE
  }

  /** The turn an exchange takes, and the size it goes on with. */
  lemma ExchangeTurns(size: nat, r: Round)
    requires SizeOk(size) && r.granted
    ensures var t := Exchange(size, r);
            && (t.sent != [] <==> Offers(r))
            && (t.Grows? <==> Offers(r) && AsksForMore(size, r))
            && (t.Grows? ==> FitsRequest(t.next, r))
            && (t.Ended? ==> t.status == FinalStatus(r))
  {
    hide SaveMessage, Kind, Value;
    if AsksForMore(size, r) {
      AlignGrows(size, Value(r.reply));
    }
  }

  /**
   What the firmware replies decides the rest: the first message offers the size at
   hand; another one follows exactly when the last one was answered with a request for
   more and there is a buffer for it, and it offers what was asked for, in whole
   pages; the status is that of the round in which the messages stop.
   */
  ghost predicate Decided(o: Outcome, env: Env, k: nat, size: nat, i: nat) {
    && (o.sent != [] <==> Offers(env(k)))
    && (o.sent != [] ==> o.sent[0].size == size)
    && (i < |o.sent| ==> (i + 1 < |o.sent| <==> AsksForMore(o.sent[i].size, env(k + i)) && Offers(env(k + i + 1))))
    && (i + 1 < |o.sent| ==> FitsRequest(o.sent[i + 1].size, env(k + i)))
    && (i + 1 == |o.sent| ==>
          o.status == FinalStatus(if AsksForMore(o.sent[i].size, env(k + i)) then env(k + i + 1) else env(k + i)))
    && (o.sent == [] ==> o.status == FinalStatus(env(k)))
  }

  lemma DecidedFirst(o: Outcome, s: Sent, env: Env, k: nat, next: nat)
    requires Decided(o, env, k + 1, next, 0)
    requires Offers(env(k)) && AsksForMore(s.size, env(k)) && FitsRequest(next, env(k))
    ensures Decided(o.(sent := [s] + o.sent), env, k, s.size, 0)
  {
    hide Offers, AsksForMore, FitsRequest, FinalStatus;
  }

  lemma DecidedLater(o: Outcome, s: Sent, env: Env, k: nat, next: nat, i: nat)
    requires i > 0 && Decided(o, env, k + 1, next, i - 1) && Offers(env(k))
    ensures Decided(o.(sent := [s] + o.sent), env, k, s.size, i)
  {
    hide Offers, AsksForMore, FitsRequest, FinalStatus;
    assert (k + 1) + (i - 1) == k + i;
  }

  lemma {:induction false} RepliesDecide(env: Env, k: nat, size: nat, i: nat)
    requires SizeOk(size)
    ensures Decided(Negotiate(env, k, size), env, k, size, i)
    decreases MAX_SIZE - size
  {
    hide Exchange, SaveMessage, Kind, Value;
    if env(k).granted {
      var t := Exchange(size, env(k));
      ExchangeSends(size, env(k));
      ExchangeTurns(size, env(k));
      hide Offers, FinalStatus, AsksForMore, FitsRequest;
      if t.Grows? {
        var o := Negotiate(env, k + 1, t.next);
        assert t.sent == [t.sent[0]];
        assert Negotiate(env, k, size) == o.(sent := [t.sent[0]] + o.sent);
        hide Decided;
        if i == 0 {
          RepliesDecide(env, k + 1, t.next, 0);
          DecidedFirst(o, t.sent[0], env, k, t.next);
        } else {
          RepliesDecide(env, k + 1, t.next, i - 1);
          DecidedLater(o, t.sent[0], env, k, t.next, i);
        }
      }
    }
  }

  /**
   For every sequence of replies: at most 256 messages, buffers strictly growing in
   4 KiB multiples up to 1 MiB, each of the size the reply before it asked for, and
   every message naming exactly the buffer it offers, given the addresses the
   device's DMA mask allows.
   */
  lemma NegotiationLaw(env: Env, i: nat, j: nat)
    requires forall k :: env(k).mapped.Some? ==> env(k).mapped.value < DMA_LIMIT
    ensures var sent := Negotiate(env, 0, PAGE).sent;
            && |sent| <= 256
            && (i < j < |sent| ==> sent[i].size < sent[j].size)
            && (i + 1 < |sent| ==> FitsRequest(sent[i + 1].size, env(i)))
            && (i < |sent| ==> SizeOk(sent[i].size) && Kind(sent[i].word) == SAVE_STATE_AND_SLEEP
                               && OfferedPages(sent[i].word) * PAGE == sent[i].size)
            && (i < |sent| ==> OfferedAddress(sent[i].word) == sent[i].addr)
  {
    NegotiateGrows(env, 0, PAGE);
    SentFromEnv(env, 0, PAGE);
    RepliesDecide(env, 0, PAGE, i);
    var sent := Negotiate(env, 0, PAGE).sent;
    hide SaveMessage, Kind, OfferedPages, OfferedAddress, Negotiate;
    if i < |sent| {
      assert env(i).mapped == Some(sent[i].addr);
      SaveMessageExact(sent[i].addr, sent[i].size);
    }
  }

  /**
   A buffer is kept exactly when the save succeeded, that is exactly when the last
   message went through and the firmware confirmed it; the buffer is the one it offered.
   */
  lemma KeptExactly(env: Env, k: nat, size: nat)
    requires SizeOk(size)
    ensures var o := Negotiate(env, k, size);
            && (o.buffer.Some? <==> o.status == 0)
            && (o.status == 0 <==> o.sent != [] && env(k + |o.sent| - 1).sendStatus == 0
                                   && Kind(env(k + |o.sent| - 1).reply) == COMPLETE)
            && (o.status == 0 ==> o.buffer == Some(o.sent[|o.sent| - 1].size))
  {
    hide Negotiate, Kind;
    KeptConfirmed(env, k, size);
    var sent := Negotiate(env, k, size).sent;
    if sent == [] {
      RepliesDecide(env, k, size, 0);
    } else {
      RepliesDecide(env, k, size, |sent| - 1);
      LastOffered(env, k, size);
    }
  }

  lemma LastOffered(env: Env, k: nat, size: nat)
    requires SizeOk(size) && Negotiate(env, k, size).sent != []
    ensures Offers(env(k + |Negotiate(env, k, size).sent| - 1))
  {
    hide Negotiate, Kind, Value, FinalStatus, Offers;
    var n := |Negotiate(env, k, size).sent|;
    if n == 1 {
      RepliesDecide(env, k, size, 0);
    } else {
      RepliesDecide(env, k, size, n - 2);
    }
  }

  /** The addresses sent are the addresses mapped. */
  lemma {:induction false} SentFromEnv(env: Env, k: nat, size: nat)
    requires SizeOk(size)
    ensures var sent := Negotiate(env, k, size).sent;
            forall j :: k <= j < k + |sent| ==> env(j).mapped == Some(sent[j - k].addr)
    decreases MAX_SIZE - size
  {
    hide Exchange, SaveMessage;
    var t := Exchange(size, env(k));
    ExchangeSends(size, env(k));
    if env(k).granted && t.Grows? {
      SentFromEnv(env, k + 1, t.next);
      var sent, rest := Negotiate(env, k, size).sent, Negotiate(env, k + 1, t.next).sent;
      forall j | k <= j < k + |sent|
        ensures env(j).mapped == Some(sent[j - k].addr)
      {
        if j > k {
          assert sent[j - k] == rest[j - (k + 1)];
        }
      }
    }
  }

  // ------------------------------------------------------------------ the object

  class SuspendState {
    var buffer: Option<nat>     // size of the live buffer
    var dmaAddr: nat
    var valid: bool             // a saved state can be restored
    ghost var sent: seq<Sent>
    ghost var allocations: nat
    ghost var freed: nat

    /** No buffer is lost and none is freed twice. */
    ghost predicate Balanced()
      reads this
    {
      allocations == freed + if buffer.Some? then 1 else 0
    }

    constructor ()
      ensures buffer == None && dmaAddr == 0 && !valid && sent == [] && Balanced()
    {
      buffer, dmaAddr, valid, sent, allocations, freed := None, 0, false, [], 0, 0;
    }

    method Free()
      requires Balanced()
      modifies this
      ensures buffer == None && Balanced() && valid == old(valid) && sent == old(sent)
      ensures dmaAddr == if old(buffer).Some? then 0 else old(dmaAddr)
    {
      if buffer.Some? {
        buffer, dmaAddr := None, 0;
        freed := freed + 1;
      }
    }

    method Allocate(size: nat, granted: bool) returns (status: int)
      requires Balanced() && buffer == None
      modifies this
      ensures Balanced() && valid == old(valid) && sent == old(sent) && dmaAddr == 0
      ensures if granted then status == 0 && buffer == Some(size) else status == ENOMEM && buffer == None
    {
      dmaAddr := 0;
      if !granted {
        return ENOMEM;
      }
      buffer, allocations := Some(size), allocations + 1;
      return 0;
    }

    /** Maps the buffer, sends it, and reads the reply; a failed round frees the buffer. */
    method Offer(size: nat, r: Round) returns (status: int, next: nat)
      requires Balanced() && buffer == Some(size) && SizeOk(size) && !valid
      modifies this
      ensures Balanced() && dmaAddr == 0 && sent == old(sent) + Exchange(size, r).sent
      ensures match Exchange(size, r)
              case Grows(n, _) => next == n && buffer == Some(size) && !valid
              case Ended(e, _) => next == 0 && status == e && buffer == (if e == 0 then Some(size) else None) && valid == (e == 0)
    {
      next, status := 0, 0;
      hide SaveMessage, Kind, Value, Align;
      if r.mapped.None? {
        dmaAddr := 0;
        Free();
        return ENOMEM, 0;
      }
      dmaAddr := r.mapped.value;
      if dmaAddr % PAGE != 0 {
        dmaAddr := 0;
        Free();
        return EINVAL, 0;
      }
      sent := sent + [Sent(SaveMessage(dmaAddr, size), dmaAddr, size)];
      dmaAddr := 0;
      if r.sendStatus != 0 {
        Free();
        return r.sendStatus, 0;
      }
      if Kind(r.reply) == COMPLETE {
        valid := true;
        return 0, 0;
      }
      if Kind(r.reply) != GROW || Value(r.reply) <= size || Value(r.reply) > MAX_SIZE {
        Free();
        return EINVAL, 0;
      }
      next := Align(Value(r.reply));
    }

    method TryState(env: Env) returns (status: int)
      requires Balanced()
      modifies this
      ensures Balanced() && dmaAddr == 0
      ensures var o := Negotiate(env, 0, PAGE);
              status == o.status && buffer == o.buffer && valid == (status == 0) && sent == old(sent) + o.sent
    {
      valid := false;
      Free();
      status := Allocate(PAGE, env(0).granted);
      var k, size := 0, PAGE;
      ghost var o, rest := Negotiate(env, 0, PAGE), Negotiate(env, 0, PAGE);
      hide Exchange, Negotiate, Record;
      if status != 0 {
        Refused(env, 0, PAGE);
      }
      while status == 0
        invariant Balanced() && !valid && dmaAddr == 0 && SizeOk(size)
        invariant status == 0 ==> buffer == Some(size) && env(k).granted
        invariant status != 0 ==> status == ENOMEM && buffer == None && rest == Outcome(ENOMEM, None, [])
        invariant rest == Negotiate(env, k, size) && o.status == rest.status && o.buffer == rest.buffer
        invariant Record(old(sent), o) == Record(sent, rest)
        decreases MAX_SIZE - size, status == 0
      {
        var next: nat;
        ghost var t, before := Exchange(size, env(k)), sent;
        Answered(env, k, size);
        status, next := Offer(size, env(k));
        if next == 0 {
          RecordDone(old(sent), o, before, rest);
          return;
        }
        rest := Negotiate(env, k + 1, next);
        RecordOn(before, t.sent, rest);
        k, size := k + 1, next;
        Free();
        status := Allocate(size, env(k).granted);
        if status != 0 {
          Refused(env, k, size);
        }
      }
      RecordDone(old(sent), o, sent, rest);
    }
  }

  /** Everything sent once the rest of the negotiation is over. */
  function Record(sent: seq<Sent>, rest: Outcome): seq<Sent> {
    sent + rest.sent
  }

  lemma RecordDone(first: seq<Sent>, o: Outcome, sent: seq<Sent>, rest: Outcome)
    requires Record(first, o) == Record(sent, rest)
    ensures first + o.sent == sent + rest.sent
  {
  }

  lemma RecordOn(sent: seq<Sent>, more: seq<Sent>, rest: Outcome)
    ensures Record(sent, rest.(sent := more + rest.sent)) == Record(sent + more, rest)
  {
    assert sent + (more + rest.sent) == (sent + more) + rest.sent;
  }

  lemma Refused(env: Env, k: nat, size: nat)
    requires SizeOk(size) && !env(k).granted
    ensures Negotiate(env, k, size) == Outcome(ENOMEM, None, [])
  {
  }

  lemma Answered(env: Env, k: nat, size: nat)
    requires SizeOk(size) && env(k).granted
    ensures match Exchange(size, env(k))
            case Ended(status, sent) => Negotiate(env, k, size) == Outcome(status, if status == 0 then Some(size) else None, sent)
            case Grows(next, sent) =>
              var o := Negotiate(env, k + 1, next);
              Negotiate(env, k, size) == o.(sent := sent + o.sent)
  {
    hide Exchange;
  }
}
