/**
 Command tags of the audio message protocol: `S` and three digits, reused after 1000
 commands. A reply is matched to the waiter stored under the number in its tag.
 */
module ReplyTags {
  import opened Prelude

  const TAGS: nat := 1000

  // ------------------------------------------------------------------ the text of a tag

  function Digit(n: nat): char
    requires n < 10
  {
    ['0', '1', '2', '3', '4', '5', '6', '7', '8', '9'][n]
  }

  predicate IsDigit(c: char) {
    '0' <= c <= '9'
  }

  function DigitValue(c: char): nat
    requires IsDigit(c)
  {
    c as int - '0' as int
  }

  /** The tag written for a number. */
  function TagText(n: nat): string
    requires n < TAGS
  {
    ['S', Digit(n / 100), Digit(n / 10 % 10), Digit(n % 10)]
  }

  /** A decimal number, most significant digit first. */
  function Decimal(s: string): Option<nat> {
    if s == [] then Some(0)
    else
      var front := Decimal(s[..|s| - 1]);
      if front.Some? && IsDigit(s[|s| - 1]) then Some(10 * front.value + DigitValue(s[|s| - 1])) else None
  }

  /** The text up to a terminating zero. */
  function Text(s: string): string {
    if s == [] || s[0] == '\0' then [] else [s[0]] + Text(s[1..])
  }

  /** The kernel's integer parser in base 10: an optional sign, digits, and at most one newline after them. */
  function Parse(s: string): Option<int> {
    var body := if s != [] && s[|s| - 1] == '\n' then s[..|s| - 1] else s;
    var digits := if body != [] && (body[0] == '-' || body[0] == '+') then body[1..] else body;
    if digits == [] then None
    else
      match Decimal(digits)
      case None => None
      case Some(n) => Some(if body[0] == '-' then 0 - n else n)
  }

  /** Where a reply is looked up: not at all, at an index of the table, or beside it. */
  datatype Lookup = Rejected | At(tag: nat) | Beside(index: int)

  function Resolve(tag: string): (l: Lookup)
    requires |tag| == 4
    ensures l.At? ==> l.tag < TAGS
  {
    if tag[0] != 'S' then Rejected
    else
      match Parse(Text(tag[1..]))
      case None => Rejected
      case Some(n) => if 0 <= n < TAGS then At(n) else Beside(n)
  }

  lemma DigitRound(n: nat)
    requires n < 10
    ensures IsDigit(Digit(n)) && DigitValue(Digit(n)) == n && Digit(n) != '\0' && Digit(n) != '\n' && Digit(n) != '-' && Digit(n) != '+'
  {
  }

  lemma ThreeDigits(a: char, b: char, c: char)
    requires IsDigit(a) && IsDigit(b) && IsDigit(c)
    ensures Decimal([a, b, c]) == Some(100 * DigitValue(a) + 10 * DigitValue(b) + DigitValue(c))
  {
    assert [a, b, c][..2] == [a, b] && [a, b][..1] == [a] && [a][..0] == [];
    assert Decimal([a]) == Some(DigitValue(a));
    assert Decimal([a, b]) == Some(10 * DigitValue(a) + DigitValue(b));
  }

  lemma PlainText(a: char, b: char, c: char)
    requires a != '\0' && b != '\0' && c != '\0'
    ensures Text([a, b, c]) == [a, b, c]
  {
    assert [a, b, c][1..] == [b, c] && [b, c][1..] == [c] && [c][1..] == [];
    assert Text([c]) == [c];
    assert Text([b, c]) == [b, c];
  }

  /** Three digits are read as what they say. */
  lemma DigitsResolve(a: char, b: char, c: char)
    requires IsDigit(a) && IsDigit(b) && IsDigit(c)
    ensures Resolve(['S', a, b, c]) == At(100 * DigitValue(a) + 10 * DigitValue(b) + DigitValue(c))
  {
    var tag := ['S', a, b, c];
    assert tag[1..] == [a, b, c];
    PlainText(a, b, c);
    ThreeDigits(a, b, c);
    hide Decimal, Text;
  }

  lemma SplitNumber(n: nat)
    requires n < TAGS
    ensures n / 100 < 10 && n == 100 * (n / 100) + 10 * (n / 10 % 10) + n % 10
  {
  }

  /** Every tag the driver writes resolves to its own number. */
  lemma TagRoundTrip(n: nat)
    requires n < TAGS
    ensures Resolve(TagText(n)) == At(n)
  {
    SplitNumber(n);
    var a, b, c := n / 100, n / 10 % 10, n % 10;
    DigitRound(a);
    DigitRound(b);
    DigitRound(c);
    hide Digit, DigitValue, IsDigit, Resolve;
    DigitsResolve(Digit(a), Digit(b), Digit(c));
  }

  lemma {:induction false} DecimalBound(s: string)
    ensures Decimal(s).Some? ==> Decimal(s).value < TenTo(|s|)
  {
    if s != [] {
      DecimalBound(s[..|s| - 1]);
    }
  }

  function TenTo(k: nat): nat {
    if k == 0 then 1 else 10 * TenTo(k - 1)
  }

  lemma {:induction false} TenToMonotone(a: nat, b: nat)
    requires a <= b
    ensures TenTo(a) <= TenTo(b)
    decreases b
  {
    if a < b {
      TenToMonotone(a, b - 1);
    }
  }

  lemma {:induction false} TextLength(s: string)
    ensures |Text(s)| <= |s|
  {
    if s != [] {
      TextLength(s[1..]);
    }
  }

  lemma ParseBound(s: string)
    requires |s| <= 3
    ensures Parse(s).Some? ==> Parse(s).value < TAGS
  {
    var body := if s != [] && s[|s| - 1] == '\n' then s[..|s| - 1] else s;
    var digits := if body != [] && (body[0] == '-' || body[0] == '+') then body[1..] else body;
    DecimalBound(digits);
    TenToMonotone(|digits|, 3);
    assert TenTo(3) == 1000;
    hide Decimal, TenTo;
  }

  /** The lookup stays inside the table exactly for numbers that are not negative. */
  lemma InsideExactly(tag: string)
    requires |tag| == 4
    ensures Resolve(tag).At? <==> tag[0] == 'S' && Parse(Text(tag[1..])).Some? && Parse(Text(tag[1..])).value >= 0
    ensures Resolve(tag).Beside? ==> Resolve(tag).index < 0
  {
    TextLength(tag[1..]);
    ParseBound(Text(tag[1..]));
    hide Parse, Text;
  }

  // ------------------------------------------------------------------ commands and replies

  /** Commands are numbered as they are sent; the table holds the waiter stored under each tag. */
  datatype Table = Table(
    tag: nat,                  // the last tag written
    entries: seq<Option<nat>>,
    sent: nat,                 // on record: commands sent so far
    waiting: set<nat>)         // on record: commands neither answered nor timed out

  datatype Step = Send | Reply(text: string) | GiveUp(k: nat)

  predicate Shaped(t: Table) {
    |t.entries| == TAGS && t.tag < TAGS
  }

  predicate Enabled(step: Step) {
    step.Reply? ==> |step.text| == 4
  }

  /** The command a reply completes. */
  function Answers(t: Table, text: string): Option<nat>
    requires Shaped(t) && |text| == 4
  {
    match Resolve(text)
    case At(n) => t.entries[n]
    case _ => None
  }

  function Next(t: Table, step: Step): Table
    requires Shaped(t) && Enabled(step)
  {
    match step
    case Send =>
      var tag := (t.tag + 1) % TAGS;
      t.(tag := tag, entries := t.entries[tag := Some(t.sent)], sent := t.sent + 1, waiting := t.waiting + {t.sent})
    case Reply(text) =>
      var k := Answers(t, text);
      if k.None? then t
      else t.(entries := t.entries[Resolve(text).tag := None], waiting := t.waiting - {k.value})
    case GiveUp(k) =>
      var tag := TagOf(k);
      t.(entries := if t.entries[tag] == Some(k) then t.entries[tag := None] else t.entries, waiting := t.waiting - {k})
  }

  /** The tag of the k-th command, counted from zero. */
  function TagOf(k: nat): (n: nat)
    ensures n < TAGS
  {
    (k + 1) % TAGS
  }

  const EMPTY: Table := Table(0, seq(TAGS, _ => None), 0, {})

  ghost predicate Runs(t: Table, steps: seq<Step>, r: Table)
    decreases |steps|
  {
    if steps == [] then t == r
    else Shaped(t) && Enabled(steps[0]) && Runs(Next(t, steps[0]), steps[1..], r)
  }

  /** The last command sent under a tag that is still within one round of the counter. */
  predicate Recent(t: Table, k: nat) {
    k < t.sent < k + TAGS + 1
  }

  /** An entry is a recent, waiting command of its tag; and every recent waiting command has its entry. */
  ghost predicate Inv(t: Table) {
    && Shaped(t) && t.tag == t.sent % TAGS
    && (forall k :: k in t.waiting ==> k < t.sent)
    && (forall n :: 0 <= n < TAGS && t.entries[n].Some? ==>
          var k := t.entries[n].value; k in t.waiting && Recent(t, k) && TagOf(k) == n)
    && (forall k :: k in t.waiting && Recent(t, k) ==> t.entries[TagOf(k)] == Some(k))
  }

  /** Two commands of one tag are at least a round apart. */
  lemma SameTag(j: nat, k: nat)
    requires j < k && TagOf(j) == TagOf(k)
    ensures j + TAGS <= k
  {
    if k < j + TAGS {
      RingApart(j + 1, k + 1, TAGS);
    }
  }

  lemma SendInv(t: Table)
    requires Inv(t)
    ensures Inv(Next(t, Send))
  {
    var r := Next(t, Send);
    RingStep(t.sent, TAGS);
    assert r.tag == TagOf(t.sent) == r.sent % TAGS;
    forall n | 0 <= n < TAGS && r.entries[n].Some?
      ensures var k := r.entries[n].value; k in r.waiting && Recent(r, k) && TagOf(k) == n
    {
      if n != r.tag {
        var k := t.entries[n].value;
        assert t.entries[n] == r.entries[n] && Recent(t, k);
        if k + TAGS == t.sent {
          DivModUnique(t.sent + 1, TAGS, (k + 1) / TAGS + 1, (k + 1) % TAGS);
        }
      }
    }
    forall k | k in r.waiting && Recent(r, k)
      ensures r.entries[TagOf(k)] == Some(k)
    {
      if k != t.sent {
        assert k in t.waiting && Recent(t, k);
        if TagOf(k) == TagOf(t.sent) {
          SameTag(k, t.sent);
        }
      }
    }
  }

  lemma ReplyInv(t: Table, text: string)
    requires Inv(t) && |text| == 4
    ensures Inv(Next(t, Reply(text)))
  {
    hide Resolve, TagOf;
    var r := Next(t, Reply(text));
    if Answers(t, text).Some? {
      var n := Resolve(text).tag;
      var j := t.entries[n].value;
      assert TagOf(j) == n && Recent(t, j);
      forall k | k in r.waiting && Recent(r, k)
        ensures r.entries[TagOf(k)] == Some(k)
      {
        assert Recent(t, k) && t.entries[TagOf(k)] == Some(k);
      }
    }
  }

  lemma GiveUpInv(t: Table, k: nat)
    requires Inv(t)
    ensures Inv(Next(t, GiveUp(k)))
  {
    hide TagOf;
    var r := Next(t, GiveUp(k));
    forall j | j in r.waiting && Recent(r, j)
      ensures r.entries[TagOf(j)] == Some(j)
    {
      assert Recent(t, j) && t.entries[TagOf(j)] == Some(j);
    }
  }

  lemma NextInv(t: Table, step: Step)
    requires Inv(t) && Enabled(step)
    ensures Inv(Next(t, step))
  {
    hide Inv, Next;
    match step
    case Send => SendInv(t);
    case Reply(text) => ReplyInv(t, text);
    case GiveUp(k) => GiveUpInv(t, k);
  }

  lemma {:induction false} RunInv(t: Table, steps: seq<Step>, r: Table)
    requires Inv(t) && Runs(t, steps, r)
    ensures Inv(r)
    decreases |steps|
  {
    hide Inv, Next;
    if steps != [] {
      NextInv(t, steps[0]);
      RunInv(Next(t, steps[0]), steps[1..], r);
    }
  }

  /**
   Over every run, a reply that carries the k-th command's tag reaches that command
   exactly when it still waits and the counter has not come round to its tag again.
   Otherwise it reaches nobody, or a later command under the same tag.
   */
  lemma ReplyReachesExactly(steps: seq<Step>, t: Table, k: nat)
    requires Runs(EMPTY, steps, t) && k < t.sent
    ensures Shaped(t)
    ensures var a := Answers(t, TagText(TagOf(k)));
            && (a == Some(k) <==> k in t.waiting && t.sent <= k + TAGS)
            && (a.Some? && a.value != k ==> a.value in t.waiting && k + TAGS <= a.value && TagOf(a.value) == TagOf(k))
  {
    RunInv(EMPTY, steps, t);
    TagRoundTrip(TagOf(k));
    hide Runs, Resolve, TagText;
    var e := t.entries[TagOf(k)];
    if e.Some? && e.value != k {
      assert Recent(t, e.value) && TagOf(e.value) == TagOf(k);
      if k < e.value {
        SameTag(k, e.value);
      } else {
        SameTag(e.value, k);
      }
    }
    hide TagOf;
    assert k in t.waiting && Recent(t, k) ==> e == Some(k);
  }

  /** With at most 1000 commands outstanding no reply goes astray. */
  lemma NeverAstray(steps: seq<Step>, t: Table, text: string, n: nat)
    requires Runs(EMPTY, steps, t) && |text| == 4 && Shaped(t)
    requires forall k :: k in t.waiting ==> t.sent <= k + TAGS
    ensures Resolve(text) == At(n) ==>
            (Answers(t, text).Some? <==> exists k :: k in t.waiting && TagOf(k) == n)
  {
    RunInv(EMPTY, steps, t);
    hide Runs, Resolve, TagOf;
    if Resolve(text) == At(n) {
      if k :| k in t.waiting && TagOf(k) == n {
        assert Recent(t, k);
      }
    }
  }

  // ------------------------------------------------------------------ the object

  class ReplyTable {
    const entries: array<Option<nat>>
    var tag: nat
    ghost var sent: nat
    ghost var waiting: set<nat>

    ghost function View(): Table
      reads this, entries
    {
      Table(tag, entries[..], sent, waiting)
    }

    constructor ()
      ensures View() == EMPTY && fresh(entries)
    {
      entries := new Option<nat>[TAGS](_ => None);
      tag, sent, waiting := 0, 0, {};
      new;
      assert entries[..] == EMPTY.entries;
    }

    /** Writes the next tag and stores its waiter. */
    method SendCommand(waiter: nat) returns (text: string)
      requires Shaped(View()) && waiter == sent
      modifies this, entries
      ensures View() == Next(old(View()), Send) && text == TagText(tag)
    {
      tag := (tag + 1) % TAGS;
      text := TagText(tag);
      entries[tag] := Some(waiter);
      sent, waiting := sent + 1, waiting + {sent};
    }

    /** Completes the waiter under the reply's tag, if there is one. */
    method HandleReply(text: string) returns (completed: Option<nat>)
      requires Shaped(View()) && |text| == 4 && !Resolve(text).Beside?
      modifies this, entries
      ensures View() == Next(old(View()), Reply(text)) && completed == Answers(old(View()), text)
    {
      hide Parse, Text;
      var at := Resolve(text);
      if !at.At? {
        return None;
      }
      completed := entries[at.tag];
      if completed.Some? {
        entries[at.tag] := None;
        waiting := waiting - {completed.value};
      }
    }

    /** A waiter that timed out withdraws, unless its place has been taken. */
    method Withdraw(waiter: nat, mine: nat)
      requires Shaped(View()) && mine == TagOf(waiter)
      modifies this, entries
      ensures View() == Next(old(View()), GiveUp(waiter))
    {
      if entries[mine] == Some(waiter) {
        entries[mine] := None;
      }
      waiting := waiting - {waiter};
    }
  }
}
