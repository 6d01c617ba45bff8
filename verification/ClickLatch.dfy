/** The two-level click latch over all contacts: a button at one force, a force click at a higher one. */
module ClickLatch {
  import opened Prelude
  import opened ForceFilter

  const CONTACTS: nat := 16
  const TOLERANCE: nat := 3

  datatype Path = Path(filter: Filter, present: bool, missing: nat)   // missing is an unsigned 8-bit counter

  datatype Latch = Latch(button: bool, forceClick: bool)

  datatype Force = Force(paths: seq<Path>, latch: Latch)

  /** Module parameters, which may change between two reports. */
  datatype Settings = Settings(strength: nat, percent: nat, enabled: bool)

  datatype Thresholds = Thresholds(press: int, release: int, forcePress: int, forceRelease: int)

  function Multiplier(strength: nat): nat {
    if strength == 0 then 52429 else if strength == 2 then 78643 else 65536
  }

  function Limits(s: Settings): Thresholds {
    var press := ToS32(125 * ONE * Multiplier(s.strength) / ONE);
    var release := ToS32((93 * ONE + 49152) * Multiplier(s.strength) / ONE);
    Thresholds(press, release, ToS32(press * s.percent / 100), ToS32(release * s.percent / 100))
  }

  /** A path still counts while it is only briefly missing. */
  predicate Counts(p: Path) {
    p.present || p.missing < TOLERANCE
  }

  /** The first path of greatest force among the first n that count. */
  function Strongest(paths: seq<Path>, n: nat): (s: Option<nat>)
    requires n <= |paths|
    ensures s.Some? ==> s.value < n && Counts(paths[s.value])
  {
    if n == 0 then None
    else
      var s := Strongest(paths, n - 1);
      if !Counts(paths[n - 1]) then s
      else if s.None? || paths[n - 1].filter.hysteretic > paths[s.value].filter.hysteretic then Some(n - 1)
      else s
  }

  lemma {:induction false} StrongestIsGreatest(paths: seq<Path>, n: nat)
    requires n <= |paths|
    ensures Strongest(paths, n).None? <==> forall i :: 0 <= i < n ==> !Counts(paths[i])
    ensures var s := Strongest(paths, n);
            s.Some? ==> forall i :: 0 <= i < n && Counts(paths[i]) ==>
              && paths[i].filter.hysteretic <= paths[s.value].filter.hysteretic
              && (i < s.value ==> paths[i].filter.hysteretic < paths[s.value].filter.hysteretic)
  {
    if n > 0 {
      StrongestIsGreatest(paths, n - 1);
    }
  }

  function StrongestForce(paths: seq<Path>): Option<int> {
    var s := Strongest(paths, |paths|);
    if s.None? then None else Some(paths[s.value].filter.hysteretic)
  }

  /** One latch: pressed at or above one force, released below another or when no path counts. */
  function Hold(down: bool, force: Option<int>, press: int, release: int): bool {
    force.Some? && force.value >= if down then release else press
  }

  function Decide(l: Latch, t: Thresholds, enabled: bool, force: Option<int>): Latch {
    Latch(Hold(l.button, force, t.press, t.release), enabled && Hold(l.forceClick, force, t.forcePress, t.forceRelease))
  }

  // ------------------------------------------------------------------ one report

  datatype Contact = Contact(slot: nat, pressure: nat)

  predicate ContactOk(c: Contact) {
    c.slot < CONTACTS && c.pressure < 0x1_0000
  }

  function Cleared(paths: seq<Path>): (r: seq<Path>)
    ensures |r| == |paths|
  {
    seq(|paths|, i requires 0 <= i < |paths| => paths[i].(present := false))
  }

  function FeedAll(paths: seq<Path>, contacts: seq<Contact>): (r: seq<Path>)
    requires |paths| == CONTACTS && forall c :: c in contacts ==> ContactOk(c)
    ensures |r| == CONTACTS
    decreases |contacts|
  {
    if contacts == [] then paths
    else
      var c := contacts[0];
      assert ContactOk(c);
      FeedAll(paths[c.slot := Path(Update(paths[c.slot].filter, c.pressure), true, 0)], contacts[1..])
  }

  /** The pressures a report has for one path, in order. */
  function PressuresOf(contacts: seq<Contact>, slot: nat): seq<nat>
    decreases |contacts|
  {
    if contacts == [] then []
    else (if contacts[0].slot == slot then [contacts[0].pressure] else []) + PressuresOf(contacts[1..], slot)
  }

  /** A report feeds every path exactly its own contacts' pressures, in order, and marks those paths present. */
  lemma {:induction false} FeedsOwn(paths: seq<Path>, contacts: seq<Contact>, slot: nat)
    requires |paths| == CONTACTS && slot < CONTACTS && forall c :: c in contacts ==> ContactOk(c)
    ensures var p, r := PressuresOf(contacts, slot), FeedAll(paths, contacts);
            && r[slot].filter == Run(paths[slot].filter, p)
            && if p == [] then r[slot] == paths[slot] else r[slot].present && r[slot].missing == 0
    decreases |contacts|
  {
    hide Update;
    if contacts != [] {
      var c := contacts[0];
      assert ContactOk(c);
      var next := paths[c.slot := Path(Update(paths[c.slot].filter, c.pressure), true, 0)];
      FeedsOwn(next, contacts[1..], slot);
      var p, rest := PressuresOf(contacts, slot), PressuresOf(contacts[1..], slot);
      if c.slot == slot {
        assert p == [c.pressure] + rest && p[1..] == rest;
      } else {
        assert p == rest;
      }
    }
  }

  /** A missing path counts up, and loses its force at the tolerance. */
  function Aged(p: Path): Path {
    if p.present then p
    else
      var missing := (p.missing + 1) % 256;
      Path(if missing >= TOLERANCE then QUIET else p.filter, false, missing)
  }

  function AgeAll(paths: seq<Path>): (r: seq<Path>)
    ensures |r| == |paths|
  {
    seq(|paths|, i requires 0 <= i < |paths| => Aged(paths[i]))
  }

  function Report(f: Force, contacts: seq<Contact>, s: Settings): Force
    requires |f.paths| == CONTACTS && forall c :: c in contacts ==> ContactOk(c)
  {
    var paths := FeedAll(Cleared(f.paths), contacts);
    Force(AgeAll(paths), Decide(f.latch, Limits(s), s.enabled, StrongestForce(paths)))
  }

  const START: Force := Force(seq(CONTACTS, i => Path(QUIET, false, 0)), Latch(false, false))

  datatype Frame = Frame(contacts: seq<Contact>, settings: Settings)

  /** Percentages that make the force click the harder press at every strength, with no threshold wrapping. */
  predicate Sensible(s: Settings) {
    100 <= s.percent <= 10000
  }

  predicate FrameOk(f: Frame) {
    Sensible(f.settings) && forall c :: c in f.contacts ==> ContactOk(c)
  }

  ghost predicate Runs(f: Force, frames: seq<Frame>, g: Force)
    decreases |frames|
  {
    if frames == [] then f == g
    else |f.paths| == CONTACTS && FrameOk(frames[0]) && Runs(Report(f, frames[0].contacts, frames[0].settings), frames[1..], g)
  }

  /** Reports without any contact. */
  ghost predicate RunsFree(f: Force, settings: seq<Settings>, g: Force)
    decreases |settings|
  {
    if settings == [] then f == g
    else |f.paths| == CONTACTS && Sensible(settings[0]) && RunsFree(Report(f, [], settings[0]), settings[1..], g)
  }

  // ------------------------------------------------------------------ force click implies button

  predicate Nested(l: Latch) {
    l.forceClick ==> l.button
  }

  /** Thresholds of the inner latch are not below those of the outer one. */
  predicate Ordered(t: Thresholds) {
    t.press <= t.forcePress && t.release <= t.forceRelease
  }

  /**
   A force click implies the button after every report exactly when the inner
   thresholds are not below the outer ones, or the force click is switched off.
   */
  lemma NestedExactly(s: Settings)
    ensures (forall l: Latch, force: Option<int> :: Nested(l) && (force.Some? ==> 0 <= force.value <= CAP) ==>
               Nested(Decide(l, Limits(s), s.enabled, force)))
            <==> !s.enabled || Ordered(Limits(s))
  {
    var t := Limits(s);
    LimitsPositive(s);
    if s.enabled && !Ordered(t) {
      if t.forcePress < t.press {
        var l, force := Latch(false, false), Some(Max(t.forcePress, 0));
        assert Nested(l) && !Nested(Decide(l, t, true, force));
      } else {
        var l, force := Latch(true, true), Some(Max(t.forceRelease, 0));
        assert Nested(l) && !Nested(Decide(l, t, true, force));
      }
    }
  }

  lemma LimitsPositive(s: Settings)
    ensures var t := Limits(s); 0 < t.release < t.press <= 125 * 78643 < CAP
  {
    var m := Multiplier(s.strength);
    assert 125 * ONE * m / ONE == 125 * m;
    FitsS32(125 * ONE * m / ONE);
    FitsS32((93 * ONE + 49152) * m / ONE);
    hide ToS32;
  }

  /** How firm a press the setting asks for; anything but light and firm is medium. */
  function Firmness(strength: nat): nat {
    if strength == 0 then 0 else if strength == 2 then 2 else 1
  }

  /**
   The button's thresholds: 125 and 93.75 at medium strength, a fifth less at light
   and a fifth more at firm, to within what the multiplier's rounding makes of it.
   */
  lemma LimitsExact(s: Settings)
    ensures var t, k := Limits(s), Firmness(s.strength);
            && -125 <= 5 * t.press - (4 + k) * 125 * ONE <= 125
            && -100 <= 5 * t.release - (4 + k) * (93 * ONE + 49152) <= 100
            && (k == 1 ==> t.press == 125 * ONE && t.release == 93 * ONE + 49152)
  {
    var m := Multiplier(s.strength);
    FitsS32(125 * ONE * m / ONE);
    FitsS32((93 * ONE + 49152) * m / ONE);
    hide ToS32;
  }

  /** A firmer setting neither presses nor holds the button at a force at which a softer one does not. */
  lemma FirmerIsHarder(s: Settings, t: Settings, down: bool, force: Option<int>)
    requires Firmness(s.strength) <= Firmness(t.strength)
    ensures Hold(down, force, Limits(t).press, Limits(t).release) ==> Hold(down, force, Limits(s).press, Limits(s).release)
  {
    assert Firmness(s.strength) == Firmness(t.strength) ==>
        Limits(s).press == Limits(t).press && Limits(s).release == Limits(t).release by {
      hide ToS32;
    }
    hide Limits;
    LimitsExact(s);
    LimitsExact(t);
  }

  /** The force click's thresholds are the button's, scaled by the percentage and rounded down. */
  lemma ForceLimitsExact(s: Settings)
    requires Sensible(s)
    ensures var t := Limits(s);
            && t.forcePress * 100 <= t.press * s.percent < (t.forcePress + 1) * 100
            && t.forceRelease * 100 <= t.release * s.percent < (t.forceRelease + 1) * 100
  {
    hide ToS32, Multiplier;
    LimitsPositive(s);
    var t := Limits(s);
    ScaledUp(t.press, s.percent);
    ScaledUp(t.release, s.percent);
  }

  /** For percentages from 100 to 10000 no threshold wraps and they are ordered. */
  lemma SensiblePercent(s: Settings)
    requires Sensible(s)
    ensures Ordered(Limits(s)) && Limits(s).forcePress > 0 && Limits(s).forceRelease > 0
  {
    hide ToS32, Multiplier;
    LimitsPositive(s);
    var t := Limits(s);
    ScaledUp(t.press, s.percent);
    ScaledUp(t.release, s.percent);
  }

  lemma ScaledUp(x: int, percent: nat)
    requires 0 < x <= 125 * 78643 && 100 <= percent <= 10000
    ensures x <= ToS32(x * percent / 100) == x * percent / 100
  {
    hide ToS32;
    var y := x * percent;
    assert x * 100 <= y <= x * 10000 by {
      MulSign(x, percent - 100);
      MulSign(x, 10000 - percent);
      assert x * (percent - 100) == y - x * 100 && x * (10000 - percent) == x * 10000 - y;
    }
    FitsS32(y / 100);
  }

  /** A large percentage wraps the force-click threshold below the plain one; one below 100 lowers it. */
  lemma OtherPercentsFail()
    ensures !Ordered(Limits(Settings(1, 52429, true))) && !Ordered(Limits(Settings(1, 99, true)))
  {
    FitsS32(125 * ONE);
    FitsS32(125 * ONE * 99 / 100);
    assert 125 * ONE * 52429 / 100 == 16384 + 0x1_0000_0000;
    DivModUnique(125 * ONE * 52429 / 100 + 0x8000_0000, 0x1_0000_0000, 1, 16384 + 0x8000_0000);
    assert ToS32(125 * ONE * 52429 / 100) == 16384;
    hide ToS32;
  }

  // ------------------------------------------------------------------ reachable states

  /** A force is in range, and a path past the tolerance has none. */
  predicate PathOk(p: Path) {
    Valid(p.filter) && p.missing < 256 && (p.missing >= TOLERANCE ==> p.filter == QUIET)
  }

  predicate PathsOk(paths: seq<Path>) {
    |paths| == CONTACTS && forall i :: 0 <= i < |paths| ==> PathOk(paths[i])
  }

  lemma {:induction false} FeedAllOk(paths: seq<Path>, contacts: seq<Contact>)
    requires PathsOk(paths) && forall c :: c in contacts ==> ContactOk(c)
    ensures PathsOk(FeedAll(paths, contacts))
    decreases |contacts|
  {
    hide Update, Valid;
    if contacts != [] {
      var c := contacts[0];
      assert ContactOk(c);
      UpdateValid(paths[c.slot].filter, c.pressure);
      FeedAllOk(paths[c.slot := Path(Update(paths[c.slot].filter, c.pressure), true, 0)], contacts[1..]);
    }
  }

  lemma ReportOk(f: Force, contacts: seq<Contact>, s: Settings)
    requires PathsOk(f.paths) && forall c :: c in contacts ==> ContactOk(c)
    ensures PathsOk(Report(f, contacts, s).paths)
    ensures var force := StrongestForce(FeedAll(Cleared(f.paths), contacts)); force.Some? ==> 0 <= force.value <= CAP
  {
    hide FeedAll, Limits, Strongest;
    FeedAllOk(Cleared(f.paths), contacts);
  }

  lemma {:induction false} RunNested(f: Force, frames: seq<Frame>, g: Force)
    requires PathsOk(f.paths) && Nested(f.latch) && Runs(f, frames, g)
    ensures PathsOk(g.paths) && Nested(g.latch)
    decreases |frames|
  {
    if frames != [] {
      var s := frames[0].settings;
      hide FeedAll, Limits, Strongest, AgeAll, Ordered;
      ReportOk(f, frames[0].contacts, s);
      SensiblePercent(s);
      NestedExactly(s);
      hide Decide, StrongestForce, Nested, PathsOk;
      RunNested(Report(f, frames[0].contacts, s), frames[1..], g);
    }
  }

  /**
   In every reachable state a force click implies the button, even if strength,
   percentage and switch change from report to report.
   */
  lemma ForceClickImpliesButton(frames: seq<Frame>, g: Force)
    requires Runs(START, frames, g)
    ensures g.latch.forceClick ==> g.latch.button
  {
    hide Runs;
    RunNested(START, frames, g);
  }

  // ------------------------------------------------------------------ lifting off

  /** How many contact-free reports a path has certainly seen, as far as its force goes. */
  predicate FadedBy(p: Path, n: nat) {
    !p.present && (p.filter == QUIET || n <= p.missing < TOLERANCE)
  }

  predicate AllFadedBy(paths: seq<Path>, n: nat) {
    |paths| == CONTACTS && forall i :: 0 <= i < |paths| ==> FadedBy(paths[i], n)
  }

  lemma FadeStep(paths: seq<Path>, n: nat)
    requires PathsOk(paths) && (n == 0 || AllFadedBy(paths, n))
    ensures AllFadedBy(AgeAll(Cleared(paths)), n + 1)
  {
  }

  lemma FadedForce(paths: seq<Path>)
    requires AllFadedBy(paths, TOLERANCE)
    ensures var force := StrongestForce(Cleared(paths)); force.Some? ==> force.value == 0
  {
    hide Strongest;
  }

  /** With no force left both latches open. */
  lemma OpensWithoutForce(l: Latch, s: Settings, force: Option<int>)
    requires Sensible(s) && (force.Some? ==> force.value == 0)
    ensures Decide(l, Limits(s), s.enabled, force) == Latch(false, false)
  {
    hide Limits, Ordered;
    SensiblePercent(s);
    LimitsPositive(s);
  }

  lemma {:induction false} ReleasedAfter(f: Force, settings: seq<Settings>, g: Force, n: nat)
    requires PathsOk(f.paths) && RunsFree(f, settings, g) && (n == 0 || AllFadedBy(f.paths, Min(n, TOLERANCE)))
    requires n + |settings| > TOLERANCE && (n > TOLERANCE ==> f.latch == Latch(false, false))
    ensures g.latch == Latch(false, false)
    decreases |settings|
  {
    if settings != [] {
      var s := settings[0];
      var h := Report(f, [], s);
      hide Strongest, Limits;
      ReportOk(f, [], s);
      FadeStep(f.paths, Min(n, TOLERANCE));
      assert FeedAll(Cleared(f.paths), []) == Cleared(f.paths);
      if n >= TOLERANCE {
        FadedForce(f.paths);
        OpensWithoutForce(f.latch, s, StrongestForce(Cleared(f.paths)));
      }
      hide PathsOk, FadedBy, StrongestForce, AgeAll, Decide;
      ReleasedAfter(h, settings[1..], g, n + 1);
    }
  }

  /** From every reachable state, the fourth contact-free report in a row, and every later one, finds both latches open. */
  lemma ReleasedByFourth(frames: seq<Frame>, f: Force, settings: seq<Settings>, g: Force)
    requires Runs(START, frames, f) && RunsFree(f, settings, g) && |settings| >= 4
    ensures g.latch == Latch(false, false)
  {
    hide Runs, RunsFree;
    RunNested(START, frames, f);
    ReleasedAfter(f, settings, g, 0);
  }

  /** A firmly pressed path keeps the button down while it counts. */
  lemma StillHeld(f: Force, s: Settings, i: nat)
    requires PathsOk(f.paths) && i < CONTACTS && f.paths[i].missing < TOLERANCE && f.latch.button
    requires f.paths[i].filter.hysteretic >= Limits(s).release
    ensures var g := Report(f, [], s);
            PathsOk(g.paths) && g.latch.button && (f.paths[i].missing < TOLERANCE - 1 ==>
              g.paths[i].filter == f.paths[i].filter && g.paths[i].missing == f.paths[i].missing + 1)
  {
    hide Limits;
    ReportOk(f, [], s);
    var paths := Cleared(f.paths);
    assert FeedAll(paths, []) == paths;
    StrongestIsGreatest(paths, |paths|);
    assert Counts(paths[i]);
    hide Strongest;
  }

  /** Three contact-free reports are not enough: the tolerance still carries a firm press through them. */
  lemma ThirdStillHeld(f: Force, s: Settings, i: nat)
    requires PathsOk(f.paths) && i < CONTACTS && f.paths[i].missing == 0 && f.latch.button
    requires f.paths[i].filter.hysteretic >= Limits(s).release
    ensures Report(Report(Report(f, [], s), [], s), [], s).latch.button
  {
    hide Limits, Report;
    StillHeld(f, s, i);
    StillHeld(Report(f, [], s), s, i);
    StillHeld(Report(Report(f, [], s), [], s), s, i);
  }

  // ------------------------------------------------------------------ the object

  class ForceManagement {
    const paths: array<Path>
    var button: bool
    var forceClick: bool

    ghost function View(): Force
      reads this, paths
    {
      Force(paths[..], Latch(button, forceClick))
    }

    constructor ()
      ensures paths.Length == CONTACTS && View() == START && fresh(paths)
    {
      paths := new Path[CONTACTS](_ => Path(QUIET, false, 0));
      button, forceClick := false, false;
      new;
      assert paths[..] == START.paths;
    }

    method ClearPresence()
      requires paths.Length == CONTACTS
      modifies paths
      ensures paths[..] == Cleared(old(paths[..]))
    {
      for i := 0 to CONTACTS
        invariant forall k :: 0 <= k < i ==> paths[k] == old(paths[k]).(present := false)
        invariant forall k :: i <= k < CONTACTS ==> paths[k] == old(paths[k])
      {
        paths[i] := paths[i].(present := false);
      }
    }

    method Feed(contacts: seq<Contact>)
      requires paths.Length == CONTACTS && forall c :: c in contacts ==> ContactOk(c)
      modifies paths
      ensures paths[..] == FeedAll(old(paths[..]), contacts)
    {
      for i := 0 to |contacts|
        invariant FeedAll(old(paths[..]), contacts) == FeedAll(paths[..], contacts[i..])
      {
        var c := contacts[i];
        assert ContactOk(c) && contacts[i..][0] == c && contacts[i..][1..] == contacts[i + 1..];
        ghost var before := paths[..];
        paths[c.slot] := Path(Update(paths[c.slot].filter, c.pressure), true, 0);
        assert paths[..] == before[c.slot := Path(Update(before[c.slot].filter, c.pressure), true, 0)];
      }
    }

    /** Finds the strongest path and moves both latches. */
    method Analyze(s: Settings)
      requires paths.Length == CONTACTS
      modifies this
      ensures View() == old(View()).(latch := Decide(old(View()).latch, Limits(s), s.enabled, StrongestForce(paths[..])))
    {
      var slot: Option<nat> := None;
      var force := 0;
      for i := 0 to CONTACTS
        invariant slot == Strongest(paths[..], i)
        invariant slot.Some? ==> force == paths[slot.value].filter.hysteretic
      {
        if !paths[i].present && paths[i].missing >= TOLERANCE {
          continue;
        }
        if slot.None? || paths[i].filter.hysteretic > force {
          slot, force := Some(i), paths[i].filter.hysteretic;
        }
      }
      var t := Limits(s);
      hide Limits, Strongest;
      if !button {
        button := slot.Some? && force >= t.press;
      } else if slot.None? || force < t.release {
        button := false;
      }
      if !forceClick {
        forceClick := s.enabled && slot.Some? && force >= t.forcePress;
      } else if !s.enabled || slot.None? || force < t.forceRelease {
        forceClick := false;
      }
    }

    method AgeMissing()
      requires paths.Length == CONTACTS
      modifies paths
      ensures paths[..] == AgeAll(old(paths[..]))
    {
      for i := 0 to CONTACTS
        invariant forall k :: 0 <= k < i ==> paths[k] == Aged(old(paths[k]))
        invariant forall k :: i <= k < CONTACTS ==> paths[k] == old(paths[k])
      {
        if paths[i].present {
          continue;
        }
        var missing := (paths[i].missing + 1) % 256;
        paths[i] := paths[i].(missing := missing);
        if missing >= TOLERANCE {
          paths[i] := paths[i].(filter := QUIET);
        }
      }
    }

    /** One touch report. */
    method HandleReport(contacts: seq<Contact>, s: Settings)
      requires paths.Length == CONTACTS && forall c :: c in contacts ==> ContactOk(c)
      modifies this, paths
      ensures View() == Report(old(View()), contacts, s)
    {
      ClearPresence();
      Feed(contacts);
      hide Limits, StrongestForce, FeedAll;
      Analyze(s);
      AgeMissing();
    }
  }
}
