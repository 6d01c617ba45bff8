/** Position hysteresis of one contact: each report may move the reported point towards the raw one by a budget. */
module PositionFilter {
  import opened Prelude
  import opened ForceFilter

  const STRONG_MS: nat := 50
  const WEAK_MS: nat := 312
  const NSEC_PER_MSEC: nat := 1_000_000
  const LOW: nat := 4 * 65536       // 4 percent
  const HIGH: nat := 8 * 65536      // 8 percent
  const Q16: nat := 65536
  const U32: nat := 0x1_0000_0000
  const U64: nat := 0x1_0000_0000_0000_0000
  const BUDGET_LIMIT: nat := 0x7fff_ffff - 32767   // the largest budget whose sums with a coordinate fit

  datatype Settings = Settings(budgetMax: nat, invert: bool)

  const DEFAULTS: Settings := Settings(512, true)

  predicate SettingsOk(s: Settings) {
    s.budgetMax <= BUDGET_LIMIT
  }

  datatype Finger = Finger(path: nat, x: int, y: int, proximity: nat)

  datatype Slot = Slot(valid: bool, path: nat, x: int, y: int, start: nat, previous: nat)

  /** Coordinates are signed 16-bit, the proximity a non-negative one. */
  predicate FingerOk(f: Finger) {
    Coordinate(f.x) && Coordinate(f.y) && f.proximity < 0x8000
  }

  predicate Coordinate(x: int) {
    -32768 <= x <= 32767
  }

  // ------------------------------------------------------------------ instability

  function Sqrt(n: nat): (r: nat)
    ensures r * r <= n < (r + 1) * (r + 1)
  {
    if n == 0 then 0
    else
      var r := Sqrt(n - 1);
      if (r + 1) * (r + 1) <= n then r + 1 else r
  }

  /** Age in milliseconds, kept in 32 bits. */
  function AgeMs(elapsed: nat): nat {
    elapsed / NSEC_PER_MSEC % U32
  }

  function TimeInstability(elapsed: nat): nat {
    var ms := AgeMs(elapsed);
    var strong := if ms < STRONG_MS then Q16 * (STRONG_MS - ms) / STRONG_MS else 0;
    var weak := if ms < WEAK_MS then Q16 * (WEAK_MS - ms) / WEAK_MS / 5 else 0;
    Max(strong, weak)
  }

  /** Change of proximity in percent, Q16. */
  function DeltaPercent(proximity: nat, previous: nat): nat
    requires proximity > 0 || previous > 0
  {
    var delta := if proximity >= previous then proximity - previous else previous - proximity;
    delta * 100 * Q16 / Max(proximity, previous)
  }

  function SignalInstability(proximity: nat, previous: nat): nat {
    if proximity == 0 && previous == 0 then 0
    else
      var delta := DeltaPercent(proximity, previous);
      if delta <= LOW then 0
      else if delta >= HIGH then Q16
      else
        var linear := (delta - LOW) * Q16 / (HIGH - LOW);
        Sqrt(linear * linear / Q16 * linear)
  }

  function Instability(proximity: nat, previous: nat, elapsed: nat): nat {
    Max(TimeInstability(elapsed), SignalInstability(proximity, previous))
  }

  /** Computed in 32 bits, as are the sums with a coordinate below. */
  function Budget(s: Settings, instability: nat): int {
    var b := ToS32(instability * s.budgetMax / Q16);
    if s.invert then ToS32(s.budgetMax - b) else b
  }

  lemma TimeInstabilityBound(elapsed: nat)
    ensures TimeInstability(elapsed) <= Q16
    ensures TimeInstability(elapsed) == 0 <==> AgeMs(elapsed) >= WEAK_MS
  {
  }

  lemma MulMonotone(a: nat, b: nat, c: nat)
    requires a <= b
    ensures a * c <= b * c
  {
    MulSign(b - a, c);
    assert (b - a) * c == b * c - a * c;
  }

  lemma SqrtBelow(n: nat, m: nat)
    requires n < m * m
    ensures Sqrt(n) < m
  {
    if Sqrt(n) >= m {
      MulMonotone(m, Sqrt(n), m);
      MulMonotone(m, Sqrt(n), Sqrt(n));
    }
  }

  lemma SignalInstabilityBound(proximity: nat, previous: nat)
    ensures SignalInstability(proximity, previous) <= Q16
  {
    if (proximity > 0 || previous > 0) && LOW < DeltaPercent(proximity, previous) < HIGH {
      hide DeltaPercent, Sqrt;
      var linear := (DeltaPercent(proximity, previous) - LOW) * Q16 / (HIGH - LOW);
      assert linear < Q16;
      CubeBelow(linear, Q16);
      SqrtBelow(linear * linear / Q16 * linear, Q16);
    }
  }

  lemma SquareOver(x: nat, q: nat)
    requires x < q
    ensures x * x / q <= x
  {
    var d := x * x / q;
    MulMonotone(x, q, x);
    if d > x {
      MulMonotone(x + 1, d, q);
    }
  }

  lemma CubeBelow(x: nat, q: nat)
    requires x < q
    ensures x * x / q * x < q * q
  {
    SquareOver(x, q);
    var square := x * x / q;
    MulMonotone(square, x, x);
    MulMonotone(x, q, x);
    MulMonotone(x + 1, q, q);
    assert (x + 1) * q == x * q + q;
  }

  /** Both terms are at most one, so the budget lies between nothing and its maximum. */
  lemma BudgetBound(s: Settings, proximity: nat, previous: nat, elapsed: nat)
    requires SettingsOk(s)
    ensures Instability(proximity, previous, elapsed) <= Q16
    ensures 0 <= Budget(s, Instability(proximity, previous, elapsed)) <= s.budgetMax
  {
    TimeInstabilityBound(elapsed);
    SignalInstabilityBound(proximity, previous);
    hide TimeInstability, SignalInstability;
    var i := Instability(proximity, previous, elapsed);
    MulSign(Q16 - i, s.budgetMax);
    MulSign(i, s.budgetMax);
    assert (Q16 - i) * s.budgetMax == Q16 * s.budgetMax - i * s.budgetMax;
    var b := i * s.budgetMax / Q16;
    FitsS32(b);
    FitsS32(s.budgetMax - b);
    hide ToS32;
  }

  // ------------------------------------------------------------------ one report

  function Clamp(x: int, low: int, high: int): int {
    if x >= high then high else if x <= low then low else x
  }

  function Pull(at: int, raw: int, budget: int): int {
    Clamp(raw, ToS32(at - budget), ToS32(at + budget))
  }

  /** A new contact lifetime starts at the raw position. */
  function Opened(slot: Slot, f: Finger, now: nat): Slot {
    if slot.valid && slot.path == f.path then slot else Slot(true, f.path, f.x, f.y, now, f.proximity)
  }

  function Elapsed(slot: Slot, now: nat): nat {
    (now - slot.start) % U64
  }

  function BudgetFor(s: Settings, slot: Slot, f: Finger, now: nat): int {
    Budget(s, Instability(f.proximity, slot.previous, Elapsed(slot, now)))
  }

  function Report(s: Settings, slot: Slot, f: Finger, now: nat): Slot {
    var open := Opened(slot, f, now);
    var budget := BudgetFor(s, open, f, now);
    open.(x := Pull(open.x, f.x, budget), y := Pull(open.y, f.y, budget), previous := f.proximity)
  }

  // ------------------------------------------------------------------ lifetimes

  datatype Sample = Sample(finger: Finger, now: nat, settings: Settings)

  /** Reports of one contact lifetime, and the slot after them. */
  ghost predicate Lifetime(slot: Slot, samples: seq<Sample>, after: Slot)
    decreases |samples|
  {
    if samples == [] then slot == after
    else
      var m := samples[0];
      && slot.valid && m.finger.path == slot.path && FingerOk(m.finger) && SettingsOk(m.settings)
      && Lifetime(Report(m.settings, slot, m.finger, m.now), samples[1..], after)
  }

  /** Every raw coordinate of these samples, and the starting point, lies in the box. */
  ghost predicate Within(x: int, y: int, lowX: int, highX: int, lowY: int, highY: int) {
    lowX <= x <= highX && lowY <= y <= highY
  }

  /** Within the limit the 32-bit sums are exact. */
  lemma PullFits(at: int, raw: int, budget: int)
    requires Coordinate(at) && 0 <= budget <= BUDGET_LIMIT
    ensures Pull(at, raw, budget) == Clamp(raw, at - budget, at + budget)
  {
    FitsS32(at - budget);
    FitsS32(at + budget);
  }

  lemma PullBetween(at: int, raw: int, budget: int)
    requires Coordinate(at) && 0 <= budget <= BUDGET_LIMIT
    ensures Min(at, raw) <= Pull(at, raw, budget) <= Max(at, raw)
  {
    PullFits(at, raw, budget);
  }

  ghost predicate Between(slot: Slot, f: Finger, r: Slot) {
    Min(slot.x, f.x) <= r.x <= Max(slot.x, f.x) && Min(slot.y, f.y) <= r.y <= Max(slot.y, f.y)
  }

  predicate SlotOk(slot: Slot) {
    slot.valid && Coordinate(slot.x) && Coordinate(slot.y)
  }

  lemma ReportBetween(s: Settings, slot: Slot, f: Finger, now: nat)
    requires SlotOk(slot) && slot.path == f.path && SettingsOk(s)
    ensures var r := Report(s, slot, f, now);
            r.valid && r.path == slot.path && Between(slot, f, r)
  {
    BudgetBound(s, f.proximity, slot.previous, Elapsed(slot, now));
    var b := BudgetFor(s, slot, f, now);
    hide Budget, Instability, Elapsed;
    PullBetween(slot.x, f.x, b);
    PullBetween(slot.y, f.y, b);
    hide Pull;
  }

  /** A contact with steady proximity, touching since time zero. */
  function Probe(x: int): Slot {
    Slot(true, 0, x, 0, 0, 1)
  }

  lemma ProbeAge(now: nat)
    requires now == 0 || now == WEAK_MS * NSEC_PER_MSEC
    ensures Elapsed(Probe(0), now) == now && AgeMs(now) == if now == 0 then 0 else WEAK_MS
  {
    DivModUnique(now, U64, 0, now);
    if now != 0 {
      DivModUnique(now, NSEC_PER_MSEC, WEAK_MS, 0);
      DivModUnique(WEAK_MS, U32, 0, WEAK_MS);
    }
  }

  lemma SteadySignal()
    ensures SignalInstability(1, 1) == 0
  {
    assert DeltaPercent(1, 1) == 0;
    hide Sqrt, DeltaPercent;
  }

  lemma FreshContact(elapsed: nat)
    requires AgeMs(elapsed) == 0
    ensures TimeInstability(elapsed) == Q16
  {
    hide AgeMs;
  }

  lemma ProbeInstability(now: nat)
    requires now == 0 || now == WEAK_MS * NSEC_PER_MSEC
    ensures Instability(1, 1, Elapsed(Probe(0), now)) == if now == 0 then Q16 else 0
  {
    ProbeAge(now);
    SteadySignal();
    hide TimeInstability, SignalInstability, AgeMs, Elapsed;
    if now == 0 {
      FreshContact(now);
    } else {
      TimeInstabilityBound(now);
    }
  }

  /** A report at which the budget is its maximum, in either polarity. */
  lemma FullBudget(s: Settings, x: int, now: nat)
    requires s.budgetMax < U32 && now == if s.invert then WEAK_MS * NSEC_PER_MSEC else 0
    ensures BudgetFor(s, Probe(x), Finger(0, 0, 0, 1), now) == ToS32(s.budgetMax)
  {
    ProbeInstability(now);
    assert Elapsed(Probe(x), now) == Elapsed(Probe(0), now);
    FitsS32(0);
    hide ToS32, Instability, Elapsed;
  }

  /**
   One report keeps the point between where it was and the raw point, for all
   contacts and times, exactly when the maximum budget is within the limit.
   */
  lemma BetweenExactly(s: Settings)
    requires s.budgetMax < U32
    ensures SettingsOk(s) <==>
            forall slot: Slot, f: Finger, now: nat :: SlotOk(slot) && slot.path == f.path && FingerOk(f) ==>
              Between(slot, f, Report(s, slot, f, now))
  {
    hide Report;
    if SettingsOk(s) {
      forall slot: Slot, f: Finger, now: nat | SlotOk(slot) && slot.path == f.path && FingerOk(f)
        ensures Between(slot, f, Report(s, slot, f, now))
      {
        ReportBetween(s, slot, f, now);
      }
    } else {
      BeyondLimit(s);
    }
  }

  function Victim(budgetMax: nat): int {
    if budgetMax < 0x8000_0000 then 32767 else 0
  }

  lemma PullEscapes(budgetMax: nat)
    requires BUDGET_LIMIT < budgetMax < U32
    ensures Pull(Victim(budgetMax), 0, ToS32(budgetMax)) < 0
  {
    var x := Victim(budgetMax);
    if budgetMax < 0x8000_0000 {
      FitsS32(budgetMax);
      WrapsS32(x + budgetMax);
    } else {
      WrapsS32(budgetMax);
      FitsS32(budgetMax - U32);
    }
    hide ToS32;
  }

  lemma BeyondLimit(s: Settings)
    requires BUDGET_LIMIT < s.budgetMax < U32
    ensures exists slot: Slot, f: Finger, now: nat :: SlotOk(slot) && slot.path == f.path && FingerOk(f) &&
              !Between(slot, f, Report(s, slot, f, now))
  {
    var slot, f := Probe(Victim(s.budgetMax)), Finger(0, 0, 0, 1);
    var now := if s.invert then WEAK_MS * NSEC_PER_MSEC else 0;
    FullBudget(s, slot.x, now);
    PullEscapes(s.budgetMax);
    hide ToS32, BudgetFor, Pull;
    var r := Report(s, slot, f, now);
    assert r.x == Pull(slot.x, 0, ToS32(s.budgetMax)) < 0;
    hide Report;
    assert !Between(slot, f, Report(s, slot, f, now));
  }

  /**
   Over a contact's lifetime, whatever its proximity, age and the settings do, the
   reported point never leaves the range of the raw points seen so far.
   */
  lemma {:induction false} StaysInRange(slot: Slot, samples: seq<Sample>, after: Slot, lowX: int, highX: int, lowY: int, highY: int)
    requires Lifetime(slot, samples, after) && SlotOk(slot) && Within(slot.x, slot.y, lowX, highX, lowY, highY)
    requires forall i :: 0 <= i < |samples| ==> Within(samples[i].finger.x, samples[i].finger.y, lowX, highX, lowY, highY)
    ensures Within(after.x, after.y, lowX, highX, lowY, highY)
    decreases |samples|
  {
    hide Report;
    if samples != [] {
      var m := samples[0];
      ReportBetween(m.settings, slot, m.finger, m.now);
      StaysInRange(Report(m.settings, slot, m.finger, m.now), samples[1..], after, lowX, highX, lowY, highY);
    }
  }

  // ------------------------------------------------------------------ settling

  /** A report of a contact that is old and whose proximity has settled. */
  predicate Stable(slot: Slot, m: Sample) {
    AgeMs(Elapsed(slot, m.now)) >= WEAK_MS && SignalInstability(m.finger.proximity, slot.previous) == 0
  }

  /** n stable reports of the same point. */
  ghost predicate Rests(s: Settings, slot: Slot, samples: seq<Sample>, x: int, y: int, after: Slot)
    decreases |samples|
  {
    if samples == [] then slot == after
    else
      var m := samples[0];
      && SlotOk(slot) && m.finger.path == slot.path && m.settings == s && m.finger.x == x && m.finger.y == y && Stable(slot, m)
      && Rests(s, Report(s, slot, m.finger, m.now), samples[1..], x, y, after)
  }

  function Distance(a: int, b: int): nat {
    if a <= b then b - a else a - b
  }

  lemma StableBudget(s: Settings, slot: Slot, m: Sample)
    requires slot.valid && m.finger.path == slot.path && m.settings == s && Stable(slot, m) && SettingsOk(s)
    ensures BudgetFor(s, slot, m.finger, m.now) == if s.invert then s.budgetMax else 0
  {
    TimeInstabilityBound(Elapsed(slot, m.now));
    FitsS32(0);
    FitsS32(s.budgetMax);
    hide TimeInstability, SignalInstability, Elapsed, ToS32;
  }

  lemma PullCloser(at: int, raw: int, budget: nat)
    requires Coordinate(at) && budget <= BUDGET_LIMIT
    ensures Distance(Pull(at, raw, budget), raw) == Max(0, Distance(at, raw) - budget)
  {
    PullFits(at, raw, budget);
  }

  /** What is left of a distance after n steps. */
  function Left(distance: nat, n: nat, step: nat): nat {
    Max(0, distance - n * step)
  }

  lemma LeftStep(distance: nat, n: nat, step: nat)
    ensures Left(distance, n + 1, step) == Left(Max(0, distance - step), n, step)
  {
    MulSign(n, step);
    assert (n + 1) * step == n * step + step;
  }

  /**
   At rest the distance to the raw point shrinks by the whole budget each report,
   and never below zero.
   */
  lemma {:induction false} Settles(s: Settings, slot: Slot, samples: seq<Sample>, x: int, y: int, after: Slot)
    requires Rests(s, slot, samples, x, y, after) && s.invert && SettingsOk(s)
    ensures Distance(after.x, x) == Left(Distance(slot.x, x), |samples|, s.budgetMax)
    ensures Distance(after.y, y) == Left(Distance(slot.y, y), |samples|, s.budgetMax)
    decreases |samples|
  {
    if samples != [] {
      var m := samples[0];
      hide BudgetFor, Stable, Left;
      StableBudget(s, slot, m);
      var next := Report(s, slot, m.finger, m.now);
      PullCloser(slot.x, x, s.budgetMax);
      PullCloser(slot.y, y, s.budgetMax);
      assert next.x == Pull(slot.x, x, s.budgetMax) && next.y == Pull(slot.y, y, s.budgetMax);
      hide Pull, Report, Distance;
      Settles(s, next, samples[1..], x, y, after);
      LeftStep(Distance(slot.x, x), |samples| - 1, s.budgetMax);
      LeftStep(Distance(slot.y, y), |samples| - 1, s.budgetMax);
    }
  }

  /** With the default settings the raw point is reached exactly after ceil(distance / 512) reports. */
  lemma DefaultSettles(slot: Slot, samples: seq<Sample>, x: int, y: int, after: Slot)
    requires Rests(DEFAULTS, slot, samples, x, y, after)
    ensures after.x == x <==> |samples| >= (Distance(slot.x, x) + 511) / 512
    ensures after.y == y <==> |samples| >= (Distance(slot.y, y) + 511) / 512
  {
    hide Rests;
    Settles(DEFAULTS, slot, samples, x, y, after);
  }

  /** Without the inversion a settled contact is frozen where it is. */
  lemma {:induction false} FrozenWithoutInversion(s: Settings, slot: Slot, samples: seq<Sample>, x: int, y: int, after: Slot)
    requires Rests(s, slot, samples, x, y, after) && !s.invert && SettingsOk(s)
    ensures after.x == slot.x && after.y == slot.y
    decreases |samples|
  {
    if samples != [] {
      var m := samples[0];
      StableBudget(s, slot, m);
      hide BudgetFor, Stable;
      PullFits(slot.x, x, 0);
      PullFits(slot.y, y, 0);
      FrozenWithoutInversion(s, Report(s, slot, m.finger, m.now), samples[1..], x, y, after);
    }
  }

  /** A report of a new contact gives exactly its raw point, wherever the slot's last contact was. */
  lemma NewContactExact(s: Settings, slot: Slot, f: Finger, now: nat)
    requires FingerOk(f) && SettingsOk(s) && !(slot.valid && slot.path == f.path)
    ensures Report(s, slot, f, now) == Slot(true, f.path, f.x, f.y, now, f.proximity)
  {
    BudgetBound(s, f.proximity, f.proximity, Elapsed(Opened(slot, f, now), now));
    hide Budget, Instability, Elapsed;
    PullFits(f.x, f.x, BudgetFor(s, Opened(slot, f, now), f, now));
    PullFits(f.y, f.y, BudgetFor(s, Opened(slot, f, now), f, now));
  }

  /** However long a contact lasts, its age is the time since its first report. */
  lemma {:induction false} AgeSinceFirst(slot: Slot, samples: seq<Sample>, after: Slot, now: nat)
    requires Lifetime(slot, samples, after) && slot.start <= now < slot.start + U64
    ensures Elapsed(after, now) == now - slot.start
    decreases |samples|
  {
    hide BudgetFor, Pull;
    if samples == [] {
      DivModUnique(now - slot.start, U64, 0, now - slot.start);
    } else {
      var m := samples[0];
      AgeSinceFirst(Report(m.settings, slot, m.finger, m.now), samples[1..], after, now);
    }
  }

  lemma UnchangedSignal(proximity: nat)
    ensures SignalInstability(proximity, proximity) == 0
  {
    hide Sqrt;
  }

  /** Two reports of the same proximity, the second late enough, make it a stable one. */
  lemma SteadyIsStable(slot: Slot, first: Sample, second: Sample)
    requires slot.valid && first.finger.path == slot.path == second.finger.path
    requires second.finger.proximity == first.finger.proximity && AgeMs(Elapsed(slot, second.now)) >= WEAK_MS
    ensures Stable(Report(first.settings, slot, first.finger, first.now), second)
  {
    UnchangedSignal(first.finger.proximity);
    hide BudgetFor, SignalInstability, AgeMs, Pull;
  }

  /**
   The time term is the higher of two lines, rounded down: from one at the first touch to
   nothing at 50 ms, and from a fifth to nothing at 312 ms.
   */
  lemma TimeInstabilityExact(elapsed: nat)
    ensures var r, ms := TimeInstability(elapsed), AgeMs(elapsed);
            && Q16 * (STRONG_MS - ms) < (r + 1) * STRONG_MS && Q16 * (WEAK_MS - ms) < (r + 1) * 5 * WEAK_MS
            && (r > 0 ==> r * STRONG_MS <= Q16 * (STRONG_MS - ms) || r * 5 * WEAK_MS <= Q16 * (WEAK_MS - ms))
  {
    hide AgeMs;
  }

  /**
   The signal term is zero up to a change of 4 percent, one from 8 percent on, and in
   between the power 3/2 of the way from one to the other, rounded down.
   */
  lemma SignalInstabilityExact(proximity: nat, previous: nat)
    requires proximity > 0 || previous > 0
    ensures var delta := DeltaPercent(proximity, previous);
            var r := SignalInstability(proximity, previous);
            && (delta <= LOW ==> r == 0)
            && (delta >= HIGH ==> r == Q16)
            && (LOW < delta < HIGH ==> exists way: nat, square: nat :: ThreeHalves(delta, way, square, r))
  {
    var delta := DeltaPercent(proximity, previous);
    hide DeltaPercent, Sqrt, ThreeHalves;
    if LOW < delta < HIGH {
      var way := (delta - LOW) * Q16 / (HIGH - LOW);
      RoundedPower(delta);
      assert ThreeHalves(delta, way, way * way / Q16, SignalInstability(proximity, previous));
    }
  }

  /** The way x from the low to the high change, its square over one, and the root of their product: x to the power 3/2. */
  ghost predicate ThreeHalves(delta: nat, x: nat, square: nat, root: nat) {
    && x * 4 <= delta - LOW < (x + 1) * 4
    && square * Q16 <= x * x < (square + 1) * Q16
    && root * root <= square * x < (root + 1) * (root + 1)
  }

  lemma RoundedPower(delta: nat)
    requires delta >= LOW
    ensures var x := (delta - LOW) * Q16 / (HIGH - LOW);
            ThreeHalves(delta, x, x * x / Q16, Sqrt(x * x / Q16 * x))
  {
    var x := (delta - LOW) * Q16 / (HIGH - LOW);
    assert x == (delta - LOW) / 4;
    hide Sqrt;
    var y := x * x;
    assert y / Q16 * Q16 <= y < (y / Q16 + 1) * Q16;
  }

  /** The change is that of the larger proximity, in units of a percent over 65536. */
  lemma DeltaPercentExact(proximity: nat, previous: nat)
    requires proximity > 0 || previous > 0
    ensures var d, most := DeltaPercent(proximity, previous), Max(proximity, previous);
            d * most <= Distance(proximity, previous) * 100 * Q16 < (d + 1) * most
    ensures DeltaPercent(proximity, previous) == DeltaPercent(previous, proximity) <= 100 * Q16
  {
    var x, most := Distance(proximity, previous) * 100 * Q16, Max(proximity, previous);
    assert x == x / most * most + x % most;
    MulMonotone(Distance(proximity, previous), most, 100 * Q16);
    if x / most > 100 * Q16 {
      MulMonotone(100 * Q16 + 1, x / most, most);
    }
  }

  /** The age wraps: exactly 2^32 ms into a contact it counts as new again. */
  lemma AgeWraps()
    ensures TimeInstability(U32 * NSEC_PER_MSEC) == Q16
  {
    DivModUnique(U32 * NSEC_PER_MSEC, NSEC_PER_MSEC, U32, 0);
    assert AgeMs(U32 * NSEC_PER_MSEC) == 0;
  }

  // ------------------------------------------------------------------ the object

  class SlotHysteresis {
    var valid: bool
    var path: nat
    var x: int
    var y: int
    var touchStart: nat
    var previousProximity: nat

    function View(): Slot
      reads this
    {
      Slot(valid, path, x, y, touchStart, previousProximity)
    }

    static method BudgetNow(s: Settings, proximity: nat, previous: nat, elapsed: nat) returns (budget: int)
      ensures budget == Budget(s, Instability(proximity, previous, elapsed))
    {
      hide TimeInstability, SignalInstability, ToS32;
      var instability := Max(TimeInstability(elapsed), SignalInstability(proximity, previous));
      budget := ToS32(instability * s.budgetMax / Q16);
      if s.invert {
        budget := ToS32(s.budgetMax - budget);
      }
    }

    /** A new contact lifetime resets the slot. */
    method OpenFor(f: Finger, now: nat)
      modifies this
      ensures View() == Opened(old(View()), f, now)
    {
      if !valid || path != f.path {
        valid, path, touchStart := true, f.path, now;
        x, y, previousProximity := f.x, f.y, f.proximity;
      }
    }

    method ReportFinger(s: Settings, f: Finger, now: nat)
      modifies this
      ensures View() == Report(s, old(View()), f, now)
    {
      hide Budget, Instability, ToS32, Opened, Clamp;
      OpenFor(f, now);
      var budget := BudgetNow(s, f.proximity, previousProximity, (now - touchStart) % U64);
      assert budget == BudgetFor(s, View(), f, now);
      hide BudgetFor;
      previousProximity := f.proximity;
      x := Clamp(f.x, ToS32(x - budget), ToS32(x + budget));
      y := Clamp(f.y, ToS32(y - budget), ToS32(y + budget));
    }
  }
}
