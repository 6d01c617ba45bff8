/** The per-contact force filter: smoothing, a dead band and an asymmetric output stage in Q16 fixed point. */
module ForceFilter {
  import opened Prelude

  const ONE: int := 65536
  const SCALE: int := 1311            // 0.02
  const BAND_MIN: int := 98304        // 1.5
  const BAND_MAX: int := 983040       // 15.0
  const ALPHA: int := 9830            // 0.15, the weight of the old value
  const OUTPUT_ALPHA: int := 62915    // 0.96
  const LOUDEST: int := 32767         // the largest pressure whose Q16 value is an s32
  const TOP: int := 32767 * 65536
  const CAP: int := (32767 - 15) * 65536

  newtype s32 = x: int | -0x8000_0000 <= x < 0x8000_0000
  newtype s64 = x: int | -0x8000_0000_0000_0000 <= x < 0x8000_0000_0000_0000

  datatype Filter = Filter(hysteretic: int, output: int, smoothed: int)

  const QUIET: Filter := Filter(0, 0, 0)

  /** Weighted mean of an old and a new value, rounded down. */
  function Blend(alpha: int, old_: int, new_: int): int {
    (alpha * old_ + (ONE - alpha) * new_) / ONE
  }

  function Band(force: nat): int {
    Max(BAND_MIN, Min(force * SCALE, BAND_MAX))
  }

  /** Pulled to the edge of the dead band around the current value, or left where it is. */
  function Candidate(current: int, smoothed: int, band: int): int {
    if smoothed > current + band then smoothed - band
    else if smoothed < current - band then smoothed + band
    else current
  }

  function Smooth(f: Filter, force: nat): int {
    Blend(ALPHA, f.smoothed, Min(force, LOUDEST) * ONE)
  }

  function Update(f: Filter, force: nat): Filter {
    var smoothed := Smooth(f, force);
    var hysteretic := Blend(ALPHA, f.hysteretic, Candidate(f.hysteretic, smoothed, Band(force)));
    Filter(hysteretic, if hysteretic > f.output then Blend(OUTPUT_ALPHA, f.output, hysteretic) else hysteretic, smoothed)
  }

  /** Output below force below its cap, and the smoothed input within the pressure range. */
  predicate Valid(f: Filter) {
    0 <= f.output <= f.hysteretic <= CAP && 0 <= f.smoothed <= TOP
  }

  lemma BlendBetween(alpha: int, x: int, y: int)
    requires 0 <= alpha <= ONE
    ensures Min(x, y) <= Blend(alpha, x, y) <= Max(x, y)
  {
    var sum := alpha * x + (ONE - alpha) * y;
    assert sum == ONE * x + (ONE - alpha) * (y - x) == ONE * y + alpha * (x - y);
    if x <= y {
      MulSign(ONE - alpha, y - x);
      MulSign(alpha, y - x);
      assert alpha * (x - y) == -(alpha * (y - x));
    } else {
      MulSign(ONE - alpha, x - y);
      MulSign(alpha, x - y);
      assert (ONE - alpha) * (y - x) == -((ONE - alpha) * (x - y));
    }
  }

  lemma MulSign(a: int, b: int)
    requires a >= 0 && b >= 0
    ensures a * b >= 0
  {
  }

  /** A candidate never leaves the force range: loud pressures subtract the full band, soft ones stay low. */
  lemma CandidateInRange(f: Filter, force: nat)
    requires Valid(f)
    ensures 0 <= Smooth(f, force) <= TOP
    ensures 0 <= Candidate(f.hysteretic, Smooth(f, force), Band(force)) <= CAP
  {
    BlendBetween(ALPHA, f.smoothed, Min(force, LOUDEST) * ONE);
    if force * SCALE < BAND_MAX {
      assert force < 750;
      assert ALPHA * f.smoothed <= ALPHA * TOP;
    }
  }

  lemma UpdateValid(f: Filter, force: nat)
    requires Valid(f)
    ensures Valid(Update(f, force))
  {
    CandidateInRange(f, force);
    var h := Blend(ALPHA, f.hysteretic, Candidate(f.hysteretic, Smooth(f, force), Band(force)));
    BlendBetween(ALPHA, f.hysteretic, Candidate(f.hysteretic, Smooth(f, force), Band(force)));
    BlendBetween(OUTPUT_ALPHA, f.output, h);
    hide Blend, Candidate, Smooth, Band;
  }

  function Run(f: Filter, forces: seq<nat>): Filter
    decreases |forces|
  {
    if forces == [] then f else Run(Update(f, forces[0]), forces[1..])
  }

  /** Over every sequence of pressures. */
  lemma {:induction false} RunValid(f: Filter, forces: seq<nat>)
    requires Valid(f)
    ensures Valid(Run(f, forces))
    decreases |forces|
  {
    hide Update, Valid;
    if forces != [] {
      UpdateValid(f, forces[0]);
      RunValid(Update(f, forces[0]), forces[1..]);
    }
  }

  /** The force keeps its exact value for an input in the dead band, or one rounding step above it; otherwise it moves. */
  lemma DeadBandExactly(f: Filter, force: nat)
    ensures var d := Smooth(f, force) - f.hysteretic;
            Update(f, force).hysteretic == f.hysteretic <==> -Band(force) <= d <= Band(force) + 1
  {
    var h, c := f.hysteretic, Candidate(f.hysteretic, Smooth(f, force), Band(force));
    assert ALPHA * h + (ONE - ALPHA) * c == ONE * h + (ONE - ALPHA) * (c - h);
    assert Blend(ALPHA, h, c) == h + ((ONE - ALPHA) * (c - h)) / ONE;
    hide Smooth, Band;
  }

  /** What is left of the distance to a target after one report, rounded down: the given share of it. */
  predicate Closes(alpha: int, before: int, after: int, target: int) {
    0 <= alpha * (before - target) - ONE * (after - target) < ONE
  }

  lemma BlendCloses(alpha: int, x: int, y: int)
    ensures Closes(alpha, x, Blend(alpha, x, y), y)
  {
    var sum := alpha * x + (ONE - alpha) * y;
    assert sum == alpha * (x - y) + ONE * y;
    assert ONE * (sum / ONE) <= sum < ONE * (sum / ONE) + ONE;
  }

  /** The nearer edge of the dead band, when the smoothed input has left it. */
  predicate IsEdge(force: int, smoothed: int, band: int, edge: int) {
    if smoothed - force > band then edge + band == smoothed
    else if force - smoothed > band then edge - band == smoothed
    else edge == force
  }

  /** Two percent of the pressure, to the precision of its factor, and between 1.5 and 15. */
  predicate IsBand(force: nat, band: int) {
    && BAND_MIN <= band <= BAND_MAX
    && (band > BAND_MIN ==> band <= force * SCALE)
    && (band < BAND_MAX ==> force * SCALE <= band)
  }

  /**
   One report: the smoothed input keeps 15 percent of its distance to the pressure, the
   force 15 percent of its distance to the band's edge, and the output follows a
   falling force at once and a rising one by 4 percent.
   */
  lemma UpdateExact(f: Filter, force: nat, band: int, edge: int)
    requires IsBand(force, band)
    ensures var r := Update(f, force);
            && Closes(ALPHA, f.smoothed, r.smoothed, if force < LOUDEST then force * ONE else LOUDEST * ONE)
            && (IsEdge(f.hysteretic, r.smoothed, band, edge) ==> Closes(ALPHA, f.hysteretic, r.hysteretic, edge))
            && (r.hysteretic <= f.output ==> r.output == r.hysteretic)
            && (r.hysteretic > f.output ==> Closes(OUTPUT_ALPHA, f.output, r.output, r.hysteretic))
  {
    var r := Update(f, force);
    assert band == Band(force);
    BlendCloses(ALPHA, f.smoothed, Min(force, LOUDEST) * ONE);
    BlendCloses(ALPHA, f.hysteretic, Candidate(f.hysteretic, r.smoothed, band));
    BlendCloses(OUTPUT_ALPHA, f.output, r.hysteretic);
    hide Blend, Closes, Band;
  }

  /** The filter as the driver keeps it; every intermediate value is checked against its C type. */
  class ForcePath {
    var hysteretic: s32
    var output: s32
    var smoothed: s32

    function View(): Filter
      reads this
    {
      Filter(hysteretic as int, output as int, smoothed as int)
    }

    constructor ()
      ensures View() == QUIET && Valid(View())
    {
      hysteretic, output, smoothed := 0, 0, 0;
    }

    /** A weighted mean through a 64-bit intermediate. */
    static method Mean(alpha: s32, old_: s32, new_: s32) returns (r: s32)
      requires 0 <= alpha as int <= ONE && old_ >= 0 && new_ >= 0
      ensures r as int == Blend(alpha as int, old_ as int, new_ as int)
    {
      BlendBetween(alpha as int, old_ as int, new_ as int);
      MulBelow(alpha as int, old_ as int);
      MulBelow(ONE - alpha as int, new_ as int);
      var sum: s64 := alpha as s64 * old_ as s64 + (ONE as s64 - alpha as s64) * new_ as s64;
      r := (sum / ONE as s64) as s32;
    }

    /** The dead band of a pressure, within 32 bits. */
    static method BandOf(force: nat) returns (band: s32)
      requires force < 0x1_0000
      ensures band as int == Band(force) && BAND_MIN <= band as int <= BAND_MAX
    {
      band := force as s32 * SCALE as s32;
      if band < BAND_MIN as s32 {
        band := BAND_MIN as s32;
      } else if band > BAND_MAX as s32 {
        band := BAND_MAX as s32;
      }
    }

    static method CandidateOf(current: s32, input: s32, band: s32) returns (candidate: s32)
      requires 0 <= current as int <= CAP && 0 <= input as int <= TOP && BAND_MIN <= band as int <= BAND_MAX
      ensures candidate as int == Candidate(current as int, input as int, band as int)
    {
      candidate := input;
      if candidate > current + band {
        candidate := candidate - band;
      } else if candidate < current - band {
        candidate := candidate + band;
      } else {
        candidate := current;
      }
    }

    method Feed(force: nat) returns (o: s32)
      requires force < 0x1_0000 && Valid(View())
      modifies this
      ensures View() == Update(old(View()), force) && Valid(View()) && o == output
    {
      hide Blend, Band, Candidate;
      UpdateValid(View(), force);
      CandidateInRange(View(), force);
      var raw: s32 := Min(force, LOUDEST) as s32 * ONE as s32;
      smoothed := Mean(ALPHA as s32, smoothed, raw);
      var band := BandOf(force);
      var candidate := CandidateOf(hysteretic, smoothed, band);
      hysteretic := Mean(ALPHA as s32, hysteretic, candidate);
      if hysteretic > output {
        output := Mean(OUTPUT_ALPHA as s32, output, hysteretic);
      } else {
        output := hysteretic;
      }
      o := output;
    }
  }

  lemma MulBelow(a: int, b: int)
    requires 0 <= a <= ONE && 0 <= b < 0x8000_0000
    ensures 0 <= a * b < ONE * 0x8000_0000
  {
    assert ONE * b - a * b == (ONE - a) * b;
  }
}
