/**
 The zero timestamp's sample time: an IEEE 754 binary64 number decoded with
 integer shifts and masks. A right shift by k divides by 2^k, a mask of the low k
 bits is the remainder, and setting the implicit bit of a fraction adds 2^52.
 */
module SampleTime {
  import opened Prelude

  const FRACTION: nat := 0x10_0000_0000_0000   // 2^52
  const LARGEST: nat := 0x20_0000_0000_0000    // 2^53
  const WORD: nat := 0x1_0000_0000_0000_0000   // 2^64
  const SIGN: nat := 0x8000_0000_0000_0000     // 2^63

  function Pow2(k: nat): (p: nat)
    ensures p >= 1
  {
    if k == 0 then 1 else 2 * Pow2(k - 1)
  }

  /** The frame count in a sample time, when it is a whole number the driver accepts. */
  function Decode(bits: nat): Option<nat>
    requires bits < WORD
  {
    var exponent := bits / FRACTION % 0x800;
    var fraction := bits % FRACTION;
    if bits == 0 then Some(0)
    else if bits / SIGN != 0 || exponent < 1023 || exponent > 1076 || (exponent == 1076 && fraction != 0) then None
    else
      var significand := fraction + FRACTION;
      if exponent == 1076 then Some(significand * 2)
      else
        var unit := Pow2(1075 - exponent);
        if significand % unit != 0 then None else Some(significand / unit)
  }

  /** Holds a capture position back by the device latency, never below the origin. */
  function PositionFrames(sample: nat, latency: nat): nat {
    if sample > latency then sample - latency else 0
  }

  // ------------------------------------------------------------------ the standard's reading

  /** What a binary64 encoding means: a signed multiple of a power of two, or no number at all. */
  datatype Binary64 = Number(negative: bool, significand: nat, exponent: int) | NotFinite

  /** Section 3.4 of IEEE 754-2019 for 1 sign bit, 11 exponent bits and 52 fraction bits. */
  function Interpret(bits: nat): Binary64
    requires bits < WORD
  {
    var negative := bits >= SIGN;
    var biased := bits / FRACTION % 0x800;
    var fraction := bits % FRACTION;
    if biased == 0x7ff then NotFinite
    else if biased == 0 then Number(negative, fraction, -1074)
    else Number(negative, FRACTION + fraction, biased - 1075)
  }

  /** The number is exactly the natural n. */
  predicate Denotes(x: Binary64, n: nat) {
    && x.Number?
    && (if x.negative then 0 - x.significand else x.significand) * (if x.exponent > 0 then Pow2(x.exponent) else 1)
       == n * (if x.exponent < 0 then Pow2(-x.exponent) else 1)
  }

  lemma {:induction false} Pow2Add(a: nat, b: nat)
    ensures Pow2(a + b) == Pow2(a) * Pow2(b)
  {
    if b > 0 {
      Pow2Add(a, b - 1);
      assert Pow2(a + b) == 2 * Pow2(a + (b - 1));
      assert Pow2(a) * Pow2(b) == 2 * (Pow2(a) * Pow2(b - 1));
    }
  }

  lemma Pow2Monotone(a: nat, b: nat)
    requires a <= b
    ensures Pow2(a) <= Pow2(b)
  {
    Pow2Add(a, b - a);
    assert Pow2(a) * Pow2(b - a) >= Pow2(a) * 1;
  }

  lemma Constants()
    ensures Pow2(52) == FRACTION && Pow2(53) == LARGEST && Pow2(2) == 4 && Pow2(1) == 2 && Pow2(0) == 1
  {
    assert Pow2(13) == 0x2000;
    Pow2Add(13, 13);
    Pow2Add(26, 26);
    assert Pow2(53) == 2 * Pow2(52);
  }

  /** A significand of at most 53 bits is no multiple of a larger power of two. */
  lemma TooFine(m: nat, n: nat, k: nat)
    requires 0 < m < LARGEST && k >= 53
    ensures m != n * Pow2(k)
  {
    Constants();
    Pow2Monotone(53, k);
    if n >= 1 {
      assert n * Pow2(k) >= 1 * Pow2(k);
    }
  }

  lemma MultipleExactly(m: nat, n: nat, unit: nat)
    requires unit > 0
    ensures m == n * unit <==> m % unit == 0 && m / unit == n
  {
    if m == n * unit {
      DivModUnique(m, unit, n, 0);
    }
  }

  lemma SplitBits(bits: nat)
    requires bits < WORD
    ensures bits == (bits / SIGN) * SIGN + (bits / FRACTION % 0x800) * FRACTION + bits % FRACTION
    ensures bits < SIGN <==> bits / SIGN == 0
  {
    var high := bits / FRACTION;
    assert bits == high * FRACTION + bits % FRACTION;
    assert high == (high / 0x800) * 0x800 + high % 0x800;
    DivModUnique(bits, SIGN, high / 0x800, (high % 0x800) * FRACTION + bits % FRACTION);
  }

  /**
   The decoder accepts exactly the non-negative encodings of the integers up to
   2^53, and returns the integer they mean.
   */
  lemma DecodeExact(bits: nat, n: nat)
    requires bits < WORD
    ensures Decode(bits) == Some(n) <==> bits < SIGN && Denotes(Interpret(bits), n) && n <= LARGEST
  {
    hide Pow2;
    SplitBits(bits);
    Constants();
    var e, f := bits / FRACTION % 0x800, bits % FRACTION;
    if bits < SIGN {
      if e == 0 {
        DecodeSubnormal(bits, n);
      } else if e < 1023 {
        TooFine(FRACTION + f, n, 1075 - e);
      } else if e <= 1074 {
        MultipleExactly(FRACTION + f, n, Pow2(1075 - e));
        ExactFits(FRACTION + f, n, Pow2(1075 - e));
      } else if e <= 1076 {
        MultipleExactly(FRACTION + f, n, 1);
      } else if e < 0x7ff {
        Pow2Monotone(2, e - 1075);
        assert (FRACTION + f) * Pow2(e - 1075) >= FRACTION * 4;
      }
    }
  }

  lemma ExactFits(m: nat, n: nat, unit: nat)
    requires m < LARGEST && unit >= 1
    ensures m == n * unit ==> n <= LARGEST
  {
    assert n * unit >= n * 1;
  }

  lemma DecodeSubnormal(bits: nat, n: nat)
    requires bits < SIGN && bits / FRACTION % 0x800 == 0
    ensures Decode(bits) == Some(n) <==> Denotes(Interpret(bits), n) && n <= LARGEST
  {
    hide Pow2;
    SplitBits(bits);
    var f := bits % FRACTION;
    assert Interpret(bits) == Number(false, f, -1074);
    assert Denotes(Interpret(bits), n) <==> f == n * Pow2(1074);
    if f > 0 {
      TooFine(f, n, 1074);
      assert Decode(bits) == None;
    } else {
      assert Decode(bits) == Some(0);
      MulBound(n, Pow2(1074));
    }
  }

  // ------------------------------------------------------------------ round trips

  function Log2(n: nat): (k: nat)
    requires n > 0
    ensures Pow2(k) <= n < Pow2(k + 1)
  {
    if n == 1 then 0 else 1 + Log2(n / 2)
  }

  lemma Log2Unique(n: nat, k: nat)
    requires n > 0 && Pow2(k) <= n < Pow2(k + 1)
    ensures Log2(n) == k
  {
    if Log2(n) < k {
      Pow2Monotone(Log2(n) + 1, k);
    } else if k < Log2(n) {
      Pow2Monotone(k + 1, Log2(n));
    }
  }

  lemma LogSmall(n: nat)
    requires 0 < n < LARGEST
    ensures Log2(n) <= 52
  {
    Constants();
    if Log2(n) > 52 {
      Pow2Monotone(53, Log2(n));
    }
  }

  function Scaled(x: nat, k: nat): nat {
    x * Pow2(k)
  }

  /** The binary64 encoding of an integer up to 2^53. */
  function Encode(n: nat): nat
    requires n <= LARGEST
  {
    if n == 0 then 0
    else if n == LARGEST then 1076 * FRACTION
    else
      LogSmall(n);
      var k := Log2(n);
      (1023 + k) * FRACTION + Scaled(n - Pow2(k), 52 - k)
  }

  /** Scaling n to 53 bits puts its leading bit on the implicit bit. */
  lemma Leading(n: nat, k: nat)
    requires k <= 52 && Pow2(k) <= n < Pow2(k + 1)
    ensures Scaled(n, 52 - k) == Scaled(n - Pow2(k), 52 - k) + FRACTION < LARGEST
  {
    hide Pow2;
    Constants();
    Pow2Add(k, 52 - k);
    Pow2Add(k + 1, 52 - k);
    ShiftUp(n, Pow2(k), Pow2(k + 1), Pow2(52 - k));
  }

  lemma ShiftUp(n: nat, low: nat, high: nat, unit: nat)
    requires low <= n < high && unit > 0
    ensures n * unit == (n - low) * unit + low * unit < high * unit
  {
    assert (n - low) * unit == n * unit - low * unit;
    MulLess(n, high, unit);
  }

  lemma MulLess(a: nat, b: nat, unit: nat)
    requires unit > 0
    ensures a < b <==> a * unit < b * unit
  {
    if a < b {
      assert b * unit == a * unit + (b - a) * unit;
      MulBound(b - a, unit);
    } else {
      assert a * unit == b * unit + (a - b) * unit;
      MulBound(a - b, unit);
    }
  }

  lemma EncodeFields(n: nat)
    requires 0 < n < LARGEST
    ensures var k := Log2(n);
            && k <= 52 && Encode(n) < SIGN
            && Encode(n) / FRACTION % 0x800 == 1023 + k
            && Encode(n) % FRACTION + FRACTION == Scaled(n, 52 - k)
  {
    LogSmall(n);
    var k := Log2(n);
    Leading(n, k);
    hide Pow2, Scaled, Log2, Encode;
    EncodeAt(n, k);
    Fields(Encode(n), 1023 + k, Scaled(n - Pow2(k), 52 - k));
  }

  lemma Fields(bits: nat, e: nat, f: nat)
    requires e < 0x800 && f < FRACTION && bits == e * FRACTION + f
    ensures bits / FRACTION % 0x800 == e && bits % FRACTION == f && bits < SIGN
  {
    DivModUnique(bits, FRACTION, e, f);
  }

  lemma DecodeEncode(n: nat)
    requires n <= LARGEST
    ensures Encode(n) < SIGN && Decode(Encode(n)) == Some(n)
  {
    hide Pow2, Log2;
    if n == LARGEST {
      DivModUnique(Encode(n), FRACTION, 1076, 0);
    } else if n > 0 {
      EncodeFields(n);
      var unit := Pow2(52 - Log2(n));
      MultipleExactly(n * unit, n, unit);
      SplitBits(Encode(n));
      hide Encode;
    }
  }

  /** No other pattern is accepted for n. */
  lemma EncodeDecode(bits: nat)
    requires bits < WORD && Decode(bits).Some?
    ensures Decode(bits).value <= LARGEST && Encode(Decode(bits).value) == bits
  {
    hide Pow2, Log2;
    var n := Decode(bits).value;
    SplitBits(bits);
    var e, f := bits / FRACTION % 0x800, bits % FRACTION;
    if bits != 0 && e <= 1075 {
      MultipleExactly(FRACTION + f, n, Pow2(1075 - e));
      FieldsOf(n, e - 1023, f);
    }
  }

  /** A 53-bit significand that is n scaled fixes n's leading bit. */
  lemma FieldsOf(n: nat, k: nat, f: nat)
    requires k <= 52 && f < FRACTION && FRACTION + f == Scaled(n, 52 - k)
    ensures 0 < n < LARGEST && Log2(n) == k && Encode(n) == (1023 + k) * FRACTION + f
  {
    Constants();
    var unit := Pow2(52 - k);
    Pow2Add(k, 52 - k);
    Pow2Add(k + 1, 52 - k);
    MulLess(n, Pow2(k), unit);
    MulLess(n, Pow2(k + 1), unit);
    Pow2Monotone(k + 1, 53);
    hide Pow2, Encode;
    Log2Unique(n, k);
    Leading(n, k);
    EncodeAt(n, k);
  }

  lemma EncodeAt(n: nat, k: nat)
    requires 0 < n < LARGEST && Log2(n) == k && k <= 52
    ensures Encode(n) == (1023 + k) * FRACTION + Scaled(n - Pow2(k), 52 - k)
  {
    hide Pow2, Log2, Scaled;
  }
}
