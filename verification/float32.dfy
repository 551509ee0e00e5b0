/**
 IEEE-754 binary32 values, decoded exactly from their 32-bit patterns.

 The tag stores its diameters as little-endian binary32 words, and the
 admission check compares such a word, read as a float, against the float
 literals 1.6f, 2.0f, 2.7f and 3.0f. Rather than modelling real arithmetic,
 every finite value is held as an exact integer multiple of 2^-149 (the
 smallest subnormal), which makes the ordering of floats a question about
 integers.
 */
module Float32 {

  /** A 32-bit machine word: the raw bit pattern behind a C `float`. */
  type Word32 = w: int | 0 <= w < 0x1_0000_0000

  const SignBit: int := 0x8000_0000
  /** 2^23: one unit of the exponent field; the fraction field lies below it. */
  const FractionSpan: int := 0x80_0000
  /** Pattern of positive infinity: exponent all ones, fraction zero. */
  const PositiveInfinity: int := 0x7F80_0000

  /** The float literals the diameter check compares against, as bit patterns. */
  const OnePointSix: Word32 := 0x3FCC_CCCD    // 1.6f = 13421773 * 2^-23
  const Two: Word32 := 0x4000_0000            // 2.0f
  const TwoPointSeven: Word32 := 0x402C_CCCD  // 2.7f = 11324621 * 2^-22
  const Three: Word32 := 0x4040_0000          // 3.0f

  /** A decoded binary32 value. A finite value is `units * 2^-149`. */
  datatype Float = NaN | Infinity(negative: bool) | Finite(units: int)

  function Pow2(n: nat): (p: nat)
    ensures p >= 1
  {
    if n == 0 then 1 else 2 * Pow2(n - 1)
  }

  /**
   Magnitude, in units of 2^-149, of the pattern `m` with its sign bit clear,
   provided its exponent field is not all ones. Exponent 0 is subnormal
   (`fraction * 2^-149`); exponent e >= 1 is normal
   (`(2^23 + fraction) * 2^(e - 150)`).
   */
  function Units(m: int): nat
    requires 0 <= m < PositiveInfinity
  {
    var e := m / FractionSpan;
    var f := m % FractionSpan;
    if e == 0 then f else (FractionSpan + f) * Pow2(e - 1)
  }

  /** The value a 32-bit pattern denotes when reinterpreted as a `float`. */
  function ToFloat(w: Word32): Float {
    var negative := w >= SignBit;
    var m := if negative then w - SignBit else w;
    if m == PositiveInfinity then Infinity(negative)
    else if m > PositiveInfinity then NaN
    else
      var u: int := Units(m);
      Finite(if negative then -u else u)
  }

  /** C's `x <= y` on floats: false whenever either side is NaN. */
  predicate LessOrEqual(x: Float, y: Float) {
    match (x, y)
    case (NaN, _) => false
    case (_, NaN) => false
    case (Infinity(nx), _) => nx || y == Infinity(false)
    case (Finite(_), Infinity(ny)) => !ny
    case (Finite(a), Finite(b)) => a <= b
  }

  /**
   The diameter test of the admission check, written with float comparisons
   as the source writes it: `(d >= 1.6f && d <= 2.0f) || (d >= 2.7f && d <= 3.0f)`.
   */
  predicate PlausibleDiameter(w: Word32) {
    var d := ToFloat(w);
    || (LessOrEqual(ToFloat(OnePointSix), d) && LessOrEqual(d, ToFloat(Two)))
    || (LessOrEqual(ToFloat(TwoPointSeven), d) && LessOrEqual(d, ToFloat(Three)))
  }

  /** The same test as two ranges of bit patterns. */
  predicate InDiameterBitRanges(w: int) {
    (OnePointSix <= w <= Two) || (TwoPointSeven <= w <= Three)
  }

  /** One step up in the bit pattern is one step up in value. */
  lemma UnitsStep(m: int)
    requires 0 <= m && m + 1 < PositiveInfinity
    ensures Units(m) < Units(m + 1)
  {
    var e := m / FractionSpan;
    var f := m % FractionSpan;
    assert m == e * FractionSpan + f;
    if f + 1 < FractionSpan {
      assert (m + 1) / FractionSpan == e && (m + 1) % FractionSpan == f + 1;
      if e > 0 {
        var p := Pow2(e - 1);
        assert (FractionSpan + f + 1) * p == (FractionSpan + f) * p + p;
      }
    } else {
      assert (m + 1) / FractionSpan == e + 1 && (m + 1) % FractionSpan == 0;
      if e > 0 {
        var p := Pow2(e - 1);
        assert Units(m + 1) == FractionSpan * (2 * p);
        assert Units(m) == (2 * FractionSpan - 1) * p;
      }
    }
  }

  /** For non-negative finite patterns, the bit order is the value order. */
  lemma {:induction false} UnitsStrictlyIncreasing(a: int, b: int)
    requires 0 <= a < b < PositiveInfinity
    ensures Units(a) < Units(b)
    decreases b - a
  {
    UnitsStep(a);
    if a + 1 < b {
      UnitsStrictlyIncreasing(a + 1, b);
    }
  }

  /** `c <= x` against a positive finite constant holds exactly for the patterns from c up to +infinity. */
  lemma AtLeastPositive(c: Word32, w: Word32)
    requires 0 < c < PositiveInfinity
    ensures LessOrEqual(ToFloat(c), ToFloat(w)) <==> c <= w <= PositiveInfinity
  {
    UnitsStrictlyIncreasing(0, c);
    if w < PositiveInfinity {
      if w < c {
        UnitsStrictlyIncreasing(w, c);
      } else if c < w {
        UnitsStrictlyIncreasing(c, w);
      }
    }
  }

  /** Below the sign bit, `x <= c` against a non-negative finite constant is `w <= c` on patterns. */
  lemma AtMostNonNegative(c: Word32, w: Word32)
    requires 0 <= c < PositiveInfinity
    requires w < SignBit
    ensures LessOrEqual(ToFloat(w), ToFloat(c)) <==> w <= c
  {
    if w < PositiveInfinity {
      if w < c {
        UnitsStrictlyIncreasing(w, c);
      } else if c < w {
        UnitsStrictlyIncreasing(c, w);
      }
    }
  }

  /**
   The float comparisons of the diameter test agree with the bit ranges
   [0x3FCCCCCD, 0x40000000] and [0x402CCCCD, 0x40400000]: negative values,
   infinities and NaNs all fail.
   */
  lemma PlausibleDiameterBitRanges(w: Word32)
    ensures PlausibleDiameter(w) <==> InDiameterBitRanges(w)
  {
    AtLeastPositive(OnePointSix, w);
    AtLeastPositive(TwoPointSeven, w);
    if w < SignBit {
      AtMostNonNegative(Two, w);
      AtMostNonNegative(Three, w);
    }
  }

  lemma {:induction false} Pow2Add(a: nat, b: nat)
    ensures Pow2(a + b) == Pow2(a) * Pow2(b)
    decreases a
  {
    if a > 0 {
      Pow2Add(a - 1, b);
    }
  }

  /** The word 0x3FE00000 is 1.75f: 7 * 2^147 units of 2^-149. */
  lemma OnePointSevenFive()
    ensures ToFloat(0x3FE0_0000) == Finite(7 * Pow2(147))
  {
    var w := 0x3FE0_0000;
    assert w == 127 * FractionSpan + 0x60_0000;
    assert Units(w) == 0xE0_0000 * Pow2(126);
    Pow2Add(21, 126);
    Pow2Value21();
    calc {
      0xE0_0000 * Pow2(126);
      7 * (Pow2(21) * Pow2(126));
      7 * Pow2(147);
    }
  }

  lemma Pow2Value21()
    ensures Pow2(21) == 0x20_0000
  {
    Pow2Add(10, 11);
    assert Pow2(10) == 1024 by {
      Pow2Add(5, 5);
      assert Pow2(5) == 32;
    }
    assert Pow2(11) == 2048;
  }
}
