/**
 Unsigned binary32 bit patterns (include/radeon3d_emit.h), against the values they
 denote in the basic single format of section 3.2.1 of IEEE 754-1985.
 */
module FloatBits {
  import opened Words

  const FRACTION: nat := 0x80_0000
  const INFINITY_BITS: nat := 0x7f80_0000

  function Pow2(n: nat): (p: nat)
    ensures p >= 1
  {
    if n == 0 then 1 else 2 * Pow2(n - 1)
  }

  lemma {:induction false} PowAdds(a: nat, b: nat)
    ensures Pow2(a + b) == Pow2(a) * Pow2(b)
  {
    if a > 0 { PowAdds(a - 1, b); }
  }

  lemma {:induction false} PowRises(a: nat, b: nat)
    requires a <= b
    ensures Pow2(a) <= Pow2(b)
  {
    if a < b { PowRises(a, b - 1); }
  }

  /** Position of the highest one bit. */
  function Top(value: nat): (top: nat)
    requires value > 0
  {
    if value / 2 == 0 then 0 else 1 + Top(value / 2)
  }

  lemma {:induction false} TopBrackets(value: nat)
    requires value > 0
    ensures Pow2(Top(value)) <= value < 2 * Pow2(Top(value))
  {
    if value / 2 > 0 { TopBrackets(value / 2); }
  }

  lemma TopBelow(value: nat, n: nat)
    requires 0 < value < Pow2(n)
    ensures Top(value) < n
  {
    TopBrackets(value);
    if Top(value) >= n { PowRises(n, Top(value)); }
  }

  /** Exponent and shifted fraction, put together. */
  function Assemble(top: nat, shifted: nat): nat { (127 + top) * FRACTION + shifted % FRACTION }

  function Shifted(value: nat, top: nat): nat
    requires top < 24
  {
    Times(0, value, 0, Pow2(23 - top));
    value * Pow2(23 - top)
  }

  lemma Times(a: nat, b: nat, c: nat, d: nat)
    requires a <= b && c <= d
    ensures 0 <= a * c <= b * d
  {
    assert b * d - a * c == (b - a) * d + a * (d - c);
  }

  /** UnsignedFloatBits, for integers the fraction can hold. */
  function FloatBitsOf(value: nat): (bits: nat)
    requires value < Pow2(24)
  {
    if value == 0 then 0
    else
      TopBelow(value, 24);
      Assemble(Top(value), Shifted(value, Top(value)))
  }

  /** The loop that finds the highest bit. */
  method FindTop(value: nat) returns (top: nat)
    requires value > 0
    ensures top == Top(value)
  {
    top := 0;
    var scan: nat := value / 2;
    while scan > 0
      invariant scan > 0 ==> Top(value) == top + 1 + Top(scan)
      invariant scan == 0 ==> Top(value) == top
    {
      top := top + 1;
      scan := scan / 2;
    }
  }

  method UnsignedFloatBits(value: nat) returns (bits: nat)
    requires value < Pow2(24)
    ensures bits == FloatBitsOf(value)
  {
    if value == 0 {
      return 0;
    }
    var top := FindTop(value);
    TopBelow(value, 24);
    bits := Assemble(top, Shifted(value, top));
  }

  // ------------------------------------------------------------ values

  /** An exponent field and a fraction, in units of the smallest denormal, 2^-149. */
  function UnitsOf(exponent: nat, fraction: nat): nat {
    if exponent == 0 then fraction else (FRACTION + fraction) * Pow2(exponent - 1)
  }

  function Units(bits: nat): nat { UnitsOf(bits / FRACTION, bits % FRACTION) }

  /** A finite unsigned pattern's value. */
  function Value(bits: nat): real
    requires bits < INFINITY_BITS
  {
    Units(bits) as real / Pow2(149) as real
  }

  /** Everything with a smaller exponent lies below the next power. */
  lemma UnitsBelow(exponent: nat, fraction: nat)
    requires fraction < FRACTION
    ensures UnitsOf(exponent, fraction) < FRACTION * Pow2(exponent)
  {
    if exponent > 0 {
      var p := Pow2(exponent - 1);
      Times(FRACTION + fraction + 1, 2 * FRACTION, p, p);
      OneMore(FRACTION + fraction, p);
      Regroup(FRACTION, 2, p);
    }
  }

  lemma UnitsAtLeast(exponent: nat, fraction: nat)
    requires exponent > 0
    ensures UnitsOf(exponent, fraction) >= FRACTION * Pow2(exponent - 1)
  {
    Times(FRACTION, FRACTION + fraction, Pow2(exponent - 1), Pow2(exponent - 1));
  }

  lemma SameExponent(exponent: nat, a: nat, b: nat)
    requires a < b
    ensures UnitsOf(exponent, a) < UnitsOf(exponent, b)
  {
    if exponent > 0 {
      var p := Pow2(exponent - 1);
      Times(FRACTION + a + 1, FRACTION + b, p, p);
      OneMore(FRACTION + a, p);
    }
  }

  lemma LargerExponent(ea: nat, fa: nat, eb: nat, fb: nat)
    requires ea < eb && fa < FRACTION
    ensures UnitsOf(ea, fa) < UnitsOf(eb, fb)
  {
    UnitsBelow(ea, fa);
    UnitsAtLeast(eb, fb);
    PowRises(ea, eb - 1);
    Times(FRACTION, FRACTION, Pow2(ea), Pow2(eb - 1));
  }

  /** Patterns are ordered like their values. */
  lemma UnitsRise(a: nat, b: nat)
    requires a < b
    ensures Units(a) < Units(b)
  {
    if a / FRACTION == b / FRACTION {
      SameExponent(a / FRACTION, a % FRACTION, b % FRACTION);
    } else {
      LargerExponent(a / FRACTION, a % FRACTION, b / FRACTION, b % FRACTION);
    }
  }

  /** The highest bit of the shifted value is the one the format leaves out. */
  lemma ShiftedRange(value: nat)
    requires 0 < value < Pow2(24)
    ensures Top(value) < 24 && FRACTION <= Shifted(value, Top(value)) < 2 * FRACTION
  {
    TopBelow(value, 24);
    TopBrackets(value);
    var t, r := Pow2(Top(value)), Pow2(23 - Top(value));
    PowAdds(Top(value), 23 - Top(value));
    TwentyThree();
    Times(t, value, r, r);
    Times(value + 1, 2 * t, r, r);
    OneMore(value, r);
    Regroup(2, t, r);
  }

  lemma OneMore(a: nat, b: nat)
    ensures (a + 1) * b == a * b + b
  {
  }

  lemma Fields(top: nat, shifted: nat)
    requires top < 24 && FRACTION <= shifted < 2 * FRACTION
    ensures Assemble(top, shifted) / FRACTION == 127 + top
    ensures Assemble(top, shifted) % FRACTION == shifted - FRACTION
    ensures Assemble(top, shifted) < INFINITY_BITS
  {
  }

  /** The pattern computed for an integer denotes that integer. */
  lemma FloatBitsExact(value: nat)
    requires value < Pow2(24)
    ensures Units(FloatBitsOf(value)) == value * Pow2(149)
    ensures FloatBitsOf(value) < INFINITY_BITS
  {
    if value == 0 {
      assert Units(0) == 0;
    } else {
      var top := Top(value);
      ShiftedRange(value);
      Fields(top, Shifted(value, top));
      UnitsOfShifted(value, top, Shifted(value, top));
    }
  }

  lemma UnitsOfShifted(value: nat, top: nat, shifted: nat)
    requires top < 24 && shifted == value * Pow2(23 - top) && shifted >= FRACTION
    ensures UnitsOf(127 + top, shifted - FRACTION) == value * Pow2(149)
  {
    PowAdds(23 - top, 126 + top);
    Regroup(value, Pow2(23 - top), Pow2(126 + top));
  }

  lemma TwentyThree()
    ensures Pow2(23) == FRACTION
  {
    assert Pow2(8) == 256;
    assert Pow2(15) == 0x8000;
    PowAdds(8, 15);
  }

  lemma Regroup(a: nat, b: nat, c: nat)
    ensures a * b * c == a * (b * c)
  {
  }

  // ------------------------------------------------------------ screen coordinates

  const SIGN_BIT: nat := 0x8000_0000

  /** ValidScreenCoordinate: sign clear, finite, and an integer comparison of the patterns. */
  predicate ValidScreenCoordinate(bits: u32, limit: nat)
    requires limit < Pow2(24)
  {
    bits < SIGN_BIT && bits / FRACTION % 256 != 255 && bits <= FloatBitsOf(limit)
  }

  /** The integer comparison is the comparison of the values. */
  lemma CoordinateExact(bits: u32, limit: nat)
    requires limit < Pow2(24)
    ensures ValidScreenCoordinate(bits, limit) <==> bits < INFINITY_BITS && Value(bits) <= limit as real
  {
    FloatBitsExact(limit);
    if bits < INFINITY_BITS {
      PatternsCompare(bits, FloatBitsOf(limit));
      Quotient(Units(bits), limit, Pow2(149));
    }
  }

  lemma PatternsCompare(a: nat, b: nat)
    ensures a <= b <==> Units(a) <= Units(b)
  {
    if a < b { UnitsRise(a, b); }
    if b < a { UnitsRise(b, a); }
  }

  lemma Quotient(units: nat, limit: nat, scale: nat)
    requires scale > 0
    ensures units as real / scale as real <= limit as real <==> units <= limit * scale
  {
    assert units as real / scale as real * scale as real == units as real;
    assert limit as real * scale as real == (limit * scale) as real;
  }
}
