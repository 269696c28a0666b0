/**
  float_to_fp16 and fp16_to_float (csrc/cpu/float_convert.hpp), on bit patterns.
  Values are integers in units of 2^-149, the smallest binary32 subnormal; a binary16
  value counts units of 2^-24, so it is scaled by 2^125.

  The specification is section 4.3.1 of IEEE 754-2019 (round to nearest, ties to even)
  with the encodings of section 3.4.  Infinity takes part as the value that would follow
  the largest finite half, which is how overflow is defined there.
 */
module HalfFloat {
  import opened Powers

  lemma Pow2Values()
    ensures Pow2(13) == 0x2000 && Pow2(14) == 0x4000 && Pow2(23) == 0x80_0000 && Pow2(24) == 0x100_0000
  {
    assert Pow2(5) == 32;
    Pow2Add(5, 5);
    Pow2Add(10, 3);
    Pow2Add(10, 13);
    Pow2Add(13, 1);
    Pow2Add(23, 1);
  }

  /** x >> shift, and the bits it drops: x & (2^shift - 1). */
  function ShiftRight(x: nat, shift: nat): int { x / Pow2(shift) }
  function LowBits(x: nat, shift: nat): int { x % Pow2(shift) }

  // ----- values of codes -----

  const SIGN32 := 0x8000_0000
  const SIGN16 := 0x8000
  const F32_INF := 0x7f80_0000
  const F16_INF := 0x7c00
  const F32_ONE := 0x80_0000 // the implicit leading one of a binary32 significand
  const F16_ONE := 0x400

  /** Section 3.4: exponent field 0 is subnormal, any other has an implicit leading `one`. */
  function Scaled(one: nat, exponent: nat, mantissa: nat): int {
    if exponent == 0 then mantissa else (one + mantissa) * Pow2(exponent - 1)
  }

  /** Magnitude of a binary32 code, and of a binary16 code in the same unit. */
  function Value32(u: nat): int { Scaled(F32_ONE, u / F32_ONE, u % F32_ONE) }
  function Value16(c: nat): int { Scaled(F16_ONE, c / F16_ONE, c % F16_ONE) * Pow2(125) }

  /** A significand q in binade g, whether or not it needs a carry into the next one. */
  ghost predicate Significand(one: nat, g: nat, q: nat) {
    q <= 2 * one && (g > 0 ==> q >= one)
  }

  lemma ScaledAt(one: nat, g: nat, q: nat)
    requires Significand(one, g, q) && one > 0
    ensures q < one ==> Scaled(one, 0, q) == q * Pow2(g)
    ensures one <= q < 2 * one ==> Scaled(one, g + 1, q - one) == q * Pow2(g)
    ensures q == 2 * one ==> Scaled(one, g + 2, 0) == q * Pow2(g)
  {
    if q < one { assert Pow2(0) == 1; }
    if q == 2 * one {
      assert Pow2(g + 1) == 2 * Pow2(g);
      assert one * (2 * Pow2(g)) == (2 * one) * Pow2(g);
    }
  }

  lemma Value32At(g: nat, q: nat)
    requires Significand(F32_ONE, g, q)
    ensures Value32(g * F32_ONE + q) == q * Pow2(g)
  {
    hide Pow2; hide Scaled;
    ScaledAt(F32_ONE, g, q);
  }

  lemma Value16At(g: nat, q: nat)
    requires Significand(F16_ONE, g, q)
    ensures Value16(g * F16_ONE + q) == q * Pow2(g) * Pow2(125)
  {
    hide Pow2; hide Scaled;
    ScaledAt(F16_ONE, g, q);
  }

  /** Every code is a significand in a binade, with room for a carry. */
  lemma Value32Next(u: nat)
    ensures Value32(u) < Value32(u + 1)
  {
    hide Pow2; hide Value32;
    var g := if u < F32_ONE then 0 else u / F32_ONE - 1;
    var q := u - g * F32_ONE;
    Value32At(g, q);
    Value32At(g, q + 1);
    assert (q + 1) * Pow2(g) == q * Pow2(g) + Pow2(g);
  }

  lemma Value16Next(c: nat)
    ensures Value16(c) < Value16(c + 1)
  {
    hide Pow2; hide Value16;
    var g := if c < F16_ONE then 0 else c / F16_ONE - 1;
    var q := c - g * F16_ONE;
    Value16At(g, q);
    Value16At(g, q + 1);
    var w, s := Pow2(g), Pow2(125);
    assert (q + 1) * w * s == q * w * s + w * s;
    assert w * s > 0;
  }

  /** Codes are ordered like their values. */
  lemma {:induction false} Value32Monotone(c: nat, d: nat)
    requires c < d
    ensures Value32(c) < Value32(d)
    decreases d
  {
    hide Value32;
    Value32Next(d - 1);
    if c < d - 1 { Value32Monotone(c, d - 1); }
  }

  lemma {:induction false} Value16Monotone(c: nat, d: nat)
    requires c < d
    ensures Value16(c) < Value16(d)
    decreases d
  {
    hide Value16;
    Value16Next(d - 1);
    if c < d - 1 { Value16Monotone(c, d - 1); }
  }

  // ----- the specification -----

  function Dist(a: int, b: int): nat { if a < b then b - a else a - b }

  /** `c` is the binary16 magnitude nearest to the value v; of two equally near ones, the even one. */
  ghost predicate NearestEven(v: int, c: nat) {
    && c <= F16_INF
    && forall d: nat :: d <= F16_INF && d != c ==>
         Dist(v, Value16(c)) < Dist(v, Value16(d)) || (Dist(v, Value16(c)) == Dist(v, Value16(d)) && c % 2 == 0)
  }

  /** Two even codes are never both nearest, so the answer is unique. */
  lemma NearestUnique(v: int, c: nat, d: nat)
    requires NearestEven(v, c) && NearestEven(v, d)
    ensures c == d
  {
    hide Value16;
    var (a, b) := if c < d then (c, d) else (d, c);
    if a < b {
      assert Dist(v, Value16(a)) == Dist(v, Value16(b)) && a % 2 == 0 && b % 2 == 0;
      Value16Monotone(a, a + 1);
      Value16Monotone(a + 1, b);
      assert false;
    }
  }

  /** A value between two neighbours: only they matter, and the midpoint decides. */
  lemma Bracketed(v: int, c: nat, up: bool)
    requires c < F16_INF && Value16(c) <= v <= Value16(c + 1)
    requires up ==> 2 * v > Value16(c) + Value16(c + 1) || (2 * v == Value16(c) + Value16(c + 1) && c % 2 == 1)
    requires !up ==> 2 * v < Value16(c) + Value16(c + 1) || (2 * v == Value16(c) + Value16(c + 1) && c % 2 == 0)
    ensures NearestEven(v, if up then c + 1 else c)
  {
    hide Value16;
    forall d: nat | d <= F16_INF
      ensures d < c ==> Value16(d) < Value16(c)
      ensures d > c + 1 ==> Value16(d) > Value16(c + 1)
    {
      if d < c { Value16Monotone(d, c); }
      if d > c + 1 { Value16Monotone(c + 1, d); }
    }
  }

  /** A half's own value has no other nearest half. */
  lemma ExactIsNearest(c: nat)
    requires c < F16_INF
    ensures NearestEven(Value16(c), c)
  {
    hide Value16;
    Value16Next(c);
    Bracketed(Value16(c), c, false);
  }

  /** Past the largest finite half, infinity is nearest. */
  lemma AboveInfinity(v: int)
    requires v >= Value16(F16_INF)
    ensures NearestEven(v, F16_INF)
  {
    hide Value16;
    forall d: nat | d < F16_INF ensures Value16(d) < Value16(F16_INF) {
      Value16Monotone(d, F16_INF);
    }
  }

  // ----- rounding a significand -----

  /** Which way the remainder of q, r = significand / 2^shift sends the result. */
  predicate RoundsUp(quotient: nat, remainder: nat, lsb: nat) {
    remainder > lsb / 2 || (remainder == lsb / 2 && quotient % 2 == 1)
  }

  /**
    The value (q*lsb + r) * weight lies between the halves q and q+1 of binade g, whose
    spacing is lsb * weight: rounding on the remainder is rounding to nearest even.
   */
  lemma RoundsToNearest(v: int, g: nat, q: nat, r: nat, lsb: nat, weight: nat)
    requires g <= 29 && Significand(F16_ONE, g, q + 1) && Significand(F16_ONE, g, q)
    requires r < lsb && lsb % 2 == 0 && weight > 0
    requires lsb * weight == Pow2(g) * Pow2(125) && v == (q * lsb + r) * weight
    ensures NearestEven(v, g * F16_ONE + q + if RoundsUp(q, r, lsb) then 1 else 0)
  {
    hide Value16; hide Pow2; hide NearestEven;
    var c, unit := g * F16_ONE + q, lsb * weight;
    Value16At(g, q);
    Value16At(g, q + 1);
    assert Value16(c) == q * unit by { Reassociate(q, Pow2(g), Pow2(125)); }
    assert Value16(c + 1) == q * unit + unit by { Reassociate(q + 1, Pow2(g), Pow2(125)); Distribute(q, 1, unit); }
    assert v == q * unit + r * weight by { Distribute(q * lsb, r, weight); Reassociate(q, lsb, weight); }
    var half := lsb / 2;
    assert unit == 2 * (half * weight) by { Reassociate(2, half, weight); }
    Scale(r, half, weight);
    Scale(r, lsb, weight);
    assert 0 <= r * weight <= unit;
    Bracketed(v, c, RoundsUp(q, r, lsb));
  }

  /** The dropped bits: 13 of a normal result, at least 14 of a subnormal one. */
  lemma LsbSize(shift: nat)
    requires 13 <= shift
    ensures Pow2(shift) % 2 == 0 && (shift == 13 ==> Pow2(shift) == 0x2000) && (shift > 13 ==> Pow2(shift) >= 0x4000)
  {
    Pow2Values();
    assert Pow2(shift) == 2 * Pow2(shift - 1);
    hide Pow2;
    if shift > 13 { Pow2Add(14, shift - 14); }
  }

  /** One unit of the shifted significand is the spacing of the halves there. */
  lemma Spacing(shift: nat, g: nat, e: nat)
    requires shift + e - 1 == g + 125 && e >= 1
    ensures Pow2(shift) * Pow2(e - 1) == Pow2(g) * Pow2(125)
  {
    hide Pow2;
    Pow2Add(shift, e - 1);
    Pow2Add(g, 125);
  }

  /** Dividing a significand below 2^24 by at least 2^14 leaves a mantissa of ten bits. */
  lemma Subnormal(significand: nat, shift: nat)
    requires significand < 0x100_0000 && Pow2(shift) >= 0x4000
    ensures 0 <= ShiftRight(significand, shift) < 0x400 && 0 <= LowBits(significand, shift)
    ensures significand == ShiftRight(significand, shift) * Pow2(shift) + LowBits(significand, shift)
    ensures LowBits(significand, shift) < Pow2(shift)
  {
    hide Pow2;
    Scale(significand / Pow2(shift), 0x400, Pow2(shift));
  }

  // ----- float_to_fp16 -----

  /** What the shift leaves of a normal result, before the carry. */
  lemma NormalCase(u: nat, mantissa: nat)
    requires 0x71 <= u / 0x80_0000 <= 0x8e && mantissa == u % 0x80_0000
    ensures 0 <= ShiftRight(mantissa, 13) < 0x400 && 0 <= LowBits(mantissa, 13)
    ensures var q, r := ShiftRight(mantissa, 13), LowBits(mantissa, 13);
            NearestEven(Value32(u), (u / 0x80_0000 - 0x70) * 0x400 + q + if RoundsUp(q, r, Pow2(13)) then 1 else 0)
  {
    hide Value32; hide NearestEven; hide Pow2;
    var e := u / 0x80_0000;
    LsbSize(13);
    Spacing(13, e - 0x71, e);
    var q, r := ShiftRight(mantissa, 13) + 0x400, LowBits(mantissa, 13);
    Value32At(e - 1, 0x80_0000 + mantissa);
    assert RoundsUp(q, r, 0x2000) == RoundsUp(q - 0x400, r, 0x2000);
    RoundsToNearest(Value32(u), e - 0x71, q, r, 0x2000, Pow2(e - 1));
  }

  /** And of a subnormal one, which may round up to the smallest normal. */
  lemma SubnormalCase(u: nat, shift: nat, significand: nat)
    requires 0x66 <= u / 0x80_0000 <= 0x70 && shift == 0x7e - u / 0x80_0000
    requires significand == u % 0x80_0000 + 0x80_0000
    ensures 0 <= ShiftRight(significand, shift) < 0x400 && 0 <= LowBits(significand, shift)
    ensures var q, r := ShiftRight(significand, shift), LowBits(significand, shift);
            NearestEven(Value32(u), q + if RoundsUp(q, r, Pow2(shift)) then 1 else 0)
  {
    hide Value32; hide NearestEven; hide Pow2; hide RoundsUp; hide ShiftRight; hide LowBits;
    var e := u / 0x80_0000;
    Value32At(e - 1, significand);
    LsbSize(shift);
    Spacing(shift, 0, e);
    Pow2Zero();
    Subnormal(significand, shift);
    var q, r := ShiftRight(significand, shift), LowBits(significand, shift);
    RoundsToNearest(Value32(u), 0, q, r, Pow2(shift), Pow2(e - 1));
  }

  /**
    The rounding branch.  `exponent` and `mantissa` are updated in the order of the source;
    the carry out of the mantissa moves to the next exponent, and from 30 into infinity.
   */
  method RoundMagnitude(u: nat) returns (c: nat)
    requires 0x3300_0001 <= u <= 0x477f_efff
    ensures NearestEven(Value32(u), c)
  {
    hide Value32; hide NearestEven; hide Pow2; hide ShiftRight; hide LowBits;
    var exponent, mantissa := u / 0x80_0000, u % 0x80_0000;
    var shift;
    if exponent > 0x70 {
      NormalCase(u, mantissa);
      shift := 13;
      exponent := exponent - 0x70;
    } else {
      shift := 0x7e - exponent;
      exponent := 0;
      mantissa := mantissa + 0x80_0000;
      SubnormalCase(u, shift, mantissa);
    }
    var lsb := Pow2(shift);
    var remainder := LowBits(mantissa, shift);
    mantissa := ShiftRight(mantissa, shift);
    if remainder > lsb / 2 || (remainder == lsb / 2 && mantissa % 2 == 1) {
      mantissa := mantissa + 1;
      if mantissa % 0x400 == 0 {
        exponent := exponent + 1;
        mantissa := 0;
      }
    }
    c := exponent * 0x400 + mantissa;
  }

  /** Up to half the smallest subnormal half, zero is nearest (the tie is even). */
  lemma Underflow(u: nat)
    requires u < 0x3300_0001
    ensures NearestEven(Value32(u), 0)
  {
    hide Value32; hide Value16; hide NearestEven; hide Pow2;
    assert Value16(0) == 0 && Value16(1) == 2 * Pow2(124) by {
      Value16At(0, 0);
      Value16At(0, 1);
      Pow2Zero();
      Doubled(1, 124);
    }
    assert Value32(0x3300_0000) == Pow2(124) by {
      Value32At(101, 0x80_0000);
      Pow2Values();
      Pow2Add(23, 101);
    }
    assert Value32(0) == 0 by { Value32At(0, 0); }
    if u > 0 { Value32Monotone(0, u); }
    if u < 0x3300_0000 { Value32Monotone(u, 0x3300_0000); }
    Bracketed(Value32(u), 0, false);
  }

  /** From the midpoint above the largest finite half on, infinity is nearest (the tie is even). */
  lemma Overflow(u: nat)
    requires u > 0x477f_efff
    ensures NearestEven(Value32(u), F16_INF)
  {
    hide Value32; hide Value16; hide NearestEven; hide Pow2;
    var unit := Pow2(29) * Pow2(125);
    assert Value16(0x7bff) == 2047 * unit && Value16(0x7c00) == 2048 * unit by {
      Value16At(29, 2047);
      Value16At(29, 2048);
      Reassociate(2047, Pow2(29), Pow2(125));
      Reassociate(2048, Pow2(29), Pow2(125));
    }
    assert 2 * Value32(0x477f_f000) == 4095 * unit by {
      Value32At(141, 0xff_f000);
      Pow2Values();
      Pow2Add(13, 141);
      Pow2Add(29, 125);
    }
    if u > 0x477f_f000 { Value32Monotone(0x477f_f000, u); }
    if Value32(u) < Value16(F16_INF) {
      Bracketed(Value32(u), 0x7bff, true);
    } else {
      AboveInfinity(Value32(u));
    }
  }

  /** What float_to_fp16 promises of the half h it returns for the bits x. */
  ghost predicate Rounds(x: nat, h: nat) {
    var u := x % SIGN32;
    && h < 2 * SIGN16
    && (u > F32_INF ==> h == 0x7fff)
    && (u <= F32_INF ==> h / SIGN16 == x / SIGN32)
    && (u == F32_INF ==> h % SIGN16 == F16_INF)
    && (u < F32_INF ==> NearestEven(Value32(u), h % SIGN16))
  }

  method FloatToHalf(x: nat) returns (h: nat)
    requires x < 0x1_0000_0000
    ensures Rounds(x, h)
  {
    hide Value32; hide NearestEven;
    var u := x % 0x8000_0000;
    if u > 0x7f80_0000 { return 0x7fff; }
    var sign := x / 0x8000_0000 * 0x8000;
    if u > 0x477f_efff {
      Overflow(u);
      return sign + 0x7c00;
    }
    if u < 0x3300_0001 {
      Underflow(u);
      return sign;
    }
    var c := RoundMagnitude(u);
    assert c <= F16_INF by { NearestInRange(Value32(u), c); }
    h := sign + c;
  }

  lemma NearestInRange(v: int, c: nat)
    requires NearestEven(v, c)
    ensures c <= F16_INF
  {}

  // ----- fp16_to_float -----

  /** What fp16_to_float promises of the bits x it returns for the half h: the very same value. */
  ghost predicate Widens(h: nat, x: nat) {
    var c, u := h % SIGN16, x % SIGN32;
    && x < 2 * SIGN32
    && (c > F16_INF ==> x == 0x7fff_ffff)
    && (c <= F16_INF ==> x / SIGN32 == h / SIGN16)
    && (c == F16_INF ==> u == F32_INF)
    && (c < F16_INF ==> u < F32_INF && Value32(u) == Value16(c))
  }

  /** A half with exponent field e > 0 keeps its value when the bias grows by 0x70. */
  lemma WidenNormal(e: nat, m: nat)
    requires 1 <= e < 0x1f && m < 0x400
    ensures Value32((e + 0x70) * F32_ONE + m * 0x2000) == Value16(e * F16_ONE + m)
  {
    hide Value32; hide Value16; hide Pow2;
    Value32At(e + 0x6f, F32_ONE + m * 0x2000);
    Value16At(e - 1, F16_ONE + m);
    Pow2Values();
    Pow2Add(13, e + 0x6f);
    Pow2Add(e - 1, 125);
    Reassociate(F16_ONE + m, 0x2000, Pow2(e + 0x6f));
    Reassociate(F16_ONE + m, Pow2(e - 1), Pow2(125));
  }

  /** k shifts of a subnormal mantissa are paid for by k steps of the exponent. */
  lemma WidenSubnormal(m: nat, k: nat)
    requires 0 < m < 0x400 && k < 0x71 && F32_ONE <= m * 0x2000 * Pow2(k) < 2 * F32_ONE
    ensures Value32((0x71 - k) * F32_ONE + (m * 0x2000 * Pow2(k) - F32_ONE)) == Value16(m)
  {
    hide Value32; hide Value16; hide Pow2;
    var q := m * 0x2000 * Pow2(k);
    assert Value32((0x70 - k) * F32_ONE + q) == q * Pow2(0x70 - k) by { Value32At(0x70 - k, q); }
    assert Value16(m) == m * Pow2(125) by { Value16At(0, m); Pow2Zero(); }
    assert 0x2000 * Pow2(k) * Pow2(0x70 - k) == Pow2(125) by {
      Pow2Values();
      Pow2Add(13, k);
      Pow2Add(13 + k, 0x70 - k);
    }
    Reassociate(m, 0x2000, Pow2(k));
    Reassociate(m, 0x2000 * Pow2(k), Pow2(0x70 - k));
  }

  /** The normalising loop runs at most ten times. */
  lemma FewShifts(m: nat, k: nat)
    requires m > 0 && m * 0x2000 * Pow2(k) < F32_ONE
    ensures k < 10
  {
    if k >= 10 {
      hide Pow2;
      Pow2Add(13, k);
      Pow2Add(23, k - 10);
      Pow2Values();
      Reassociate(m, 0x2000, Pow2(k));
      Scale(1, m, 0x2000 * Pow2(k));
      assert false;
    }
  }

  /** The normalising loop: shifts the mantissa up to its leading one, and drops that. */
  method NormalizeSubnormal(m: nat) returns (exponent: nat, mantissa: nat)
    requires 0 < m < 0x400
    ensures mantissa < F32_ONE && exponent <= 0x71
    ensures Value32(exponent * F32_ONE + mantissa) == Value16(m)
  {
    hide Value32; hide Value16; hide Pow2;
    exponent, mantissa := 0x71, m * 0x2000;
    ghost var k := 0;
    Pow2Zero();
    var msb := false;
    while !msb
      invariant 0 <= k <= 10 && exponent == 0x71 - k
      invariant mantissa == m * 0x2000 * Pow2(k)
      invariant msb <==> mantissa >= 0x80_0000
      invariant 0 < mantissa < 0x100_0000
      decreases 0x100_0000 - mantissa
    {
      FewShifts(m, k);
      msb := mantissa / 0x40_0000 % 2 == 1;
      Doubled(m * 0x2000, k);
      mantissa := mantissa * 2;
      exponent := exponent - 1;
      k := k + 1;
    }
    WidenSubnormal(m, k);
    mantissa := mantissa % 0x80_0000;
  }

  method HalfToFloat(h: nat) returns (x: nat)
    requires h < 0x1_0000
    ensures Widens(h, x)
  {
    hide Value32; hide Value16; hide Pow2;
    var sign := h / 0x8000;
    var exponent := h / 0x400 % 0x20;
    var mantissa := h % 0x400 * 0x2000;
    ghost var m := h % 0x400;
    assert h % SIGN16 == exponent * 0x400 + m;
    if exponent == 0x1f {
      if mantissa != 0 {
        sign, mantissa := 0, 0x7f_ffff;
      }
      exponent := 0xff;
    } else if exponent == 0 {
      if mantissa != 0 {
        exponent, mantissa := NormalizeSubnormal(h % 0x400);
      } else {
        Zero();
      }
    } else {
      WidenNormal(exponent, m);
      exponent := exponent + 0x70;
    }
    x := sign * 0x8000_0000 + exponent * 0x80_0000 + mantissa;
    assert x % SIGN32 == exponent * 0x80_0000 + mantissa;
  }

  lemma Zero()
    ensures Value32(0) == 0 == Value16(0)
  {
    Value32At(0, 0);
    Value16At(0, 0);
  }

  // ----- the two together -----

  /** float_to_fp16 undoes fp16_to_float on every half that is not a NaN, signed zeros included. */
  lemma LeftInverse(h: nat, x: nat, back: nat)
    requires h < 2 * SIGN16 && h % SIGN16 <= F16_INF
    requires Widens(h, x) && Rounds(x, back)
    ensures back == h
  {
    hide Value32; hide Value16; hide NearestEven;
    var c := h % SIGN16;
    if c < F16_INF {
      ExactIsNearest(c);
      NearestUnique(Value16(c), c, back % SIGN16);
    }
  }

  /** The promises fix the answers: at most one half per float, and one float per half. */
  lemma Determined(x: nat, h: nat, h': nat)
    requires Rounds(x, h) && Rounds(x, h')
    ensures h == h'
  {
    hide Value32; hide Value16; hide NearestEven;
    var u := x % SIGN32;
    if u < F32_INF { NearestUnique(Value32(u), h % SIGN16, h' % SIGN16); }
  }

  lemma WidenDetermined(h: nat, x: nat, x': nat)
    requires Widens(h, x) && Widens(h, x')
    ensures x == x'
  {
    hide Value32; hide Value16;
    var u, u' := x % SIGN32, x' % SIGN32;
    if u < u' { Value32Monotone(u, u'); }
    if u' < u { Value32Monotone(u', u); }
  }
}
