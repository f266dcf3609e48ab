/** Half-precision activation transport, on the bit patterns of binary32 and binary16. */
module HalfFloat {
  import opened Wire

  type U16 = x: int | 0 <= x < 0x1_0000

  function Pow2(n: nat): (r: nat)
    ensures r >= 1
  {
    if n == 0 then 1 else 2 * Pow2(n - 1)
  }

  lemma {:induction false} Pow2Adds(a: nat, b: nat)
    ensures Pow2(a + b) == Pow2(a) * Pow2(b)
  {
    if a > 0 {
      Pow2Adds(a - 1, b);
      assert Pow2(a) * Pow2(b) == 2 * (Pow2(a - 1) * Pow2(b));
    }
  }

  // ---------------------------------------------------------------- the two formats

  function Sign32(x: U32): int { x / 0x8000_0000 }
  function Exp32(x: U32): int { x / 0x80_0000 % 0x100 }
  function Mant32(x: U32): int { x % 0x80_0000 }

  predicate IsNan32(x: U32) { Exp32(x) == 255 && Mant32(x) != 0 }
  predicate IsFinite32(x: U32) { Exp32(x) != 255 }

  function Sign16(h: U16): int { h / 0x8000 }
  function Code16(h: U16): int { h % 0x8000 }

  /** The code of infinity; finite halves have smaller codes, NaNs greater ones. */
  const INF: nat := 0x7c00

  predicate IsNan16(h: U16) { Code16(h) > INF }
  predicate IsFinite16(h: U16) { Code16(h) < INF }

  /** The magnitude of a finite binary32 value in units of 2^-149. */
  function Magnitude32(x: U32): nat {
    if Exp32(x) == 0 then Mant32(x) else (0x80_0000 + Mant32(x)) * Pow2(Exp32(x) - 1)
  }

  /** The magnitude a half code stands for, in the same units; at INF the value the next binade would start
      with, which is where overflow is measured from. */
  function Magnitude16(code: nat): nat {
    if code < 1024 then code * Pow2(125) else (1024 + code % 1024) * Pow2(code / 1024 + 124)
  }

  // ---------------------------------------------------------------- encoding

  /** Divides by 2 * unit, rounding to nearest, ties to even: the bit below the cut decides, then the bits
      below it, then whether the quotient is odd. */
  function RoundBits(m: nat, unit: nat): nat
    requires unit >= 1
  {
    RoundUp(Div(m, 2 * unit), Div(m, unit) % 2, Mod(m, unit))
  }

  function Div(m: nat, d: nat): nat
    requires d >= 1
  {
    m / d
  }

  function Mod(m: nat, d: nat): nat
    requires d >= 1
  {
    m % d
  }

  function RoundUp(half: nat, roundBit: nat, sticky: nat): nat {
    if roundBit == 1 && (sticky != 0 || half % 2 == 1) then half + 1 else half
  }

  /** The code of the half a float is sent as. */
  function EncodeCode(x: U32): nat {
    var exp := Exp32(x) - 112;
    if exp <= 0 then
      if exp < -10 then 0 else RoundBits(0x80_0000 + Mant32(x), Pow2(13 - exp))
    else if exp >= 31 then if IsNan32(x) then 0x7e00 else INF
    else
      var half := exp * 1024 + Mant32(x) / 0x2000;
      var round := Mant32(x) % 0x2000;
      if round > 0x1000 || (round == 0x1000 && half % 2 == 1) then half + 1 else half
  }

  // ---------------------------------------------------------------- correct rounding

  function Distance(a: nat, b: nat): nat {
    if a < b then b - a else a - b
  }

  /** The value lies between the midpoints to the neighbours of its code, and on one only if the code is even. */
  predicate BetweenMidpoints(x: nat, code: nat) {
    && (code > 0 ==>
          Magnitude16(code - 1) + Magnitude16(code) < 2 * x
          || (Magnitude16(code - 1) + Magnitude16(code) == 2 * x && code % 2 == 0))
    && (code < INF ==>
          2 * x < Magnitude16(code) + Magnitude16(code + 1)
          || (2 * x == Magnitude16(code) + Magnitude16(code + 1) && code % 2 == 0))
  }

  /** Rounding an integer quotient: the remainder is at most half the divisor, half only when it is even. */
  lemma RoundBitsNearest(m: nat, unit: nat)
    requires unit >= 1
    ensures var back := RoundBits(m, unit) * (2 * unit);
      && (m < back + unit || (m == back + unit && RoundBits(m, unit) % 2 == 0))
      && (back < m + unit || (back == m + unit && RoundBits(m, unit) % 2 == 0))
  {
    hide RoundBits, Div, Mod;
    var half, r := Div(m, 2 * unit), Mod(m, 2 * unit);
    RoundBitsIs(m, unit);
    DivMod(m, 2 * unit);
    Distributes(half, 1, 2 * unit);
  }

  lemma DivMod(m: nat, d: nat)
    requires d >= 1
    ensures m == Div(m, d) * d + Mod(m, d) && Mod(m, d) < d
  {
  }

  /** The decision on bits is the decision on the remainder. */
  lemma RoundBitsIs(m: nat, unit: nat)
    requires unit >= 1
    ensures var half, r := Div(m, 2 * unit), Mod(m, 2 * unit);
      RoundBits(m, unit) == if r > unit || (r == unit && half % 2 == 1) then half + 1 else half
  {
    hide RoundUp, Div, Mod;
    var half, r := Div(m, 2 * unit), Mod(m, 2 * unit);
    DivMod(m, 2 * unit);
    Halves(m, unit, half, r);
    RoundUpIs(half, unit, r);
  }

  lemma RoundUpIs(half: nat, unit: nat, r: nat)
    requires r < 2 * unit
    ensures RoundUp(half, if r >= unit then 1 else 0, if r >= unit then r - unit else r)
         == if r > unit || (r == unit && half % 2 == 1) then half + 1 else half
  {
  }

  lemma Distributes(a: int, b: int, p: int)
    ensures (a + b) * p == a * p + b * p
  {
  }

  lemma Halves(m: nat, unit: nat, half: nat, r: nat)
    requires unit >= 1 && m == half * (2 * unit) + r && r < 2 * unit
    ensures Div(m, unit) % 2 == (if r >= unit then 1 else 0)
    ensures Mod(m, unit) == (if r >= unit then r - unit else r)
  {
    hide Div, Mod;
    Associate(half, 2, unit);
    if r >= unit {
      Distributes(2 * half, 1, unit);
      Quotient(m, unit, 2 * half + 1, r - unit);
    } else {
      Quotient(m, unit, 2 * half, r);
    }
  }

  lemma Quotient(m: nat, d: nat, q: nat, s: nat)
    requires d >= 1 && m == q * d + s && s < d
    ensures Div(m, d) == q && Mod(m, d) == s
  {
    hide Div, Mod;
    var q' := Div(m, d);
    DivMod(m, d);
    Distributes(q, 1, d);
    Distributes(q', 1, d);
    if q + 1 < q' { Scale(q + 1, q', d); }
    if q' + 1 < q { Scale(q' + 1, q, d); }
  }

  lemma {:induction false} Scale(a: int, b: int, p: nat)
    requires p >= 1 && a < b
    ensures a * p < b * p
  {
    if p > 1 {
      Scale(a, b, p - 1);
      Distributes(p - 1, 1, a);
      Distributes(p - 1, 1, b);
    }
  }

  // ---------------------------------------------------------------- the scale of half codes

  lemma MagnitudeLow(code: nat)
    requires code < 2048
    ensures Magnitude16(code) == code * Pow2(125)
  {
    hide Pow2;
    assert code >= 1024 ==> 1024 + code % 1024 == code && code / 1024 == 1;
  }

  /** Within a binade, and up to the first code of the next one, codes are evenly spaced. */
  lemma MagnitudeIn(exp: nat, f: nat)
    requires exp >= 1 && f <= 1024
    ensures Magnitude16(exp * 1024 + f) == (1024 + f) * Pow2(exp + 124)
  {
    if f < 1024 {
      assert (exp * 1024 + f) / 1024 == exp && (exp * 1024 + f) % 1024 == f;
    } else {
      var code := exp * 1024 + f;
      assert code / 1024 == exp + 1 && code % 1024 == 0;
      assert Pow2(exp + 1 + 124) == 2 * Pow2(exp + 124);
    }
  }

  lemma MagnitudeSteps(code: nat)
    ensures Magnitude16(code) < Magnitude16(code + 1)
  {
    if code < 1024 {
      MagnitudeLow(code);
      MagnitudeLow(code + 1);
      Distributes(code, 1, Pow2(125));
    } else {
      var exp, f := code / 1024, code % 1024;
      assert code == exp * 1024 + f;
      MagnitudeIn(exp, f);
      MagnitudeIn(exp, f + 1);
      Distributes(1024 + f, 1, Pow2(exp + 124));
    }
  }

  lemma {:induction false} MagnitudeGrows(a: nat, b: nat)
    requires a < b
    ensures Magnitude16(a) < Magnitude16(b)
    decreases b - a
  {
    hide Magnitude16;
    MagnitudeSteps(b - 1);
    if a < b - 1 { MagnitudeGrows(a, b - 1); }
  }

  // ---------------------------------------------------------------- every range of floats

  /** Rounding the scaled significand and then scaling is rounding the value. */
  lemma ScaledRounding(m: nat, unit: nat, p: nat)
    requires unit >= 1 && p >= 1
    ensures var q := RoundBits(m, unit);
      var back := q * (2 * unit) * p;
      && (m * p < back + unit * p || (m * p == back + unit * p && q % 2 == 0))
      && (back < m * p + unit * p || (back == m * p + unit * p && q % 2 == 0))
  {
    var q := RoundBits(m, unit);
    var back := q * (2 * unit);
    RoundBitsNearest(m, unit);
    hide RoundBits;
    Distributes(back, unit, p);
    Distributes(m, unit, p);
    if m < back + unit { Scale(m, back + unit, p); }
    if back < m + unit { Scale(back, m + unit, p); }
  }

  lemma RoundsBelowHalfTheSmallest(x: U32)
    requires Exp32(x) < 102
    ensures EncodeCode(x) == 0 && BetweenMidpoints(Magnitude32(x), 0)
  {
    MagnitudeLow(0);
    MagnitudeLow(1);
    TinyBound(x);
  }

  lemma TwoTo(n: nat)
    requires n == 10 || n == 13 || n == 24 || n == 25
    ensures n == 10 ==> Pow2(10) == 0x400
    ensures n == 13 ==> Pow2(13) == 0x2000
    ensures n == 24 ==> Pow2(24) == 0x100_0000
    ensures n == 25 ==> Pow2(25) == 0x200_0000
  {
    assert Pow2(10) == 0x400;
    if n == 13 { Pow2Adds(10, 3); assert Pow2(3) == 8; }
    if n >= 24 { Pow2Adds(10, 10); Pow2Adds(20, 4); assert Pow2(4) == 16; Pow2Adds(24, 1); assert Pow2(1) == 2; }
  }

  lemma TinyBound(x: U32)
    requires Exp32(x) < 102
    ensures 2 * Magnitude32(x) < Pow2(125)
  {
    hide Pow2;
    TwoTo(24);
    TwoTo(25);
    if Exp32(x) == 0 {
      Pow2Adds(24, 101);
      DoublePow2(100);
      Distributes(1, Pow2(101) - 1, Pow2(24));
      AtLeast(Pow2(101) - 1, Pow2(24));
    } else {
      var p, q, m := Pow2(Exp32(x) - 1), Pow2(101 - Exp32(x)), 0x80_0000 + Mant32(x);
      Pow2Adds(25, Exp32(x) - 1);
      Pow2Adds(Exp32(x) + 24, 101 - Exp32(x));
      Scale(2 * m, 0x200_0000, p);
      Associate(2, m, p);
      AtLeast(q, 0x200_0000 * p);
    }
  }

  lemma AtLeast(a: nat, b: nat)
    requires a >= 1 && b >= 1
    ensures a * b >= b && b * a >= b
  {
  }

  lemma RoundsSubnormal(x: U32)
    requires 102 <= Exp32(x) <= 112
    ensures EncodeCode(x) <= 1024 && BetweenMidpoints(Magnitude32(x), EncodeCode(x))
  {
    hide Pow2, Magnitude16, RoundBits;
    var m, unit, p := 0x80_0000 + Mant32(x), Pow2(125 - Exp32(x)), Pow2(Exp32(x) - 1);
    var q := RoundBits(m, unit);
    assert EncodeCode(x) == q;
    Pow2Adds(125 - Exp32(x), Exp32(x) - 1);
    DoublePow2(124);
    assert q * (2 * unit) * p == q * Pow2(125) by { assert 2 * unit * p == Pow2(125); Associate(q, 2 * unit, p); }
    ScaledRounding(m, unit, p);
    SubnormalBound(m, Exp32(x));
    MagnitudeLow(q);
    MagnitudeLow(q + 1);
    Distributes(q, 1, Pow2(125));
    if q > 0 {
      MagnitudeLow(q - 1);
      Distributes(q - 1, 1, Pow2(125));
    }
  }

  lemma Associate(a: int, b: int, d: int)
    ensures a * b * d == a * (b * d)
  {
  }

  lemma DoublePow2(n: nat)
    ensures Pow2(n + 1) == 2 * Pow2(n)
  {
  }

  lemma SubnormalBound(m: nat, exp32: nat)
    requires m < 0x100_0000 && 102 <= exp32 <= 112
    ensures RoundBits(m, Pow2(125 - exp32)) <= 1024
  {
    var unit := Pow2(125 - exp32);
    var q := RoundBits(m, unit);
    RoundBitsNearest(m, unit);
    Pow2Adds(13, 112 - exp32);
    assert Pow2(13) == 0x2000;
    hide RoundBits, Pow2;
    UnitBound(Pow2(112 - exp32));
    if q >= 1025 {
      QuotientBound(q, unit);
    }
  }

  lemma UnitBound(p: nat)
    requires p >= 1
    ensures 0x2000 * p >= 0x2000
  {
  }

  lemma QuotientBound(q: nat, unit: nat)
    requires q >= 1025 && unit >= 0x2000
    ensures q * (2 * unit) >= 0x100_0000 + unit + 1
  {
    Distributes(1025, q - 1025, 2 * unit);
  }

  /** Rounding the part of the value behind its leading bit. */
  lemma MidpointsFromRemainder(x: nat, code: nat, part: nat, back: nat, half: nat, q: nat)
    requires Magnitude16(code) + part == x + back && code % 2 == q % 2 && half >= 1
    requires part < back + half || (part == back + half && q % 2 == 0)
    requires back < part + half || (back == part + half && q % 2 == 0)
    requires Magnitude16(code + 1) >= Magnitude16(code) + 2 * half
    requires code > 0 && Magnitude16(code - 1) < Magnitude16(code)
    requires q > 0 ==> Magnitude16(code - 1) + 2 * half == Magnitude16(code)
    requires q == 0 ==> back == 0
    ensures BetweenMidpoints(x, code)
  {
    hide Magnitude16;
  }

  lemma RoundsNormal(x: U32)
    requires 113 <= Exp32(x) <= 142
    ensures EncodeCode(x) <= INF && BetweenMidpoints(Magnitude32(x), EncodeCode(x))
  {
    hide Pow2, Magnitude16, RoundBits, BetweenMidpoints, EncodeCode, Magnitude32, Mant32;
    MantBound(x);
    var exp, p := Exp32(x) - 112, Pow2(Exp32(x) - 1);
    var q := RoundBits(Mant32(x), 0x1000);
    NormalCode(x);
    NormalBound(Mant32(x));
    SameParity(exp, q);
    ScaledRounding(Mant32(x), 0x1000, p);
    NormalNeighbours(exp, q);
    NormalParts(x, q);
    MidpointsFromRemainder(Magnitude32(x), exp * 1024 + q, Mant32(x) * p, q * (2 * 0x1000) * p, 0x1000 * p, q);
  }

  lemma MantBound(x: U32)
    ensures 0 <= Mant32(x) < 0x80_0000
  {
  }

  lemma SameParity(exp: nat, q: nat)
    ensures (exp * 1024 + q) % 2 == q % 2
  {
  }

  /** The same value and the same code, cut into leading bit and remainder. */
  lemma NormalParts(x: U32, q: nat)
    requires 113 <= Exp32(x) <= 142 && q <= 1024
    ensures var p := Pow2(Exp32(x) - 1);
      && Pow2(Exp32(x) + 12) == 2 * (0x1000 * p)
      && Magnitude16((Exp32(x) - 112) * 1024 + q) + Mant32(x) * p == Magnitude32(x) + q * (2 * 0x1000) * p
  {
    var p := Pow2(Exp32(x) - 1);
    Pow2Adds(13, Exp32(x) - 1);
    TwoTo(13);
    MagnitudeIn(Exp32(x) - 112, q);
    hide Pow2, Magnitude16;
    Distributes(1024, q, 0x2000 * p);
    Distributes(0x80_0000, Mant32(x), p);
    Associate(1024, 0x2000, p);
    Associate(q, 0x2000, p);
  }

  lemma NormalCode(x: U32)
    requires 113 <= Exp32(x) <= 142
    ensures EncodeCode(x) == (Exp32(x) - 112) * 1024 + RoundBits(Mant32(x), 0x1000)
  {
  }

  lemma NormalBound(m: nat)
    requires m < 0x80_0000
    ensures RoundBits(m, 0x1000) <= 1024
  {
  }

  /** The codes next to a code in a normal binade are half a step away or more. */
  lemma NormalNeighbours(exp: nat, q: nat)
    requires exp >= 1 && q <= 1024
    ensures Magnitude16(exp * 1024 + q + 1) >= Magnitude16(exp * 1024 + q) + Pow2(exp + 124)
    ensures q > 0 ==> Magnitude16(exp * 1024 + q - 1) + Pow2(exp + 124) == Magnitude16(exp * 1024 + q)
    ensures Magnitude16(exp * 1024 + q - 1) < Magnitude16(exp * 1024 + q)
  {
    hide Pow2, Magnitude16;
    var step := Pow2(exp + 124);
    MagnitudeIn(exp, q);
    if q < 1024 {
      MagnitudeIn(exp, q + 1);
      Distributes(1024 + q, 1, step);
    } else {
      assert exp * 1024 + q == (exp + 1) * 1024;
      MagnitudeIn(exp + 1, 0);
      MagnitudeIn(exp + 1, 1);
      DoublePow2(exp + 124);
      Distributes(1024, 1, Pow2(exp + 1 + 124));
    }
    if q > 0 {
      MagnitudeIn(exp, q - 1);
      Distributes(1024 + q - 1, 1, step);
    }
    MagnitudeSteps(exp * 1024 + q - 1);
  }

  lemma RoundsOverflow(x: U32)
    requires 143 <= Exp32(x) < 255
    ensures EncodeCode(x) == INF && BetweenMidpoints(Magnitude32(x), INF)
  {
    MagnitudeSteps(INF - 1);
    BeyondRange(x);
    hide Magnitude16, Magnitude32;
  }

  lemma BeyondRange(x: U32)
    requires 143 <= Exp32(x) < 255
    ensures Magnitude32(x) >= Magnitude16(INF)
  {
    hide Magnitude16, Pow2;
    var p, least := Pow2(Exp32(x) - 1), Pow2(142);
    Pow2Adds(Exp32(x) - 143, 142);
    AtLeast(Pow2(Exp32(x) - 143), least);
    MagnitudeIn(31, 0);
    TwoTo(13);
    Pow2Adds(13, 142);
    Grows(0x80_0000, 0x80_0000 + Mant32(x), least, p);
  }

  lemma Grows(a: nat, b: nat, c: nat, d: nat)
    requires a <= b && c <= d
    ensures a * c <= b * d
  {
    Distributes(a, b - a, d);
    Distributes(c, d - c, a);
    assert (b - a) * d >= 0 && (d - c) * a >= 0;
  }

  /** Encoding is correctly rounded on every finite float. */
  lemma EncodeRounds(x: U32)
    requires IsFinite32(x)
    ensures EncodeCode(x) <= INF && BetweenMidpoints(Magnitude32(x), EncodeCode(x))
  {
    if Exp32(x) < 102 { RoundsBelowHalfTheSmallest(x); }
    else if Exp32(x) <= 112 { RoundsSubnormal(x); }
    else if Exp32(x) <= 142 { RoundsNormal(x); }
    else { RoundsOverflow(x); }
  }

  /** The half a float is sent as. */
  function Encode(x: U32): (h: U16)
    ensures h == Sign32(x) * 0x8000 + EncodeCode(x)
  {
    CodeFits(x);
    Sign32(x) * 0x8000 + EncodeCode(x)
  }

  lemma CodeFits(x: U32)
    ensures EncodeCode(x) < 0x8000
  {
    if IsFinite32(x) {
      EncodeRounds(x);
    }
  }

  /** A value between the midpoints of its code is nearest to it among all codes, and ties go to the even code. */
  lemma NearestCode(x: nat, code: nat, k: nat)
    requires BetweenMidpoints(x, code) && code <= INF && k <= INF
    ensures Distance(x, Magnitude16(code)) <= Distance(x, Magnitude16(k))
    ensures k != code && Distance(x, Magnitude16(code)) == Distance(x, Magnitude16(k)) ==> code % 2 == 0
  {
    hide Magnitude16;
    MagnitudeSteps(code);
    if code > 0 { MagnitudeSteps(code - 1); }
    if k > code + 1 { MagnitudeGrows(code + 1, k); }
    if k + 1 < code { MagnitudeGrows(k, code - 1); }
  }

  /** Every finite float is sent as the nearest half, ties to even, with overflow to infinity from
      halfway beyond the largest half on; infinities stay infinities and NaNs stay NaNs. */
  lemma EncodeIsCorrectlyRounded(x: U32, k: nat)
    requires k <= INF
    ensures Sign16(Encode(x)) == Sign32(x)
    ensures IsFinite32(x) ==>
      && Code16(Encode(x)) <= INF
      && Distance(Magnitude32(x), Magnitude16(Code16(Encode(x)))) <= Distance(Magnitude32(x), Magnitude16(k))
      && (Code16(Encode(x)) % 2 == 1 && k != Code16(Encode(x)) ==>
            Distance(Magnitude32(x), Magnitude16(Code16(Encode(x)))) < Distance(Magnitude32(x), Magnitude16(k)))
    ensures IsNan32(x) <==> IsNan16(Encode(x))
    ensures !IsFinite32(x) && !IsNan32(x) ==> Code16(Encode(x)) == INF
  {
    hide Magnitude16, Magnitude32, EncodeCode, BetweenMidpoints;
    CodeFits(x);
    if IsFinite32(x) {
      EncodeRounds(x);
      NearestCode(Magnitude32(x), EncodeCode(x), k);
    } else {
      SpecialCodes(x);
    }
  }

  lemma SpecialCodes(x: U32)
    requires !IsFinite32(x)
    ensures EncodeCode(x) == if IsNan32(x) then 0x7e00 else INF
  {
  }

  // ---------------------------------------------------------------- decoding

  /** The exponent and fraction of a subnormal half once its leading one has been shifted into place. */
  function Normalize(mant: nat, exp: int): (int, nat)
    requires 1 <= mant < 2048
    decreases 2048 - mant
  {
    if mant >= 1024 then (exp, mant - 1024) else Normalize(2 * mant, exp - 1)
  }

  /** The magnitude bits of the float a half code is received as. */
  function DecodeBits(code: nat): int
    requires code < 0x8000
  {
    var exp, mant := code / 1024, code % 1024;
    if exp == 0 then
      if mant == 0 then 0
      else
        var (e, f) := Normalize(mant, 1);
        (e + 112) * 0x80_0000 + f * 0x2000
    else if exp == 31 then 0x7f80_0000 + mant * 0x2000
    else (exp + 112) * 0x80_0000 + mant * 0x2000
  }

  lemma {:induction false} NormalizeKeeps(mant: nat, exp: int)
    requires 1 <= mant < 2048 && -9 <= exp <= 1 && mant * Pow2(10 + exp) < 2048 * 1024 && mant * Pow2(10 + exp) >= 2048
    ensures var (e, f) := Normalize(mant, exp);
      && -9 <= e <= exp && 0 <= f < 1024
      && (1024 + f) * Pow2(10 + e) == mant * Pow2(10 + exp)
    decreases 2048 - mant
  {
    if mant < 1024 {
      NotExhausted(mant, exp);
      DoublePow2(9 + exp);
      hide Pow2;
      Associate(mant, 2, Pow2(9 + exp));
      NormalizeKeeps(2 * mant, exp - 1);
    }
  }

  lemma NotExhausted(mant: nat, exp: int)
    requires mant < 1024 && -9 <= exp && mant * Pow2(10 + exp) >= 2048
    ensures exp > -9
  {
    assert Pow2(1) == 2;
  }

  /** The float a half is received as: the loop that shifts a subnormal's leading one into place. */
  method DecodeLoop(code: nat) returns (bits: int)
    requires code < 0x8000
    ensures bits == DecodeBits(code)
  {
    var exp, mant := code / 1024, code % 1024;
    if exp == 0 {
      if mant == 0 {
        return 0;
      }
      exp := 1;
      while mant < 1024
        invariant 1 <= mant < 2048
        invariant Normalize(mant, exp) == Normalize(code % 1024, 1)
        decreases 2048 - mant
      {
        mant, exp := 2 * mant, exp - 1;
      }
      bits := (exp + 112) * 0x80_0000 + (mant - 1024) * 0x2000;
    } else if exp == 31 {
      bits := 0x7f80_0000 + mant * 0x2000;
    } else {
      bits := (exp + 112) * 0x80_0000 + mant * 0x2000;
    }
  }

  lemma SubnormalDecodes(code: nat)
    requires 1 <= code < 1024
    ensures var (e, f) := Normalize(code, 1);
      && -9 <= e <= 1 && 0 <= f < 1024
      && (1024 + f) * Pow2(e + 124) == code * Pow2(125)
  {
    hide Pow2;
    TwoTo(10);
    DoublePow2(10);
    NormalizeKeeps(code, 1);
    var (e, f) := Normalize(code, 1);
    RaiseBoth(1024 + f, 10 + e, code, 11);
  }

  lemma RaiseBoth(a: nat, m: nat, b: nat, n: nat)
    requires a * Pow2(m) == b * Pow2(n)
    ensures a * Pow2(m + 114) == b * Pow2(n + 114)
  {
    hide Pow2;
    Pow2Adds(m, 114);
    Pow2Adds(n, 114);
    Associate(a, Pow2(m), Pow2(114));
    Associate(b, Pow2(n), Pow2(114));
  }

  /** The fields of a float put together from exponent and a ten-bit fraction. */
  lemma FieldsOf(sign: int, exp: int, f: int)
    requires 0 <= sign <= 1 && 0 <= exp < 256 && 0 <= f < 1024
    ensures var x := sign * 0x8000_0000 + (exp * 0x80_0000 + f * 0x2000);
      0 <= x < TWO32 && Sign32(x) == sign && Exp32(x) == exp && Mant32(x) == f * 0x2000
  {
  }

  lemma NormalMagnitude(x: U32, f: nat)
    requires 1 <= Exp32(x) && Mant32(x) == f * 0x2000 && f < 1024
    ensures Magnitude32(x) == (1024 + f) * Pow2(Exp32(x) + 12)
  {
    Pow2Adds(13, Exp32(x) - 1);
    TwoTo(13);
    hide Pow2;
    Associate(1024 + f, 0x2000, Pow2(Exp32(x) - 1));
  }

  /** Where the bits of a decoded code end up. */
  lemma DecodedFields(code: nat) returns (exp: int, f: int)
    requires code < 0x8000
    ensures 0 <= exp < 256 && 0 <= f < 1024 && DecodeBits(code) == exp * 0x80_0000 + f * 0x2000
    ensures code > INF ==> exp == 255 && f == code - INF
    ensures code == INF ==> exp == 255 && f == 0
    ensures code < INF ==> exp < 255
    ensures code == 0 ==> exp == 0 && f == 0
    ensures 0 < code < INF ==> exp >= 1 && (1024 + f) * Pow2(exp + 12) == Magnitude16(code)
  {
    hide Pow2;
    exp, f := code / 1024, code % 1024;
    if exp == 0 {
      if f != 0 {
        SubnormalDecodes(f);
        MagnitudeLow(code);
        var (e, g) := Normalize(f, 1);
        exp, f := e + 112, g;
      }
    } else if exp == 31 {
      exp := 255;
    } else {
      MagnitudeIn(exp, f);
      exp := exp + 112;
    }
  }

  /** The float a half is received as. */
  function Decode(h: U16): (x: U32)
    ensures x == Sign16(h) * 0x8000_0000 + DecodeBits(Code16(h))
  {
    DecodeFits(Sign16(h), Code16(h));
    Sign16(h) * 0x8000_0000 + DecodeBits(Code16(h))
  }

  lemma DecodeFits(sign: int, code: int)
    requires 0 <= sign <= 1 && 0 <= code < 0x8000
    ensures 0 <= sign * 0x8000_0000 + DecodeBits(code) < TWO32
  {
    var exp, f := DecodedFields(code);
    FieldsOf(sign, exp, f);
  }

  /** Halves embed exactly in floats. */
  lemma DecodeIsExact(h: U16)
    ensures Sign32(Decode(h)) == Sign16(h)
    ensures IsFinite16(h) ==> IsFinite32(Decode(h)) && Magnitude32(Decode(h)) == Magnitude16(Code16(h))
    ensures IsNan16(h) <==> IsNan32(Decode(h))
    ensures Code16(h) == INF ==> !IsFinite32(Decode(h)) && !IsNan32(Decode(h))
  {
    hide DecodeBits, Magnitude16, Magnitude32, Pow2, Sign32, Exp32, Mant32;
    var exp, f := DecodedFields(Code16(h));
    FieldsOf(Sign16(h), exp, f);
    if Code16(h) == 0 {
      ZeroMagnitude(Decode(h));
    } else if Code16(h) < INF {
      NormalMagnitude(Decode(h), f);
    }
  }

  lemma ZeroMagnitude(x: U32)
    requires Exp32(x) == 0 && Mant32(x) == 0
    ensures Magnitude32(x) == Magnitude16(0)
  {
    MagnitudeLow(0);
  }

  /** Sending on what was received reproduces the same wire word, for every word except the NaNs that are not
      the one the encoder writes. */
  lemma ReencodeIsIdentity(h: U16)
    ensures Encode(Decode(h)) == h <==> !IsNan16(h) || Code16(h) == 0x7e00
  {
    hide Decode, Encode, Magnitude16, Magnitude32, DecodeBits, EncodeCode;
    var x := Decode(h);
    DecodeIsExact(h);
    EncodeIsCorrectlyRounded(x, if Code16(h) <= INF then Code16(h) else 0);
    EncodeWord(x);
    if IsFinite16(h) {
      var c := Code16(Encode(x));
      if c < Code16(h) { MagnitudeGrows(c, Code16(h)); }
      if Code16(h) < c { MagnitudeGrows(Code16(h), c); }
    } else {
      SpecialCodes(x);
    }
  }

  /** The first NaN behind infinity is not kept, but becomes the canonical one. */
  lemma SmallestNanIsLost()
    ensures Encode(Decode(0x7c01)) != 0x7c01 && IsNan16(Encode(Decode(0x7c01)))
    ensures Code16(Encode(Decode(0x7c01))) == 0x7e00
  {
    hide DecodeBits, EncodeCode, Encode, Decode;
    ReencodeIsIdentity(0x7c01);
    DecodeIsExact(0x7c01);
    NanCode(Decode(0x7c01));
  }

  lemma NanCode(x: U32)
    requires IsNan32(x)
    ensures Code16(Encode(x)) == 0x7e00 && IsNan16(Encode(x))
  {
    hide EncodeCode;
    SpecialCodes(x);
    EncodeWord(x);
  }

  lemma EncodeWord(x: U32)
    ensures Code16(Encode(x)) == EncodeCode(x)
    ensures Encode(x) == Sign16(Encode(x)) * 0x8000 + Code16(Encode(x))
  {
    CodeFits(x);
  }

  // ---------------------------------------------------------------- payloads

  const BUFFER_VALUES: nat := 0x10_0000

  /** Encodes a payload through a bounded buffer, one bufferful after the other. */
  method EncodePayload(src: seq<U32>) returns (wire: seq<U16>)
    ensures |wire| == |src| && forall i :: 0 <= i < |src| ==> wire[i] == Encode(src[i])
  {
    hide Encode;
    var cap := if |src| < BUFFER_VALUES then |src| else BUFFER_VALUES;
    wire := [];
    while |wire| < |src|
      invariant |wire| <= |src|
      invariant forall k :: 0 <= k < |wire| ==> wire[k] == Encode(src[k])
    {
      var n := if |src| - |wire| > cap then cap else |src| - |wire|;
      var buffer := [];
      while |buffer| < n
        invariant |buffer| <= n
        invariant forall k :: 0 <= k < |buffer| ==> buffer[k] == Encode(src[|wire| + k])
      {
        buffer := buffer + [Encode(src[|wire| + |buffer|])];
      }
      wire := wire + buffer;
    }
  }

  method DecodePayload(wire: seq<U16>) returns (dst: seq<U32>)
    ensures |dst| == |wire| && forall i :: 0 <= i < |wire| ==> dst[i] == Decode(wire[i])
  {
    hide DecodeBits;
    dst := [];
    var i := 0;
    while i < |wire|
      invariant 0 <= i <= |wire| && |dst| == i
      invariant forall k :: 0 <= k < i ==> dst[k] == Decode(wire[k])
    {
      var bits := DecodeLoop(Code16(wire[i]));
      DecodeFits(Sign16(wire[i]), Code16(wire[i]));
      dst := dst + [Sign16(wire[i]) * 0x8000_0000 + bits];
      i := i + 1;
    }
  }

  /** Re-encoding a decoded payload of any length reproduces the same wire words exactly when it holds no NaN
      other than the encoder's own. */
  lemma PayloadRoundTrip(wire: seq<U16>, floats: seq<U32>, again: seq<U16>)
    requires |floats| == |wire| && forall i :: 0 <= i < |wire| ==> floats[i] == Decode(wire[i])
    requires |again| == |floats| && forall i :: 0 <= i < |floats| ==> again[i] == Encode(floats[i])
    ensures again == wire <==> forall i :: 0 <= i < |wire| ==> !IsNan16(wire[i]) || Code16(wire[i]) == 0x7e00
  {
    hide Encode, Decode, IsNan16, Code16;
    forall i | 0 <= i < |wire| ensures again[i] == wire[i] <==> !IsNan16(wire[i]) || Code16(wire[i]) == 0x7e00 {
      ReencodeIsIdentity(wire[i]);
    }
  }
}
