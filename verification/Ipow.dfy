/** Integer powers in 64-bit arithmetic, and the integer path of Math.pow. */
module IntegerPower {
  import opened Options

  const MAX: int := 0x7FFF_FFFF_FFFF_FFFF
  const MIN: int := -0x8000_0000_0000_0000

  predicate Int64(x: int) { MIN <= x <= MAX }

  /** Two's complement. */
  function Wrap(x: int): (r: int)
    ensures Int64(r) && (Int64(x) ==> r == x)
  {
    (x + 0x8000_0000_0000_0000) % 0x1_0000_0000_0000_0000 - 0x8000_0000_0000_0000
  }

  function Pow(b: int, e: nat): int {
    if e == 0 then 1 else b * Pow(b, e - 1)
  }

  function Abs(x: int): nat { if x < 0 then -x else x }

  const OVERFLOWS: seq<int> := [
    9223372036854775807, 9223372036854775807, 3037000499, 2097151,
    55108, 6208, 1448, 511,
    234, 127, 78, 52,
    38, 28, 22, 18
  ] + [
    15, 13, 11, 9,
    8, 7, 7, 6,
    6, 5, 5, 5,
    4, 4, 4, 4
  ] + [
    3, 3, 3, 3,
    3, 3, 3, 3,
    2, 2, 2, 2,
    2, 2, 2, 2
  ] + [
    2, 2, 2, 2,
    2, 2, 2, 2,
    2, 2, 2, 2,
    2, 2, 2, 2
  ]

  const HIGHEST_BIT_SET: seq<int> := [
    0, 1, 2, 2, 3, 3, 3, 3,
    4, 4, 4, 4, 4, 4, 4, 4
  ] + [
    5, 5, 5, 5, 5, 5, 5, 5,
    5, 5, 5, 5, 5, 5, 5, 5
  ] + [
    6, 6, 6, 6, 6, 6, 6, 6,
    6, 6, 6, 6, 6, 6, 6, 6
  ] + [
    6, 6, 6, 6, 6, 6, 6, 6,
    6, 6, 6, 6, 6, 6, 6
  ]

  lemma {:induction false} AbsPow(b: int, e: nat)
    ensures Abs(Pow(b, e)) == Pow(Abs(b), e)
  {
    if e > 0 {
      AbsPow(b, e - 1);
      AbsTimes(b, Pow(b, e - 1));
    }
  }

  lemma AbsTimes(x: int, y: int)
    ensures Abs(x * y) == Abs(x) * Abs(y)
  {
    if x < 0 && y < 0 {
      assert x * y == -x * -y;
    } else if x < 0 {
      assert x * y == -(-x * y);
    } else if y < 0 {
      assert x * y == -(x * -y);
    }
  }

  lemma TimesMonotone(a: nat, b: nat, c: nat, d: nat)
    requires a <= b && c <= d
    ensures a * c <= b * d
  {
    assert a * c <= b * c;
    assert b * c <= b * d;
  }

  lemma {:induction false} PowMonotone(a: nat, b: nat, e: nat)
    requires a <= b
    ensures 0 <= Pow(a, e) <= Pow(b, e)
  {
    if e > 0 {
      PowMonotone(a, b, e - 1);
      TimesMonotone(a, b, Pow(a, e - 1), Pow(b, e - 1));
    }
  }

  lemma {:induction false} PowGrows(b: nat, d: nat, e: nat)
    requires b >= 1 && d <= e
    ensures 1 <= Pow(b, d) <= Pow(b, e)
    decreases e
  {
    if d < e {
      PowGrows(b, d, e - 1);
      TimesMonotone(1, b, Pow(b, e - 1), Pow(b, e - 1));
    } else if e > 0 {
      PowGrows(b, e - 1, e - 1);
      TimesMonotone(1, b, 1, Pow(b, e - 1));
    }
  }

  lemma {:induction false} PowSquare(b: int, k: nat)
    ensures Pow(b, 2 * k) == Pow(b * b, k)
  {
    if k > 0 {
      PowSquare(b, k - 1);
      assert Pow(b, 2 * k) == b * (b * Pow(b, 2 * k - 2));
      assert b * (b * Pow(b, 2 * k - 2)) == b * b * Pow(b, 2 * k - 2);
    }
  }

  /** Powers by repeated squaring. */
  function BySquaring(b: int, e: nat): int
    decreases e
  {
    if e == 0 then 1
    else if e % 2 == 0 then BySquaring(b * b, e / 2)
    else b * BySquaring(b * b, e / 2)
  }

  lemma {:induction false} SquaringIsPow(b: int, e: nat)
    ensures BySquaring(b, e) == Pow(b, e)
    decreases e
  {
    if e > 0 {
      SquaringIsPow(b * b, e / 2);
      PowSquare(b, e / 2);
      if e % 2 == 1 {
        assert Pow(b, e) == b * Pow(b, 2 * (e / 2));
      }
    }
  }

  /** The largest base whose power still fits. */
  ghost predicate LargestBase(t: int, e: nat) {
    1 <= t && Pow(t, e) <= MAX < Pow(t + 1, e)
  }

  /** The exponents from lo to hi have the same one. */
  lemma LargestInRange(t: nat, lo: nat, hi: nat, e: nat)
    requires t >= 1 && lo <= e <= hi
    requires BySquaring(t, hi) <= MAX < BySquaring(t + 1, lo)
    ensures LargestBase(t, e)
  {
    SquaringIsPow(t, hi);
    SquaringIsPow(t + 1, lo);
    PowGrows(t, e, hi);
    PowGrows(t + 1, lo, e);
  }

  ghost function HighEntry(e: nat): int {
    if e >= 40 then 2 else if e >= 32 then 3 else if e >= 28 then 4 else if e >= 25 then 5
    else if e >= 23 then 6 else if e >= 21 then 7 else 8
  }

  lemma LargestOfHigh(e: nat)
    requires 20 <= e <= 62
    ensures LargestBase(HighEntry(e), e)
  {
    hide LargestBase;
    if e >= 40 { LargestInRange(2, 40, 62, e); }
    else if e >= 32 { LargestInRange(3, 32, 39, e); }
    else if e >= 28 { LargestInRange(4, 28, 31, e); }
    else if e >= 25 { LargestInRange(5, 25, 27, e); }
    else if e >= 23 { LargestInRange(6, 23, 24, e); }
    else if e >= 21 { LargestInRange(7, 21, 22, e); }
    else { LargestInRange(8, 20, 20, e); }
  }

  lemma HighEntries(e: nat)
    requires 20 <= e <= 62
    ensures OVERFLOWS[e] == HighEntry(e)
  {
    if e >= 40 {
      assert OVERFLOWS[e] == 2;
    } else if e >= 32 {
      assert OVERFLOWS[e] == 3;
    } else if e >= 28 {
      assert e == 28 || e == 29 || e == 30 || e == 31;
    } else {
      assert e == 20 || e == 21 || e == 22 || e == 23 || e == 24 || e == 25 || e == 26 || e == 27;
    }
  }

  lemma LargestOfLow()
    ensures LargestBase(9223372036854775807, 1) && LargestBase(3037000499, 2) && LargestBase(2097151, 3)
    ensures LargestBase(55108, 4) && LargestBase(6208, 5) && LargestBase(1448, 6) && LargestBase(511, 7)
    ensures LargestBase(234, 8) && LargestBase(127, 9) && LargestBase(78, 10) && LargestBase(52, 11)
  {
    hide LargestBase;
    LargestInRange(9223372036854775807, 1, 1, 1);
    LargestInRange(3037000499, 2, 2, 2);
    LargestInRange(2097151, 3, 3, 3);
    LargestInRange(55108, 4, 4, 4);
    LargestInRange(6208, 5, 5, 5);
    LargestInRange(1448, 6, 6, 6);
    LargestInRange(511, 7, 7, 7);
    LargestInRange(234, 8, 8, 8);
    LargestInRange(127, 9, 9, 9);
    LargestInRange(78, 10, 10, 10);
    LargestInRange(52, 11, 11, 11);
  }

  lemma LargestOfMiddle()
    ensures LargestBase(38, 12) && LargestBase(28, 13) && LargestBase(22, 14) && LargestBase(18, 15)
    ensures LargestBase(15, 16) && LargestBase(13, 17) && LargestBase(11, 18) && LargestBase(9, 19)
  {
    hide LargestBase;
    LargestInRange(38, 12, 12, 12);
    LargestInRange(28, 13, 13, 13);
    LargestInRange(22, 14, 14, 14);
    LargestInRange(18, 15, 15, 15);
    LargestInRange(15, 16, 16, 16);
    LargestInRange(13, 17, 17, 17);
    LargestInRange(11, 18, 18, 18);
    LargestInRange(9, 19, 19, 19);
  }

  /** Every entry of the table that ipow consults for an exponent above 0 is the largest base that fits. */
  lemma TableIsExact(e: nat)
    requires 1 <= e <= 62
    ensures LargestBase(OVERFLOWS[e], e)
  {
    hide LargestBase;
    if e >= 20 {
      LargestOfHigh(e);
      HighEntries(e);
    } else if e >= 12 {
      LargestOfMiddle();
      assert e == 12 || e == 13 || e == 14 || e == 15 || e == 16 || e == 17 || e == 18 || e == 19;
    } else {
      LargestOfLow();
      assert e == 1 || e == 2 || e == 3 || e == 4 || e == 5 || e == 6 || e == 7 || e == 8 || e == 9 || e == 10 || e == 11;
    }
  }

  /** Whether base to the exp is at most 2^63 - 1 in magnitude. */
  ghost predicate Fits(base: int, exp: nat) {
    Abs(Pow(base, exp)) <= MAX
  }

  /** The table check decides exactly whether the power fits, except for the most negative base. */
  lemma TableDecides(base: int, exp: nat)
    requires Int64(base) && base != MIN && exp <= 62
    ensures Abs(base) <= OVERFLOWS[exp] <==> Fits(base, exp)
  {
    if exp == 0 {
      assert OVERFLOWS[0] == MAX;
    } else {
      TableIsExact(exp);
      LargestDecides(OVERFLOWS[exp], base, exp);
    }
  }

  lemma LargestDecides(t: int, base: int, exp: nat)
    requires LargestBase(t, exp)
    ensures Abs(base) <= t <==> Fits(base, exp)
  {
    hide Pow;
    AbsPow(base, exp);
    if Abs(base) <= t {
      PowMonotone(Abs(base), t, exp);
    } else {
      PowMonotone(t + 1, Abs(base), exp);
    }
  }

  /** Powers of bases of magnitude two and more with exponents of 63 and more never fit. */
  lemma LargeNeverFits(base: int, exp: nat)
    requires exp >= 63 && Abs(base) >= 2
    ensures !Fits(base, exp)
  {
    AbsPow(base, exp);
    PowMonotone(2, Abs(base), exp);
    PowGrows(2, 63, exp);
    SquaringIsPow(2, 63);
    assert BySquaring(2, 63) == 0x8000_0000_0000_0000;
  }

  lemma {:induction false} UnitPowers(exp: nat)
    ensures Pow(1, exp) == 1 && Pow(-1, exp) == 1 - 2 * (exp % 2) && (exp > 0 ==> Pow(0, exp) == 0)
  {
    if exp > 0 {
      UnitPowers(exp - 1);
    }
  }

  /** While r times b to the e is small, so are r times b if e is odd, and b times b if bits are left. */
  lemma FactorsAreSmall(r: int, b: int, e: nat)
    requires (b == 0 || r != 0) && e >= 1
    requires Abs(r * Pow(b, e)) <= MAX
    ensures Int64(r * b)
    ensures e >= 2 ==> Int64(b * b)
  {
    if b != 0 {
      AbsTimes(r, Pow(b, e));
      AbsPow(b, e);
      AbsTimes(r, b);
      AbsTimes(b, b);
      PowGrows(Abs(b), 1, e);
      assert Pow(Abs(b), 1) == Abs(b) * 1;
      TimesMonotone(Abs(r), Abs(r), Abs(b), Pow(Abs(b), e));
      if e >= 2 {
        PowGrows(Abs(b), 2, e);
        assert Pow(Abs(b), 2) == Abs(b) * Pow(Abs(b), 1);
        TimesMonotone(1, Abs(r), Abs(b) * Abs(b), Pow(Abs(b), e));
      }
    }
  }

  lemma PowOdd(b: int, e: nat)
    requires e % 2 == 1
    ensures Pow(b, e) == b * Pow(b * b, e / 2)
  {
    PowSquare(b, e / 2);
    assert e == 2 * (e / 2) + 1;
  }

  lemma Associate(x: int, y: int, z: int)
    ensures x * y * z == x * (y * z)
  {
  }

  /** How many binary digits a number up to 62 has. */
  function Digits(e: nat): nat {
    if e == 0 then 0 else if e < 2 then 1 else if e < 4 then 2 else if e < 8 then 3
    else if e < 16 then 4 else if e < 32 then 5 else 6
  }

  lemma HighestBit(e: nat)
    requires e <= 62
    ensures HIGHEST_BIT_SET[e] == Digits(e)
  {
    if e < 4 {
      assert e == 0 || e == 1 || e == 2 || e == 3;
    } else if e < 8 {
      assert e == 4 || e == 5 || e == 6 || e == 7;
    }
  }

  /** The product in 64-bit arithmetic. */
  function Mul(x: int, y: int): int { Wrap(x * y) }

  /** The power if it fits, and otherwise 0. */
  ghost function Meant(base: int, exp: nat): int {
    if Fits(base, exp) then Pow(base, exp) else 0
  }

  /** The registers of ipow when k cases of the switch are left, of the ones from h on. */
  ghost predicate Stage(base: int, exp: nat, k: nat, r: int, b: int, e: nat, w: bool) {
    && Int64(r) && Int64(b) && e <= 62
    && Digits(e) == (if Digits(exp) < k then Digits(exp) else k)
    && (base == MIN && Digits(exp) > k ==> b == 0)
    && (base != MIN ==> !w && (b == 0 || r != 0) && r * Pow(b, e) == Pow(base, exp))
  }

  /** A case of the switch but the last. The ghost flag tells whether anything has wrapped around. */
  method Bit(r: int, b: int, e: nat, ghost w: bool, ghost base: int, ghost exp: nat, ghost k: nat)
    returns (r': int, b': int, e': nat, ghost w': bool)
    requires 2 <= k <= Digits(exp) && Stage(base, exp, k, r, b, e, w)
    requires (base == MIN || Fits(base, exp)) && (base == MIN && Digits(exp) == k ==> b == MIN)
    ensures Stage(base, exp, k - 1, r', b', e', w')
  {
    r', w' := r, w;
    if e % 2 != 0 {
      w' := w' || !Int64(r * b);
      r' := Mul(r, b);
    }
    e' := e / 2;
    w' := w' || !Int64(b * b);
    b' := Mul(b, b);
    if base == MIN {
      assert b' == 0;
    } else {
      FactorsAreSmall(r, b, e);
      PowSquare(b, e / 2);
      if e % 2 == 1 {
        PowOdd(b, e);
        Associate(r, b, Pow(b * b, e / 2));
      }
    }
  }

  /** The check against the table refuses only what does not fit... */
  lemma Refused(base: int, exp: nat)
    requires Int64(base) && exp <= 62
    requires base > OVERFLOWS[exp] || Wrap(-base) > OVERFLOWS[exp]
    ensures !Fits(base, exp) && exp != 1
  {
    TableDecides(base, exp);
    assert OVERFLOWS[1] == MAX;
  }

  /** ...and lets nothing else through but the most negative number. */
  lemma Admitted(base: int, exp: nat)
    requires Int64(base) && exp <= 62
    requires base <= OVERFLOWS[exp] && Wrap(-base) <= OVERFLOWS[exp]
    ensures base == MIN || Fits(base, exp)
    ensures base == MIN && exp >= 2 ==> !Fits(base, exp)
  {
    if base != MIN {
      TableDecides(base, exp);
    } else if exp >= 2 {
      AbsPow(base, exp);
      PowGrows(Abs(base), 1, exp);
      assert Pow(Abs(base), 1) == Abs(base) * 1;
    }
  }

  /** After the last case of the switch the result is the power. */
  lemma LastBit(base: int, exp: nat, r: int, b: int, e: nat, w: bool)
    requires exp <= 62 && Int64(base) && Stage(base, exp, 1, r, b, e, w)
    requires base == MIN || Fits(base, exp)
    requires base == MIN && exp >= 2 ==> !Fits(base, exp)
    requires Digits(exp) <= 1 ==> r == 1 && b == base && e == exp
    ensures exp >= 1 ==> e == 1 && Mul(r, b) == (if exp == 1 then base else Meant(base, exp))
    ensures exp >= 1 && base != MIN ==> Int64(r * b)
    ensures exp == 0 ==> Meant(base, exp) == 1
  {
    if exp >= 1 {
      assert e == 1 && Pow(b, e) == b * 1;
    }
  }

  /** int64 power: exact whenever it fits; the first power is exact in any case. */
  method Ipow(base: int, exp: int) returns (result: int, ghost wrapped: bool)
    requires Int64(base) && Int64(exp) && exp >= 0
    ensures Int64(result) && result == (if exp == 1 then base else Meant(base, exp))
    ensures base > MIN ==> !wrapped
  {
    wrapped := false;
    if exp >= 63 {
      UnitPowers(exp);
      if base == 1 {
        return 1, false;
      }
      if base == -1 {
        return 1 - 2 * (exp % 2), false;
      }
      if base != 0 {
        LargeNeverFits(base, exp);
      }
      return 0, false;
    }
    if base > OVERFLOWS[exp] || Wrap(-base) > OVERFLOWS[exp] {
      Refused(base, exp);
      return 0, false;
    }
    Admitted(base, exp);
    HighestBit(exp);
    result := 1;
    var b, e := base, exp;
    var h := HIGHEST_BIT_SET[exp];
    if h >= 6 {
      result, b, e, wrapped := Bit(result, b, e, wrapped, base, exp, 6);
    }
    if h >= 5 {
      result, b, e, wrapped := Bit(result, b, e, wrapped, base, exp, 5);
    }
    if h >= 4 {
      result, b, e, wrapped := Bit(result, b, e, wrapped, base, exp, 4);
    }
    if h >= 3 {
      result, b, e, wrapped := Bit(result, b, e, wrapped, base, exp, 3);
    }
    if h >= 2 {
      result, b, e, wrapped := Bit(result, b, e, wrapped, base, exp, 2);
    }
    LastBit(base, exp, result, b, e, wrapped);
    if h >= 1 {
      if e % 2 != 0 {
        wrapped := wrapped || !Int64(result * b);
        result := Mul(result, b);
      }
    }
  }

  lemma {:induction false} PowNonZero(b: int, e: nat)
    requires b != 0
    ensures Pow(b, e) != 0
  {
    if e > 0 {
      PowNonZero(b, e - 1);
    }
  }

  /** Math.pow and ** on two integers: the integer result, or None where it goes on in floating point. */
  method PowOfIntegers(x: int, y: int) returns (r: Option<int>)
    requires Int64(x) && Int64(y)
    ensures r.Some? <==> y >= 0 && (Fits(x, y) || y == 1)
    ensures r.Some? ==> r.value == Pow(x, y)
  {
    if y < 0 {
      return None;
    }
    UnitPowers(y);
    if y == 0 {
      return Some(1);
    }
    if x == 0 {
      return Some(0);
    }
    var ip, _ := Ipow(x, y);
    PowNonZero(x, y);
    if y == 1 {
      assert Pow(x, 1) == x * Pow(x, 0);
    }
    if ip != 0 {
      return Some(ip);
    }
    return None;
  }
}
