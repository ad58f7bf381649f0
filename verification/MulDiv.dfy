/** The M extension: multiplication and division on registers of 2^XLEN values, for XLEN = 32 and 64 alike. A register
    holds a signed value; h stands for 2^(XLEN - 1), so that registers range over -h .. h - 1. */
module MulDiv {
  import opened Bits

  const HALF32: nat := 0x8000_0000
  const HALF64: nat := 0x8000_0000_0000_0000

  predicate IsReg(x: int, h: int) { -h <= x < h }

  /** Conversion to the unsigned type of the same width. */
  function Unsigned(x: int, h: int): (r: nat)
    requires h > 0
    ensures r < 2 * h
  {
    x % (2 * h)
  }

  /** Conversion to the signed type of that width: wraps around. */
  function Narrow(x: int, h: int): (r: int)
    requires h > 0
    ensures IsReg(r, h)
  {
    var u := Unsigned(x, h);
    if u < h then u else u - 2 * h
  }

  // ---------------------------------------------------------------- integer facts

  lemma {:induction false} NarrowOfShift(x: int, h: int, k: int)
    requires h > 0
    ensures Narrow(x + (2 * h) * k, h) == Narrow(x, h) && Unsigned(x + (2 * h) * k, h) == Unsigned(x, h)
  {
    AddMultiple(x, 2 * h, k);
  }

  lemma {:induction false} NarrowOfReg(x: int, h: int)
    requires h > 0 && IsReg(x, h)
    ensures Narrow(x, h) == x
  {
    QuotientIs(x, 2 * h, if x < 0 then -1 else 0, if x < 0 then x + 2 * h else x);
  }

  lemma {:induction false} NarrowKeepsUnsigned(x: int, h: int)
    requires h > 0
    ensures Unsigned(Narrow(x, h), h) == Unsigned(x, h)
  {
    var u := Unsigned(x, h);
    QuotientIs(Narrow(x, h), 2 * h, if u < h then 0 else -1, u);
  }

  /** x differs from its conversion by a multiple of the word size. */
  lemma {:induction false} NarrowGap(x: int, h: int) returns (k: int)
    requires h > 0
    ensures x == Narrow(x, h) + (2 * h) * k
  {
    k := if Unsigned(x, h) < h then x / (2 * h) else x / (2 * h) + 1;
  }

  // ---------------------------------------------------------------- multiplication

  /** 2^(2 XLEN - 1): the half range of the double-width type that holds the product. */
  function Double(h: int): (d: int)
    requires h > 0
    ensures d > 0 && 2 * d == (2 * h) * (2 * h)
  {
    MulLe(h, 1, h);
    2 * (h * h)
  }

  /** The upper half: RV32 masks the upper bits of the double word and shifts as unsigned, RV64 shifts as signed. */
  function UpperHalf(ans: int, h: int, masked: bool): int
    requires h > 0
  {
    if masked then Narrow(Unsigned(ans, Double(h)) / (2 * h), h) else Narrow(ans / (2 * h), h)
  }

  function Mul(a: int, b: int, h: int): int
    requires h > 0
  {
    Narrow(Narrow(a * b, Double(h)), h)
  }

  function Mulh(a: int, b: int, h: int, masked: bool): int
    requires h > 0
  {
    UpperHalf(Narrow(a * b, Double(h)), h, masked)
  }

  function Mulhu(a: int, b: int, h: int, masked: bool): int
    requires h > 0
  {
    UpperHalf(Narrow(Unsigned(a, h) * Unsigned(b, h), Double(h)), h, masked)
  }

  function Mulhsu(a: int, b: int, h: int, masked: bool): int
    requires h > 0
  {
    UpperHalf(Narrow(a * Unsigned(b, h), Double(h)), h, masked)
  }

  lemma {:induction false} SameHalves(x: int, y: int, k: int, h: int)
    requires h > 0 && x == y + ((2 * h) * (2 * h)) * k
    ensures Narrow(x / (2 * h), h) == Narrow(y / (2 * h), h) && x % (2 * h) == y % (2 * h)
  {
    var w := 2 * h;
    MulAssoc(w, w, k);
    AddMultiple(y, w, w * k);
    NarrowOfShift(y / w, h, k);
  }

  lemma {:induction false} UnsignedGap(x: int, h: int) returns (k: int)
    requires h > 0
    ensures x == Unsigned(x, h) + (2 * h) * k
  {
    k := x / (2 * h);
  }

  /** However the double-width product wraps, and whichever way the halves are cut, the halves are those of the product. */
  lemma {:induction false} HalvesOfProduct(p: int, h: int, masked: bool)
    requires h > 0
    ensures UpperHalf(Narrow(p, Double(h)), h, masked) == Narrow(p / (2 * h), h)
    ensures Unsigned(Narrow(Narrow(p, Double(h)), h), h) == p % (2 * h)
  {
    var d := Double(h);
    var ans := Narrow(p, d);
    var k := NarrowGap(p, d);
    SameHalves(p, ans, k, h);
    NarrowKeepsUnsigned(ans, h);
    if masked {
      var j := UnsignedGap(ans, d);
      SameHalves(ans, Unsigned(ans, d), j, h);
    }
  }

  lemma {:induction false} Recompose(p: int, w: int)
    requires w > 0
    ensures w * (p / w) + p % w == p
  {
  }

  lemma {:induction false} QuotientBounds(p: int, d: nat, low: int, high: int)
    requires d > 0 && d * low <= p < d * high
    ensures low <= p / d < high
  {
    if p / d < low {
      MulLe(d, p / d + 1, low);
      assert false;
    } else if p / d >= high {
      MulLe(d, high, p / d);
      assert false;
    }
  }

  lemma {:induction false} ProductAtMost(a: nat, b: int, m: nat, c: nat)
    requires a <= m && b <= c
    ensures a * b <= m * c
  {
    MulLe(a, b, c);
    MulLe(c, a, m);
    assert c * m == m * c && c * a == a * c;
  }

  /** A product of a value below h in size and one below 2h has a signed upper half. */
  lemma {:induction false} SignedProductBounds(a: int, b: int, h: int)
    requires h > 0 && IsReg(a, h) && -h <= b < 2 * h
    ensures (2 * h) * (-h) <= a * b < (2 * h) * h
  {
    var square := h * h;
    assert square > 0 by {
      MulLe(h, 1, h);
    }
    assert (2 * h) * h == 2 * square && (2 * h) * (-h) == -(2 * square) && h * (2 * h) == 2 * square;
    if a >= 0 {
      ProductAtMost(a, b, h - 1, 2 * h);
      assert (h - 1) * (2 * h) == 2 * square - 2 * h;
      ProductAtMost(a, -b, h, h);
      assert a * (-b) == -(a * b);
    } else {
      ProductAtMost(-a, -b, h, h);
      ProductAtMost(-a, b, h, 2 * h);
      assert (-a) * (-b) == a * b && (-a) * b == -(a * b);
    }
  }

  lemma {:induction false} UnsignedProductBounds(a: nat, b: nat, h: int)
    requires h > 0 && a < 2 * h && b < 2 * h
    ensures 0 <= a * b < (2 * h) * (2 * h)
  {
    MulLe(a, 0, b);
    MulLe(a, b, 2 * h);
    MulLe(2 * h, a, 2 * h - 1);
    assert a * (2 * h) == (2 * h) * a;
  }

  lemma {:induction false} MulhIsHighHalf(a: int, b: int, h: int, masked: bool)
    requires h > 0 && IsReg(a, h) && IsReg(b, h)
    ensures Mulh(a, b, h, masked) == (a * b) / (2 * h) && Unsigned(Mul(a, b, h), h) == (a * b) % (2 * h)
  {
    var p := a * b;
    HalvesOfProduct(p, h, masked);
    SignedProductBounds(a, b, h);
    QuotientBounds(p, 2 * h, -h, h);
    NarrowOfReg(p / (2 * h), h);
  }

  /** MULH over MUL is the exact signed product. */
  lemma {:induction false} MulhReconstructs(a: int, b: int, h: int, masked: bool)
    requires h > 0 && IsReg(a, h) && IsReg(b, h)
    ensures (2 * h) * Mulh(a, b, h, masked) + Unsigned(Mul(a, b, h), h) == a * b
  {
    MulhIsHighHalf(a, b, h, masked);
    Recompose(a * b, 2 * h);
  }

  lemma {:induction false} LowHalfIgnoresSigns(a: int, b: int, h: int)
    requires h > 0
    ensures (a * b) % (2 * h) == (a * Unsigned(b, h)) % (2 * h) == (Unsigned(a, h) * Unsigned(b, h)) % (2 * h)
  {
    var w, ua, ub := 2 * h, Unsigned(a, h), Unsigned(b, h);
    var i, j := a / w, b / w;
    assert a == ua + w * i && b == ub + w * j;
    assert a * b == a * ub + w * (a * j);
    assert a * ub == ua * ub + w * (i * ub);
    AddMultiple(a * ub, w, a * j);
    AddMultiple(ua * ub, w, i * ub);
  }

  lemma {:induction false} MulIsLowHalf(a: int, b: int, h: int)
    requires h > 0
    ensures Unsigned(Mul(a, b, h), h) == (a * Unsigned(b, h)) % (2 * h) == (Unsigned(a, h) * Unsigned(b, h)) % (2 * h)
  {
    HalvesOfProduct(a * b, h, true);
    LowHalfIgnoresSigns(a, b, h);
  }

  lemma {:induction false} MulhuIsHighHalf(a: int, b: int, h: int, masked: bool)
    requires h > 0
    ensures Unsigned(Mulhu(a, b, h, masked), h) == (Unsigned(a, h) * Unsigned(b, h)) / (2 * h)
  {
    var p := Unsigned(a, h) * Unsigned(b, h);
    HalvesOfProduct(p, h, masked);
    UnsignedProductBounds(Unsigned(a, h), Unsigned(b, h), h);
    QuotientBounds(p, 2 * h, 0, 2 * h);
    NarrowKeepsUnsigned(p / (2 * h), h);
    QuotientIs(p / (2 * h), 2 * h, 0, p / (2 * h));
  }

  lemma {:induction false} MulhsuIsHighHalf(a: int, b: int, h: int, masked: bool)
    requires h > 0 && IsReg(a, h)
    ensures Mulhsu(a, b, h, masked) == (a * Unsigned(b, h)) / (2 * h)
  {
    var p := a * Unsigned(b, h);
    HalvesOfProduct(p, h, masked);
    SignedProductBounds(a, Unsigned(b, h), h);
    QuotientBounds(p, 2 * h, -h, h);
    NarrowOfReg(p / (2 * h), h);
  }

  /** MULHU over MUL, both read as unsigned, is the exact unsigned product. */
  lemma {:induction false} MulhuReconstructs(a: int, b: int, h: int, masked: bool)
    requires h > 0 && IsReg(a, h) && IsReg(b, h)
    ensures (2 * h) * Unsigned(Mulhu(a, b, h, masked), h) + Unsigned(Mul(a, b, h), h) == Unsigned(a, h) * Unsigned(b, h)
  {
    MulhuIsHighHalf(a, b, h, masked);
    MulIsLowHalf(a, b, h);
    Recompose(Unsigned(a, h) * Unsigned(b, h), 2 * h);
  }

  /** MULHSU over MUL is the exact product of the signed and the unsigned operand. */
  lemma {:induction false} MulhsuReconstructs(a: int, b: int, h: int, masked: bool)
    requires h > 0 && IsReg(a, h) && IsReg(b, h)
    ensures (2 * h) * Mulhsu(a, b, h, masked) + Unsigned(Mul(a, b, h), h) == a * Unsigned(b, h)
  {
    MulhsuIsHighHalf(a, b, h, masked);
    MulIsLowHalf(a, b, h);
    Recompose(a * Unsigned(b, h), 2 * h);
  }

  // ---------------------------------------------------------------- division

  function Abs(x: int): nat { if x < 0 then -x else x }

  /** C++ integer division: truncation toward zero. */
  function Truncated(a: int, b: int): int
    requires b != 0
  {
    var q: int := Abs(a) / Abs(b);
    if (a < 0) == (b < 0) then q else -q
  }

  /** C++ remainder. */
  function Rest(a: int, b: int): int
    requires b != 0
  {
    var r: int := Abs(a) % Abs(b);
    if a < 0 then -r else r
  }

  function Div(a: int, b: int, h: int): int {
    if b == 0 then -1 else if a == -h && b == -1 then a else Truncated(a, b)
  }

  function Rem(a: int, b: int, h: int): int {
    if b == 0 then a else if a == -h && b == -1 then 0 else Rest(a, b)
  }

  function Divu(a: int, b: int, h: int): int
    requires h > 0
  {
    if Unsigned(b, h) == 0 then -1 else Narrow(Unsigned(a, h) / Unsigned(b, h), h)
  }

  function Remu(a: int, b: int, h: int): int
    requires h > 0
  {
    if Unsigned(b, h) == 0 then a else Narrow(Unsigned(a, h) % Unsigned(b, h), h)
  }

  /** The remainder is smaller than the divisor and takes the sign of the dividend. */
  predicate IsRemainder(r: int, a: int, b: int) {
    Abs(r) < Abs(b) && (r > 0 ==> a > 0) && (r < 0 ==> a < 0)
  }

  predicate SameSign(a: int, b: int) { (a < 0) == (b < 0) }

  lemma {:induction false} Magnitudes(a: int, b: int, q: int, r: int)
    requires b != 0 && a == q * b + r && IsRemainder(r, a, b)
    ensures Abs(a) == Abs(b) * (if SameSign(a, b) then q else -q) + Abs(r)
  {
  }

  lemma {:induction false} Signs(a: int, b: int, q: int, r: int)
    requires b != 0 && 0 <= r && Abs(a) == Abs(b) * q + r && r < Abs(b)
    ensures a == (if SameSign(a, b) then q else -q) * b + (if a < 0 then -r else r)
  {
  }

  /** Quotient and remainder are fixed by the division equation, the bound and the sign. */
  lemma {:induction false} DivisionIsUnique(a: int, b: int, q: int, r: int)
    requires b != 0 && a == q * b + r && IsRemainder(r, a, b)
    ensures q == Truncated(a, b) && r == Rest(a, b)
  {
    Magnitudes(a, b, q, r);
    QuotientIs(Abs(a), Abs(b), if SameSign(a, b) then q else -q, Abs(r));
  }

  lemma {:induction false} TruncatedLaws(a: int, b: int)
    requires b != 0
    ensures a == Truncated(a, b) * b + Rest(a, b)
    ensures IsRemainder(Rest(a, b), a, b)
  {
    var q, r := Abs(a) / Abs(b), Abs(a) % Abs(b);
    Recompose(Abs(a), Abs(b));
    Signs(a, b, q, r);
    if a == 0 {
      QuotientIs(0, Abs(b), 0, 0);
    }
  }

  lemma {:induction false} QuotientFits(a: int, b: int, h: int)
    requires h > 0 && IsReg(a, h) && b != 0 && !(a == -h && b == -1)
    ensures IsReg(Truncated(a, b), h) && Abs(Rest(a, b)) <= Abs(a)
  {
    var n, d := Abs(a), Abs(b);
    assert 0 <= n / d by {
      QuotientBounds(n, d, 0, n + 1 + d) by {
        MulLe(n + 1 + d, 1, d);
        assert d * (n + 1 + d) == (n + 1 + d) * d;
      }
    }
    assert n == d * (n / d) + n % d;
    MulLe(n / d, 1, d);
    assert d * (n / d) == (n / d) * d;
    if n == h && n / d == h {
      assert d == 1 by {
        if d >= 2 {
          MulLe(h, 2, d);
          assert false;
        }
      }
    }
  }

  /** DIV and REM, for every dividend and every nonzero divisor: the results are registers, the division equation holds
      modulo 2^XLEN (and exactly but for the one overflow), and the remainder has the right size and sign. */
  lemma {:induction false} DivRem(a: int, b: int, h: int)
    requires h > 0 && IsReg(a, h) && IsReg(b, h) && b != 0
    ensures IsReg(Div(a, b, h), h) && IsReg(Rem(a, b, h), h)
    ensures Narrow(Div(a, b, h) * b + Rem(a, b, h), h) == a
    ensures !(a == -h && b == -1) <==> Div(a, b, h) * b + Rem(a, b, h) == a
    ensures IsRemainder(Rem(a, b, h), a, b)
  {
    if a == -h && b == -1 {
      NarrowOfShift(-h, h, 1);
      NarrowOfReg(-h, h);
    } else {
      TruncatedLaws(a, b);
      QuotientFits(a, b, h);
      NarrowOfReg(a, h);
    }
  }

  lemma {:induction false} UnsignedIsZeroIff(b: int, h: int)
    requires h > 0 && IsReg(b, h)
    ensures Unsigned(b, h) == 0 <==> b == 0
  {
    NarrowOfReg(b, h);
  }

  /** DIVU and REMU: the exact unsigned division. */
  lemma {:induction false} DivuRemu(a: int, b: int, h: int)
    requires h > 0 && IsReg(a, h) && IsReg(b, h) && b != 0
    ensures var q, r := Unsigned(Divu(a, b, h), h), Unsigned(Remu(a, b, h), h);
            Unsigned(a, h) == q * Unsigned(b, h) + r && r < Unsigned(b, h)
  {
    UnsignedIsZeroIff(b, h);
    var ua, ub := Unsigned(a, h), Unsigned(b, h);
    var q, r := ua / ub, ua % ub;
    assert ua == ub * q + r && ub * q == q * ub;
    assert 0 <= q <= ua by {
      MulLe(ua + 1, 1, ub);
      assert ub * (ua + 1) == (ua + 1) * ub;
      QuotientBounds(ua, ub, 0, ua + 1);
    }
    NarrowKeepsUnsigned(q, h);
    NarrowKeepsUnsigned(r, h);
    QuotientIs(q, 2 * h, 0, q);
    QuotientIs(r, 2 * h, 0, r);
  }

  /** Division by zero: all bits of the quotient set, and the dividend as remainder. */
  lemma {:induction false} DivideByZero(a: int, h: int)
    requires h > 0 && IsReg(a, h)
    ensures Div(a, 0, h) == -1 && Rem(a, 0, h) == a
    ensures Unsigned(Divu(a, 0, h), h) == 2 * h - 1 && Remu(a, 0, h) == a
  {
    UnsignedIsZeroIff(0, h);
    QuotientIs(-1, 2 * h, -1, 2 * h - 1);
  }

  // ---------------------------------------------------------------- the word forms of RV64

  function Mulw(x: int, y: int): int { Narrow(Narrow(x * y, HALF64), HALF32) }

  function Divw(x: int, y: int): int { Div(Narrow(x, HALF32), Narrow(y, HALF32), HALF32) }

  function Remw(x: int, y: int): int { Rem(Narrow(x, HALF32), Narrow(y, HALF32), HALF32) }

  function Divuw(x: int, y: int): int { Divu(Narrow(x, HALF32), Narrow(y, HALF32), HALF32) }

  function Remuw(x: int, y: int): int { Remu(Narrow(x, HALF32), Narrow(y, HALF32), HALF32) }

  /** Narrowing to 64 bits first does not matter to a 32-bit result. */
  lemma {:induction false} NarrowTwice(x: int)
    ensures Narrow(Narrow(x, HALF64), HALF32) == Narrow(x, HALF32)
  {
    var k := NarrowGap(x, HALF64);
    var y := Narrow(x, HALF64);
    assert x == y + (2 * HALF32) * (0x1_0000_0000 * k);
    NarrowOfShift(y, HALF32, 0x1_0000_0000 * k);
  }

  /** MULW is the 32-bit MUL of the low words: the upper halves of the operands and the 64-bit wrap do not matter. */
  lemma {:induction false} MulwIsMulOfLowWords(x: int, y: int)
    ensures Mulw(x, y) == Mul(Narrow(x, HALF32), Narrow(y, HALF32), HALF32)
  {
    var h := HALF32;
    var a, b := Narrow(x, h), Narrow(y, h);
    NarrowTwice(x * y);
    HalvesOfProduct(a * b, h, true);
    LowHalfIgnoresSigns(x, y, h);
    LowHalfIgnoresSigns(a, b, h);
    NarrowKeepsUnsigned(x, h);
    NarrowKeepsUnsigned(y, h);
    NarrowOfReg(Mul(a, b, h), h);
  }

  /** The W forms of division obey the 32-bit laws on the low words, whatever the upper halves hold, and give sign-extended
      32-bit results; a zero low word divides as zero does. */
  lemma {:induction false} WordDivisions(x: int, y: int)
    ensures IsReg(Divw(x, y), HALF32) && IsReg(Remw(x, y), HALF32) && IsReg(Divuw(x, y), HALF32) && IsReg(Remuw(x, y), HALF32)
    ensures var a, b := Narrow(x, HALF32), Narrow(y, HALF32);
            if b == 0 then Divw(x, y) == -1 && Remw(x, y) == a && Divuw(x, y) == -1 && Remuw(x, y) == a
            else
              && Narrow(Divw(x, y) * b + Remw(x, y), HALF32) == a
              && IsRemainder(Remw(x, y), a, b)
              && var q, r := Unsigned(Divuw(x, y), HALF32), Unsigned(Remuw(x, y), HALF32);
                 Unsigned(x, HALF32) == q * Unsigned(y, HALF32) + r && r < Unsigned(y, HALF32)
  {
    var a, b := Narrow(x, HALF32), Narrow(y, HALF32);
    UnsignedIsZeroIff(b, HALF32);
    if b != 0 {
      DivRem(a, b, HALF32);
      DivuRemu(a, b, HALF32);
      NarrowKeepsUnsigned(x, HALF32);
      NarrowKeepsUnsigned(y, HALF32);
    }
  }
}
