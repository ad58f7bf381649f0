/** Laws of the arithmetic that execution and the meaning of the compressed instructions share: sums and differences modulo
    2^XLEN, logic bit by bit, shifts as products and divisions, and the numbers that operand bits stand for. */
module AluLaws {
  import opened Bits
  import opened MulDiv
  import opened Instr
  import opened RvcIsa

  // ---------------------------------------------------------------- width

  /** r is the value of XLEN bits that is congruent to x. */
  predicate IsWrapped(x: int, r: int, h: int)
    requires h > 0
  {
    IsReg(r, h) && (r - x) % (2 * h) == 0
  }

  lemma {:induction false} WidthIs()
    ensures 2 * Half(RV32) == TWO32 && 2 * Half(RV64) == TWO64 && Xlen(RV32) == 32 && Xlen(RV64) == 64
    ensures forall arch :: 2 * Half(arch) == Pow2(Xlen(arch))
  {
    assert Pow2(8) == 256;
    Pow2Sum(8, 8);
    Pow2Sum(16, 16);
    Pow2Sum(32, 32);
    assert Pow2(32) == 0x1_0000_0000 && Pow2(64) == 0x1_0000_0000 * 0x1_0000_0000;
  }

  lemma {:induction false} NarrowIsWrapped(x: int, h: int)
    requires h > 0
    ensures IsWrapped(x, Narrow(x, h), h)
  {
    var k := NarrowGap(x, h);
    assert (2 * h) * (-k) == -((2 * h) * k);
    AddMultiple(0, 2 * h, -k);
  }

  /** Registers and addresses hold XLEN bits of what they are given. */
  lemma {:induction false} FitAndAddress(arch: Arch, x: int)
    ensures IsWrapped(x, Fit(arch, x), Half(arch))
    ensures Address(arch, x) < 2 * Half(arch) && (Address(arch, x) - x) % (2 * Half(arch)) == 0
  {
    NarrowIsWrapped(x, Half(arch));
    var k := UnsignedGap(x, Half(arch));
    var w := 2 * Half(arch);
    assert w * (-k) == -(w * k);
    AddMultiple(0, w, -k);
  }

  /** The jump target without its lowest bit. */
  lemma {:induction false} EvenIsBelow(x: nat)
    ensures Even(x) <= x <= Even(x) + 1 && Even(x) % 2 == 0
  {
    QuotientIs(Even(x), 2, x / 2, 0);
  }

  // ---------------------------------------------------------------- sums and differences

  lemma {:induction false} AddIsSum(arch: Arch, x: int, y: int)
    ensures IsWrapped(x + y, Compute(arch, Add, x, y), Half(arch))
    ensures IsWrapped(x + y, Compute(arch, AddWord, x, y), HALF32)
  {
    NarrowIsWrapped(x + y, Half(arch));
    NarrowIsWrapped(x + y, HALF32);
  }

  lemma {:induction false} NarrowUndoes(x: int, y: int, h: int)
    requires h > 0
    ensures Narrow(Narrow(x - y, h) + y, h) == Narrow(x, h)
  {
    var k := NarrowGap(x - y, h);
    NarrowOfShift(Narrow(x - y, h) + y, h, k);
  }

  /** Adding back what was subtracted gives the old value. */
  lemma {:induction false} SubUndoesAdd(arch: Arch, x: int, y: int)
    ensures IsReg(x, Half(arch)) ==> Compute(arch, Add, Compute(arch, Sub, x, y), y) == x
    ensures Compute(arch, AddWord, Compute(arch, SubWord, x, y), y) == Narrow(x, HALF32)
    ensures IsReg(Compute(arch, Sub, x, y), Half(arch)) && IsReg(Compute(arch, SubWord, x, y), HALF32)
  {
    NarrowUndoes(x, y, Half(arch));
    NarrowUndoes(x, y, HALF32);
    if IsReg(x, Half(arch)) {
      NarrowOfReg(x, Half(arch));
    }
  }

  // ---------------------------------------------------------------- logic

  /** Bit k of a two's complement number. */
  predicate BitOf(x: int, k: nat)
    decreases k, x
  {
    if k == 0 then x % 2 == 1 else BitOf(x / 2, k - 1)
  }

  predicate Joins(alu: Alu, a: bool, b: bool) {
    (alu == And ==> a && b) && (alu == Or ==> a || b) && (alu == Xor ==> a != b)
  }

  lemma {:induction false} BitwiseBit(alu: Alu, x: int, y: int, n: nat, k: nat)
    requires k < n && (alu == And || alu == Or || alu == Xor)
    ensures BitOf(Bitwise(alu, x, y, n), k) <==> Joins(alu, BitOf(x, k), BitOf(y, k))
    decreases n
  {
    var rest := Bitwise(alu, x / 2, y / 2, n - 1);
    var low := if Joins(alu, x % 2 == 1, y % 2 == 1) then 1 else 0;
    assert Bitwise(alu, x, y, n) == 2 * rest + low;
    QuotientIs(Bitwise(alu, x, y, n), 2, rest, low);
    if k > 0 {
      BitwiseBit(alu, x / 2, y / 2, n - 1, k - 1);
    }
  }

  /** Bits below n do not see multiples of 2^n. */
  lemma {:induction false} BitBelow(x: int, n: nat, m: int, k: nat)
    requires k < n
    ensures BitOf(x + Pow2(n) * m, k) == BitOf(x, k)
    decreases n
  {
    var half := Pow2(n - 1) * m;
    assert Pow2(n) * m == 2 * half by {
      MulAssoc(2, Pow2(n - 1), m);
    }
    AddMultiple(x, 2, half);
    if k > 0 {
      BitBelow(x / 2, n - 1, m, k - 1);
    }
  }

  /** AND, OR and XOR work on every bit of the register by itself. */
  lemma {:induction false} LogicIsBitwise(arch: Arch, alu: Alu, x: int, y: int, k: nat)
    requires k < Xlen(arch) && (alu == And || alu == Or || alu == Xor)
    ensures BitOf(Compute(arch, alu, x, y), k) <==> Joins(alu, BitOf(x, k), BitOf(y, k))
    ensures IsReg(Compute(arch, alu, x, y), Half(arch))
  {
    var b := Bitwise(alu, x, y, Xlen(arch));
    BitwiseBit(alu, x, y, Xlen(arch), k);
    WidthIs();
    var m := NarrowGap(b, Half(arch));
    BitBelow(Fit(arch, b), Xlen(arch), m, k);
  }

  // ---------------------------------------------------------------- shifts

  /** A left shift is the product with a power of two, modulo 2^XLEN. */
  lemma {:induction false} LeftShiftIsProduct(arch: Arch, x: int, n: nat)
    ensures IsWrapped(x * Pow2(n), ShiftBy(arch, LeftLogical, x, n), Half(arch))
  {
    NarrowIsWrapped(x * Pow2(n), Half(arch));
  }

  lemma {:induction false} QuotientNotLarger(x: nat, d: nat)
    requires d > 0
    ensures 0 <= x / d <= x
  {
    QuotientBounds(x, d, 0, x + 1) by {
      MulLe(x + 1, 1, d);
      assert d * (x + 1) == (x + 1) * d;
    }
  }

  /** A logical right shift divides the unsigned value. */
  lemma {:induction false} LogicalShiftDivides(arch: Arch, x: int, n: nat)
    ensures var r := Address(arch, ShiftBy(arch, RightLogical, x, n));
            0 <= Address(arch, x) - r * Pow2(n) < Pow2(n)
  {
    var h, u, p := Half(arch), Address(arch, x), Pow2(n);
    QuotientNotLarger(u, p);
    NarrowKeepsUnsigned(u / p, h);
    QuotientIs(u / p, 2 * h, 0, u / p);
    assert u == u / p * p + u % p;
  }

  lemma {:induction false} SignedQuotient(x: int, d: nat, h: int)
    requires d > 0 && h > 0 && IsReg(x, h)
    ensures IsReg(x / d, h)
  {
    MulLe(h, 1, d);
    assert d * h == h * d && d * (-h) == -(h * d);
    QuotientBounds(x, d, -h, h);
  }

  /** An arithmetic right shift divides the signed value, rounding down. */
  lemma {:induction false} ArithmeticShiftDivides(arch: Arch, x: int, n: nat)
    requires IsReg(x, Half(arch))
    ensures var r := ShiftBy(arch, RightArithmetic, x, n);
            0 <= x - r * Pow2(n) < Pow2(n)
  {
    var p := Pow2(n);
    SignedQuotient(x, p, Half(arch));
    NarrowOfReg(x / p, Half(arch));
    assert x == x / p * p + x % p;
  }

  // ---------------------------------------------------------------- operands

  lemma {:induction false} Successor(x: bv32)
    requires x != 0xffff_ffff
    ensures x & 1 == 0 ==> (x + 1) & 1 != 0 && (x + 1) >> 1 == x >> 1
    ensures x & 1 != 0 ==> (x + 1) & 1 == 0 && (x + 1) >> 1 == (x >> 1) + 1 && x >> 1 != 0xffff_ffff
    ensures x + 1 != 0
  {
  }

  lemma {:induction false} Halves(x: bv32)
    ensures Number(x) == (if x & 1 != 0 then 1 else 0) + 2 * Number(x >> 1)
  {
    if x == 0 {
      assert x >> 1 == 0;
    }
  }

  lemma {:induction false} HalfIsLess(x: bv32)
    requires x & 1 != 0
    ensures x >> 1 < x
  {
  }

  /** Number grows by one from x to x + 1. */
  predicate Counts(x: bv32) { Number(x + 1) == Number(x) + 1 }

  lemma {:induction false} EvenSuccessor(x: bv32)
    requires x & 1 == 0
    ensures Counts(x)
  {
    Successor(x);
    Halves(x);
    Halves(x + 1);
  }

  lemma {:induction false} OddSuccessor(x: bv32)
    requires x != 0xffff_ffff && x & 1 != 0 && Counts(x >> 1)
    ensures Counts(x)
  {
    Successor(x);
    Halves(x);
    Halves(x + 1);
  }

  lemma {:induction false} HalfIsNotLast(x: bv32)
    ensures x >> 1 != 0xffff_ffff
  {
  }

  lemma {:induction false} CountsFrom(x: bv32)
    requires x != 0xffff_ffff
    ensures Counts(x)
    decreases x
  {
    if x & 1 == 0 {
      EvenSuccessor(x);
    } else {
      var y := x >> 1;
      HalfIsNotLast(x);
      HalfIsLess(x);
      CountsFrom(y);
      OddSuccessor(x);
    }
  }

  /** Number is 0 at 0 and grows by one with its argument, so it is the value of the bits. */
  lemma {:induction false} NumberCounts(x: bv32)
    requires x != 0xffff_ffff
    ensures Number(0) == 0 && Counts(x)
  {
    CountsFrom(x);
  }
}
