/** Powers of two and the division facts that stand for shifting and masking unsigned words. */
module Bits {

  const TWO32: nat := 0x1_0000_0000
  const TWO64: nat := 0x1_0000_0000_0000_0000

  /** 1 << n */
  function Pow2(n: nat): (p: nat)
    ensures p >= 1
  {
    if n == 0 then 1 else 2 * Pow2(n - 1)
  }

  lemma {:induction false} Pow2Sum(a: nat, b: nat)
    ensures Pow2(a + b) == Pow2(a) * Pow2(b)
  {
    if a > 0 {
      Pow2Sum(a - 1, b);
      calc {
        Pow2(a + b);
        2 * Pow2(a - 1 + b);
        2 * (Pow2(a - 1) * Pow2(b));
        (2 * Pow2(a - 1)) * Pow2(b);
      }
    }
  }

  lemma {:induction false} Pow2Is52()
    ensures Pow2(52) == 0x10_0000_0000_0000
  {
    assert Pow2(4) == 16 && Pow2(8) == 256;
    Pow2Sum(8, 4);
    Pow2Sum(8, 12);
    Pow2Sum(12, 20);
    Pow2Sum(20, 32);
  }

  lemma {:induction false} MulLe(a: nat, b: int, c: int)
    requires b <= c
    ensures a * b <= a * c
  {
  }

  lemma {:induction false} MulAssoc(a: int, b: int, c: int)
    ensures (a * b) * c == a * (b * c)
  {
  }

  lemma {:induction false} ModLe(x: nat, d: nat)
    requires d > 0
    ensures x % d <= x
  {
    MulLe(d, 0, x / d);
  }

  /** Quotient and remainder by a positive divisor, for any sign. */
  lemma {:induction false} QuotientIs(x: int, d: nat, q: int, r: nat)
    requires x == d * q + r && r < d
    ensures x / d == q && x % d == r
  {
    var q' := x / d;
    if q' < q {
      MulLe(d, q' + 1, q);
      assert false;
    } else if q < q' {
      MulLe(d, q + 1, q');
      assert false;
    }
  }

  lemma {:induction false} AddMultiple(x: int, d: nat, k: int)
    requires d > 0
    ensures (x + d * k) / d == x / d + k && (x + d * k) % d == x % d
  {
    assert x + d * k == d * (x / d + k) + x % d;
    QuotientIs(x + d * k, d, x / d + k, x % d);
  }

  /** Splitting x first by a and then by b gives quotient and remainder for a * b. */
  lemma {:induction false} SplitTwice(x: nat, a: nat, b: nat)
    requires a > 0 && b > 0
    ensures a * b > 0
    ensures x == (a * b) * (x / a / b) + (a * (x / a % b) + x % a)
    ensures a * (x / a % b) + x % a < a * b
  {
    var q := x / a;
    MulLe(a, 1, b);
    MulLe(a, q % b, b - 1);
    MulAssoc(a, b, q / b);
    calc {
      x;
      a * q + x % a;
      a * (b * (q / b) + q % b) + x % a;
      a * (b * (q / b)) + a * (q % b) + x % a;
    }
  }

  /** Shifting twice is shifting once by the sum. */
  lemma {:induction false} DivDiv(x: nat, a: nat, b: nat)
    requires a > 0 && b > 0
    ensures a * b > 0
    ensures x / a / b == x / (a * b)
  {
    SplitTwice(x, a, b);
    QuotientIs(x, a * b, x / a / b, a * (x / a % b) + x % a);
  }

  /** Masking with fewer bits forgets a mask with more. */
  lemma {:induction false} ModMod(v: nat, d: nat, k: nat)
    requires d > 0 && k > 0
    ensures d * k > 0 && v % (d * k) % d == v % d
  {
    SplitTwice(v, d, k);
    QuotientIs(v, d * k, v / d / k, d * (v / d % k) + v % d);
    QuotientIs(d * (v / d % k) + v % d, d, v / d % k, v % d);
  }

  /** (x >> a) >> b == x >> (a + b) */
  lemma {:induction false} ShiftShift(x: nat, a: nat, b: nat)
    ensures x / Pow2(a) / Pow2(b) == x / Pow2(a + b)
  {
    Pow2Sum(a, b);
    DivDiv(x, Pow2(a), Pow2(b));
  }

  /** Two numbers equal above bit a stay equal above any higher bit. */
  lemma {:induction false} SameHighBits(x: nat, y: nat, a: nat, b: nat)
    requires a <= b
    requires x / Pow2(a) == y / Pow2(a)
    ensures x / Pow2(b) == y / Pow2(b)
  {
    ShiftShift(x, a, b - a);
    ShiftShift(y, a, b - a);
  }

  /** Reducing a multiple of m modulo a multiple of m leaves the part below m alone. */
  lemma {:induction false} ModKeepsLow(m: nat, q: nat, k: nat, r: nat)
    requires m > 0 && k > 0 && r < m
    ensures m * k > 0
    ensures (m * q + r) % (m * k) == m * (q % k) + r
  {
    MulLe(m, 1, k);
    MulLe(m, q % k, k - 1);
    MulAssoc(m, k, q / k);
    calc {
      m * q + r;
      m * (k * (q / k) + q % k) + r;
      m * (k * (q / k)) + m * (q % k) + r;
      (m * k) * (q / k) + (m * (q % k) + r);
    }
    QuotientIs(m * q + r, m * k, q / k, m * (q % k) + r);
  }

  lemma {:induction false} AlignedSum(n: nat, low: nat, p: nat, k: nat, m: nat)
    requires p > 0 && k > 0 && m == p * k && n % p == 0 && low < p
    ensures m > 0 && (n + low) % m == n % m + low
  {
    var q := n / p;
    assert n == p * q;
    ModKeepsLow(p, q, k, low);
    ModKeepsLow(p, q, k, 0);
  }
}
