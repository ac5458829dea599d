/** Powers of two, and the bit operations of machine words as arithmetic. */
module Bits {

  function Pow2(k: nat): (p: nat)
    ensures p > 0
  {
    if k == 0 then 1 else 2 * Pow2(k - 1)
  }

  lemma Pow2Doubles(k: nat)
    ensures Pow2(k + 1) == 2 * Pow2(k)
  {
  }

  lemma {:induction false} Pow2Add(a: nat, b: nat)
    ensures Pow2(a + b) == Pow2(a) * Pow2(b)
  {
    if b > 0 {
      Pow2Add(a, b - 1);
      assert Pow2(a) * (2 * Pow2(b - 1)) == 2 * (Pow2(a) * Pow2(b - 1));
    }
  }

  lemma {:induction false} Pow2Grows(a: nat, b: nat)
    requires a <= b
    ensures Pow2(a) <= Pow2(b)
  {
    if a < b {
      Pow2Grows(a, b - 1);
    }
  }

  /** Quotient and remainder are unique. */
  lemma DivMod(x: nat, d: nat, q: nat, r: nat)
    requires x == q * d + r && r < d
    ensures x / d == q && x % d == r
  {
    var q', r' := x / d, x % d;
    assert x == q' * d + r';
    assert (q - q') * d == r' - r && (q' - q) * d == r - r';
    if q > q' {
      AtLeastOnce(q - q', d);
    } else if q < q' {
      AtLeastOnce(q' - q, d);
    }
  }

  lemma AtLeastOnce(k: int, d: nat)
    requires k >= 1
    ensures k * d >= d
  {
    assert k * d == (k - 1) * d + d;
  }

  /** Dividing twice is dividing by the product. */
  lemma DivTwice(x: nat, a: nat, b: nat)
    requires a > 0 && b > 0
    ensures a * b > 0 && x / a / b == x / (a * b)
  {
    var y, r := x / a, x % a;
    var q, s := y / b, y % b;
    assert x == y * a + r && y == q * b + s;
    NestedQuotient(x, y, q, r, s, a, b);
    Remainder2(s, r, a, b);
    DivMod(x, a * b, q, s * a + r);
  }

  lemma NestedQuotient(x: nat, y: nat, q: nat, r: nat, s: nat, a: nat, b: nat)
    requires x == y * a + r && y == q * b + s && a > 0 && b > 0
    ensures x == q * (a * b) + (s * a + r) && a * b > 0
  {
    assert (q * b + s) * a == q * (a * b) + s * a;
    AtLeastOnce(b, a);
  }

  lemma Remainder2(s: nat, r: nat, a: nat, b: nat)
    requires r < a && s < b
    ensures s * a + r < a * b
  {
    AtLeastOnce(b - s, a);
    assert (b - s) * a == a * b - s * a;
  }

  /** Multiples of the divisor do not change the remainder. */
  lemma ModMultiple(x: nat, y: nat, d: nat)
    requires d > 0
    ensures (x + y * d) % d == x % d && (x + y * d) / d == x / d + y
  {
    assert x == x / d * d + x % d;
    assert (x / d + y) * d == x / d * d + y * d;
    DivMod(x + y * d, d, x / d + y, x % d);
  }

  // ---------------------------------------------------------------- bit fields

  /** The bits from `k` on. */
  function Shr(x: nat, k: nat): nat {
    QuotientNonNegative(x, Pow2(k));
    x / Pow2(k)
  }

  lemma QuotientNonNegative(x: nat, d: nat)
    requires d > 0
    ensures x / d >= 0
  {
  }

  /** The lowest `k` bits. */
  function Low(x: nat, k: nat): nat {
    x % Pow2(k)
  }

  lemma LowBound(x: nat, k: nat)
    ensures Low(x, k) < Pow2(k)
    ensures x < Pow2(k) ==> Low(x, k) == x && Shr(x, k) == 0
  {
    if x < Pow2(k) {
      DivMod(x, Pow2(k), 0, x);
    }
  }

  lemma ShrShr(x: nat, a: nat, b: nat)
    ensures Shr(Shr(x, a), b) == Shr(x, a + b)
  {
    hide Pow2;
    Pow2Add(a, b);
    DivTwice(x, Pow2(a), Pow2(b));
  }

  /** A field of a + b bits is a low field and a high field. */
  lemma LowSplit(x: nat, a: nat, b: nat)
    ensures Low(x, a + b) == Low(x, a) + Low(Shr(x, a), b) * Pow2(a)
  {
    hide Pow2;
    Pow2Add(a, b);
    var p, q := Pow2(a), Pow2(b);
    SplitDivision(x, p, q);
  }

  lemma SplitDivision(x: nat, p: nat, q: nat)
    requires p > 0 && q > 0
    ensures p * q > 0 && x % (p * q) == x % p + x / p % q * p
  {
    var y, r := x / p, x % p;
    var h, s := y / q, y % q;
    assert x == y * p + r && y == h * q + s;
    assert (h * q + s) * p == h * (p * q) + s * p;
    Remainder2(s, r, p, q);
    AtLeastOnce(q, p);
    assert q * p == p * q;
    DivMod(x, p * q, h, s * p + r);
  }

  /** A low field of a low field. */
  lemma LowLow(x: nat, a: nat, b: nat)
    requires b <= a
    ensures Low(Low(x, a), b) == Low(x, b) && Low(Low(x, b), a) == Low(x, b)
  {
    hide Pow2, Low;
    LowSplit(x, b, a - b);
    LowShift(Low(x, b), Low(Shr(x, b), a - b), b);
    LowBound(x, b);
    Pow2Grows(b, a);
    LowBound(Low(x, b), a);
    LowBound(Low(x, b), b);
  }

  lemma LowShift(x: nat, y: nat, k: nat)
    ensures Low(x + y * Pow2(k), k) == Low(x, k) && Shr(x + y * Pow2(k), k) == Shr(x, k) + y
  {
    ModMultiple(x, y, Pow2(k));
  }

  /** The bits from `b` on of a field of `a + b` bits. */
  lemma ShrLow(x: nat, a: nat, b: nat)
    ensures Shr(Low(x, a + b), b) == Low(Shr(x, b), a)
  {
    hide Pow2, Low, Shr;
    LowSplit(x, b, a);
    LowShift(Low(x, b), Low(Shr(x, b), a), b);
    LowBound(x, b);
    LowBound(Low(x, b), b);
  }

  // ---------------------------------------------------------------- words

  /** Bitwise and, or. */
  function And(a: nat, b: nat): nat {
    if a == 0 || b == 0 then 0 else (if a % 2 == 1 && b % 2 == 1 then 1 else 0) + 2 * And(a / 2, b / 2)
  }

  function Or(a: nat, b: nat): nat {
    if a == 0 && b == 0 then 0 else (if a % 2 == 1 || b % 2 == 1 then 1 else 0) + 2 * Or(a / 2, b / 2)
  }

  function Bit(n: nat, i: nat): nat {
    n / Pow2(i) % 2
  }

  lemma HalfMod(a: nat, h: nat)
    requires h > 0
    ensures a % (2 * h) == a % 2 + 2 * (a / 2 % h)
  {
    var q, r := a / 2 / h, a / 2 % h;
    assert a / 2 == q * h + r;
    assert q * (2 * h) == 2 * (q * h);
    DivMod(a, 2 * h, q, 2 * r + a % 2);
  }

  /** Masking with 2^k - 1 keeps the lowest `k` bits. */
  lemma {:induction false} AndMask(a: nat, k: nat)
    ensures And(a, Pow2(k) - 1) == Low(a, k)
  {
    if k > 0 {
      AndMask(a / 2, k - 1);
      HalfMod(a, Pow2(k - 1));
      MaskHalf(a, Pow2(k - 1));
    }
  }

  lemma MaskHalf(a: nat, h: nat)
    requires h > 0
    ensures And(a, 2 * h - 1) == a % 2 + 2 * And(a / 2, h - 1)
  {
    assert (2 * h - 1) / 2 == h - 1 && (2 * h - 1) % 2 == 1;
  }

  lemma {:induction false} OrZero(a: nat)
    ensures Or(a, 0) == a && Or(0, a) == a
  {
    if a > 0 {
      OrZero(a / 2);
    }
  }

  /** Or-ing a word above another is adding it. */
  lemma {:induction false} OrAbove(low: nat, high: nat, k: nat)
    requires low < Pow2(k)
    ensures Or(low, high * Pow2(k)) == low + high * Pow2(k)
  {
    if k == 0 {
      OrZero(high);
    } else {
      var h := Pow2(k - 1);
      assert high * Pow2(k) == 2 * (high * h);
      OrAbove(low / 2, high, k - 1);
      assert (high * Pow2(k)) / 2 == high * h && (high * Pow2(k)) % 2 == 0;
      if low == 0 && high * Pow2(k) == 0 {
      } else {
        assert Or(low, high * Pow2(k)) == low % 2 + 2 * Or(low / 2, high * h);
      }
    }
  }
}
