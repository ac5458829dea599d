/**
 The hand-written multiplications of the curve's base field, as register programs over 64-bit
 words with two carry flags.
 */
module Montgomery {
  const BASE: nat := 0x1_0000_0000_0000_0000

  type Word = x: nat | x < BASE witness 0

  type Flag = x: nat | x <= 1 witness 0

  const P0: Word := 0xffffffff00000001
  const P1: Word := 0x53bda402fffe5bfe
  const P2: Word := 0x3339d80809a1d805
  const P3: Word := 0x73eda753299d7d48
  const Q_INV: Word := 0xfffffffeffffffff

  /** The prime. */
  const PRIME: nat := 0x73eda753299d7d483339d80809a1d80553bda402fffe5bfeffffffff00000001

  datatype Limbs = Limbs(a0: Word, a1: Word, a2: Word, a3: Word) {
    function Value(): nat {
      a0 + a1 * 0x1_0000_0000_0000_0000 + a2 * 0x1_00000000_00000000_00000000_00000000 + a3 * 0x1_00000000_00000000_00000000_00000000_00000000_00000000
    }
  }

  // ---------------------------------------------------------------- instructions

  function LowWord(a: Word, b: Word): Word {
    a * b % BASE
  }

  function HighWord(a: Word, b: Word): (h: Word)
  {
    HighFits(a, b);
    a * b / BASE
  }

  lemma HighFits(a: nat, b: nat)
    requires a < BASE && b < BASE
    ensures 0 <= a * b / BASE < BASE
  {
    ProductBound(a, b, BASE, BASE);
  }

  lemma ProductBound(a: nat, b: nat, m: nat, n: nat)
    requires a < m && b < n
    ensures 0 <= a * b <= (m - 1) * (n - 1)
  {
    ProductGrows(a, m - 1, b);
    ProductGrows(b, n - 1, m - 1);
  }

  lemma ProductGrows(a: nat, b: nat, c: nat)
    requires a <= b
    ensures 0 <= a * c <= b * c && c * a <= c * b
  {
    assert (b - a) * c + a * c == b * c;
    NonNegative(b - a, c);
    NonNegative(a, c);
  }

  lemma NonNegative(a: nat, b: nat)
    ensures a * b >= 0
  {
  }

  /** The halves of a double-word product. */
  lemma Product(a: Word, b: Word)
    ensures LowWord(a, b) + HighWord(a, b) * BASE == a * b
  {
  }

  function Sum(a: Word, b: Word, c: Flag): Word {
    if a + b + c < BASE then a + b + c else a + b + c - BASE
  }

  function Carry(a: Word, b: Word, c: Flag): Flag {
    if a + b + c < BASE then 0 else 1
  }

  lemma SumIs(a: Word, b: Word, c: Flag)
    ensures Sum(a, b, c) + Carry(a, b, c) * BASE == a + b + c
  {
  }

  function WordDifference(a: Word, b: Word, c: Flag): Word {
    if a < b + c then a + BASE - b - c else a - b - c
  }

  function Borrow(a: Word, b: Word, c: Flag): Flag {
    if a < b + c then 1 else 0
  }

  // ---------------------------------------------------------------- reduction

  function Once(v: nat): nat {
    if v >= PRIME then v - PRIME else v
  }

  /** Subtracts the prime, and keeps the difference unless it borrows. */
  method Reduce(r: Limbs) returns (s: Limbs)
    ensures s.Value() == Once(r.Value())
  {
    var cf: Flag := 0;
    var s0, s1, s2, s3;
    s0, cf := WordDifference(r.a0, P0, cf), Borrow(r.a0, P0, cf);
    s1, cf := WordDifference(r.a1, P1, cf), Borrow(r.a1, P1, cf);
    s2, cf := WordDifference(r.a2, P2, cf), Borrow(r.a2, P2, cf);
    s3, cf := WordDifference(r.a3, P3, cf), Borrow(r.a3, P3, cf);
    s := if cf == 1 then r else Limbs(s0, s1, s2, s3);
  }

  // ---------------------------------------------------------------- times five

  /** r + x, word by word. */
  method AddLimbs(r: Limbs, x: Limbs) returns (s: Limbs)
    requires r.Value() < PRIME && x.Value() < PRIME
    ensures s.Value() == r.Value() + x.Value()
  {
    var cf: Flag := 0;
    var s0, s1, s2, s3;
    s0, cf := Sum(r.a0, x.a0, cf), Carry(r.a0, x.a0, cf);
    s1, cf := Sum(r.a1, x.a1, cf), Carry(r.a1, x.a1, cf);
    s2, cf := Sum(r.a2, x.a2, cf), Carry(r.a2, x.a2, cf);
    s3, cf := Sum(r.a3, x.a3, cf), Carry(r.a3, x.a3, cf);
    s := Limbs(s0, s1, s2, s3);
  }

  /** `mont_mul_by5_asm`: doubles twice and adds the original, reducing after every step. */
  method MulBy5(result: array<Word>)
    requires result.Length == 4 && LimbsOf(result[..]).Value() < PRIME
    modifies result
    ensures LimbsOf(result[..]).Value() == 5 * old(LimbsOf(result[..]).Value()) % PRIME
  {
    var x := LimbsOf(result[..]);
    FiveTimes(x.Value());
    hide Limbs.Value;
    var r := AddLimbs(x, x);
    r := Reduce(r);
    r := AddLimbs(r, r);
    r := Reduce(r);
    r := AddLimbs(r, x);
    r := Reduce(r);
    assert r == Limbs(r.a0, r.a1, r.a2, r.a3);
    result[0], result[1], result[2], result[3] := r.a0, r.a1, r.a2, r.a3;
  }

  lemma FiveTimes(x: nat)
    requires x < PRIME
    ensures Once(2 * x) < PRIME && Once(2 * Once(2 * x)) < PRIME
    ensures Once(Once(2 * Once(2 * x)) + x) == 5 * x % PRIME
  {
  }

  function LimbsOf(a: seq<Word>): Limbs
    requires |a| == 4
  {
    Limbs(a[0], a[1], a[2], a[3])
  }

  // ---------------------------------------------------------------- one round of the product

  const BASE_4: nat := 0x1_00000000_00000000_00000000_00000000_00000000_00000000_00000000_00000000

  /** A word times a multi-word number. */
  lemma TimesWord(x: Limbs, y: Word)
    ensures x.Value() * y == x.a0 * y + (x.a1 * y) * 0x1_0000_0000_0000_0000 + (x.a2 * y) * 0x1_00000000_00000000_00000000_00000000
                             + (x.a3 * y) * 0x1_00000000_00000000_00000000_00000000_00000000_00000000
  {
    var a, b, c, d, e: int := x.a0, x.a1 * 0x1_0000_0000_0000_0000, x.a2 * 0x1_00000000_00000000_00000000_00000000,
                              x.a3 * 0x1_00000000_00000000_00000000_00000000_00000000_00000000, y;
    assert (a + b + c + d) * e == a * e + b * e + c * e + d * e;
    assert b * e == (x.a1 * y) * 0x1_0000_0000_0000_0000;
    assert c * e == (x.a2 * y) * 0x1_00000000_00000000_00000000_00000000;
    assert d * e == (x.a3 * y) * 0x1_00000000_00000000_00000000_00000000_00000000_00000000;
  }

  /** What a running value below 2p grows to when x · y is added, for x below p and one word y. */
  ghost predicate InRange(full: nat) {
    full <= 2 * PRIME - 1 + (PRIME - 1) * (BASE - 1)
  }

  lemma GrowsInRange(t: nat, x: nat, y: Word)
    requires t < 2 * PRIME && x < PRIME
    ensures 0 <= x * y && InRange(t + x * y)
  {
    ProductBound(x, y, PRIME, BASE);
  }

  /** The first round's product: x · y. */
  method FirstProduct(x: Limbs, y: Word) returns (t: Limbs, top: Word)
    requires x.Value() < PRIME
    ensures t.Value() + top * BASE_4 == x.Value() * y
  {
    TimesWord(x, y);
    GrowsInRange(0, x.Value(), y);
    Product(x.a0, y);
    Product(x.a1, y);
    Product(x.a2, y);
    Product(x.a3, y);
    hide LowWord, HighWord, Sum, Carry;
    var of: Flag := 0;
    var r14, r13 := LowWord(x.a0, y), HighWord(x.a0, y);
    var rax, rcx := LowWord(x.a1, y), HighWord(x.a1, y);
    SumIs(r13, rax, of);
    r13, of := Sum(r13, rax, of), Carry(r13, rax, of);
    var rbx;
    rax, rbx := LowWord(x.a2, y), HighWord(x.a2, y);
    SumIs(rcx, rax, of);
    rcx, of := Sum(rcx, rax, of), Carry(rcx, rax, of);
    var rbp;
    rax, rbp := LowWord(x.a3, y), HighWord(x.a3, y);
    SumIs(rbx, rax, of);
    rbx, of := Sum(rbx, rax, of), Carry(rbx, rax, of);
    SumIs(rbp, 0, of);
    rbp, of := Sum(rbp, 0, of), Carry(rbp, 0, of);
    t, top := Limbs(r14, r13, rcx, rbx), rbp;
  }

  /** The product of a later round: t + x · y, on two interleaved carry chains. */
  method MultiplyAccumulate(t: Limbs, x: Limbs, y: Word) returns (r: Limbs, top: Word)
    requires t.Value() < 2 * PRIME && x.Value() < PRIME
    ensures r.Value() + top * BASE_4 == t.Value() + x.Value() * y
  {
    TimesWord(x, y);
    GrowsInRange(t.Value(), x.Value(), y);
    Product(x.a0, y);
    Product(x.a1, y);
    Product(x.a2, y);
    Product(x.a3, y);
    hide LowWord, HighWord, Sum, Carry;
    var r14, r13, rcx, rbx := t.a0, t.a1, t.a2, t.a3;
    var cf: Flag, of: Flag := 0, 0;
    var rax, rbp := LowWord(x.a0, y), HighWord(x.a0, y);
    SumIs(r14, rax, of);
    r14, of := Sum(r14, rax, of), Carry(r14, rax, of);
    SumIs(r13, rbp, cf);
    r13, cf := Sum(r13, rbp, cf), Carry(r13, rbp, cf);
    rax, rbp := LowWord(x.a1, y), HighWord(x.a1, y);
    SumIs(r13, rax, of);
    r13, of := Sum(r13, rax, of), Carry(r13, rax, of);
    SumIs(rcx, rbp, cf);
    rcx, cf := Sum(rcx, rbp, cf), Carry(rcx, rbp, cf);
    rax, rbp := LowWord(x.a2, y), HighWord(x.a2, y);
    SumIs(rcx, rax, of);
    rcx, of := Sum(rcx, rax, of), Carry(rcx, rax, of);
    SumIs(rbx, rbp, cf);
    rbx, cf := Sum(rbx, rbp, cf), Carry(rbx, rbp, cf);
    rax, rbp := LowWord(x.a3, y), HighWord(x.a3, y);
    SumIs(rbx, rax, of);
    rbx, of := Sum(rbx, rax, of), Carry(rbx, rax, of);
    SumIs(rbp, 0, cf);
    rbp, cf := Sum(rbp, 0, cf), Carry(rbp, 0, cf);
    SumIs(rbp, 0, of);
    rbp, of := Sum(rbp, 0, of), Carry(rbp, 0, of);
    r, top := Limbs(r14, r13, rcx, rbx), rbp;
  }

  /** The factor m makes the lowest word of t + m · p vanish. */
  lemma LowestVanishes(t0: Word, m: Word)
    requires m == LowWord(Q_INV, t0)
    ensures (m * P0 + t0) % BASE == 0
  {
    var q := Q_INV * t0 / BASE;
    assert Q_INV * t0 == q * BASE + m;
    VanishingSum(m, t0, q);
    ModZero(0xfffffffe00000001 * t0 - q * P0);
  }

  lemma VanishingSum(m: int, t0: int, q: int)
    requires Q_INV * t0 == q * BASE + m
    ensures m * P0 + t0 == (0xfffffffe00000001 * t0 - q * P0) * BASE
  {
  }

  lemma ModZero(k: int)
    ensures (k * BASE) % BASE == 0
  {
  }

  /** The reduction half of a round: (t + m · p) / 2^64, for the m that makes the division exact. */
  method ReduceWord(r: Limbs, top: Word) returns (t: Limbs, ghost m: Word)
    requires InRange(r.Value() + top * BASE_4)
    ensures t.Value() * BASE == r.Value() + top * BASE_4 + m * PRIME
    ensures t.Value() < 2 * PRIME
  {
    ghost var c;
    t, m, c := AddMultiple(r, top);
    NothingLost(t, r.Value() + top * BASE_4, m, c);
  }

  /** No carry leaves the top word. */
  lemma NothingLost(t: Limbs, full: nat, m: Word, c: nat)
    requires InRange(full) && t.Value() * BASE + c * BASE_4 * BASE == full + m * PRIME
    ensures c == 0 && t.Value() < 2 * PRIME
  {
    TimesPrime(m);
    hide Limbs.Value;
  }

  /** The instructions of the reduction half; `c` counts the carries that leave the top word. */
  method AddMultiple(r: Limbs, top: Word) returns (t: Limbs, ghost m: Word, ghost c: nat)
    ensures t.Value() * BASE + c * BASE_4 * BASE == r.Value() + top * BASE_4 + m * PRIME
  {
    var r14, r13, rcx, rbx, rbp := r.a0, r.a1, r.a2, r.a3, top;
    var rdx := LowWord(Q_INV, r14);
    m := rdx;
    LowestVanishes(r14, rdx);
    TimesPrime(m);
    Product(rdx, P0);
    Product(rdx, P1);
    Product(rdx, P2);
    Product(rdx, P3);
    hide LowWord, HighWord, Sum, Carry;
    var cf: Flag, of: Flag := 0, 0;
    var rax, rsi := LowWord(rdx, P0), HighWord(rdx, P0);
    SumIs(rax, r14, cf);
    rax, cf := Sum(rax, r14, cf), Carry(rax, r14, cf);
    LowestIsZero(r14, rdx, rax, cf);
    r14 := rsi;
    SumIs(r14, r13, cf);
    r14, cf := Sum(r14, r13, cf), Carry(r14, r13, cf);
    rax, r13 := LowWord(rdx, P1), HighWord(rdx, P1);
    SumIs(r14, rax, of);
    r14, of := Sum(r14, rax, of), Carry(r14, rax, of);
    SumIs(r13, rcx, cf);
    r13, cf := Sum(r13, rcx, cf), Carry(r13, rcx, cf);
    rax, rcx := LowWord(rdx, P2), HighWord(rdx, P2);
    SumIs(r13, rax, of);
    r13, of := Sum(r13, rax, of), Carry(r13, rax, of);
    SumIs(rcx, rbx, cf);
    rcx, cf := Sum(rcx, rbx, cf), Carry(rcx, rbx, cf);
    rax, rbx := LowWord(rdx, P3), HighWord(rdx, P3);
    SumIs(rcx, rax, of);
    rcx, of := Sum(rcx, rax, of), Carry(rcx, rax, of);
    SumIs(rbx, 0, cf);
    rbx, cf := Sum(rbx, 0, cf), Carry(rbx, 0, cf);
    SumIs(rbx, rbp, of);
    rbx, of := Sum(rbx, rbp, of), Carry(rbx, rbp, of);
    t, c := Limbs(r14, r13, rcx, rbx), cf + of;
  }

  lemma TimesPrime(m: Word)
    ensures m * PRIME == m * P0 + (m * P1) * 0x1_0000_0000_0000_0000 + (m * P2) * 0x1_00000000_00000000_00000000_00000000
                         + (m * P3) * 0x1_00000000_00000000_00000000_00000000_00000000_00000000
    ensures m * PRIME <= (BASE - 1) * PRIME
  {
  }

  /** The discarded word is zero. */
  lemma LowestIsZero(t0: Word, m: Word, rax: Word, cf: Flag)
    requires (m * P0 + t0) % BASE == 0 && rax + cf * BASE == LowWord(m, P0) + t0
    ensures rax == 0
  {
    Product(m, P0);
    hide LowWord, HighWord;
    OnlyMultiple(rax, cf + HighWord(m, P0));
  }

  lemma OnlyMultiple(x: Word, q: nat)
    requires (x + q * BASE) % BASE == 0
    ensures x == 0
  {
  }

  /** `mont_mul_asm`: four rounds, one word of y each, and a conditional subtraction. */
  method MontMul(result: array<Word>, x: array<Word>, y: array<Word>)
    requires result.Length == x.Length == y.Length == 4 && LimbsOf(x[..]).Value() < PRIME
    modifies result
    ensures LimbsOf(result[..]).Value() < PRIME
    ensures exists k: int :: LimbsOf(result[..]).Value() * BASE_4 == old(LimbsOf(x[..]).Value()) * old(LimbsOf(y[..]).Value()) + k * PRIME
  {
    var a, b := LimbsOf(x[..]), LimbsOf(y[..]);
    var z, k := MontMulLimbs(a, b);
    result[0], result[1], result[2], result[3] := z.a0, z.a1, z.a2, z.a3;
    assert LimbsOf(result[..]) == z;
  }

  method MontMulLimbs(x: Limbs, y: Limbs) returns (z: Limbs, ghost k: int)
    requires x.Value() < PRIME
    ensures z.Value() < PRIME && z.Value() * BASE_4 == x.Value() * y.Value() + k * PRIME
  {
    hide Limbs.Value;
    ghost var v := x.Value();
    var r, top := FirstProduct(x, y.a0);
    GrowsInRange(0, v, y.a0);
    ghost var m0, m1, m2, m3;
    var t;
    t, m0 := ReduceWord(r, top);
    ghost var t1 := t.Value();
    r, top := MultiplyAccumulate(t, x, y.a1);
    GrowsInRange(t1, v, y.a1);
    t, m1 := ReduceWord(r, top);
    ghost var t2 := t.Value();
    r, top := MultiplyAccumulate(t, x, y.a2);
    GrowsInRange(t2, v, y.a2);
    t, m2 := ReduceWord(r, top);
    ghost var t3 := t.Value();
    r, top := MultiplyAccumulate(t, x, y.a3);
    GrowsInRange(t3, v, y.a3);
    t, m3 := ReduceWord(r, top);
    z := Reduce(t);
    k := FourRounds(v, y, t1, t2, t3, t.Value(), m0, m1, m2, m3, z.Value());
  }

  /** Four rounds together: t · 2^256 = x · y + k · p. */
  lemma FourRounds(v: nat, y: Limbs, t1: nat, t2: nat, t3: nat, t4: nat, m0: nat, m1: nat, m2: nat, m3: nat, z: nat) returns (k: int)
    requires t1 * BASE == v * y.a0 + m0 * PRIME && t2 * BASE == t1 + v * y.a1 + m1 * PRIME
    requires t3 * BASE == t2 + v * y.a2 + m2 * PRIME && t4 * BASE == t3 + v * y.a3 + m3 * PRIME && z == Once(t4)
    ensures z * BASE_4 == v * y.Value() + k * PRIME
  {
    k := m0 + m1 * 0x1_0000_0000_0000_0000 + m2 * 0x1_00000000_00000000_00000000_00000000
         + m3 * 0x1_00000000_00000000_00000000_00000000_00000000_00000000 - if t4 >= PRIME then BASE_4 else 0;
    ScalarTimes(v, y);
  }

  lemma ScalarTimes(v: nat, y: Limbs)
    ensures v * y.Value() == v * y.a0 + (v * y.a1) * 0x1_0000_0000_0000_0000 + (v * y.a2) * 0x1_00000000_00000000_00000000_00000000
                             + (v * y.a3) * 0x1_00000000_00000000_00000000_00000000_00000000_00000000
  {
    var a, b, c, d: int := y.a0, y.a1 * 0x1_0000_0000_0000_0000, y.a2 * 0x1_00000000_00000000_00000000_00000000,
                           y.a3 * 0x1_00000000_00000000_00000000_00000000_00000000_00000000;
    assert v * (a + b + c + d) == v * a + v * b + v * c + v * d;
    assert v * b == (v * y.a1) * 0x1_0000_0000_0000_0000;
    assert v * c == (v * y.a2) * 0x1_00000000_00000000_00000000_00000000;
    assert v * d == (v * y.a3) * 0x1_00000000_00000000_00000000_00000000_00000000_00000000;
  }
}
