/**
 The scalar field, as the integers modulo a prime, with vectors of scalars and their powers.
 Vectors are reasoned about over the integers; `Red` takes the result back into the field.
 */
module Scalars {
  type Modulus = m: int | m > 1 witness 2

  const MODULUS: Modulus

  type Fr = x: int | 0 <= x < MODULUS witness 0

  function Red(x: int): Fr {
    x % MODULUS
  }

  function Add(a: Fr, b: Fr): Fr {
    Red(a + b)
  }

  function Sub(a: Fr, b: Fr): Fr {
    Red(a - b)
  }

  function Neg(a: Fr): Fr {
    Red(0 - a)
  }

  function Mul(a: Fr, b: Fr): Fr {
    Red(a * b)
  }

  const Inverse: Fr -> Fr

  predicate Inverts(x: Fr) {
    x != 0 ==> Mul(x, Inverse(x)) == 1
  }

  /** The modulus is prime, and `Inverse` inverts. */
  ghost predicate IsField() {
    forall x: Fr :: Inverts(x)
  }

  /** Batch inversion inverts every element that is not zero, and leaves zero alone. */
  function InverseOrZero(x: Fr): Fr {
    if x == 0 then 0 else Inverse(x)
  }

  // ---------------------------------------------------------------- congruence

  lemma UniqueRemainder(x: int, q: int, r: int)
    requires 0 <= r < MODULUS && x == q * MODULUS + r
    ensures x % MODULUS == r
  {
    var m: int, q', r' := MODULUS, x / MODULUS, x % MODULUS;
    assert x == q' * m + r';
    assert (q - q') * m == r' - r && (q' - q) * m == r - r';
    if q > q' {
      Products(q - q', m);
    } else if q < q' {
      Products(q' - q, m);
    }
  }

  lemma Products(k: int, m: int)
    requires k >= 1 && m >= 1
    ensures k * m >= m
  {
    assert k * m == (k - 1) * m + m;
  }

  /** Adding a multiple of the modulus changes nothing. */
  lemma RedShift(x: int, k: int)
    ensures Red(x + k * MODULUS) == Red(x)
  {
    var m: int, q, r := MODULUS, x / MODULUS, x % MODULUS;
    assert x == q * m + r;
    assert x + k * m == (q + k) * m + r;
    UniqueRemainder(x + k * m, q + k, r);
  }

  lemma RedDifference(a: int, b: int) returns (k: int)
    requires Red(a) == Red(b)
    ensures a == b + k * MODULUS
  {
    var m: int := MODULUS;
    k := a / m - b / m;
    assert a == a / m * m + a % m && b == b / m * m + b % m;
    assert k * m == a / m * m - b / m * m;
  }

  /** A product that a proof may treat as a name. */
  function Prod(x: int, y: int): int {
    x * y
  }

  lemma SumSame(a: int, b: int, c: int, d: int)
    requires Red(a) == Red(c) && Red(b) == Red(d)
    ensures Red(a + b) == Red(c + d)
  {
    RedRing(a, b, c, d);
  }

  lemma ProdSame(a: int, b: int, c: int, d: int)
    requires Red(a) == Red(c) && Red(b) == Red(d)
    ensures Red(Prod(a, b)) == Red(Prod(c, d))
  {
    RedRing(a, b, c, d);
  }

  /** `Red` is a ring homomorphism. */
  lemma RedRing(a: int, b: int, c: int, d: int)
    requires Red(a) == Red(c) && Red(b) == Red(d)
    ensures Red(a + b) == Red(c + d)
    ensures Red(a - b) == Red(c - d)
    ensures Red(a * b) == Red(c * d)
  {
    hide Red;
    var j := RedDifference(a, c);
    var k := RedDifference(b, d);
    RedSum(c, d, j, k);
    RedProduct(c, d, j, k);
  }

  lemma RedSum(c: int, d: int, j: int, k: int)
    ensures Red((c + j * MODULUS) + (d + k * MODULUS)) == Red(c + d)
    ensures Red((c + j * MODULUS) - (d + k * MODULUS)) == Red(c - d)
  {
    hide Red;
    var m: int := MODULUS;
    assert (c + j * m) + (d + k * m) == (c + d) + (j + k) * m;
    RedShift(c + d, j + k);
    assert (c + j * m) - (d + k * m) == (c - d) + (j - k) * m;
    RedShift(c - d, j - k);
  }

  lemma RedProduct(c: int, d: int, j: int, k: int)
    ensures Red((c + j * MODULUS) * (d + k * MODULUS)) == Red(c * d)
  {
    hide Red;
    ShiftedProduct(c, d, j, k, MODULUS);
    RedShift(c * d, j * d + (c + j * MODULUS) * k);
  }

  lemma ShiftedProduct(c: int, d: int, j: int, k: int, m: int)
    ensures (c + j * m) * (d + k * m) == c * d + (j * d + (c + j * m) * k) * m
  {
    var e := c + j * m;
    assert e * (d + k * m) == e * d + (e * k) * m;
    assert e * d == c * d + (j * d) * m;
  }

  lemma RedRed(x: int)
    ensures Red(Red(x)) == Red(x)
    ensures 0 <= x < MODULUS ==> Red(x) == x
  {
  }

  /** A unit times its inverse can be left out of a product. */
  lemma RedUnit(u: int, v: int, x: int)
    requires Red(u * v) == 1
    ensures Red(u * v * x) == Red(x)
  {
    hide Red;
    RedOne();
    RedRing(u * v, x, 1, x);
  }

  lemma RedOne()
    ensures Red(1) == 1 && Red(0) == 0
  {
  }

  // ---------------------------------------------------------------- division

  lemma InverseIs(x: Fr)
    requires IsField() && x != 0
    ensures Red(x * Inverse(x)) == 1 && Red(Inverse(x) * x) == 1
  {
    assert Inverts(x);
    assert x * Inverse(x) == Inverse(x) * x;
  }

  /** A factor that is not zero in the field can be cancelled. */
  lemma Cancel(c: int, x: int, y: int)
    requires IsField() && Red(c) != 0 && Red(c * x) == Red(c * y)
    ensures Red(x) == Red(y)
  {
    hide Red, IsField;
    var inv: int := Inverse(Red(c));
    InverseIs(Red(c));
    RedRed(c);
    RedRing(inv, Red(c), inv, c);
    TimesInverse(inv, c, x);
    TimesInverse(inv, c, y);
    RedRing(inv, c * x, inv, c * y);
  }

  lemma TimesInverse(inv: int, c: int, x: int)
    requires Red(inv * c) == 1
    ensures Red(inv * (c * x)) == Red(x)
  {
    hide Red;
    RedUnit(inv, c, x);
    assert inv * c * x == inv * (c * x);
  }

  lemma ProductNonZero(a: int, b: int)
    requires IsField() && Red(a) != 0 && Red(b) != 0
    ensures Red(a * b) != 0
  {
    hide Red, IsField;
    RedOne();
    if Red(a * b) == 0 {
      assert Red(a * b) == Red(a * 0);
      Cancel(a, b, 0);
    }
  }

  /** Integers less than the modulus apart differ in the field. */
  lemma ApartNonZero(x: int, y: int)
    requires x != y && 0 - MODULUS < x - y < MODULUS
    ensures Red(x - y) != 0
  {
    var m: int := MODULUS;
    if x < y {
      RedShift(x - y, 1);
      assert x - y + 1 * m == x - y + m;
    }
  }

  // ---------------------------------------------------------------- vectors

  function Dot(a: seq<int>, b: seq<int>): int
    requires |a| == |b|
  {
    if a == [] then 0
    else
      var n := |a| - 1;
      Dot(a[..n], b[..n]) + a[n] * b[n]
  }

  function VecAdd(a: seq<int>, b: seq<int>): (c: seq<int>)
    requires |a| == |b|
    ensures |c| == |a|
  {
    seq(|a|, i requires 0 <= i < |a| => a[i] + b[i])
  }

  function VecScale(k: int, a: seq<int>): (c: seq<int>)
    ensures |c| == |a|
  {
    seq(|a|, i requires 0 <= i < |a| => k * a[i])
  }

  /** The vector over the field. */
  function Reduced(a: seq<int>): (c: seq<Fr>)
    ensures |c| == |a|
  {
    seq(|a|, i requires 0 <= i < |a| => Red(a[i]))
  }

  ghost predicate SameMod(a: seq<int>, b: seq<int>) {
    |a| == |b| && forall i :: 0 <= i < |a| ==> Red(a[i]) == Red(b[i])
  }

  lemma ReducedSame(a: seq<int>)
    ensures SameMod(Reduced(a), a)
  {
    forall i | 0 <= i < |a|
      ensures Red(Reduced(a)[i]) == Red(a[i])
    {
      RedRed(a[i]);
    }
  }

  lemma {:induction false} DotAdd(a: seq<int>, b: seq<int>, c: seq<int>)
    requires |a| == |b| == |c|
    ensures Dot(VecAdd(a, b), c) == Dot(a, c) + Dot(b, c)
  {
    if a != [] {
      var n := |a| - 1;
      DotAdd(a[..n], b[..n], c[..n]);
      assert VecAdd(a, b)[..n] == VecAdd(a[..n], b[..n]);
      assert VecAdd(a, b)[n] * c[n] == a[n] * c[n] + b[n] * c[n];
    }
  }

  lemma {:induction false} DotScale(k: int, a: seq<int>, b: seq<int>)
    requires |a| == |b|
    ensures Dot(VecScale(k, a), b) == Prod(k, Dot(a, b))
  {
    if a != [] {
      var n := |a| - 1;
      DotScale(k, a[..n], b[..n]);
      assert VecScale(k, a)[..n] == VecScale(k, a[..n]);
      Distribute(k, Dot(a[..n], b[..n]), a[n], b[n]);
    }
  }

  lemma Distribute(k: int, d: int, x: int, y: int)
    ensures k * (d + x * y) == k * d + (k * x) * y
  {
    assert k * (x * y) == (k * x) * y;
  }

  lemma {:induction false} DotCommutes(a: seq<int>, b: seq<int>)
    requires |a| == |b|
    ensures Dot(a, b) == Dot(b, a)
  {
    if a != [] {
      DotCommutes(a[..|a| - 1], b[..|a| - 1]);
    }
  }

  lemma {:induction false} DotConcat(a: seq<int>, b: seq<int>, c: seq<int>, d: seq<int>)
    requires |a| == |b| && |c| == |d|
    ensures Dot(a + c, b + d) == Dot(a, b) + Dot(c, d)
  {
    if c == [] {
      assert a + c == a && b + d == b;
    } else {
      var n := |c| - 1;
      DotConcat(a, b, c[..n], d[..n]);
      assert (a + c)[..|a| + n] == a + c[..n] && (b + d)[..|a| + n] == b + d[..n];
    }
  }

  lemma {:induction false} DotSame(a: seq<int>, b: seq<int>, c: seq<int>, d: seq<int>)
    requires |a| == |b| && SameMod(a, c) && SameMod(b, d)
    ensures Red(Dot(a, b)) == Red(Dot(c, d))
  {
    hide Red;
    if a != [] {
      var n := |a| - 1;
      DotSame(a[..n], b[..n], c[..n], d[..n]);
      RedRing(a[n], b[n], c[n], d[n]);
      RedRing(Dot(a[..n], b[..n]), a[n] * b[n], Dot(c[..n], d[..n]), c[n] * d[n]);
    }
  }

  lemma NextTerm(d: int, x: int, y: int)
    ensures Red(Red(d) + Red(x * y)) == Red(d + x * y)
  {
    hide Red;
    RedRed(d);
    RedRed(x * y);
    RedRing(Red(d), Red(x * y), d, x * y);
  }

  /** `inner_product`. */
  method InnerProduct(a: seq<Fr>, b: seq<Fr>) returns (r: Fr)
    requires |a| == |b|
    ensures r == Red(Dot(a, b))
  {
    hide Red;
    RedOne();
    r := Red(0);
    for i := 0 to |a|
      invariant r == Red(Dot(a[..i], b[..i]))
    {
      assert a[..i + 1][..i] == a[..i] && b[..i + 1][..i] == b[..i];
      NextTerm(Dot(a[..i], b[..i]), a[i], b[i]);
      r := Add(r, Mul(a[i], b[i]));
    }
    assert a[..|a|] == a && b[..|b|] == b;
  }

  // ---------------------------------------------------------------- powers

  function Power(x: Fr, n: nat): Fr {
    if n == 0 then 1 else Mul(Power(x, n - 1), x)
  }

  lemma MulAssoc(a: Fr, b: Fr, c: Fr)
    ensures Mul(Mul(a, b), c) == Mul(a, Mul(b, c))
  {
    hide Red;
    RedRed(a * b);
    RedRed(b * c);
    RedRing(Red(a * b), c, a * b, c);
    RedRing(a, Red(b * c), a, b * c);
    assert (a * b) * c == a * (b * c);
  }

  lemma MulOne(a: Fr)
    ensures Mul(a, 1) == a && Mul(1, a) == a
  {
    RedRed(a);
  }

  lemma {:induction false} PowerAdd(x: Fr, m: nat, n: nat)
    ensures Power(x, m + n) == Mul(Power(x, m), Power(x, n))
  {
    hide Mul;
    if n == 0 {
      MulOne(Power(x, m));
    } else {
      PowerAdd(x, m, n - 1);
      MulAssoc(Power(x, m), Power(x, n - 1), x);
    }
  }

  lemma {:induction false} PowerPower(x: Fr, m: nat, n: nat)
    ensures Power(Power(x, m), n) == Power(x, m * n)
  {
    hide Mul;
    if n > 0 {
      PowerPower(x, m, n - 1);
      assert m * n == m * (n - 1) + m;
      PowerAdd(x, m * (n - 1), m);
    }
  }

  lemma PowerOne(x: Fr)
    ensures Power(x, 0) == 1 && Power(x, 1) == x
  {
    assert Power(x, 1) == Mul(Power(x, 0), x);
    MulOne(x);
  }

  /** In a field no power of a scalar other than zero vanishes. */
  lemma {:induction false} PowerNonZero(x: Fr, n: nat)
    requires IsField() && x != 0
    ensures Power(x, n) != 0
  {
    hide IsField, Red;
    if n > 0 {
      PowerNonZero(x, n - 1);
      RedRed(Power(x, n - 1) * x);
      RedUnchanged(x);
      RedUnchanged(Power(x, n - 1));
      ProductNonZero(Power(x, n - 1), x);
    }
  }

  lemma RedUnchanged(x: Fr)
    ensures Red(x) == x
  {
  }

  /** `powers_of`: at least the power zero. */
  method PowersOf(point: Fr, n: nat) returns (powers: seq<Fr>)
    ensures |powers| == if n == 0 then 1 else n
    ensures powers[0] == 1 && forall i :: 0 < i < |powers| ==> powers[i] == Mul(powers[i - 1], point)
    ensures forall i :: 0 <= i < |powers| ==> powers[i] == Power(point, i)
  {
    powers := [1];
    var i := 1;
    while i < n
      invariant |powers| == i && (n == 0 ==> i == 1) && (n > 0 ==> i <= n)
      invariant forall j :: 0 <= j < i ==> powers[j] == Power(point, j)
    {
      powers := powers + [Mul(powers[i - 1], point)];
      i := i + 1;
    }
  }

  function DivCeil(n: nat, d: nat): nat
    requires d > 0
  {
    (n + d - 1) / d
  }

  lemma {:induction false} ScaleLess(j: nat, k: nat, d: nat)
    requires j <= k
    ensures j * d <= k * d
  {
    if j < k {
      ScaleLess(j, k - 1, d);
      assert k * d == (k - 1) * d + d;
    }
  }

  /** A chunk that starts within the first `n` places is one of `DivCeil(n, d)` chunks. */
  lemma ChunkInRange(n: nat, d: nat, k: nat)
    requires d > 0 && k * d < n
    ensures k < DivCeil(n, d)
  {
    var q, r := DivCeil(n, d), (n + d - 1) % d;
    assert q * d + r == n + d - 1;
    if q <= k {
      ScaleLess(q, k, d);
    }
  }

  lemma ChunkSizePositive(n: nat, d: nat)
    requires n > 0 && d > 0
    ensures DivCeil(n, d) > 0
  {
    ChunkInRange(n, d, 0);
  }

  /** `powers_of_par`: however many threads there are, the same powers as `PowersOf`. */
  method PowersOfPar(point: Fr, n: nat, threads: nat) returns (powers: array<Fr>)
    requires n > 0 && threads > 0
    ensures fresh(powers) && powers.Length == n
    ensures powers[0] == 1 && forall i :: 0 < i < n ==> powers[i] == Mul(powers[i - 1], point)
    ensures forall i :: 0 <= i < n ==> powers[i] == Power(point, i)
  {
    hide DivCeil, Power, Mul;
    powers := new Fr[n](_ => 0);
    var chunkSize := DivCeil(n, threads);
    ChunkSizePositive(n, threads);
    var basePowers := PowersOf(Power(point, chunkSize), DivCeil(n, chunkSize));
    var k, start := 0, 0;
    while start < n
      invariant start == k * chunkSize
      invariant forall i :: 0 <= i < start && i < n ==> powers[i] == Power(point, i)
      decreases n - start
    {
      ChunkInRange(n, chunkSize, k);
      PowerPower(point, chunkSize, k);
      FillPowers(powers, start, if start + chunkSize <= n then start + chunkSize else n, basePowers[k], point);
      assert (k + 1) * chunkSize == start + chunkSize;
      k, start := k + 1, start + chunkSize;
    }
    PowerOne(point);
    forall i | 0 < i < n
      ensures powers[i] == Mul(powers[i - 1], point)
    {
      PowerStep(point, i - 1);
    }
  }

  lemma PowerStep(x: Fr, n: nat)
    ensures Power(x, n + 1) == Mul(Power(x, n), x)
  {
  }

  /** One chunk of `PowersOfPar`, filled in place. */
  method FillPowers(powers: array<Fr>, start: nat, end: nat, base: Fr, point: Fr)
    requires start < end <= powers.Length && base == Power(point, start)
    modifies powers
    ensures forall i :: start <= i < end ==> powers[i] == Power(point, i)
    ensures forall i :: 0 <= i < powers.Length && !(start <= i < end) ==> powers[i] == old(powers[i])
  {
    hide Mul;
    powers[start] := base;
    for i := start + 1 to end
      invariant forall j :: start <= j < i ==> powers[j] == Power(point, j)
      invariant forall j :: 0 <= j < powers.Length && !(start <= j < end) ==> powers[j] == old(powers[j])
    {
      powers[i] := Mul(powers[i - 1], point);
    }
  }
}
