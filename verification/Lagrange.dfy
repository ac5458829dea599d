/**
 Polynomials by their values on the domain 0, 1, .., n - 1: barycentric weights, evaluation
 outside the domain, and division by a linear factor that vanishes on the domain.
 */
module Lagrange {
  import opened Scalars

  /** The domain is embedded in the field, and not empty. */
  predicate DomainOk(n: nat) {
    0 < n <= MODULUS
  }

  // ---------------------------------------------------------------- weights

  /** A'(x_i): the product of i - j over the other points of the domain. */
  function Weight(i: nat, n: nat): Fr {
    if n == 0 then 1
    else if n - 1 == i then Weight(i, n - 1)
    else Mul(Weight(i, n - 1), Red(i - (n - 1)))
  }

  /** A(z): the product of z - j over the domain. */
  function Vanishing(z: int, n: nat): Fr {
    if n == 0 then 1 else Mul(Vanishing(z, n - 1), Red(z - (n - 1)))
  }

  /** L_i(z), as `evaluate_lagrange_coefficients` computes it. */
  function Coefficient(i: nat, z: Fr, n: nat): Fr {
    Mul(InverseOrZero(Mul(Weight(i, n), Sub(z, Red(i)))), Vanishing(z, n))
  }

  lemma MulSame(a: Fr, x: int)
    ensures Red(Mul(a, Red(x))) == Red(a * x)
  {
    hide Red;
    var b: int := a;
    RedRed(x);
    RedRed(b * Red(x));
    RedRing(b, Red(x), b, x);
  }

  lemma {:induction false} WeightNonZero(i: nat, n: nat)
    requires IsField() && n <= MODULUS && i < MODULUS
    ensures Weight(i, n) != 0
  {
    hide IsField, Mul;
    if n > 0 {
      WeightNonZero(i, n - 1);
      if n - 1 != i {
        ApartNonZero(i, n - 1);
        MulNonZero(Weight(i, n - 1), Red(i - (n - 1)));
      }
    }
  }

  lemma MulNonZero(a: Fr, b: Fr)
    requires IsField() && a != 0 && b != 0
    ensures Mul(a, b) != 0
  {
    RedRed(a);
    RedRed(b);
    hide Red;
    ProductNonZero(a, b);
  }

  lemma {:induction false} VanishingNonZero(z: int, n: nat)
    requires IsField() && n <= z < MODULUS
    ensures Vanishing(z, n) != 0
  {
    hide IsField, Mul;
    if n > 0 {
      VanishingNonZero(z, n - 1);
      ApartNonZero(z, n - 1);
      MulNonZero(Vanishing(z, n - 1), Red(z - (n - 1)));
    }
  }

  /** The weight of a point past the domain is the vanishing polynomial there. */
  lemma {:induction false} WeightOutside(z: nat, n: nat)
    requires n <= z
    ensures Weight(z, n) == Vanishing(z, n)
  {
    hide Mul;
    if n > 0 {
      WeightOutside(z, n - 1);
    }
  }

  // ---------------------------------------------------------------- the coefficients

  /** W_i · (z - i) · L_i(z) = A(z): what defines the coefficient. */
  lemma CoefficientIs(i: nat, z: Fr, n: nat)
    requires IsField() && i < n <= z
    ensures Red(Weight(i, n) * (z - i) * Coefficient(i, z, n)) == Red(Vanishing(z, n))
    ensures Red(Weight(i, n) * (z - i)) != 0
  {
    hide Vanishing, Weight, IsField, Red;
    var w: int, d: int, v := Weight(i, n), z - i, Vanishing(z, n);
    RedRed(i);
    RedRed(w);
    RedRed(d);
    WeightNonZero(i, n);
    ApartNonZero(z, i);
    ProductNonZero(w, d);
    RedRing(w, Red(d), w, d);
    CoefficientOf(i, z, n, Red(w * d));
    InverseIs(Red(w * d));
    MulSameLeft(w * d, Red(w * d), Inverse(Red(w * d)), v);
  }

  lemma CoefficientOf(i: nat, z: Fr, n: nat, c: Fr)
    requires i < MODULUS && c != 0 && c == Red(Weight(i, n) * Red(z - i))
    ensures Coefficient(i, z, n) == Mul(Inverse(c), Vanishing(z, n))
  {
    RedRed(i);
    hide Weight, Vanishing;
  }

  /** x · (x' · v) is v when x' inverts x. */
  lemma MulSameLeft(x: int, c: Fr, inv: Fr, v: Fr)
    requires c == Red(x) && Red(c * inv) == 1
    ensures Red(x * Mul(inv, v)) == Red(v)
  {
    hide Red;
    var y: int, u: int, cc: int := inv, v, c;
    RedRed(x);
    RedRed(y * u);
    RedRing(x, Mul(inv, v), c, y * u);
    RedUnit(cc, y, u);
    assert cc * (y * u) == cc * y * u;
  }

  ghost function CoefficientSum(z: Fr, n: nat, m: nat): int {
    if m == 0 then 0 else CoefficientSum(z, n, m - 1) + Coefficient(m - 1, z, n)
  }

  /** One more point of the domain: every coefficient changes by a multiple of its value at that point. */
  lemma NextCoefficient(i: nat, z: Fr, n: nat, k: int)
    requires IsField() && i < n && n + 1 <= z && Red(k * Vanishing(n, n)) == Red(Vanishing(z, n))
    ensures Red(Coefficient(i, z, n + 1)) == Red(Coefficient(i, z, n) - k * Coefficient(i, n, n))
  {
    var w, zi, d: int := Weight(i, n), z - i, i - n;
    var l1, l0, ln := Coefficient(i, z, n + 1), Coefficient(i, z, n), Coefficient(i, n, n);
    var a, an := Vanishing(z, n), Vanishing(n, n);
    CoefficientIs(i, z, n + 1);
    CoefficientIs(i, z, n);
    CoefficientIs(i, n, n);
    assert Weight(i, n + 1) == Mul(w, Red(d)) && Vanishing(z, n + 1) == Mul(a, Red(z - n));
    hide Coefficient, Weight, Vanishing, Mul, Red, IsField;
    MulSame(w, d);
    MulSame(a, z - n);
    RedRing(Mul(w, Red(d)), zi, w * d, zi);
    RedRing(Mul(w, Red(d)) * zi, l1, w * d * zi, l1);
    RedRed(z - n);
    RedRed(Mul(a, Red(z - n)));
    CombineCoefficients(w, d, zi, l1, l0, ln, k, a, an);
    RedRing(Mul(w, Red(d)) * zi, 1, w * d * zi, 1);
    Cancel(w * d * zi, l1, l0 - k * ln);
  }

  lemma CombineCoefficients(w: int, d: int, zi: int, l1: int, l0: int, ln: int, k: int, a: int, an: int)
    requires Red(w * zi * l0) == Red(a) && Red(w * (0 - d) * ln) == Red(an) && Red(k * an) == Red(a)
    ensures Red(w * d * zi * (l0 - k * ln)) == Red(a * (d + zi))
  {
    hide Red;
    var x, y := d * (w * zi * l0), zi * k * (w * (0 - d) * ln);
    assert Red(x) == Red(d * a) by { RedRing(d, w * zi * l0, d, a); }
    assert Red(y) == Red(zi * a) by { ScaledQuotient(zi, k, w * (0 - d) * ln, an, a); }
    assert w * d * zi * (l0 - k * ln) == x + y by { Expand(w, d, zi, l0, ln, k); }
    assert Red(x + y) == Red(d * a + zi * a) by { SumSame(x, y, d * a, zi * a); }
    assert d * a + zi * a == a * (d + zi);
  }

  lemma ScaledQuotient(zi: int, k: int, x: int, an: int, a: int)
    requires Red(x) == Red(an) && Red(k * an) == Red(a)
    ensures Red(zi * k * x) == Red(zi * a)
  {
    hide Red;
    RedRing(zi * k, x, zi * k, an);
    assert zi * k * an == zi * (k * an);
    RedRing(zi, k * an, zi, a);
  }

  lemma Expand(w: int, d: int, zi: int, l0: int, ln: int, k: int)
    ensures w * d * zi * (l0 - k * ln) == d * (w * zi * l0) + zi * k * (w * (0 - d) * ln)
  {
    var c := w * d * zi;
    assert c * (l0 - k * ln) == c * l0 - c * (k * ln);
    assert c * l0 == d * (w * zi * l0);
    assert zi * k * (w * (0 - d) * ln) == 0 - zi * k * (w * d * ln);
    assert c * (k * ln) == zi * k * (w * d * ln);
  }

  lemma {:induction false} NextSum(z: Fr, n: nat, m: nat, k: int)
    requires IsField() && m <= n && n + 1 <= z && Red(k * Vanishing(n, n)) == Red(Vanishing(z, n))
    ensures Red(CoefficientSum(z, n + 1, m)) == Red(CoefficientSum(z, n, m) - Prod(k, CoefficientSum(n, n, m)))
  {
    hide Prod, Coefficient, Vanishing, IsField, Red;
    if m == 0 {
      ProdZero(k);
    } else {
      NextSum(z, n, m - 1, k);
      NextCoefficient(m - 1, z, n, k);
      SumStep(CoefficientSum(z, n + 1, m - 1), Coefficient(m - 1, z, n + 1), CoefficientSum(z, n, m - 1), Coefficient(m - 1, z, n),
              CoefficientSum(n, n, m - 1), Coefficient(m - 1, n, n), k);
    }
  }

  lemma ProdZero(k: int)
    ensures Prod(k, 0) == 0
  {
  }

  lemma SumStep(x: int, c: int, s0: int, c0: int, s1: int, c1: int, k: int)
    requires Red(x) == Red(s0 - Prod(k, s1)) && Red(c) == Red(c0 - k * c1)
    ensures Red(x + c) == Red((s0 + c0) - Prod(k, s1 + c1))
  {
    hide Red;
    SumSame(x, c, s0 - k * s1, c0 - k * c1);
    assert (s0 - k * s1) + (c0 - k * c1) == (s0 + c0) - k * (s1 + c1);
  }

  /** The coefficients sum to one, at every point outside the domain. */
  lemma {:induction false} PartitionOfUnity(z: Fr, n: nat)
    requires IsField() && 0 < n <= z
    ensures Red(CoefficientSum(z, n, n)) == 1
  {
    hide Coefficient, Vanishing, IsField, Red, Mul;
    RedOne();
    if n == 1 {
      SinglePoint(z);
    } else {
      var m: nat := n - 1;
      PartitionOfUnity(z, m);
      PartitionOfUnity(m, m);
      var a, am := Vanishing(z, m), Vanishing(m, m);
      VanishingNonZero(m, m);
      var k := Mul(a, Inverse(am));
      LastCoefficient(z, m);
      NextSum(z, m, m, k);
      UnitySum(CoefficientSum(z, n, m), Coefficient(m, z, n), CoefficientSum(z, m, m), CoefficientSum(m, m, m), k);
    }
  }

  lemma UnitySum(x: int, c: int, s: int, t: int, k: int)
    requires Red(x) == Red(s - Prod(k, t)) && Red(c) == Red(k) && Red(s) == 1 && Red(t) == 1
    ensures Red(x + c) == 1
  {
    hide Red;
    RedOne();
    RedRing(k, t, k, 1);
    RedRing(s, k * t, 1, k * 1);
    SumSame(x, c, 1 - k * 1, k);
    assert 1 - k * 1 + k == 1;
  }

  lemma SinglePoint(z: Fr)
    requires IsField() && 1 <= z
    ensures Red(CoefficientSum(z, 1, 1)) == 1
  {
    var c := Coefficient(0, z, 1);
    CoefficientIs(0, z, 1);
    assert Weight(0, 1) == 1 && Vanishing(z, 1) == Mul(1, Red(z - 0));
    hide Coefficient, IsField;
    RedRed(z);
    RedOne();
    assert 1 * (z - 0) * c == z * c && Red(z) == z;
    hide Red;
    assert Vanishing(z, 1) == z by { MulOne(z); }
    assert CoefficientSum(z, 1, 1) == c by { assert CoefficientSum(z, 1, 0) == 0; }
    assert z * c == (1 * (z - 0)) * c;
    Cancel(z, c, 1);
  }

  /** The coefficient of the last point is A(z) / A(m) over the domain without it. */
  lemma LastCoefficient(z: Fr, m: nat)
    requires IsField() && m + 1 <= z
    ensures var k := Mul(Vanishing(z, m), Inverse(Vanishing(m, m)));
            Red(k * Vanishing(m, m)) == Red(Vanishing(z, m)) && Red(Coefficient(m, z, m + 1)) == Red(k)
  {
    var a, am := Vanishing(z, m), Vanishing(m, m);
    CoefficientIs(m, z, m + 1);
    WeightOutside(m, m);
    assert Weight(m, m + 1) == am && Vanishing(z, m + 1) == Mul(a, Red(z - m));
    hide Coefficient, Weight, Vanishing, IsField, Red, Mul;
    VanishingNonZero(m, m);
    var k, l, d := Mul(a, Inverse(am)), Coefficient(m, z, m + 1), z - m;
    InverseIs(am);
    TimesInverseOf(a, am);
    MulSame(a, d);
    RedRed(Mul(a, Red(d)));
    QuotientsAgree(l, k, am, d, a);
  }

  lemma QuotientsAgree(l: int, k: int, am: int, d: int, a: int)
    requires IsField() && Red(am * d) != 0 && Red(am * d * l) == Red(a * d) && Red(k * am) == Red(a)
    ensures Red(l) == Red(k)
  {
    hide Red, IsField;
    RedRing(k * am, d, a, d);
    assert am * d * k == k * am * d;
    Cancel(am * d, l, k);
  }

  lemma TimesInverseOf(a: Fr, u: Fr)
    requires Red(u * Inverse(u)) == 1
    ensures Red(Mul(a, Inverse(u)) * u) == Red(a)
  {
    hide Red;
    var x: int, y: int, v: int := a, Inverse(u), u;
    RedRed(x * y);
    RedRing(Mul(a, Inverse(u)), v, x * y, v);
    RedUnit(v, y, x);
    assert x * y * v == v * y * x;
  }

  // ---------------------------------------------------------------- evaluation and division

  function Coefficients(z: Fr, n: nat): (c: seq<Fr>)
    ensures |c| == n
  {
    seq(n, i requires 0 <= i < n => Coefficient(i, z, n))
  }

  /** The value at `z` of the polynomial with these values on the domain. */
  ghost function Evaluate(values: seq<Fr>, z: Fr): Fr {
    Red(Dot(values, Coefficients(z, |values|)))
  }

  /** 1 / (i - m), from the inverses of the positive domain points. */
  function InverseDifference(i: nat, m: nat): Fr
    requires i != m && i < MODULUS && m < MODULUS
  {
    if i > m then Inverse(i - m) else Neg(Inverse(m - i))
  }

  /** The quotient's value at a point other than `m`. */
  function Slope(values: seq<Fr>, m: nat, i: nat): Fr
    requires m < |values| <= MODULUS && i < |values| && i != m
  {
    Mul(Sub(values[i], values[m]), InverseDifference(i, m))
  }

  /** A'(x_m) / A'(x_i). */
  function WeightRatio(m: nat, i: nat, n: nat): Fr {
    Mul(Weight(m, n), Inverse(Weight(i, n)))
  }

  /** The quotient's value at `m`, from the points before `t`. */
  function Diagonal(values: seq<Fr>, m: nat, t: nat): Fr
    requires m < |values| <= MODULUS && t <= |values|
  {
    if t == 0 then 0
    else if t - 1 == m then Diagonal(values, m, t - 1)
    else Sub(Diagonal(values, m, t - 1), Mul(WeightRatio(m, t - 1, |values|), Slope(values, m, t - 1)))
  }

  function Quotient(values: seq<Fr>, m: nat): (q: seq<Fr>)
    requires m < |values| <= MODULUS
    ensures |q| == |values|
  {
    seq(|values|, i requires 0 <= i < |values| => QuotientAt(values, m, i))
  }

  function QuotientAt(values: seq<Fr>, m: nat, i: nat): Fr
    requires m < |values| <= MODULUS && i < |values|
  {
    if i == m then Diagonal(values, m, |values|) else Slope(values, m, i)
  }

  function Rise(values: seq<Fr>, m: nat, i: nat): int
    requires m < |values| && i < |values|
  {
    (values[i] as int) - (values[m] as int)
  }

  lemma SlopeIs(values: seq<Fr>, m: nat, i: nat)
    requires IsField() && m < |values| <= MODULUS && i < |values| && i != m
    ensures Red(Slope(values, m, i) * (i - m)) == Red(Rise(values, m, i))
  {
    hide IsField, Red;
    var d: int, y := i - m, Rise(values, m, i);
    InverseDifferenceIs(i, m);
    var u: int := InverseDifference(i, m);
    RedRed(y);
    RedRed(Red(y) * u);
    RedRing(Red(y), u, y, u);
    RedRing(Slope(values, m, i), d, y * u, d);
    RedUnit(u, d, y);
    assert y * u * d == u * d * y;
  }

  lemma InverseDifferenceIs(i: nat, m: nat)
    requires IsField() && i < MODULUS && m < MODULUS && i != m
    ensures Red(InverseDifference(i, m) * (i - m)) == 1
  {
    hide Red, IsField;
    if i > m {
      InverseIs(i - m);
    } else {
      InverseIs(m - i);
      var u: int, d: int := Inverse(m - i), m - i;
      RedRed(0 - u);
      RedRing(Red(0 - u), i - m, 0 - u, i - m);
      assert (0 - u) * (i - m) == u * d;
    }
  }

  // What one point other than m adds to the quotient's value at z, to the diagonal, and to f(z) - f(m).

  ghost function SlopeAt(values: seq<Fr>, m: nat, z: Fr, i: nat): int
    requires m < |values| <= MODULUS && i < |values|
  {
    if i == m then 0 else Slope(values, m, i) * Coefficient(i, z, |values|)
  }

  ghost function RestAt(values: seq<Fr>, m: nat, i: nat): int
    requires m < |values| <= MODULUS && i < |values|
  {
    if i == m then 0 else Slope(values, m, i) * Inverse(Weight(i, |values|))
  }

  ghost function DifferenceAt(values: seq<Fr>, m: nat, z: Fr, i: nat): int
    requires m < |values| <= MODULUS && i < |values|
  {
    Rise(values, m, i) * Coefficient(i, z, |values|)
  }

  ghost function SlopeSum(values: seq<Fr>, m: nat, z: Fr, t: nat): int
    requires m < |values| <= MODULUS && t <= |values|
  {
    if t == 0 then 0 else SlopeSum(values, m, z, t - 1) + SlopeAt(values, m, z, t - 1)
  }

  ghost function RestSum(values: seq<Fr>, m: nat, t: nat): int
    requires m < |values| <= MODULUS && t <= |values|
  {
    if t == 0 then 0 else RestSum(values, m, t - 1) + RestAt(values, m, t - 1)
  }

  ghost function DifferenceSum(values: seq<Fr>, m: nat, z: Fr, t: nat): int
    requires m < |values| <= MODULUS && t <= |values|
  {
    if t == 0 then 0 else DifferenceSum(values, m, z, t - 1) + DifferenceAt(values, m, z, t - 1)
  }

  /** One point's share of the product with z - m. */
  lemma SlopeTerm(q: int, l: int, zi: int, d: int, w: int, u: int, a: int, y: int)
    requires Red(w * zi * l) == Red(a) && Red(u * w) == 1 && Red(q * d) == Red(y)
    ensures Red(q * l * (zi + d)) == Red(q * u * a + y * l)
  {
    hide Red;
    CoefficientTerm(q, l, zi, w, u, a);
    RedRing(q * d, l, y, l);
    SumSame(q * l * zi, q * d * l, q * u * a, y * l);
    assert q * l * (zi + d) == q * l * zi + q * d * l;
  }

  lemma CoefficientTerm(q: int, l: int, zi: int, w: int, u: int, a: int)
    requires Red(w * zi * l) == Red(a) && Red(u * w) == 1
    ensures Red(q * l * zi) == Red(q * u * a)
  {
    hide Red;
    RedUnit(u, w, q * l * zi);
    assert u * w * (q * l * zi) == q * u * (w * zi * l);
    RedRing(q * u, w * zi * l, q * u, a);
  }

  lemma {:induction false} SlopeSumIs(values: seq<Fr>, m: nat, z: Fr, t: nat)
    requires IsField() && m < |values| <= z && t <= |values|
    ensures Red(SlopeSum(values, m, z, t) * (z - m)) == Red(RestSum(values, m, t) * Vanishing(z, |values|) + DifferenceSum(values, m, z, t))
  {
    hide IsField, Red, SlopeAt, RestAt, DifferenceAt, Vanishing;
    var a: int := Vanishing(z, |values|);
    if t == 0 {
      assert 0 * (z - m) == 0 && 0 * a == 0;
    } else {
      SlopeSumIs(values, m, z, t - 1);
      PointTerm(values, m, z, t - 1);
      TermAdded(SlopeSum(values, m, z, t - 1), SlopeAt(values, m, z, t - 1), z - m, RestSum(values, m, t - 1), RestAt(values, m, t - 1), a,
                DifferenceSum(values, m, z, t - 1), DifferenceAt(values, m, z, t - 1));
    }
  }

  lemma PointTerm(values: seq<Fr>, m: nat, z: Fr, i: nat)
    requires IsField() && m < |values| <= z && i < |values|
    ensures Red(SlopeAt(values, m, z, i) * (z - m)) == Red(RestAt(values, m, i) * Vanishing(z, |values|) + DifferenceAt(values, m, z, i))
  {
    hide IsField, Red, Slope, Coefficient, Weight, Vanishing;
    var n := |values|;
    if i == m {
      NoTerm(z - m, Vanishing(z, n), Coefficient(i, z, n));
    } else {
      hide Rise;
      SlopeIs(values, m, i);
      CoefficientIs(i, z, n);
      WeightNonZero(i, n);
      InverseIs(Weight(i, n));
      assert (z - i) + (i - m) == z - m;
      SlopeTerm(Slope(values, m, i), Coefficient(i, z, n), z - i, i - m, Weight(i, n), Inverse(Weight(i, n)), Vanishing(z, n), Rise(values, m, i));
    }
  }

  lemma NoTerm(d: int, a: int, l: int)
    ensures 0 * d == 0 * a + 0 * l == 0
  {
  }

  lemma TermAdded(s: int, x: int, d: int, r: int, y: int, a: int, e: int, f: int)
    requires Red(s * d) == Red(r * a + e) && Red(x * d) == Red(y * a + f)
    ensures Red((s + x) * d) == Red((r + y) * a + (e + f))
  {
    hide Red;
    SumSame(s * d, x * d, r * a + e, y * a + f);
    assert (s + x) * d == s * d + x * d;
    assert (r + y) * a == r * a + y * a;
  }

  lemma {:induction false} DiagonalIs(values: seq<Fr>, m: nat, t: nat)
    requires m < |values| <= MODULUS && t <= |values|
    ensures Red(Diagonal(values, m, t)) == Red(0 - Prod(Weight(m, |values|), RestSum(values, m, t)))
  {
    hide Red, Slope, Weight, Sub, Mul, RestAt, Prod;
    var n := |values|;
    if t == 0 {
      ProdZero(Weight(m, n));
    } else if t - 1 == m {
      DiagonalIs(values, m, t - 1);
      RestAtIs(values, m, t - 1);
    } else {
      DiagonalIs(values, m, t - 1);
      RestAtIs(values, m, t - 1);
      DiagonalStep(Diagonal(values, m, t - 1), Weight(m, n), Inverse(Weight(t - 1, n)), Slope(values, m, t - 1), RestSum(values, m, t - 1));
    }
  }

  lemma RestAtIs(values: seq<Fr>, m: nat, i: nat)
    requires m < |values| <= MODULUS && i < |values|
    ensures RestAt(values, m, i) == if i == m then 0 else Prod(Slope(values, m, i), Inverse(Weight(i, |values|)))
  {
  }

  lemma DiagonalStep(d: Fr, w: Fr, u: Fr, q: Fr, r: int)
    requires Red(d) == Red(0 - Prod(w, r))
    ensures Red(Sub(d, Mul(Mul(w, u), q))) == Red(0 - Prod(w, r + Prod(q, u)))
  {
    hide Red;
    var x: int, y: int, v: int, dd: int := w, u, q, d;
    ProductOfThree(w, u, q);
    RedRing(dd, Mul(Mul(w, u), q), 0 - x * r, x * y * v);
    RedRed(dd - Mul(Mul(w, u), q));
    DiagonalSum(x, y, v, r);
  }

  lemma DiagonalSum(x: int, y: int, v: int, r: int)
    ensures 0 - x * r - x * y * v == 0 - x * (r + v * y)
  {
    assert x * (r + v * y) == x * r + x * (v * y);
  }

  lemma ProductOfThree(w: Fr, u: Fr, q: Fr)
    ensures Red(Mul(Mul(w, u), q)) == Red(w * u * q)
  {
    hide Red;
    var x: int, y: int, v: int := w, u, q;
    RedRed(x * y);
    RedRing(Red(x * y), v, x * y, v);
    RedRed(Red(x * y) * v);
  }

  lemma {:induction false} DifferenceSumIs(values: seq<Fr>, m: nat, z: Fr, t: nat)
    requires m < |values| <= MODULUS && t <= |values|
    ensures DifferenceSum(values, m, z, t) == Dot(values[..t], Coefficients(z, |values|)[..t]) - values[m] * CoefficientSum(z, |values|, t)
  {
    hide Coefficient;
    if t > 0 {
      var i: nat := t - 1;
      DifferenceSumIs(values, m, z, i);
      assert values[..t][..i] == values[..i] && Coefficients(z, |values|)[..t][..i] == Coefficients(z, |values|)[..i];
      var y: int, l: int, x: int, s := values[m], Coefficient(i, z, |values|), values[i], CoefficientSum(z, |values|, i);
      assert (x - y) * l == x * l - y * l;
      assert y * (s + l) == y * s + y * l;
    }
  }

  lemma {:induction false} EvaluateIsSlopes(values: seq<Fr>, m: nat, z: Fr, t: nat)
    requires m < |values| <= MODULUS && t <= |values|
    ensures Dot(Quotient(values, m)[..t], Coefficients(z, |values|)[..t]) ==
            SlopeSum(values, m, z, t) + if t > m then Diagonal(values, m, |values|) * Coefficient(m, z, |values|) else 0
  {
    hide Coefficient, Slope, Diagonal;
    if t > 0 {
      var i: nat := t - 1;
      EvaluateIsSlopes(values, m, z, i);
      assert Quotient(values, m)[..t][..i] == Quotient(values, m)[..i] && Coefficients(z, |values|)[..t][..i] == Coefficients(z, |values|)[..i];
    }
  }

  /** Q(z) · (z - m) = f(z) - f(m) at every point outside the domain: the division is exact. */
  lemma DivisionIsExact(values: seq<Fr>, m: nat, z: Fr)
    requires IsField() && m < |values| <= z
    ensures Red(Evaluate(Quotient(values, m), z) * (z - m)) == Red(Evaluate(values, z) - values[m])
  {
    hide IsField, Red, Slope, Coefficient, Weight, Vanishing, Diagonal, SlopeSum, RestSum, DifferenceSum, Dot;
    var n := |values|;
    var c, qs := Coefficients(z, n), Quotient(values, m);
    SlopeSumIs(values, m, z, n);
    DiagonalIs(values, m, n);
    DifferenceSumIs(values, m, z, n);
    EvaluateIsSlopes(values, m, z, n);
    PartitionOfUnity(z, n);
    CoefficientIs(m, z, n);
    WeightNonZero(m, n);
    InverseIs(Weight(m, n));
    assert values[..n] == values && c[..n] == c && qs[..n] == qs;
    RedRed(Dot(qs, c));
    RedRed(Dot(values, c));
    RedRing(Red(Dot(qs, c)), z - m, Dot(qs, c), z - m);
    RedRing(Red(Dot(values, c)), values[m], Dot(values, c), values[m]);
    DivisionAdds(SlopeSum(values, m, z, n), Diagonal(values, m, n), Coefficient(m, z, n), z - m, RestSum(values, m, n), Vanishing(z, n),
                 DifferenceSum(values, m, z, n), Weight(m, n), Inverse(Weight(m, n)), Dot(values, c), values[m], CoefficientSum(z, n, n));
  }

  lemma DivisionAdds(s: int, q: int, l: int, d: int, r: int, a: int, e: int, w: int, u: int, f: int, y: int, one: int)
    requires Red(s * d) == Red(r * a + e) && Red(q) == Red(0 - Prod(w, r)) && Red(w * d * l) == Red(a) && Red(u * w) == 1
    requires e == f - y * one && Red(one) == 1
    ensures Red((s + q * l) * d) == Red(f - y)
  {
    hide Red;
    CoefficientTerm(q, l, d, w, u, a);
    RedRing(q, u * a, 0 - w * r, u * a);
    assert q * (u * a) == q * u * a;
    assert (0 - w * r) * (u * a) == u * w * (0 - r * a);
    RedUnit(u, w, 0 - r * a);
    SumSame(s * d, q * l * d, r * a + e, 0 - r * a);
    assert (s + q * l) * d == s * d + q * l * d;
    RedOne();
    RedRing(y, one, y, 1);
    RedRing(f, y * one, f, y * 1);
  }

  // ---------------------------------------------------------------- the precomputed tables

  /** A'(x_i) and then 1 / A'(x_i); 1 / k and then -1 / k. */
  datatype PrecomputedWeights = PrecomputedWeights(barycentricWeights: seq<Fr>, invertedDomain: seq<Fr>) {

    function GetInvertedElement(domainElement: nat, isNegative: bool): Fr
      requires 0 < domainElement <= |invertedDomain| / 2
    {
      invertedDomain[if isNegative then domainElement - 1 + |invertedDomain| / 2 else domainElement - 1]
    }

    function GetRatioOfBarycentricWeights(m: nat, i: nat): Fr
      requires m < |barycentricWeights| / 2 && i < |barycentricWeights| / 2
    {
      Mul(barycentricWeights[m], barycentricWeights[i + |barycentricWeights| / 2])
    }

    function GetBarycentricWeight(i: nat): Fr
      requires i < |barycentricWeights|
    {
      barycentricWeights[i]
    }
  }

  function WeightTable(n: nat): (t: seq<Fr>)
    ensures |t| == 2 * n
  {
    seq(2 * n, i requires 0 <= i < 2 * n => if i < n then Weight(i, n) else Inverse(Weight(i - n, n)))
  }

  function InverseTable(n: nat): (t: seq<Fr>)
    requires DomainOk(n)
    ensures |t| == 2 * (n - 1)
  {
    seq(2 * (n - 1), k requires 0 <= k < 2 * (n - 1) => InverseEntry(n, k))
  }

  function InverseEntry(n: nat, k: nat): Fr
    requires DomainOk(n) && k < 2 * (n - 1)
  {
    if k < n - 1 then Inverse(k + 1) else Neg(Inverse(k - (n - 1) + 1))
  }

  /** The tables for the domain of size `n`. */
  ghost predicate Precomputed(p: PrecomputedWeights, n: nat) {
    DomainOk(n) && p.barycentricWeights == WeightTable(n) && p.invertedDomain == InverseTable(n)
  }

  lemma TableLookups(p: PrecomputedWeights, n: nat, i: nat, m: nat)
    requires Precomputed(p, n) && i < n && m < n
    ensures p.GetBarycentricWeight(i) == Weight(i, n) && p.GetRatioOfBarycentricWeights(m, i) == WeightRatio(m, i, n)
    ensures i > m ==> p.GetInvertedElement(i - m, false) == InverseDifference(i, m)
    ensures i < m ==> p.GetInvertedElement(m - i, true) == InverseDifference(i, m)
  {
    hide Weight, Mul, Neg;
  }

  /** `PrecomputedWeights::new`. No inverse is missing, because the domain embeds into the field. */
  method NewPrecomputedWeights(n: nat) returns (p: PrecomputedWeights)
    requires IsField() && DomainOk(n)
    ensures Precomputed(p, n)
  {
    hide Weight, Neg, IsField;
    var barycentric := new Fr[2 * n](_ => 0);
    for i := 0 to n
      invariant forall j :: 0 <= j < i || n <= j < n + i ==> barycentric[j] == WeightTable(n)[j]
    {
      var weight := Weight(i, n);
      WeightNonZero(i, n);
      assert weight != 0;
      barycentric[i] := weight;
      barycentric[i + n] := Inverse(weight);
    }
    var weights := barycentric[..];
    assert weights == WeightTable(n);
    var inverted := new Fr[2 * (n - 1)](_ => 0);
    for x := 1 to n
      invariant forall k :: 0 <= k < x - 1 || n - 1 <= k < n - 1 + (x - 1) ==> inverted[k] == InverseTable(n)[k]
    {
      var k := Inverse(x);
      inverted[x - 1] := k;
      inverted[x - 1 + (n - 1)] := Neg(k);
    }
    assert inverted[..] == InverseTable(n);
    p := PrecomputedWeights(weights, inverted[..]);
  }

  // ---------------------------------------------------------------- polynomials

  /** A polynomial by its values; `domain` is 0 only for the neutral element of sums. */
  datatype LagrangeBasis = LagrangeBasis(domain: nat, values: seq<Fr>) {

    ghost predicate Valid(n: nat) {
      domain == n == |values|
    }

    /** The sum; a side with an empty domain is neutral. */
    method Plus(rhs: LagrangeBasis) returns (r: LagrangeBasis)
      requires domain == |values| && rhs.domain == |rhs.values|
      requires domain == 0 || rhs.domain == 0 || domain == rhs.domain
      ensures r.domain == |r.values|
      ensures if domain == 0 then r == rhs else if rhs.domain == 0 then r == this else r.values == Reduced(VecAdd(values, rhs.values))
    {
      if domain == 0 {
        return rhs;
      } else if rhs.domain == 0 {
        return this;
      }
      var sum := new Fr[domain](i requires 0 <= i < |values| => values[i]);
      for i := 0 to domain
        invariant forall j :: 0 <= j < i ==> sum[j] == Add(values[j], rhs.values[j])
        invariant forall j :: i <= j < domain ==> sum[j] == values[j]
      {
        sum[i] := Add(sum[i], rhs.values[i]);
      }
      assert sum[..] == Reduced(VecAdd(values, rhs.values));
      r := LagrangeBasis(domain, sum[..]);
    }

    /** The quotient of f - f(m) by the linear factor that vanishes at `m`. */
    method DivideByLinearVanishing(precomp: PrecomputedWeights, index: nat) returns (r: LagrangeBasis)
      requires domain == |values| && Precomputed(precomp, domain) && index < domain
      ensures r.Valid(domain) && r.values == Quotient(values, index)
    {
      hide Weight, Mul, Sub, WeightTable, InverseTable, WeightRatio, InverseDifference, Diagonal;
      var q := new Fr[domain](_ => 0);
      var y := values[index];
      NoDiagonal(values, index);
      for i := 0 to domain
        invariant forall j :: 0 <= j < i && j != index ==> q[j] == Slope(values, index, j)
        invariant q[index] == Diagonal(values, index, i)
      {
        NextDiagonal(values, index, i);
        TableLookups(precomp, domain, i, index);
        if i != index {
          var den := i - index;
          var isNegative := den < 0;
          var denInv := precomp.GetInvertedElement(if isNegative then 0 - den else den, isNegative);
          var slope := Mul(Sub(values[i], y), denInv);
          q[i] := slope;
          var weightRatio := precomp.GetRatioOfBarycentricWeights(index, i);
          q[index] := Sub(q[index], Mul(weightRatio, slope));
        }
      }
      assert q[..] == Quotient(values, index);
      r := LagrangeBasis(domain, q[..]);
    }
  }

  lemma NoDiagonal(values: seq<Fr>, m: nat)
    requires m < |values| <= MODULUS
    ensures Diagonal(values, m, 0) == 0
  {
  }

  lemma NextDiagonal(values: seq<Fr>, m: nat, i: nat)
    requires m < |values| <= MODULUS && i < |values|
    ensures Diagonal(values, m, i + 1) ==
      if i == m then Diagonal(values, m, i) else Sub(Diagonal(values, m, i), Mul(WeightRatio(m, i, |values|), Slope(values, m, i)))
  {
    hide Sub, Mul, WeightRatio, Slope;
  }

  /** `evaluate_lagrange_coefficients`: L_i(point) for every point of the domain. */
  method EvaluateLagrangeCoefficients(precomp: PrecomputedWeights, n: nat, point: Fr) returns (c: seq<Fr>)
    requires Precomputed(precomp, n)
    ensures c == Coefficients(point, n)
  {
    hide Weight, Vanishing, Mul, Sub;
    var dens := seq(n, i requires 0 <= i < n => Mul(precomp.GetBarycentricWeight(i), Sub(point, Red(i))));
    var az := Vanishing(point, n);
    c := seq(n, i requires 0 <= i < n => Mul(InverseOrZero(dens[i]), az));
  }
}
