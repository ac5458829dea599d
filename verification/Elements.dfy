/**
 The commitment group: any abelian group whose elements are killed by the scalar field's
 modulus, so that it is a vector space over the field, and linear combinations in it.
 */
module Elements {
  import opened Scalars

  type Element(==, 0, !new)

  const Zero: Element
  const Plus: (Element, Element) -> Element
  const Times: (int, Element) -> Element

  predicate PlusAssociates(a: Element, b: Element, c: Element) {
    Plus(Plus(a, b), c) == Plus(a, Plus(b, c))
  }

  predicate PlusCommutes(a: Element, b: Element) {
    Plus(a, b) == Plus(b, a)
  }

  predicate ZeroIsNeutral(a: Element) {
    Plus(a, Zero) == a && Times(0, a) == Zero && Times(1, a) == a && Times(MODULUS, a) == Zero
  }

  predicate TimesDistributes(j: int, k: int, a: Element) {
    Times(j + k, a) == Plus(Times(j, a), Times(k, a)) && Times(j * k, a) == Times(j, Times(k, a))
  }

  predicate TimesIsLinear(k: int, a: Element, b: Element) {
    Times(k, Plus(a, b)) == Plus(Times(k, a), Times(k, b))
  }

  ghost predicate GroupLaws() {
    && (forall a, b, c :: PlusAssociates(a, b, c))
    && (forall a, b :: PlusCommutes(a, b))
    && (forall a :: ZeroIsNeutral(a))
    && (forall j, k, a :: TimesDistributes(j, k, a))
    && (forall k, a, b :: TimesIsLinear(k, a, b))
  }

  lemma Associate(a: Element, b: Element, c: Element)
    requires GroupLaws()
    ensures Plus(Plus(a, b), c) == Plus(a, Plus(b, c))
  {
    assert PlusAssociates(a, b, c);
  }

  lemma Commute(a: Element, b: Element)
    requires GroupLaws()
    ensures Plus(a, b) == Plus(b, a)
  {
    assert PlusCommutes(a, b);
  }

  lemma Neutral(a: Element)
    requires GroupLaws()
    ensures Plus(a, Zero) == a && Plus(Zero, a) == a && Times(0, a) == Zero && Times(1, a) == a && Times(MODULUS, a) == Zero
  {
    assert ZeroIsNeutral(a);
    Commute(a, Zero);
  }

  lemma Distribute2(j: int, k: int, a: Element)
    requires GroupLaws()
    ensures Times(j + k, a) == Plus(Times(j, a), Times(k, a)) && Times(j * k, a) == Times(j, Times(k, a))
  {
    assert TimesDistributes(j, k, a);
  }

  lemma AddTimes(j: int, k: int, a: Element)
    requires GroupLaws()
    ensures Times(j + k, a) == Plus(Times(j, a), Times(k, a))
  {
    Distribute2(j, k, a);
  }

  lemma Linear(k: int, a: Element, b: Element)
    requires GroupLaws()
    ensures Times(k, Plus(a, b)) == Plus(Times(k, a), Times(k, b))
  {
    assert TimesIsLinear(k, a, b);
  }

  lemma TimesZero(k: int)
    requires GroupLaws()
    ensures Times(k, Zero) == Zero
  {
    hide GroupLaws;
    Neutral(Zero);
    Distribute2(k, 0, Zero);
  }

  /** (a + b) + (c + d) = (a + c) + (b + d). */
  lemma Interchange(a: Element, b: Element, c: Element, d: Element)
    requires GroupLaws()
    ensures Plus(Plus(a, b), Plus(c, d)) == Plus(Plus(a, c), Plus(b, d))
  {
    hide GroupLaws;
    Associate(a, b, Plus(c, d));
    Associate(b, c, d);
    Commute(b, c);
    Associate(c, b, d);
    Associate(a, c, Plus(b, d));
  }

  /** Scalars that are the same modulo the group's order give the same multiple. */
  lemma TimesSame(j: int, k: int, a: Element)
    requires GroupLaws() && Red(j) == Red(k)
    ensures Times(j, a) == Times(k, a)
  {
    hide GroupLaws, Red;
    var q := RedDifference(j, k);
    Distribute2(k, q * MODULUS, a);
    Distribute2(q, MODULUS, a);
    Neutral(a);
    TimesZero(q);
    Neutral(Times(k, a));
  }

  // ---------------------------------------------------------------- linear combinations

  /** The multi-scalar multiplication. */
  function Lin(c: seq<int>, p: seq<Element>): Element
    requires |c| == |p|
  {
    if c == [] then Zero
    else
      var n := |c| - 1;
      Plus(Lin(c[..n], p[..n]), Times(c[n], p[n]))
  }

  lemma {:induction false} LinAdd(a: seq<int>, b: seq<int>, p: seq<Element>)
    requires GroupLaws() && |a| == |b| == |p|
    ensures Lin(VecAdd(a, b), p) == Plus(Lin(a, p), Lin(b, p))
  {
    hide GroupLaws;
    if a == [] {
      Neutral(Zero);
    } else {
      var n := |a| - 1;
      LinAdd(a[..n], b[..n], p[..n]);
      assert VecAdd(a, b)[..n] == VecAdd(a[..n], b[..n]);
      Distribute2(a[n], b[n], p[n]);
      Interchange(Lin(a[..n], p[..n]), Lin(b[..n], p[..n]), Times(a[n], p[n]), Times(b[n], p[n]));
    }
  }

  lemma {:induction false} LinScale(k: int, a: seq<int>, p: seq<Element>)
    requires GroupLaws() && |a| == |p|
    ensures Lin(VecScale(k, a), p) == Times(k, Lin(a, p))
  {
    hide GroupLaws;
    if a == [] {
      TimesZero(k);
    } else {
      var n := |a| - 1;
      LinScale(k, a[..n], p[..n]);
      assert VecScale(k, a)[..n] == VecScale(k, a[..n]);
      Distribute2(k, a[n], p[n]);
      Linear(k, Lin(a[..n], p[..n]), Times(a[n], p[n]));
    }
  }

  lemma {:induction false} LinSame(a: seq<int>, b: seq<int>, p: seq<Element>)
    requires GroupLaws() && |a| == |p| && SameMod(a, b)
    ensures Lin(a, p) == Lin(b, p)
  {
    hide GroupLaws, Red;
    if a != [] {
      var n := |a| - 1;
      LinSame(a[..n], b[..n], p[..n]);
      TimesSame(a[n], b[n], p[n]);
    }
  }

  lemma {:induction false} LinConcat(a: seq<int>, p: seq<Element>, b: seq<int>, q: seq<Element>)
    requires GroupLaws() && |a| == |p| && |b| == |q|
    ensures Lin(a + b, p + q) == Plus(Lin(a, p), Lin(b, q))
  {
    hide GroupLaws;
    if b == [] {
      assert a + b == a && p + q == p;
      Neutral(Lin(a, p));
    } else {
      var n := |b| - 1;
      LinConcat(a, p, b[..n], q[..n]);
      assert (a + b)[..|a| + n] == a + b[..n] && (p + q)[..|p| + n] == p + q[..n];
      Associate(Lin(a, p), Lin(b[..n], q[..n]), Times(b[n], q[n]));
    }
  }

  lemma LinOne(k: int, p: Element)
    requires GroupLaws()
    ensures Lin([k], [p]) == Times(k, p)
  {
    hide GroupLaws;
    Neutral(Times(k, p));
    assert [k][..0] == [] && [p][..0] == [];
  }

  /** The fold of a vector of points: the right half, scaled, on the left half. */
  function FoldPoints(l: seq<Element>, r: seq<Element>, k: int): (p: seq<Element>)
    requires |l| == |r|
    ensures |p| == |l|
  {
    seq(|l|, i requires 0 <= i < |l| => Plus(l[i], Times(k, r[i])))
  }

  /** Combining folded points is combining both halves. */
  lemma {:induction false} LinFold(a: seq<int>, l: seq<Element>, r: seq<Element>, k: int)
    requires GroupLaws() && |a| == |l| == |r|
    ensures Lin(a, FoldPoints(l, r, k)) == Plus(Lin(a, l), Lin(VecScale(k, a), r))
  {
    hide GroupLaws;
    if a == [] {
      Neutral(Zero);
    } else {
      var n := |a| - 1;
      LinFold(a[..n], l[..n], r[..n], k);
      assert FoldPoints(l, r, k)[..n] == FoldPoints(l[..n], r[..n], k) && VecScale(k, a)[..n] == VecScale(k, a[..n]);
      Linear(a[n], l[n], Times(k, r[n]));
      Distribute2(a[n], k, r[n]);
      assert a[n] * k == k * a[n];
      Interchange(Lin(a[..n], l[..n]), Lin(VecScale(k, a[..n]), r[..n]), Times(a[n], l[n]), Times(k * a[n], r[n]));
    }
  }

  /** `multi_scalar_mul_par`: the chunks' combinations add up to the whole one, for any number of threads. */
  method MultiScalarMulPar(bases: seq<Element>, scalars: seq<Fr>, threads: nat) returns (r: Element)
    requires GroupLaws() && |bases| == |scalars| > 0 && threads > 0
    ensures r == Lin(scalars, bases)
  {
    hide GroupLaws, DivCeil;
    var chunkSize := DivCeil(|bases|, threads);
    ChunkSizePositive(|bases|, threads);
    r := Zero;
    var start := 0;
    while start < |bases|
      invariant start <= |bases| && r == Lin(scalars[..start], bases[..start])
      decreases |bases| - start
    {
      var end := if start + chunkSize <= |bases| then start + chunkSize else |bases|;
      LinConcat(scalars[..start], bases[..start], scalars[start..end], bases[start..end]);
      assert scalars[..start] + scalars[start..end] == scalars[..end] && bases[..start] + bases[start..end] == bases[..end];
      r := Plus(r, Lin(scalars[start..end], bases[start..end]));
      start := end;
    }
    assert scalars[..|scalars|] == scalars && bases[..|bases|] == bases;
  }
}
