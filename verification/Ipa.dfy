/**
 The inner product argument: the prover halves its vectors round by round, the verifier checks
 all rounds with one multi-scalar multiplication.
 */
module Ipa {
  import opened Wrappers
  import opened Bits
  import opened Scalars
  import opened Elements
  import opened Transcripts

  datatype Crs = Crs(n: nat, g: seq<Element>, q: Element)

  datatype IpaProof = IpaProof(l: seq<Element>, r: seq<Element>, a: Fr)

  const TAG_IPA := Ascii("ipa")
  const TAG_C := Ascii("C")
  const TAG_INPUT := Ascii("input point")
  const TAG_OUTPUT := Ascii("output point")
  const TAG_W := Ascii("w")
  const TAG_L := Ascii("L")
  const TAG_R := Ascii("R")
  const TAG_X := Ascii("x")

  /** The least `k` with 2^k >= n. */
  function Log2(n: nat): (k: nat) {
    if n <= 1 then 0 else 1 + Log2((n + 1) / 2)
  }

  lemma {:induction false} Log2OfPow2(k: nat)
    ensures Log2(Pow2(k)) == k
  {
    if k > 0 {
      Log2OfPow2(k - 1);
      assert (Pow2(k) + 1) / 2 == Pow2(k - 1);
    }
  }

  predicate IsPowerOfTwo(n: nat) {
    n == Pow2(Log2(n))
  }

  // ---------------------------------------------------------------- one round

  datatype Vectors = Vectors(a: seq<Fr>, b: seq<Fr>, g: seq<Element>)

  predicate Sized(v: Vectors, n: nat) {
    |v.a| == |v.b| == |v.g| == n
  }

  function LeftHalf<T>(s: seq<T>): seq<T> {
    s[..|s| / 2]
  }

  function RightHalf<T>(s: seq<T>): seq<T> {
    s[|s| / 2..]
  }

  /** The cross term of a round over one half of `a` and the other halves of `b` and `g`. */
  function Cross(a: seq<Fr>, b: seq<Fr>, g: seq<Element>, q: Element): Element
    requires |a| == |b| == |g|
  {
    Lin(a + [Red(Dot(a, b))], g + [q])
  }

  function RoundL(v: Vectors, q: Element, h: nat): Element
    requires Sized(v, 2 * h)
  {
    Cross(RightHalf(v.a), LeftHalf(v.b), LeftHalf(v.g), q)
  }

  function RoundR(v: Vectors, q: Element, h: nat): Element
    requires Sized(v, 2 * h)
  {
    Cross(LeftHalf(v.a), RightHalf(v.b), RightHalf(v.g), q)
  }

  function Folded(v: Vectors, x: Fr, h: nat): (w: Vectors)
    requires Sized(v, 2 * h)
    ensures Sized(w, h)
  {
    Vectors(Reduced(VecAdd(LeftHalf(v.a), VecScale(x, RightHalf(v.a)))),
            Reduced(VecAdd(LeftHalf(v.b), VecScale(Inverse(x), RightHalf(v.b)))),
            FoldPoints(LeftHalf(v.g), RightHalf(v.g), Inverse(x)))
  }

  /** The transcript when the challenge of a round is drawn. */
  function AfterLR(state: seq<Byte>, l: Element, r: Element): seq<Byte> {
    AfterPoint(AfterPoint(state, TAG_L, l), TAG_R, r)
  }

  function Prepend(l: seq<Element>, r: seq<Element>, p: Option<IpaProof>): Option<IpaProof> {
    match p
    case None => None
    case Some(q) => Some(IpaProof(l + q.l, r + q.r, q.a))
  }

  /** All rounds of the prover; `None` when a challenge has no inverse. */
  function Rounds(state: seq<Byte>, v: Vectors, q: Element, k: nat): Option<IpaProof>
    requires Sized(v, Pow2(k))
    decreases k
  {
    if k == 0 then Some(IpaProof([], [], v.a[0]))
    else
      var l, r := RoundL(v, q, Pow2(k - 1)), RoundR(v, q, Pow2(k - 1));
      var state1 := AfterLR(state, l, r);
      var x := Challenge(state1, TAG_X);
      if x == 0 then None
      else Prepend([l], [r], Rounds(AfterChallenge(state1, TAG_X), Folded(v, x, Pow2(k - 1)), q, k - 1))
  }

  lemma {:induction false} RoundsShape(state: seq<Byte>, v: Vectors, q: Element, k: nat)
    requires Sized(v, Pow2(k))
    ensures var p := Rounds(state, v, q, k); p.Some? ==> |p.value.l| == |p.value.r| == k
    decreases k
  {
    hide RoundL, RoundR, Folded, Challenge, AfterChallenge, AfterLR;
    if k > 0 {
      var l, r := RoundL(v, q, Pow2(k - 1)), RoundR(v, q, Pow2(k - 1));
      var state1 := AfterLR(state, l, r);
      RoundsShape(AfterChallenge(state1, TAG_X), Folded(v, Challenge(state1, TAG_X), Pow2(k - 1)), q, k - 1);
    }
  }

  /** What the prover has committed to in a round. */
  ghost function Committed(v: Vectors, q: Element, n: nat): Element
    requires Sized(v, n)
  {
    Plus(Lin(v.a, v.g), Times(Dot(v.a, v.b), q))
  }

  // ---------------------------------------------------------------- folding keeps the commitment

  lemma TwoHalves<T>(s: seq<T>, h: nat)
    requires |s| == 2 * h
    ensures s == LeftHalf(s) + RightHalf(s) && |LeftHalf(s)| == |RightHalf(s)| == h
  {
  }

  lemma Halves(v: Vectors, h: nat)
    requires Sized(v, 2 * h)
    ensures v.a == LeftHalf(v.a) + RightHalf(v.a) && v.b == LeftHalf(v.b) + RightHalf(v.b) && v.g == LeftHalf(v.g) + RightHalf(v.g)
    ensures |LeftHalf(v.a)| == |LeftHalf(v.b)| == |LeftHalf(v.g)| == h
    ensures |RightHalf(v.a)| == |RightHalf(v.b)| == |RightHalf(v.g)| == h
  {
  }

  /** The points of a folded commitment: the left combination with x·a_R added, the right one with a_L/x added. */
  lemma FoldedPoints(v: Vectors, x: Fr, h: nat)
    requires GroupLaws() && IsField() && x != 0 && Sized(v, 2 * h)
    ensures var w := Folded(v, x, h); var aL, aR, gL, gR := LeftHalf(v.a), RightHalf(v.a), LeftHalf(v.g), RightHalf(v.g);
            Lin(w.a, w.g) == Plus(Plus(Lin(aL, gL), Times(x, Lin(aR, gL))), Plus(Lin(aR, gR), Times(Inverse(x), Lin(aL, gR))))
  {
    hide GroupLaws, Red, Mul;
    var w, y := Folded(v, x, h), Inverse(x);
    var aL, aR, gL, gR := LeftHalf(v.a), RightHalf(v.a), LeftHalf(v.g), RightHalf(v.g);
    LinFold(w.a, gL, gR, y);
    ReducedSame(VecAdd(aL, VecScale(x, aR)));
    LinSame(w.a, VecAdd(aL, VecScale(x, aR)), gL);
    LinAdd(aL, VecScale(x, aR), gL);
    LinScale(x, aR, gL);
    UnitUnfolds(aL, aR, x);
    LinSame(VecScale(y, w.a), VecAdd(aR, VecScale(y, aL)), gR);
    LinAdd(aR, VecScale(y, aL), gR);
    LinScale(y, aL, gR);
  }

  /** (a_L + x·a_R) / x = a_R + a_L / x. */
  lemma UnitUnfolds(aL: seq<Fr>, aR: seq<Fr>, x: Fr)
    requires IsField() && x != 0 && |aL| == |aR|
    ensures SameMod(VecScale(Inverse(x), Reduced(VecAdd(aL, VecScale(x, aR)))), VecAdd(aR, VecScale(Inverse(x), aL)))
  {
    var y := Inverse(x);
    var folded := Reduced(VecAdd(aL, VecScale(x, aR)));
    assert Inverts(x);
    forall i | 0 <= i < |aL|
      ensures Red(VecScale(y, folded)[i]) == Red(VecAdd(aR, VecScale(y, aL))[i])
    {
      UnitUnfoldsAt(aL[i], aR[i], x, y);
    }
  }

  lemma UnitUnfoldsAt(l: int, r: int, x: int, y: int)
    requires Red(x * y) == 1
    ensures Red(y * Red(l + x * r)) == Red(r + y * l)
  {
    hide Red;
    RedRed(l + x * r);
    RedRing(y, Red(l + x * r), y, l + x * r);
    assert y * (l + x * r) == y * l + x * y * r;
    RedUnit(x, y, r);
    RedRing(y * l, x * y * r, y * l, r);
  }

  /** The inner product of the folded vectors. */
  lemma FoldedDot(v: Vectors, x: Fr, h: nat)
    requires IsField() && x != 0 && Sized(v, 2 * h)
    ensures var w := Folded(v, x, h); var aL, aR, bL, bR := LeftHalf(v.a), RightHalf(v.a), LeftHalf(v.b), RightHalf(v.b);
            Red(Dot(w.a, w.b)) == Red(Dot(v.a, v.b) + Prod(x, Dot(aR, bL)) + Prod(Inverse(x), Dot(aL, bR)))
  {
    assert Inverts(x) && Mul(x, Inverse(x)) == Red(Prod(x, Inverse(x)));
    Halves(v, h);
    hide Red, Mul, Dot, LeftHalf, RightHalf, Prod, VecAdd, VecScale;
    var y := Inverse(x);
    var aL, aR, bL, bR := LeftHalf(v.a), RightHalf(v.a), LeftHalf(v.b), RightHalf(v.b);
    var a', b' := VecAdd(aL, VecScale(x, aR)), VecAdd(bL, VecScale(y, bR));
    ReducedSame(a');
    ReducedSame(b');
    DotSame(Reduced(a'), Reduced(b'), a', b');
    DotAdd(aL, VecScale(x, aR), b');
    DotScale(x, aR, b');
    DotFoldRight(aL, bL, bR, y);
    DotFoldRight(aR, bL, bR, y);
    DotConcat(aL, bL, aR, bR);
    CrossTerms(Dot(aL, bL), Dot(aL, bR), Dot(aR, bL), Dot(aR, bR), Dot(aL, b'), Dot(aR, b'), x, y);
  }

  lemma DotFoldRight(a: seq<int>, bL: seq<int>, bR: seq<int>, y: int)
    requires |a| == |bL| == |bR|
    ensures Dot(a, VecAdd(bL, VecScale(y, bR))) == Dot(a, bL) + Prod(y, Dot(a, bR))
  {
    hide Prod, VecAdd, VecScale;
    var b := VecAdd(bL, VecScale(y, bR));
    DotCommutes(a, b);
    DotAdd(bL, VecScale(y, bR), a);
    DotScale(y, bR, a);
    DotCommutes(a, bL);
    DotCommutes(a, bR);
  }

  lemma CrossTerms(ll: int, lr: int, rl: int, rr: int, l: int, r: int, x: int, y: int)
    requires Red(Prod(x, y)) == 1 && l == ll + Prod(y, lr) && r == rl + Prod(y, rr)
    ensures Red(l + Prod(x, r)) == Red((ll + rr) + Prod(x, rl) + Prod(y, lr))
  {
    hide Red;
    assert x * r == x * rl + x * y * rr;
    RedUnit(x, y, rr);
    SumSame(l + x * rl, x * y * rr, l + x * rl, rr);
  }

  /** P' = P + x·L + R/x: folding the vectors folds the commitment. */
  lemma FoldKeepsCommitment(v: Vectors, x: Fr, q: Element, h: nat)
    requires GroupLaws() && IsField() && x != 0 && Sized(v, 2 * h)
    ensures Committed(Folded(v, x, h), q, h) ==
            Plus(Plus(Committed(v, q, 2 * h), Times(x, RoundL(v, q, h))), Times(Inverse(x), RoundR(v, q, h)))
  {
    Halves(v, h);
    hide GroupLaws, Red, Mul, Inverts, Lin, Dot, Folded, LeftHalf, RightHalf, IsField, Cross, Prod, Sized;
    var w, y := Folded(v, x, h), Inverse(x);
    var aL, aR, bL, bR, gL, gR := LeftHalf(v.a), RightHalf(v.a), LeftHalf(v.b), RightHalf(v.b), LeftHalf(v.g), RightHalf(v.g);
    FoldedPoints(v, x, h);
    FoldedDot(v, x, h);
    var d, dL, dR := Dot(v.a, v.b), Prod(x, Dot(aR, bL)), Prod(y, Dot(aL, bR));
    AddThree(Dot(w.a, w.b), d, dL, dR, q);
    CrossIs(aR, bL, gL, q, x);
    CrossIs(aL, bR, gR, q, y);
    LinConcat(aL, gL, aR, gR);
    CollectFold(Lin(aL, gL), Times(x, Lin(aR, gL)), Lin(aR, gR), Times(y, Lin(aL, gR)), Times(d, q), Times(dL, q), Times(dR, q));
  }

  lemma AddThree(sum: int, i: int, j: int, k: int, p: Element)
    requires GroupLaws() && Red(sum) == Red(i + j + k)
    ensures Times(sum, p) == Plus(Plus(Times(i, p), Times(j, p)), Times(k, p))
  {
    hide GroupLaws, Red;
    TimesSame(sum, i + j + k, p);
    AddTimes(i + j, k, p);
    AddTimes(i, j, p);
  }

  lemma CrossIs(a: seq<Fr>, b: seq<Fr>, g: seq<Element>, q: Element, x: int)
    requires GroupLaws() && |a| == |b| == |g|
    ensures Times(x, Cross(a, b, g, q)) == Plus(Times(x, Lin(a, g)), Times(Prod(x, Dot(a, b)), q))
  {
    hide GroupLaws, Red;
    var d := Dot(a, b);
    LinConcat(a, g, [Red(d)], [q]);
    LinOne(Red(d), q);
    RedRed(d);
    TimesSame(Red(d), d, q);
    Linear(x, Lin(a, g), Times(d, q));
    Distribute2(x, d, q);
  }

  /** ((a + b) + (c + d)) + ((e + f) + g) = (((a + c) + e) + (b + f)) + (d + g). */
  lemma CollectFold(a: Element, b: Element, c: Element, d: Element, e: Element, f: Element, g: Element)
    requires GroupLaws()
    ensures Plus(Plus(Plus(a, b), Plus(c, d)), Plus(Plus(e, f), g)) == Plus(Plus(Plus(Plus(a, c), e), Plus(b, f)), Plus(d, g))
  {
    hide GroupLaws;
    Interchange(a, b, c, d);
    Associate(Plus(Plus(a, c), Plus(b, d)), Plus(e, f), g);
    Associate(Plus(a, c), b, d);
    Interchange(Plus(Plus(a, c), b), d, Plus(e, f), g);
    Interchange(Plus(a, c), b, e, f);
    Associate(Plus(Plus(a, c), b), d, Plus(Plus(e, f), g));
    Associate(Plus(Plus(Plus(a, c), b), d), Plus(e, f), g);
  }

  // ---------------------------------------------------------------- challenges and weights

  /** The challenges that the verifier draws from the proof's points. */
  function Challenges(state: seq<Byte>, l: seq<Element>, r: seq<Element>): (xs: seq<Fr>)
    requires |l| == |r|
    ensures |xs| == |l|
    decreases |l|
  {
    if l == [] then []
    else
      var state1 := AfterLR(state, l[0], r[0]);
      [Challenge(state1, TAG_X)] + Challenges(AfterChallenge(state1, TAG_X), l[1..], r[1..])
  }

  function AfterRounds(state: seq<Byte>, l: seq<Element>, r: seq<Element>): seq<Byte>
    requires |l| == |r|
    decreases |l|
  {
    if l == [] then state
    else AfterRounds(AfterChallenge(AfterLR(state, l[0], r[0]), TAG_X), l[1..], r[1..])
  }

  function Inverses(xs: seq<Fr>): (ys: seq<Fr>)
    ensures |ys| == |xs|
  {
    seq(|xs|, i requires 0 <= i < |xs| => InverseOrZero(xs[i]))
  }

  /** The weight of the point `index` in the fully folded point: the inverse challenge of every round that has it in its right half. */
  function FoldWeight(inv: seq<Fr>, index: nat): Fr {
    if inv == [] then 1
    else if index >= Pow2(|inv| - 1) then Mul(inv[0], FoldWeight(inv[1..], index - Pow2(|inv| - 1)))
    else FoldWeight(inv[1..], index)
  }

  function FoldWeights(inv: seq<Fr>): (w: seq<Fr>)
    ensures |w| == Pow2(|inv|)
  {
    seq(Pow2(|inv|), i requires 0 <= i < Pow2(|inv|) => FoldWeight(inv, i))
  }

  /** The weights of the right half are those of the left half, scaled. */
  lemma WeightsSplit(inv: seq<Fr>)
    requires inv != []
    ensures |FoldWeights(inv)| == 2 * Pow2(|inv| - 1)
    ensures LeftHalf(FoldWeights(inv)) == FoldWeights(inv[1..])
    ensures SameMod(RightHalf(FoldWeights(inv)), VecScale(inv[0], FoldWeights(inv[1..])))
  {
    var h, w, w1 := Pow2(|inv| - 1), FoldWeights(inv), FoldWeights(inv[1..]);
    Pow2Doubles(|inv| - 1);
    assert |w| == 2 * h;
    FoldWeightsHalves(inv);
    hide Mul, Red, FoldWeight, Pow2, FoldWeights;
    assert LeftHalf(w) == w1;
    forall i | 0 <= i < h
      ensures Red(RightHalf(w)[i]) == Red(VecScale(inv[0], w1)[i])
    {
      RightScaled(w, w1, inv[0], h, i);
    }
  }

  lemma FoldWeightsHalves(inv: seq<Fr>)
    requires inv != []
    ensures var h, w, w1 := Pow2(|inv| - 1), FoldWeights(inv), FoldWeights(inv[1..]);
            |w| == 2 * h && |w1| == h && forall i :: 0 <= i < h ==> w[i] == w1[i] && w[h + i] == Mul(inv[0], w1[i])
  {
    Pow2Doubles(|inv| - 1);
    hide Mul, FoldWeight, Pow2;
    forall i | 0 <= i < Pow2(|inv| - 1)
      ensures FoldWeights(inv)[i] == FoldWeights(inv[1..])[i]
      ensures FoldWeights(inv)[Pow2(|inv| - 1) + i] == Mul(inv[0], FoldWeights(inv[1..])[i])
    {
      WeightHalves(inv, i);
    }
  }

  lemma WeightHalves(inv: seq<Fr>, i: nat)
    requires inv != [] && i < Pow2(|inv| - 1)
    ensures FoldWeight(inv, i) == FoldWeight(inv[1..], i)
    ensures FoldWeight(inv, Pow2(|inv| - 1) + i) == Mul(inv[0], FoldWeight(inv[1..], i))
  {
    hide Mul;
  }

  lemma RightScaled(w: seq<Fr>, w1: seq<Fr>, x: Fr, h: nat, i: nat)
    requires |w| == 2 * h && |w1| == h && i < h && w[h + i] == Mul(x, w1[i])
    ensures Red(RightHalf(w)[i]) == Red(VecScale(x, w1)[i])
  {
    hide Red;
    var y: int, z: int := x, w1[i];
    RedRed(y * z);
  }

  /** Weighing points by `FoldWeights` is weighing the folded points by the remaining weights. */
  lemma WeighFold(inv: seq<Fr>, g: seq<Element>, k: nat)
    requires GroupLaws() && |inv| == k + 1 && |g| == 2 * Pow2(k)
    ensures Lin(FoldWeights(inv[1..]), FoldPoints(LeftHalf(g), RightHalf(g), inv[0])) == Lin(FoldWeights(inv), g)
  {
    WeightsSplit(inv);
    hide GroupLaws, FoldWeights, Lin;
    var w, w1 := FoldWeights(inv), FoldWeights(inv[1..]);
    LinFold(w1, LeftHalf(g), RightHalf(g), inv[0]);
    LinSame(RightHalf(w), VecScale(inv[0], w1), RightHalf(g));
    LinConcat(LeftHalf(w), LeftHalf(g), RightHalf(w), RightHalf(g));
    assert w == LeftHalf(w) + RightHalf(w) && g == LeftHalf(g) + RightHalf(g);
  }

  /** The same for the vector `b`. */
  lemma WeighFoldDot(inv: seq<Fr>, b: seq<Fr>, k: nat)
    requires |inv| == k + 1 && |b| == 2 * Pow2(k)
    ensures Red(Dot(FoldWeights(inv[1..]), Reduced(VecAdd(LeftHalf(b), VecScale(inv[0], RightHalf(b)))))) == Red(Dot(FoldWeights(inv), b))
  {
    WeightsSplit(inv);
    hide FoldWeights, Dot, Red, Pow2, SameMod, VecScale, VecAdd, Reduced, LeftHalf, RightHalf;
    var w, w1 := FoldWeights(inv), FoldWeights(inv[1..]);
    TwoHalves(w, Pow2(k));
    TwoHalves(b, Pow2(k));
    DotConcat(LeftHalf(w), LeftHalf(b), RightHalf(w), RightHalf(b));
    WeighScaled(w1, RightHalf(w), LeftHalf(b), RightHalf(b), inv[0]);
  }

  lemma {:induction false} WeighScaled(w1: seq<int>, wR: seq<int>, bL: seq<int>, bR: seq<int>, y: int)
    requires |w1| == |wR| == |bL| == |bR| && SameMod(wR, VecScale(y, w1))
    ensures Red(Dot(w1, Reduced(VecAdd(bL, VecScale(y, bR))))) == Red(Dot(w1, bL) + Dot(wR, bR))
  {
    hide Dot, Red, SameMod, VecAdd, VecScale, Reduced;
    var b' := VecAdd(bL, VecScale(y, bR));
    ReducedSame(b');
    SameModRefl(w1);
    DotSame(w1, Reduced(b'), w1, b');
    ScaleEither(w1, bL, bR, y);
    SameModRefl(bR);
    DotSame(wR, bR, VecScale(y, w1), bR);
    AddSame(Dot(w1, Reduced(b')), Dot(w1, bL), Dot(wR, bR), Dot(VecScale(y, w1), bR));
  }

  /** A factor may scale either vector of an inner product. */
  lemma ScaleEither(a: seq<int>, bL: seq<int>, bR: seq<int>, y: int)
    requires |a| == |bL| == |bR|
    ensures Dot(a, VecAdd(bL, VecScale(y, bR))) == Dot(a, bL) + Dot(VecScale(y, a), bR)
  {
    hide Dot, VecAdd, VecScale;
    DotFoldRight(a, bL, bR, y);
    DotScale(y, a, bR);
  }

  lemma AddSame(d: int, a: int, b: int, c: int)
    requires Red(d) == Red(a + c) && Red(b) == Red(c)
    ensures Red(d) == Red(a + b)
  {
    hide Red;
    SumSame(a, b, a, c);
  }

  lemma SameModRefl(a: seq<int>)
    ensures SameMod(a, a)
  {
  }

  // ---------------------------------------------------------------- completeness of the rounds

  ghost predicate NonZero(xs: seq<Fr>) {
    forall i :: 0 <= i < |xs| ==> xs[i] != 0
  }

  lemma NonZeroInverses(x: Fr, xs: seq<Fr>)
    requires x != 0 && NonZero(xs)
    ensures NonZero([x] + xs) && Inverses([x] + xs) == [Inverse(x)] + Inverses(xs)
  {
  }

  /** The proof's points, weighed by the challenges and their inverses, lead from the commitment to the fully folded one. */
  ghost predicate RoundsHold(state: seq<Byte>, v: Vectors, q: Element, k: nat, proof: IpaProof)
    requires Sized(v, Pow2(k))
  {
    && |proof.l| == |proof.r| == k
    && var xs := Challenges(state, proof.l, proof.r);
    var inv := Inverses(xs);
    var w := FoldWeights(inv);
    && NonZero(xs)
    && Plus(Plus(Committed(v, q, Pow2(k)), Lin(xs, proof.l)), Lin(inv, proof.r))
       == Plus(Times(proof.a, Lin(w, v.g)), Times(Prod(proof.a, Dot(w, v.b)), q))
  }

  lemma {:induction false} RoundsComplete(state: seq<Byte>, v: Vectors, q: Element, k: nat, proof: IpaProof)
    requires GroupLaws() && IsField() && Sized(v, Pow2(k)) && Rounds(state, v, q, k) == Some(proof)
    ensures RoundsHold(state, v, q, k, proof)
    decreases k
  {
    hide GroupLaws, IsField, RoundL, RoundR, Folded, Challenge, AfterChallenge, AfterLR, Committed, Red;
    if k == 0 {
      NoRounds(state, v, q, proof);
    } else {
      var h := Pow2(k - 1);
      var l, r := RoundL(v, q, h), RoundR(v, q, h);
      var state1 := AfterLR(state, l, r);
      var x, state2 := Challenge(state1, TAG_X), AfterChallenge(state1, TAG_X);
      var rest := Rounds(state2, Folded(v, x, h), q, k - 1).value;
      assert proof == IpaProof([l] + rest.l, [r] + rest.r, rest.a);
      RoundsComplete(state2, Folded(v, x, h), q, k - 1, rest);
      assert proof.l[1..] == rest.l && proof.r[1..] == rest.r;
      FoldKeepsCommitment(v, x, q, h);
      OneMoreRound(state, v, q, k, proof, x, state2, rest);
    }
  }

  lemma NoRounds(state: seq<Byte>, v: Vectors, q: Element, proof: IpaProof)
    requires GroupLaws() && Sized(v, 1) && proof == IpaProof([], [], v.a[0])
    ensures RoundsHold(state, v, q, 0, proof)
  {
    hide GroupLaws;
    var w := FoldWeights(Inverses([]));
    assert w == [1];
    var c := Committed(v, q, 1);
    Neutral(c);
    assert v.a == [v.a[0]] && v.g == [v.g[0]] && v.b == [v.b[0]];
    LinOne(v.a[0], v.g[0]);
    LinOne(1, v.g[0]);
    Neutral(v.g[0]);
    DotSingle(v.a[0], v.b[0]);
    DotSingle(1, v.b[0]);
  }

  lemma DotSingle(x: int, y: int)
    ensures Dot([x], [y]) == x * y
  {
    assert [x][..0] == [] && [y][..0] == [];
  }

  lemma OneMoreRound(state: seq<Byte>, v: Vectors, q: Element, k: nat, proof: IpaProof, x: Fr, state2: seq<Byte>, rest: IpaProof)
    requires GroupLaws() && IsField() && k > 0 && Sized(v, Pow2(k)) && x != 0 && |rest.l| == |rest.r| == k - 1
    requires var h := Pow2(k - 1);
             && proof == IpaProof([RoundL(v, q, h)] + rest.l, [RoundR(v, q, h)] + rest.r, rest.a)
             && x == Challenge(AfterLR(state, proof.l[0], proof.r[0]), TAG_X) && state2 == AfterChallenge(AfterLR(state, proof.l[0], proof.r[0]), TAG_X)
             && RoundsHold(state2, Folded(v, x, h), q, k - 1, rest)
             && Committed(Folded(v, x, h), q, h) == Plus(Plus(Committed(v, q, 2 * h), Times(x, proof.l[0])), Times(Inverse(x), proof.r[0]))
    ensures RoundsHold(state, v, q, k, proof)
  {
    var h := Pow2(k - 1);
    Pow2Doubles(k - 1);
    FirstChallenge(state, proof.l, proof.r);
    assert proof.l[1..] == rest.l && proof.r[1..] == rest.r;
    hide GroupLaws, IsField, FoldWeights, Dot, Lin, Red, Committed, Challenges, Folded, RoundL, RoundR, Pow2, Challenge, AfterChallenge, AfterLR, Inverses, NonZero;
    var xs1, xs := Challenges(state2, rest.l, rest.r), Challenges(state, proof.l, proof.r);
    NonZeroInverses(x, xs1);
    var inv1, inv := Inverses(xs1), Inverses(xs);
    assert inv[1..] == inv1;
    WeighRound(v, x, q, k - 1, inv, proof.a);
    CollectProof(Committed(v, q, 2 * h), x, Inverse(x), proof.l[0], proof.r[0], xs1, inv1, rest.l, rest.r);
  }

  /** The points of the first round, weighed, are what separates the two commitments. */
  lemma CollectProof(c: Element, x: int, y: int, l: Element, r: Element, xs: seq<int>, ys: seq<int>, ls: seq<Element>, rs: seq<Element>)
    requires GroupLaws() && |xs| == |ys| == |ls| == |rs|
    ensures Plus(Plus(Plus(Plus(c, Times(x, l)), Times(y, r)), Lin(xs, ls)), Lin(ys, rs))
            == Plus(Plus(c, Lin([x] + xs, [l] + ls)), Lin([y] + ys, [r] + rs))
  {
    hide GroupLaws, Lin;
    LinConcat([x], [l], xs, ls);
    LinOne(x, l);
    LinConcat([y], [r], ys, rs);
    LinOne(y, r);
    CollectRound(c, Times(x, l), Times(y, r), Lin(xs, ls), Lin(ys, rs));
  }

  lemma FirstChallenge(state: seq<Byte>, l: seq<Element>, r: seq<Element>)
    requires |l| == |r| > 0
    ensures var state1 := AfterLR(state, l[0], r[0]);
            Challenges(state, l, r) == [Challenge(state1, TAG_X)] + Challenges(AfterChallenge(state1, TAG_X), l[1..], r[1..])
  {
  }

  /** The fully folded commitment is the same whether one round is folded first or not. */
  lemma WeighRound(v: Vectors, x: Fr, q: Element, k: nat, inv: seq<Fr>, a: Fr)
    requires GroupLaws() && Sized(v, 2 * Pow2(k)) && |inv| == k + 1 && inv[0] == Inverse(x)
    ensures var w := Folded(v, x, Pow2(k));
            Plus(Times(a, Lin(FoldWeights(inv[1..]), w.g)), Times(Prod(a, Dot(FoldWeights(inv[1..]), w.b)), q))
            == Plus(Times(a, Lin(FoldWeights(inv), v.g)), Times(Prod(a, Dot(FoldWeights(inv), v.b)), q))
  {
    var w := Folded(v, x, Pow2(k));
    var d1, d := Dot(FoldWeights(inv[1..]), w.b), Dot(FoldWeights(inv), v.b);
    hide GroupLaws, FoldWeights, Dot, Lin, Red, Pow2, Reduced, VecAdd, VecScale, FoldPoints, Prod;
    WeighFold(inv, v.g, k);
    WeighFoldDot(inv, v.b, k);
    ProdSame(a, d1, a, d);
    TimesSame(Prod(a, d1), Prod(a, d), q);
  }

  /** (((c + l) + r) + a) + b = (c + (l + a)) + (r + b). */
  lemma CollectRound(c: Element, l: Element, r: Element, a: Element, b: Element)
    requires GroupLaws()
    ensures Plus(Plus(Plus(Plus(c, l), r), a), b) == Plus(Plus(c, Plus(l, a)), Plus(r, b))
  {
    hide GroupLaws;
    Associate(Plus(c, l), r, a);
    Commute(r, a);
    Associate(Plus(c, l), a, r);
    Associate(c, l, a);
    Associate(Plus(c, Plus(l, a)), r, b);
  }

  // ---------------------------------------------------------------- the whole argument

  /** The transcript when the factor for the inner product's generator is drawn. */
  function Opened(state: seq<Byte>, aComm: Element, inputPoint: Fr, outputPoint: Fr): seq<Byte> {
    AfterScalar(AfterScalar(AfterPoint(state + TAG_IPA, TAG_C, aComm), TAG_INPUT, inputPoint), TAG_OUTPUT, outputPoint)
  }

  /** The proof that the prover makes. */
  function ProofOf(state: seq<Byte>, crs: Crs, a: seq<Fr>, aComm: Element, b: seq<Fr>, inputPoint: Fr): Option<IpaProof>
    requires |a| == |b| == |crs.g| && IsPowerOfTwo(|crs.g|)
  {
    var state1 := Opened(state, aComm, inputPoint, Red(Dot(a, b)));
    var q := Times(Challenge(state1, TAG_W), crs.q);
    Rounds(AfterChallenge(state1, TAG_W), Vectors(a, b, crs.g), q, Log2(|crs.g|))
  }

  // ---------------------------------------------------------------- what the challenges bind

  /** The factor w binds the commitment, the input and the output. */
  lemma OpenedBinds(s1: seq<Byte>, c1: Element, in1: Fr, out1: Fr, s2: seq<Byte>, c2: Element, in2: Fr, out2: Fr)
    requires EncodingsDistinguish()
    ensures Opened(s1, c1, in1, out1) == Opened(s2, c2, in2, out2) <==> s1 == s2 && c1 == c2 && in1 == in2 && out1 == out2
  {
    hide EncodingsDistinguish, AfterPoint, AfterScalar;
    var p1, p2 := AfterPoint(s1 + TAG_IPA, TAG_C, c1), AfterPoint(s2 + TAG_IPA, TAG_C, c2);
    AfterScalarBinds(AfterScalar(p1, TAG_INPUT, in1), AfterScalar(p2, TAG_INPUT, in2), TAG_OUTPUT, out1, out2);
    AfterScalarBinds(p1, p2, TAG_INPUT, in1, in2);
    AfterPointBinds(s1 + TAG_IPA, s2 + TAG_IPA, TAG_C, c1, c2);
    if s1 + TAG_IPA == s2 + TAG_IPA {
      TailsAgree(s1, TAG_IPA, s2, TAG_IPA);
    }
  }

  lemma RoundStateBinds(s1: seq<Byte>, l1: Element, r1: Element, s2: seq<Byte>, l2: Element, r2: Element)
    requires EncodingsDistinguish()
    ensures AfterLR(s1, l1, r1) == AfterLR(s2, l2, r2) <==> s1 == s2 && l1 == l2 && r1 == r2
  {
    hide EncodingsDistinguish, AfterPoint;
    AfterPointBinds(AfterPoint(s1, TAG_L, l1), AfterPoint(s2, TAG_L, l2), TAG_R, r1, r2);
    AfterPointBinds(s1, s2, TAG_L, l1, l2);
  }

  /** What is hashed in the rounds of a proof. */
  ghost function HashedInRounds(state: seq<Byte>, l: seq<Element>, r: seq<Element>): set<seq<Byte>>
    requires |l| == |r|
    decreases |l|
  {
    if l == [] then {}
    else
      var state1 := AfterLR(state, l[0], r[0]);
      {state1 + TAG_X} + HashedInRounds(AfterChallenge(state1, TAG_X), l[1..], r[1..])
  }

  /** The challenge of round `k` binds the points of this round and of all before, and the state they started from. */
  lemma {:induction false} RoundChallengeBinds(s1: seq<Byte>, l1: seq<Element>, r1: seq<Element>, s2: seq<Byte>, l2: seq<Element>, r2: seq<Element>, k: nat)
    requires EncodingsDistinguish() && |l1| == |r1| == |l2| == |r2| && k < |l1|
    requires HashDistinguishes(HashedInRounds(s1, l1, r1) + HashedInRounds(s2, l2, r2))
    requires Challenges(s1, l1, r1)[k] == Challenges(s2, l2, r2)[k]
    ensures s1 == s2 && l1[..k + 1] == l2[..k + 1] && r1[..k + 1] == r2[..k + 1]
    decreases |l1|
  {
    hide EncodingsDistinguish, AfterLR, AfterChallenge, Challenge, HashDistinguishes;
    var t1, t2 := AfterLR(s1, l1[0], r1[0]), AfterLR(s2, l2[0], r2[0]);
    var all := HashedInRounds(s1, l1, r1) + HashedInRounds(s2, l2, r2);
    FewerInputs({t1 + TAG_X, t2 + TAG_X}, all);
    if k == 0 {
      ChallengeBinds(t1, TAG_X, t2, TAG_X);
    } else {
      var u1, u2 := AfterChallenge(t1, TAG_X), AfterChallenge(t2, TAG_X);
      FewerInputs(HashedInRounds(u1, l1[1..], r1[1..]) + HashedInRounds(u2, l2[1..], r2[1..]), all);
      RoundChallengeBinds(u1, l1[1..], r1[1..], u2, l2[1..], r2[1..], k - 1);
      AfterChallengeBinds(t1, t2, TAG_X);
      FirstAndRest(l1, l2, k);
      FirstAndRest(r1, r2, k);
    }
    RoundStateBinds(s1, l1[0], r1[0], s2, l2[0], r2[0]);
  }

  lemma FirstAndRest(a: seq<Element>, b: seq<Element>, k: nat)
    requires |a| == |b| && k < |a|
    ensures a[0] == b[0] && a[1..][..k] == b[1..][..k] ==> a[..k + 1] == b[..k + 1]
  {
    assert a[..k + 1] == [a[0]] + a[1..][..k] && b[..k + 1] == [b[0]] + b[1..][..k];
  }

  /** What is hashed in a whole verification. */
  ghost function HashedInIpa(state: seq<Byte>, c: Element, input: Fr, output: Fr, l: seq<Element>, r: seq<Element>): set<seq<Byte>>
    requires |l| == |r|
  {
    var start := Opened(state, c, input, output);
    {start + TAG_W} + HashedInRounds(AfterChallenge(start, TAG_W), l, r)
  }

  /** The challenge of any round binds the commitment, the point, the claimed value and the proof up to this round. */
  lemma IpaChallengeBinds(s1: seq<Byte>, c1: Element, in1: Fr, out1: Fr, l1: seq<Element>, r1: seq<Element>,
                          s2: seq<Byte>, c2: Element, in2: Fr, out2: Fr, l2: seq<Element>, r2: seq<Element>, k: nat)
    requires EncodingsDistinguish() && |l1| == |r1| == |l2| == |r2| && k < |l1|
    requires HashDistinguishes(HashedInIpa(s1, c1, in1, out1, l1, r1) + HashedInIpa(s2, c2, in2, out2, l2, r2))
    requires Challenges(AfterChallenge(Opened(s1, c1, in1, out1), TAG_W), l1, r1)[k] == Challenges(AfterChallenge(Opened(s2, c2, in2, out2), TAG_W), l2, r2)[k]
    ensures s1 == s2 && c1 == c2 && in1 == in2 && out1 == out2 && l1[..k + 1] == l2[..k + 1] && r1[..k + 1] == r2[..k + 1]
  {
    hide EncodingsDistinguish, Opened, AfterChallenge, HashDistinguishes, Challenges, HashedInRounds;
    var o1, o2 := Opened(s1, c1, in1, out1), Opened(s2, c2, in2, out2);
    var all := HashedInIpa(s1, c1, in1, out1, l1, r1) + HashedInIpa(s2, c2, in2, out2, l2, r2);
    FewerInputs({o1 + TAG_W, o2 + TAG_W}, all);
    FewerInputs(HashedInRounds(AfterChallenge(o1, TAG_W), l1, r1) + HashedInRounds(AfterChallenge(o2, TAG_W), l2, r2), all);
    RoundChallengeBinds(AfterChallenge(o1, TAG_W), l1, r1, AfterChallenge(o2, TAG_W), l2, r2, k);
    AfterChallengeBinds(o1, o2, TAG_W);
    OpenedBinds(s1, c1, in1, out1, s2, c2, in2, out2);
  }

  // ---------------------------------------------------------------- the verifier's equation

  function Negated(w: seq<Fr>): (b: seq<Fr>)
    ensures |b| == |w|
  {
    seq(|w|, i requires 0 <= i < |w| => Neg(w[i]))
  }

  function ScaledBy(a: Fr, b: seq<Fr>): (g: seq<Fr>)
    ensures |g| == |b|
  {
    seq(|b|, i requires 0 <= i < |b| => Mul(a, b[i]))
  }

  predicate ProofSized(proof: IpaProof, crs: Crs, b: seq<Fr>) {
    |proof.l| == |proof.r| && |b| == |crs.g| == crs.n
  }

  /** The verifier's single equation. */
  ghost predicate Accepts(proof: IpaProof, state: seq<Byte>, crs: Crs, b: seq<Fr>, aComm: Element, inputPoint: Fr, outputPoint: Fr)
    requires ProofSized(proof, crs, b)
  {
    && crs.n == Pow2(|proof.l|)
    && var state1 := Opened(state, aComm, inputPoint, outputPoint);
    var w := Challenge(state1, TAG_W);
    var xs := Challenges(AfterChallenge(state1, TAG_W), proof.l, proof.r);
    var bs := Negated(FoldWeights(Inverses(xs)));
    var qs := Mul(w, Add(outputPoint, Mul(proof.a, Red(Dot(b, bs)))));
    Lin(xs + Inverses(xs) + [1, qs] + ScaledBy(proof.a, bs), proof.l + proof.r + [aComm, crs.q] + crs.g) == Zero
  }

  /** Completeness: the verifier accepts what the prover made from an honest commitment. */
  lemma IpaComplete(state: seq<Byte>, crs: Crs, a: seq<Fr>, aComm: Element, b: seq<Fr>, inputPoint: Fr, proof: IpaProof)
    requires GroupLaws() && IsField()
    requires |a| == |b| == |crs.g| == crs.n && IsPowerOfTwo(crs.n) && aComm == Lin(a, crs.g)
    requires ProofOf(state, crs, a, aComm, b, inputPoint) == Some(proof)
    ensures ProofSized(proof, crs, b)
    ensures Accepts(proof, state, crs, b, aComm, inputPoint, Red(Dot(a, b)))
  {
    var k, v := Log2(crs.n), Vectors(a, b, crs.g);
    var state1 := Opened(state, aComm, inputPoint, Red(Dot(a, b)));
    var w := Challenge(state1, TAG_W);
    var q := Times(w, crs.q);
    RoundsComplete(AfterChallenge(state1, TAG_W), v, q, k, proof);
    var xs := Challenges(AfterChallenge(state1, TAG_W), proof.l, proof.r);
    var inv := Inverses(xs);
    hide GroupLaws, IsField, Rounds, Opened, Challenge, AfterChallenge, Challenges, Inverses, Dot, Lin, Red, FoldWeights, Negated, ScaledBy, Log2, Pow2, NonZero;
    CheckIsZero(crs, a, aComm, b, w, proof, xs, inv, FoldWeights(inv));
  }

  lemma {:induction false} CheckIsZero(crs: Crs, a: seq<Fr>, aComm: Element, b: seq<Fr>, w: Fr, proof: IpaProof, xs: seq<Fr>, inv: seq<Fr>, weights: seq<Fr>)
    requires GroupLaws() && |a| == |b| == |crs.g| == |weights| && aComm == Lin(a, crs.g) && |xs| == |inv| == |proof.l| == |proof.r|
    requires var q := Times(w, crs.q);
             Plus(Plus(Plus(Lin(a, crs.g), Times(Dot(a, b), q)), Lin(xs, proof.l)), Lin(inv, proof.r))
             == Plus(Times(proof.a, Lin(weights, crs.g)), Times(Prod(proof.a, Dot(weights, b)), q))
    ensures var bs := Negated(weights);
            var qs := Mul(w, Add(Red(Dot(a, b)), Mul(proof.a, Red(Dot(b, bs)))));
            Lin(xs + inv + [1, qs] + ScaledBy(proof.a, bs), proof.l + proof.r + [aComm, crs.q] + crs.g) == Zero
  {
    hide GroupLaws, Red, Dot, Lin, Prod, Mul, Add, Neg;
    var q, d, e := Times(w, crs.q), Dot(a, b), Prod(proof.a, Dot(weights, b));
    var bs := Negated(weights);
    var qs := Mul(w, Add(Red(d), Mul(proof.a, Red(Dot(b, bs)))));
    var gs := ScaledBy(proof.a, bs);
    var x, i, t := Lin(xs, proof.l), Lin(inv, proof.r), Lin(weights, crs.g);
    CheckLin(crs, aComm, qs, gs, proof, xs, inv);
    CheckQ(d, b, w, proof.a, weights, crs.q);
    CheckG(proof.a, weights, crs.g);
    CollectCheck(x, i, aComm, Times(d, q), Times(0 - e, q), Times(0 - proof.a, t));
    Cancels(proof.a, t);
    Cancels(e, q);
    Interchange(Times(proof.a, t), Times(e, q), Times(0 - proof.a, t), Times(0 - e, q));
    Neutral(Zero);
  }

  lemma Cancels(k: int, p: Element)
    requires GroupLaws()
    ensures Plus(Times(k, p), Times(0 - k, p)) == Zero
  {
    hide GroupLaws;
    Distribute2(k, 0 - k, p);
    Neutral(p);
  }

  /** The verifier's combination, in parts. */
  lemma CheckLin(crs: Crs, aComm: Element, qs: Fr, gs: seq<Fr>, proof: IpaProof, xs: seq<Fr>, inv: seq<Fr>)
    requires GroupLaws() && |gs| == |crs.g| && |xs| == |inv| == |proof.l| == |proof.r|
    ensures Lin(xs + inv + [1, qs] + gs, proof.l + proof.r + [aComm, crs.q] + crs.g)
            == Plus(Plus(Plus(Lin(xs, proof.l), Lin(inv, proof.r)), Plus(aComm, Times(qs, crs.q))), Lin(gs, crs.g))
  {
    hide GroupLaws, Lin;
    LinConcat(xs + inv + [1, qs], proof.l + proof.r + [aComm, crs.q], gs, crs.g);
    LinConcat(xs + inv, proof.l + proof.r, [1, qs], [aComm, crs.q]);
    LinConcat(xs, proof.l, inv, proof.r);
    assert [1, qs] == [1] + [qs] && [aComm, crs.q] == [aComm] + [crs.q];
    LinConcat([1], [aComm], [qs], [crs.q]);
    LinOne(1, aComm);
    LinOne(qs, crs.q);
    Neutral(aComm);
  }

  /** The scalar at the inner product's generator is the claimed output minus the folded one. */
  lemma CheckQ(d: int, b: seq<Fr>, w: Fr, pa: Fr, weights: seq<Fr>, p: Element)
    requires GroupLaws() && |b| == |weights|
    ensures var qs := Mul(w, Add(Red(d), Mul(pa, Red(Dot(b, Negated(weights))))));
            Times(qs, p) == Plus(Times(d, Times(w, p)), Times(0 - Prod(pa, Dot(weights, b)), Times(w, p)))
  {
    hide GroupLaws, Red, Dot;
    var e, bs := Dot(weights, b), Negated(weights);
    NegatedDot(b, weights);
    OutputDifference(w, d, pa, e, Dot(b, bs));
    TimesSame(Mul(w, Add(Red(d), Mul(pa, Red(Dot(b, bs))))), (d + (0 - Prod(pa, e))) * w, p);
    Distribute2(d + (0 - Prod(pa, e)), w, p);
    AddTimes(d, 0 - Prod(pa, e), Times(w, p));
  }

  lemma OutputDifference(w: Fr, d: int, pa: Fr, e: int, n: int)
    requires Red(n) == Red(0 - e)
    ensures Red(Mul(w, Add(Red(d), Mul(pa, Red(n))))) == Red((d + (0 - Prod(pa, e))) * w)
  {
    hide Red;
    RedRed(n);
    RedRed(d);
    var paInt: int, wInt: int := pa, w;
    RedRed(paInt * Red(n));
    RedRing(paInt, Red(n), paInt, 0 - e);
    assert paInt * (0 - e) == 0 - Prod(pa, e);
    SumSame(Red(d), Mul(pa, Red(n)), d, 0 - Prod(pa, e));
    RedRed(Red(d) + Mul(pa, Red(n)));
    RedRing(wInt, Add(Red(d), Mul(pa, Red(n))), wInt, d + (0 - Prod(pa, e)));
    RedRed(wInt * Add(Red(d), Mul(pa, Red(n))));
    assert wInt * (d + (0 - Prod(pa, e))) == (d + (0 - Prod(pa, e))) * wInt;
  }

  lemma NegatedSame(weights: seq<Fr>)
    ensures SameMod(Negated(weights), VecScale(-1, weights))
  {
    hide Red;
    forall i | 0 <= i < |weights|
      ensures Red(Negated(weights)[i]) == Red(VecScale(-1, weights)[i])
    {
      var x: int := weights[i];
      RedRed(0 - x);
    }
  }

  lemma NegatedDot(b: seq<Fr>, weights: seq<Fr>)
    requires |b| == |weights|
    ensures Red(Dot(b, Negated(weights))) == Red(0 - Dot(weights, b))
  {
    hide Red, Dot, SameMod, Negated, VecScale;
    NegatedSame(weights);
    SameModRefl(b);
    DotSame(b, Negated(weights), b, VecScale(-1, weights));
    DotCommutes(b, VecScale(-1, weights));
    DotScale(-1, weights, b);
  }

  /** The scalars at the generators are the weights, scaled and negated. */
  lemma CheckG(pa: Fr, weights: seq<Fr>, g: seq<Element>)
    requires GroupLaws() && |weights| == |g|
    ensures Lin(ScaledBy(pa, Negated(weights)), g) == Times(0 - pa, Lin(weights, g))
  {
    hide GroupLaws, Red, Lin, Neg;
    var bs := Negated(weights);
    NegatedSame(weights);
    forall i | 0 <= i < |weights|
      ensures Red(ScaledBy(pa, bs)[i]) == Red(VecScale(0 - pa, weights)[i])
    {
      NegatedProduct(pa, weights[i], bs[i]);
    }
    LinSame(ScaledBy(pa, bs), VecScale(0 - pa, weights), g);
    LinScale(0 - pa, weights, g);
  }

  lemma NegatedProduct(pa: Fr, x: Fr, n: Fr)
    requires Red(n) == Red(-1 * (x as int))
    ensures Red(Mul(pa, n)) == Red((0 - pa) * x)
  {
    hide Red;
    var a: int, y: int, m: int := pa, x, n;
    RedRed(a * m);
    RedRing(a, m, a, -1 * y);
    assert a * (-1 * y) == (0 - a) * y;
  }

  /** ((x + i) + (c + (d + m))) + n = (((c + d) + x) + i) + (n + m). */
  lemma CollectCheck(x: Element, i: Element, c: Element, d: Element, m: Element, n: Element)
    requires GroupLaws()
    ensures Plus(Plus(Plus(x, i), Plus(c, Plus(d, m))), n) == Plus(Plus(Plus(Plus(c, d), x), i), Plus(n, m))
  {
    hide GroupLaws;
    Associate(c, d, m);
    Associate(Plus(x, i), Plus(c, d), m);
    Commute(Plus(x, i), Plus(c, d));
    Associate(Plus(c, d), x, i);
    Associate(Plus(Plus(Plus(c, d), x), i), m, n);
    Commute(m, n);
  }

  // ---------------------------------------------------------------- the verifier who folds

  /**
   The textbook verifier: round by round it folds the public vectors with the challenge it draws,
   adds the round's points to the commitment, and compares at the end.
   */
  ghost predicate FoldsTo(state: seq<Byte>, b: seq<Fr>, g: seq<Element>, q: Element, c: Element, l: seq<Element>, r: seq<Element>, a: Fr)
    requires |l| == |r| && |b| == |g| == Pow2(|l|)
    decreases |l|
  {
    if l == [] then
      c == Plus(Times(a, g[0]), Times(a * b[0], q))
    else
      var state1 := AfterLR(state, l[0], r[0]);
      var x := Challenge(state1, TAG_X);
      var y := InverseOrZero(x);
      FoldsTo(AfterChallenge(state1, TAG_X),
              Reduced(VecAdd(LeftHalf(b), VecScale(y, RightHalf(b)))), FoldPoints(LeftHalf(g), RightHalf(g), y), q,
              Plus(Plus(c, Times(x, l[0])), Times(y, r[0])), l[1..], r[1..], a)
  }

  /** It starts from aComm + output · w · Q. */
  ghost predicate FoldingAccepts(proof: IpaProof, state: seq<Byte>, crs: Crs, b: seq<Fr>, aComm: Element, inputPoint: Fr, outputPoint: Fr)
    requires ProofSized(proof, crs, b)
  {
    && crs.n == Pow2(|proof.l|)
    && var state1 := Opened(state, aComm, inputPoint, outputPoint);
    var q := Times(Challenge(state1, TAG_W), crs.q);
    FoldsTo(AfterChallenge(state1, TAG_W), b, crs.g, q, Plus(aComm, Times(outputPoint, q)), proof.l, proof.r, proof.a)
  }

  /** Folding all rounds is weighing everything once. */
  ghost predicate WeighsTo(b: seq<Fr>, g: seq<Element>, q: Element, c: Element, l: seq<Element>, r: seq<Element>, a: Fr, xs: seq<Fr>)
    requires |l| == |r| == |xs| && |b| == |g| == Pow2(|l|)
  {
    var inv := Inverses(xs);
    var w := FoldWeights(inv);
    Plus(Plus(c, Lin(xs, l)), Lin(inv, r)) == Plus(Times(a, Lin(w, g)), Times(Prod(a, Dot(w, b)), q))
  }

  lemma {:induction false} FoldingIsWeighing(state: seq<Byte>, b: seq<Fr>, g: seq<Element>, q: Element, c: Element, l: seq<Element>, r: seq<Element>, a: Fr)
    requires GroupLaws() && |l| == |r| && |b| == |g| == Pow2(|l|)
    ensures FoldsTo(state, b, g, q, c, l, r, a) <==> WeighsTo(b, g, q, c, l, r, a, Challenges(state, l, r))
    decreases |l|
  {
    hide GroupLaws, WeighsTo, Challenge, AfterChallenge, AfterLR, Red, VecAdd, VecScale, FoldPoints, Reduced, LeftHalf, RightHalf;
    if l == [] {
      NothingToFold(b, g, q, c, a);
      assert r == [];
    } else {
      var k := |l| - 1;
      var state1 := AfterLR(state, l[0], r[0]);
      var x := Challenge(state1, TAG_X);
      var y := InverseOrZero(x);
      HalvesSized(b, g, k);
      var b1, g1 := Reduced(VecAdd(LeftHalf(b), VecScale(y, RightHalf(b)))), FoldPoints(LeftHalf(g), RightHalf(g), y);
      var c1 := Plus(Plus(c, Times(x, l[0])), Times(y, r[0]));
      FoldingIsWeighing(AfterChallenge(state1, TAG_X), b1, g1, q, c1, l[1..], r[1..], a);
      FirstChallenge(state, l, r);
      WeighOneRound(b, g, q, c, l, r, a, x, Challenges(AfterChallenge(state1, TAG_X), l[1..], r[1..]), k);
    }
  }

  lemma HalvesSized(b: seq<Fr>, g: seq<Element>, k: nat)
    requires |b| == |g| == Pow2(k + 1)
    ensures |b| == |g| == 2 * Pow2(k) && |LeftHalf(b)| == |RightHalf(b)| == |LeftHalf(g)| == |RightHalf(g)| == Pow2(k)
  {
    assert Pow2(k + 1) == 2 * Pow2(k);
    hide Pow2;
    assert 2 * Pow2(k) / 2 == Pow2(k);
  }

  lemma NothingToFold(b: seq<Fr>, g: seq<Element>, q: Element, c: Element, a: Fr)
    requires GroupLaws() && |b| == |g| == 1
    ensures WeighsTo(b, g, q, c, [], [], a, []) <==> c == Plus(Times(a, g[0]), Times(a * b[0], q))
  {
    hide GroupLaws;
    var w := FoldWeights(Inverses([]));
    assert w == [1] && b == [b[0]] && g == [g[0]];
    Neutral(c);
    LinOne(1, g[0]);
    Neutral(g[0]);
    DotSingle(1, b[0]);
  }

  lemma WeighOneRound(b: seq<Fr>, g: seq<Element>, q: Element, c: Element, l: seq<Element>, r: seq<Element>, a: Fr, x: Fr, xs: seq<Fr>, k: nat)
    requires GroupLaws() && |l| == |r| == |xs| + 1 == k + 1 && |b| == |g| == 2 * Pow2(k) == Pow2(k + 1)
    ensures var y := InverseOrZero(x);
            var b1, g1 := Reduced(VecAdd(LeftHalf(b), VecScale(y, RightHalf(b)))), FoldPoints(LeftHalf(g), RightHalf(g), y);
            WeighsTo(b, g, q, c, l, r, a, [x] + xs) <==>
            WeighsTo(b1, g1, q, Plus(Plus(c, Times(x, l[0])), Times(y, r[0])), l[1..], r[1..], a, xs)
  {
    var y, inv1, inv := InverseOrZero(x), Inverses(xs), Inverses([x] + xs);
    assert inv == [y] + inv1 && inv[1..] == inv1;
    var b1, g1 := Reduced(VecAdd(LeftHalf(b), VecScale(y, RightHalf(b)))), FoldPoints(LeftHalf(g), RightHalf(g), y);
    var d1, d := Dot(FoldWeights(inv1), b1), Dot(FoldWeights(inv), b);
    hide GroupLaws, FoldWeights, Dot, Lin, Red, Pow2, Reduced, VecAdd, VecScale, FoldPoints, Prod, InverseOrZero;
    WeighFold(inv, g, k);
    WeighFoldDot(inv, b, k);
    ProdSame(a, d1, a, d);
    TimesSame(Prod(a, d1), Prod(a, d), q);
    assert l == [l[0]] + l[1..] && r == [r[0]] + r[1..];
    CollectProof(c, x, y, l[0], r[0], xs, inv1, l[1..], r[1..]);
  }

  /**
   For every proof, honest or not: the single multi-exponentiation vanishes exactly when the
   verifier who folds round by round accepts.
   */
  lemma AcceptsIsFolding(proof: IpaProof, state: seq<Byte>, crs: Crs, b: seq<Fr>, aComm: Element, inputPoint: Fr, outputPoint: Fr)
    requires GroupLaws() && ProofSized(proof, crs, b)
    ensures Accepts(proof, state, crs, b, aComm, inputPoint, outputPoint) <==> FoldingAccepts(proof, state, crs, b, aComm, inputPoint, outputPoint)
  {
    hide GroupLaws, Opened, Challenge, AfterChallenge, Challenges, Inverses, Dot, Lin, Red, FoldWeights, Negated, ScaledBy, Pow2, FoldsTo, Mul, Add;
    if crs.n == Pow2(|proof.l|) {
      var state1 := Opened(state, aComm, inputPoint, outputPoint);
      var w := Challenge(state1, TAG_W);
      var q, state2 := Times(w, crs.q), AfterChallenge(state1, TAG_W);
      var xs := Challenges(state2, proof.l, proof.r);
      FoldingIsWeighing(state2, b, crs.g, q, Plus(aComm, Times(outputPoint, q)), proof.l, proof.r, proof.a);
      EquationIsWeighing(crs, aComm, b, w, outputPoint, proof, xs, Inverses(xs), FoldWeights(Inverses(xs)));
    }
  }

  lemma {:induction false} EquationIsWeighing(crs: Crs, aComm: Element, b: seq<Fr>, w: Fr, output: Fr, proof: IpaProof, xs: seq<Fr>, inv: seq<Fr>, weights: seq<Fr>)
    requires GroupLaws() && |b| == |crs.g| == |weights| && |xs| == |inv| == |proof.l| == |proof.r|
    ensures var bs, q := Negated(weights), Times(w, crs.q);
            var qs := Mul(w, Add(output, Mul(proof.a, Red(Dot(b, bs)))));
            Lin(xs + inv + [1, qs] + ScaledBy(proof.a, bs), proof.l + proof.r + [aComm, crs.q] + crs.g) == Zero
            <==> Plus(Plus(Plus(aComm, Times(output, q)), Lin(xs, proof.l)), Lin(inv, proof.r))
                 == Plus(Times(proof.a, Lin(weights, crs.g)), Times(Prod(proof.a, Dot(weights, b)), q))
  {
    RedUnchanged(output);
    hide GroupLaws, Red, Dot, Lin, Prod, Mul, Add, Neg;
    var q, e := Times(w, crs.q), Prod(proof.a, Dot(weights, b));
    var bs := Negated(weights);
    var qs := Mul(w, Add(output, Mul(proof.a, Red(Dot(b, bs)))));
    var gs := ScaledBy(proof.a, bs);
    var x, i, t := Lin(xs, proof.l), Lin(inv, proof.r), Lin(weights, crs.g);
    CheckLin(crs, aComm, qs, gs, proof, xs, inv);
    CheckQ(output, b, w, proof.a, weights, crs.q);
    CheckG(proof.a, weights, crs.g);
    var n, m := Times(0 - proof.a, t), Times(0 - e, q);
    CollectCheck(x, i, aComm, Times(output, q), m, n);
    Cancels(proof.a, t);
    Cancels(e, q);
    Interchange(Times(proof.a, t), Times(e, q), n, m);
    Neutral(Zero);
    ZeroIffEqual(Plus(Plus(Plus(aComm, Times(output, q)), x), i), Plus(Times(proof.a, t), Times(e, q)), Plus(n, m));
  }

  lemma ZeroIffEqual(left: Element, right: Element, negated: Element)
    requires GroupLaws() && Plus(right, negated) == Zero
    ensures Plus(left, negated) == Zero <==> left == right
  {
    hide GroupLaws;
    Associate(left, negated, right);
    Commute(negated, right);
    Neutral(left);
    Neutral(right);
  }

  /** A proof without rounds shows one scalar: it passes exactly when that scalar opens the commitment to the claimed output. */
  lemma OneScalarAccepts(proof: IpaProof, state: seq<Byte>, crs: Crs, b: Fr, aComm: Element, inputPoint: Fr, outputPoint: Fr)
    requires GroupLaws() && crs.n == |crs.g| == 1 && proof.l == proof.r == []
    ensures var q := Times(Challenge(Opened(state, aComm, inputPoint, outputPoint), TAG_W), crs.q);
            Accepts(proof, state, crs, [b], aComm, inputPoint, outputPoint) <==>
            Plus(aComm, Times(outputPoint, q)) == Plus(Times(proof.a, crs.g[0]), Times(proof.a * b, q))
  {
    AcceptsIsFolding(proof, state, crs, [b], aComm, inputPoint, outputPoint);
  }

  // ---------------------------------------------------------------- the prover

  /** Three different arrays. */
  predicate Apart(a: object, b: object, g: object) {
    a != b && a != g && b != g
  }

  /** Folds the first `2h` places of the three arrays into the first `h`. */
  method FoldInPlace(a: array<Fr>, b: array<Fr>, g: array<Element>, h: nat, x: Fr)
    requires Apart(a, b, g) && 2 * h <= a.Length == b.Length == g.Length
    modifies a, b, g
    ensures Vectors(a[..h], b[..h], g[..h]) == old(Folded(Vectors(a[..2 * h], b[..2 * h], g[..2 * h]), x, h))
  {
    hide Mul, Add, Red;
    var xInv := Inverse(x);
    ghost var v := Vectors(a[..2 * h], b[..2 * h], g[..2 * h]);
    assert LeftHalf(v.g) == g[..h] && RightHalf(v.g) == g[h..2 * h] && LeftHalf(v.a) == a[..h] && RightHalf(v.a) == a[h..2 * h];
    assert LeftHalf(v.b) == b[..h] && RightHalf(v.b) == b[h..2 * h];
    hide LeftHalf, RightHalf, VecAdd, VecScale, FoldPoints, Reduced;
    FoldGenerators(g, h, xInv);
    FoldScalars(a, b, h, x, xInv);
  }

  method FoldScalars(a: array<Fr>, b: array<Fr>, h: nat, x: Fr, xInv: Fr)
    requires a != b && 2 * h <= a.Length == b.Length
    modifies a, b
    ensures a[..h] == old(Reduced(VecAdd(a[..h], VecScale(x, a[h..2 * h])))) && b[..h] == old(Reduced(VecAdd(b[..h], VecScale(xInv, b[h..2 * h]))))
  {
    hide Mul, Add, Red, VecAdd, VecScale, Reduced;
    for i := 0 to h
      invariant a[i..] == old(a[..])[i..] && b[i..] == old(b[..])[i..]
      invariant forall j :: 0 <= j < i ==> a[j] == Add(old(a[..])[j], Mul(x, old(a[..])[h + j]))
      invariant forall j :: 0 <= j < i ==> b[j] == Add(old(b[..])[j], Mul(xInv, old(b[..])[h + j]))
    {
      assert a[i] == a[i..][0] && a[h + i] == a[i..][h] && b[i] == b[i..][0] && b[h + i] == b[i..][h];
      a[i] := Add(a[i], Mul(x, a[h + i]));
      b[i] := Add(b[i], Mul(xInv, b[h + i]));
    }
    FoldedAt(a[..h], old(a[..h]), old(a[h..2 * h]), x);
    FoldedAt(b[..h], old(b[..h]), old(b[h..2 * h]), xInv);
  }

  method FoldGenerators(g: array<Element>, h: nat, xInv: Fr)
    requires 2 * h <= g.Length
    modifies g
    ensures g[..h] == old(FoldPoints(g[..h], g[h..2 * h], xInv))
  {
    for i := 0 to h
      invariant forall j :: 0 <= j < i ==> g[j] == Plus(old(g[j]), Times(xInv, old(g[h + j])))
      invariant forall j :: i <= j < g.Length ==> g[j] == old(g[j])
    {
      g[i] := Plus(g[i], Times(xInv, g[h + i]));
    }
  }

  lemma FoldedAt(folded: seq<Fr>, l: seq<Fr>, r: seq<Fr>, x: Fr)
    requires |folded| == |l| == |r| && forall i :: 0 <= i < |l| ==> folded[i] == Add(l[i], Mul(x, r[i]))
    ensures folded == Reduced(VecAdd(l, VecScale(x, r)))
  {
    hide Red, Add, Mul;
    forall i | 0 <= i < |l|
      ensures folded[i] == Reduced(VecAdd(l, VecScale(x, r)))[i]
    {
      AddMul(l[i], x, r[i]);
    }
  }

  lemma AddMul(l: Fr, x: Fr, r: Fr)
    ensures Add(l, Mul(x, r)) == Red(l + x * r)
  {
    hide Red;
    var y: int, z: int, w: int := x, r, l;
    RedRed(y * z);
    SumSame(w, Red(y * z), w, y * z);
  }

  lemma PrependMore(l: seq<Element>, r: seq<Element>, l1: Element, r1: Element, p: Option<IpaProof>)
    ensures Prepend(l, r, Prepend([l1], [r1], p)) == Prepend(l + [l1], r + [r1], p)
  {
    if p.Some? {
      assert l + ([l1] + p.value.l) == l + [l1] + p.value.l && r + ([r1] + p.value.r) == r + [r1] + p.value.r;
    }
  }

  /** The prover. A challenge without an inverse stops it. */
  method Create(transcript: Transcript, crs: Crs, aVec: seq<Fr>, aComm: Element, bVec: seq<Fr>, inputPoint: Fr) returns (proof: Option<IpaProof>)
    requires |aVec| == |bVec| == |crs.g| && IsPowerOfTwo(|crs.g|)
    modifies transcript
    ensures proof == ProofOf(old(transcript.state), crs, aVec, aComm, bVec, inputPoint)
  {
    hide Red, Lin, Dot, Folded, Challenge, AfterChallenge, AfterPoint, AfterScalar, AfterLR, Rounds, Pow2, Log2, RoundL, RoundR;
    var n := |crs.g|;
    var a, b, g := new Fr[n](i requires 0 <= i < |aVec| => aVec[i]), new Fr[n](i requires 0 <= i < |bVec| => bVec[i]), new Element[n](i requires 0 <= i < |crs.g| => crs.g[i]);
    transcript.DomainSep(TAG_IPA);
    var outputPoint := InnerProduct(aVec, bVec);
    transcript.AppendPoint(TAG_C, aComm);
    transcript.AppendScalar(TAG_INPUT, inputPoint);
    transcript.AppendScalar(TAG_OUTPUT, outputPoint);
    var w := transcript.ChallengeScalar(TAG_W);
    var q := Times(w, crs.q);
    var numRounds := Log2(n);
    assert a[..n] == aVec && b[..n] == bVec && g[..n] == crs.g;
    ghost var state, v := transcript.state, Vectors(aVec, bVec, crs.g);
    var lVec: seq<Element>, rVec: seq<Element> := [], [];
    PrependNothing(Rounds(state, v, q, numRounds));
    for k := 0 to numRounds
      invariant fresh(a) && fresh(b) && fresh(g) && Apart(a, b, g) && a.Length == b.Length == g.Length
      invariant n == Pow2(numRounds - k) <= a.Length
      invariant Prepend(lVec, rVec, Rounds(transcript.state, Vectors(a[..n], b[..n], g[..n]), q, numRounds - k)) == Rounds(state, v, q, numRounds)
    {
      var h := n / 2;
      Pow2Doubles(numRounds - k - 1);
      ghost var u, state1 := Vectors(a[..n], b[..n], g[..n]), transcript.state;
      var l, r, x := Round(transcript, a, b, g, h, q);
      NextRound(state1, u, q, numRounds - k, l, r, x);
      if x == 0 {
        return None;
      }
      PrependMore(lVec, rVec, l, r, Rounds(transcript.state, Folded(u, x, h), q, numRounds - k - 1));
      lVec, rVec := lVec + [l], rVec + [r];
      n := h;
    }
    assert lVec + [] == lVec && rVec + [] == rVec;
    LastRound(transcript.state, Vectors(a[..n], b[..n], g[..n]), q);
    proof := Some(IpaProof(lVec, rVec, a[0]));
  }

  lemma NextRound(state: seq<Byte>, v: Vectors, q: Element, k: nat, l: Element, r: Element, x: Fr)
    requires k > 0 && Sized(v, Pow2(k)) && l == RoundL(v, q, Pow2(k - 1)) && r == RoundR(v, q, Pow2(k - 1))
    requires x == Challenge(AfterLR(state, l, r), TAG_X)
    ensures Rounds(state, v, q, k) ==
      if x == 0 then None else Prepend([l], [r], Rounds(AfterChallenge(AfterLR(state, l, r), TAG_X), Folded(v, x, Pow2(k - 1)), q, k - 1))
  {
    hide Folded, RoundL, RoundR, Challenge, AfterChallenge, AfterLR;
  }

  lemma LastRound(state: seq<Byte>, v: Vectors, q: Element)
    requires Sized(v, Pow2(0))
    ensures Rounds(state, v, q, 0) == Some(IpaProof([], [], v.a[0]))
  {
  }

  lemma PrependNothing(p: Option<IpaProof>)
    ensures Prepend([], [], p) == p
  {
    if p.Some? {
      assert [] + p.value.l == p.value.l && [] + p.value.r == p.value.r;
    }
  }

  /** One round: the two cross terms, the challenge, and the fold in place. */
  method Round(transcript: Transcript, a: array<Fr>, b: array<Fr>, g: array<Element>, h: nat, q: Element) returns (l: Element, r: Element, x: Fr)
    requires Apart(a, b, g) && 2 * h <= a.Length == b.Length == g.Length
    modifies transcript, a, b, g
    ensures l == old(RoundL(Vectors(a[..2 * h], b[..2 * h], g[..2 * h]), q, h)) && r == old(RoundR(Vectors(a[..2 * h], b[..2 * h], g[..2 * h]), q, h))
    ensures x == Challenge(AfterLR(old(transcript.state), l, r), TAG_X)
    ensures transcript.state == AfterChallenge(AfterLR(old(transcript.state), l, r), TAG_X)
    ensures x != 0 ==> Vectors(a[..h], b[..h], g[..h]) == old(Folded(Vectors(a[..2 * h], b[..2 * h], g[..2 * h]), x, h))
  {
    hide Red, Lin, Dot, Folded, Challenge, AfterChallenge, AfterPoint;
    ghost var v := Vectors(a[..2 * h], b[..2 * h], g[..2 * h]);
    assert LeftHalf(v.a) == a[..h] && RightHalf(v.a) == a[h..2 * h] && LeftHalf(v.b) == b[..h] && RightHalf(v.b) == b[h..2 * h];
    assert LeftHalf(v.g) == g[..h] && RightHalf(v.g) == g[h..2 * h];
    var zL := InnerProduct(a[h..2 * h], b[..h]);
    l := Lin(a[h..2 * h] + [zL], g[..h] + [q]);
    var zR := InnerProduct(a[..h], b[h..2 * h]);
    r := Lin(a[..h] + [zR], g[h..2 * h] + [q]);
    transcript.AppendPoint(TAG_L, l);
    transcript.AppendPoint(TAG_R, r);
    x := transcript.ChallengeScalar(TAG_X);
    if x != 0 {
      FoldInPlace(a, b, g, h, x);
    }
  }

  // ---------------------------------------------------------------- the verifier

  /** The bit above the lowest `i` tells in which half of the lowest `i + 1` bits a number lies. */
  lemma BitTellsHalf(n: nat, i: nat, high: nat, low: nat)
    requires n == high * Pow2(i + 1) + low && low < Pow2(i + 1)
    ensures Bit(n, i) == if low >= Pow2(i) then 1 else 0
    ensures low >= Pow2(i) ==> n == (2 * high + 1) * Pow2(i) + (low - Pow2(i))
    ensures low < Pow2(i) ==> n == (2 * high) * Pow2(i) + low
  {
    Pow2Doubles(i);
    var h, bit := Pow2(i), if low >= Pow2(i) then 1 else 0;
    hide Pow2;
    assert high * (2 * h) == (2 * high) * h;
    assert bit == 1 ==> (2 * high + 1) * h == (2 * high) * h + h;
    DivMod(n, h, 2 * high + bit, low - bit * h);
  }

  /** The factor of one point: -1 times the inverse challenges at the one-bits of its index, most significant first. */
  method PointFactor(inv: seq<Fr>, index: nat) returns (b: Fr)
    requires index < Pow2(|inv|)
    ensures b == Neg(FoldWeight(inv, index))
  {
    hide Mul, Neg, Pow2, FoldWeight, Bit;
    b := Neg(1);
    ghost var low: nat, high: nat := index, 0;
    assert inv[0..] == inv;
    for j := 0 to |inv|
      invariant index == high * Pow2(|inv| - j) + low && low < Pow2(|inv| - j)
      invariant Mul(b, FoldWeight(inv[j..], low)) == Mul(Neg(1), FoldWeight(inv, index))
    {
      var i := |inv| - 1 - j;
      Pow2Doubles(i);
      BitTellsHalf(index, i, high, low);
      NextFactor(inv[j..], low, b);
      assert inv[j..][1..] == inv[j + 1..];
      if Bit(index, i) == 1 {
        b := Mul(b, inv[j]);
        high, low := 2 * high + 1, low - Pow2(i);
      } else {
        high := 2 * high;
      }
    }
    NoFactorsLeft(low, b);
    MulNegOne(FoldWeight(inv, index));
  }

  lemma NextFactor(inv: seq<Fr>, low: nat, b: Fr)
    requires inv != []
    ensures Mul(b, FoldWeight(inv, low)) ==
      if low >= Pow2(|inv| - 1) then Mul(Mul(b, inv[0]), FoldWeight(inv[1..], low - Pow2(|inv| - 1))) else Mul(b, FoldWeight(inv[1..], low))
  {
    hide Mul, Pow2;
    if low >= Pow2(|inv| - 1) {
      MulAssoc(b, inv[0], FoldWeight(inv[1..], low - Pow2(|inv| - 1)));
    }
  }

  lemma NoFactorsLeft(low: nat, b: Fr)
    ensures Mul(b, FoldWeight([], low)) == b
  {
    MulOne(b);
  }

  lemma MulNegOne(x: Fr)
    ensures Mul(Neg(1), x) == Neg(x)
  {
    hide Red;
    var y: int := x;
    RedRed(0 - 1);
    RedRing(Red(0 - 1), y, 0 - 1, y);
    assert (0 - 1) * y == 0 - y;
  }

  /** `generate_challenges`. */
  method GenerateChallenges(proof: IpaProof, transcript: Transcript) returns (challenges: seq<Fr>)
    requires |proof.l| == |proof.r|
    modifies transcript
    ensures challenges == Challenges(old(transcript.state), proof.l, proof.r)
    ensures transcript.state == AfterRounds(old(transcript.state), proof.l, proof.r)
  {
    hide Challenge, AfterChallenge, AfterPoint;
    ghost var state := transcript.state;
    challenges := [];
    assert proof.l[0..] == proof.l && proof.r[0..] == proof.r;
    for i := 0 to |proof.l|
      invariant challenges + Challenges(transcript.state, proof.l[i..], proof.r[i..]) == Challenges(state, proof.l, proof.r)
      invariant AfterRounds(transcript.state, proof.l[i..], proof.r[i..]) == AfterRounds(state, proof.l, proof.r)
    {
      assert proof.l[i..][1..] == proof.l[i + 1..] && proof.r[i..][1..] == proof.r[i + 1..];
      ghost var before := transcript.state;
      transcript.AppendPoint(TAG_L, proof.l[i]);
      transcript.AppendPoint(TAG_R, proof.r[i]);
      var x := transcript.ChallengeScalar(TAG_X);
      assert Challenges(before, proof.l[i..], proof.r[i..]) == [x] + Challenges(transcript.state, proof.l[i + 1..], proof.r[i + 1..]);
      assert challenges + ([x] + Challenges(transcript.state, proof.l[i + 1..], proof.r[i + 1..]))
          == challenges + [x] + Challenges(transcript.state, proof.l[i + 1..], proof.r[i + 1..]);
      challenges := challenges + [x];
    }
  }

  /**
   The verifier; `None` when the numbers of left and right points differ, for then challenges do
   not pair with index bits, or scalars with points, and the source panics.
   */
  method VerifyMultiexp(proof: IpaProof, transcript: Transcript, crs: Crs, bVec: seq<Fr>, aComm: Element, inputPoint: Fr, outputPoint: Fr)
    returns (ok: Option<bool>)
    requires |bVec| == |crs.g| == crs.n
    modifies transcript
    ensures ok.None? <==> crs.n == Pow2(|proof.l|) && |proof.l| != |proof.r|
    ensures ok.Some? ==> (ok.value <==> |proof.l| == |proof.r| && Accepts(proof, old(transcript.state), crs, bVec, aComm, inputPoint, outputPoint))
    ensures GroupLaws() && ok.Some? ==>
      (ok.value <==> |proof.l| == |proof.r| && FoldingAccepts(proof, old(transcript.state), crs, bVec, aComm, inputPoint, outputPoint))
  {
    hide GroupLaws, FoldsTo, Red, Lin, Dot, Challenge, AfterChallenge, AfterPoint, AfterScalar, FoldWeight, Pow2, Challenges;
    ghost var state := transcript.state;
    if GroupLaws() && |proof.l| == |proof.r| {
      AcceptsIsFolding(proof, state, crs, bVec, aComm, inputPoint, outputPoint);
    }
    transcript.DomainSep(TAG_IPA);
    var logn := |proof.l|;
    if crs.n != Pow2(logn) {
      return Some(false);
    }
    if |proof.r| != logn {
      return None;
    }
    transcript.AppendPoint(TAG_C, aComm);
    transcript.AppendScalar(TAG_INPUT, inputPoint);
    transcript.AppendScalar(TAG_OUTPUT, outputPoint);
    var w := transcript.ChallengeScalar(TAG_W);
    var challenges := GenerateChallenges(proof, transcript);
    var challengesInv := Inverses(challenges);
    var gs: seq<Fr>, bs: seq<Fr> := [], [];
    ghost var weights := FoldWeights(challengesInv);
    for index := 0 to crs.n
      invariant bs == Negated(weights)[..index] && gs == ScaledBy(proof.a, Negated(weights))[..index]
    {
      var b := PointFactor(challengesInv, index);
      bs := bs + [b];
      gs := gs + [Mul(proof.a, b)];
    }
    assert bs == Negated(weights) && gs == ScaledBy(proof.a, Negated(weights));
    var b0 := InnerProduct(bVec, bs);
    var qs := Mul(w, Add(outputPoint, Mul(proof.a, b0)));
    ok := Some(Lin(challenges + challengesInv + [1, qs] + gs, proof.l + proof.r + [aComm, crs.q] + crs.g) == Zero);
  }

  /** An honest proof, checked by a verifier who starts from the same transcript and claims the right value, passes. */
  method ProveAndVerify(state: seq<Byte>, crs: Crs, a: seq<Fr>, b: seq<Fr>, inputPoint: Fr) returns (proof: Option<IpaProof>, ok: bool)
    requires GroupLaws() && IsField() && |a| == |b| == |crs.g| == crs.n && IsPowerOfTwo(crs.n)
    ensures proof.Some? ==> ok
  {
    hide GroupLaws, IsField, Accepts, IsPowerOfTwo, Dot, Lin;
    var aComm := Lin(a, crs.g);
    var prover := new Transcript(state);
    proof := Create(prover, crs, a, aComm, b, inputPoint);
    ok := false;
    if proof.Some? {
      IpaComplete(state, crs, a, aComm, b, inputPoint, proof.value);
      var verifier := new Transcript(state);
      var output := InnerProduct(a, b);
      var accepted := VerifyMultiexp(proof.value, verifier, crs, b, aComm, inputPoint, output);
      ok := accepted == Some(true);
    }
  }
}
