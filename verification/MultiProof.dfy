/**
 The multipoint argument: many polynomials, each opened at its own point of the domain, are
 folded into one opening outside the domain.
 */
module MultiProof {
  import opened Wrappers
  import opened Scalars
  import opened Elements
  import opened Transcripts
  import opened Bits
  import opened Ipa
  import opened Lagrange

  // ---------------------------------------------------------------- sums by point and by query

  /** 1 / (t - p). */
  function PointWeight(t: Fr, p: nat): Fr {
    InverseOrZero(Sub(t, Red(p)))
  }

  /** The weighted values of the first `m` queries at point `p`. */
  ghost function AtPoint(zs: seq<nat>, pw: seq<Fr>, xs: seq<Fr>, p: nat, m: nat): int
    requires |zs| == |pw| == |xs| && m <= |zs|
  {
    if m == 0 then 0 else AtPoint(zs, pw, xs, p, m - 1) + if zs[m - 1] == p then Prod(pw[m - 1], xs[m - 1]) else 0
  }

  /** The same sum over all points in some order, each point weighed. */
  ghost function ByPoint(order: seq<nat>, t: Fr, zs: seq<nat>, pw: seq<Fr>, xs: seq<Fr>, m: nat): int
    requires |zs| == |pw| == |xs| && m <= |zs|
  {
    if order == [] then 0
    else
      var n := |order| - 1;
      ByPoint(order[..n], t, zs, pw, xs, m) + Prod(PointWeight(t, order[n]), AtPoint(zs, pw, xs, order[n], m))
  }

  /** The weighted values of the first `m` queries, each query weighed by its point. */
  ghost function ByQuery(t: Fr, zs: seq<nat>, pw: seq<Fr>, xs: seq<Fr>, m: nat): int
    requires |zs| == |pw| == |xs| && m <= |zs|
  {
    if m == 0 then 0 else ByQuery(t, zs, pw, xs, m - 1) + Prod(PointWeight(t, zs[m - 1]), Prod(pw[m - 1], xs[m - 1]))
  }

  ghost predicate DistinctPoints(order: seq<nat>) {
    forall i, j :: 0 <= i < j < |order| ==> order[i] != order[j]
  }

  /** `order` lists the points of the queries, each once. */
  ghost predicate Groups(order: seq<nat>, zs: seq<nat>) {
    DistinctPoints(order) && (forall p :: p in order <==> p in zs)
  }

  lemma ProdAdd(w: int, a: int, b: int)
    ensures Prod(w, a + b) == Prod(w, a) + Prod(w, b)
    ensures Prod(w, 0) == 0
  {
  }

  /** One more query adds its term to the one point it is at. */
  lemma {:induction false} ByPointNext(order: seq<nat>, t: Fr, zs: seq<nat>, pw: seq<Fr>, xs: seq<Fr>, m: nat)
    requires |zs| == |pw| == |xs| && m < |zs| && DistinctPoints(order)
    ensures ByPoint(order, t, zs, pw, xs, m + 1) ==
            ByPoint(order, t, zs, pw, xs, m) + if zs[m] in order then Prod(PointWeight(t, zs[m]), Prod(pw[m], xs[m])) else 0
  {
    hide Prod, PointWeight;
    if order != [] {
      var n := |order| - 1;
      ByPointNext(order[..n], t, zs, pw, xs, m);
      assert forall p :: p in order <==> p in order[..n] || p == order[n];
      ProdAdd(PointWeight(t, order[n]), AtPoint(zs, pw, xs, order[n], m), Prod(pw[m], xs[m]));
    }
  }

  lemma {:induction false} ByPointNone(order: seq<nat>, t: Fr, zs: seq<nat>, pw: seq<Fr>, xs: seq<Fr>)
    requires |zs| == |pw| == |xs|
    ensures ByPoint(order, t, zs, pw, xs, 0) == 0
  {
    hide Prod, PointWeight;
    if order != [] {
      ByPointNone(order[..|order| - 1], t, zs, pw, xs);
      ProdAdd(PointWeight(t, order[|order| - 1]), 0, 0);
    }
  }

  /** Summing point by point, in any order, is summing query by query. */
  lemma {:induction false} GroupingIsFree(order: seq<nat>, t: Fr, zs: seq<nat>, pw: seq<Fr>, xs: seq<Fr>, m: nat)
    requires |zs| == |pw| == |xs| && m <= |zs| && Groups(order, zs)
    ensures ByPoint(order, t, zs, pw, xs, m) == ByQuery(t, zs, pw, xs, m)
  {
    hide Prod, PointWeight;
    if m == 0 {
      ByPointNone(order, t, zs, pw, xs);
    } else {
      GroupingIsFree(order, t, zs, pw, xs, m - 1);
      assert zs[m - 1] in zs;
      ByPointNext(order, t, zs, pw, xs, m - 1);
    }
  }

  // ---------------------------------------------------------------- the prover's polynomials

  ghost predicate InDomain(order: seq<nat>, n: nat) {
    forall i :: 0 <= i < |order| ==> order[i] < n
  }

  ghost predicate WellFormed(zs: seq<nat>, fs: seq<seq<Fr>>, pw: seq<Fr>, n: nat) {
    |zs| == |fs| == |pw| && DomainOk(n) && forall j :: 0 <= j < |zs| ==> |fs[j]| == n && zs[j] < n
  }

  function Column(fs: seq<seq<Fr>>, k: nat): (xs: seq<Fr>)
    requires forall j :: 0 <= j < |fs| ==> k < |fs[j]|
    ensures |xs| == |fs|
  {
    seq(|fs|, j requires 0 <= j < |fs| => fs[j][k])
  }

  /** The polynomials at point `p`, folded with their powers. */
  ghost function Aggregated(zs: seq<nat>, fs: seq<seq<Fr>>, pw: seq<Fr>, p: nat, n: nat): (f: seq<Fr>)
    requires WellFormed(zs, fs, pw, n)
    ensures |f| == n
  {
    seq(n, k requires 0 <= k < n => Red(AtPoint(zs, pw, Column(fs, k), p, |zs|)))
  }

  /** The sum of the quotients (f_p - f_p(p)) / (X - p). */
  ghost function QuotientSum(order: seq<nat>, zs: seq<nat>, fs: seq<seq<Fr>>, pw: seq<Fr>, n: nat): (g: seq<int>)
    requires WellFormed(zs, fs, pw, n) && InDomain(order, n)
    ensures |g| == n
  {
    if order == [] then seq(n, _ => 0)
    else
      var m := |order| - 1;
      VecAdd(QuotientSum(order[..m], zs, fs, pw, n), Quotient(Aggregated(zs, fs, pw, order[m], n), order[m]))
  }

  /** The sum of f_p / (t - p). */
  ghost function WeighedSum(order: seq<nat>, t: Fr, zs: seq<nat>, fs: seq<seq<Fr>>, pw: seq<Fr>, n: nat): (g: seq<int>)
    requires WellFormed(zs, fs, pw, n)
    ensures |g| == n
  {
    if order == [] then seq(n, _ => 0)
    else
      var m := |order| - 1;
      VecAdd(WeighedSum(order[..m], t, zs, fs, pw, n), VecScale(PointWeight(t, order[m]), Aggregated(zs, fs, pw, order[m], n)))
  }

  /** Each value of the weighed sum is a sum by point. */
  lemma {:induction false} WeighedSumAt(order: seq<nat>, t: Fr, zs: seq<nat>, fs: seq<seq<Fr>>, pw: seq<Fr>, n: nat, k: nat)
    requires WellFormed(zs, fs, pw, n) && k < n
    ensures Red(WeighedSum(order, t, zs, fs, pw, n)[k]) == Red(ByPoint(order, t, zs, pw, Column(fs, k), |zs|))
  {
    hide Prod, PointWeight, Red, AtPoint, Column;
    if order != [] {
      var m := |order| - 1;
      WeighedSumAt(order[..m], t, zs, fs, pw, n, k);
      var s := AtPoint(zs, pw, Column(fs, k), order[m], |zs|);
      RedRed(s);
      WeighRed(PointWeight(t, order[m]), s);
      SumSame(WeighedSum(order[..m], t, zs, fs, pw, n)[k], PointWeight(t, order[m]) * Red(s),
              ByPoint(order[..m], t, zs, pw, Column(fs, k), |zs|), Prod(PointWeight(t, order[m]), s));
    }
  }

  lemma WeighRed(w: int, s: int)
    ensures Red(w * Red(s)) == Red(Prod(w, Red(s))) == Red(Prod(w, s))
  {
    hide Red;
    RedRed(s);
    RedRing(w, Red(s), w, s);
  }

  // ---------------------------------------------------------------- values at t

  ghost function ValueSum(order: seq<nat>, t: Fr, zs: seq<nat>, pw: seq<Fr>, ys: seq<Fr>): int
    requires |zs| == |pw| == |ys|
  {
    ByPoint(order, t, zs, pw, ys, |zs|)
  }

  /** At its own point the aggregated polynomial has the aggregated results. */
  lemma {:induction false} AggregatedResult(zs: seq<nat>, fs: seq<seq<Fr>>, pw: seq<Fr>, ys: seq<Fr>, p: nat, n: nat, m: nat)
    requires WellFormed(zs, fs, pw, n) && |ys| == |zs| && p < n && m <= |zs|
    requires forall j :: 0 <= j < |zs| ==> ys[j] == fs[j][zs[j]]
    ensures AtPoint(zs, pw, Column(fs, p), p, m) == AtPoint(zs, pw, ys, p, m)
  {
    if m > 0 {
      AggregatedResult(zs, fs, pw, ys, p, n, m - 1);
    }
  }

  /** One point: the weighed polynomial minus the quotient, at t, is the weighed result. */
  lemma {:induction false} PointDifference(f: seq<Fr>, p: nat, t: Fr)
    requires IsField() && p < |f| <= t
    ensures var c := Coefficients(t, |f|);
            Red(Prod(PointWeight(t, p), Dot(f, c)) - Dot(Quotient(f, p), c)) == Red(Prod(PointWeight(t, p), f[p]))
  {
    var c, w := Coefficients(t, |f|), PointWeight(t, p);
    DivisionIsExact(f, p, t);
    PointWeightIs(t, p);
    hide IsField, Red, Quotient, Coefficients, Dot, PointWeight;
    DivideBoth(Dot(Quotient(f, p), c), Dot(f, c), f[p], t - p, w);
  }

  lemma PointWeightIs(t: Fr, p: nat)
    requires IsField() && p < t
    ensures Red(PointWeight(t, p) * (t - p)) == 1
  {
    RedRed(p);
    RedRed(t - p);
    hide Red;
    InverseIs(t - p);
  }

  lemma DivideBoth(q: int, f: int, y: int, d: int, w: int)
    requires Red(Red(q) * d) == Red(Red(f) - y) && Red(w * d) == 1
    ensures Red(Prod(w, f) - q) == Red(Prod(w, y))
  {
    hide Red;
    RedRed(q);
    RedRed(f);
    RedRing(Red(q), d, q, d);
    RedRing(Red(f), y, f, y);
    RedRing(w, q * d, w, f - y);
    RedUnit(w, d, q);
    assert w * d * q == w * (q * d);
    RedRing(w * f, w * (f - y), w * f, q);
    assert w * f - w * (f - y) == w * y;
  }

  /** g_1(t) - g(t) is the sum of the weighed results. */
  lemma {:induction false} DifferenceAtT(order: seq<nat>, t: Fr, zs: seq<nat>, fs: seq<seq<Fr>>, pw: seq<Fr>, ys: seq<Fr>, n: nat)
    requires IsField() && WellFormed(zs, fs, pw, n) && n <= t && InDomain(order, n)
    requires |ys| == |zs| && forall j :: 0 <= j < |zs| ==> ys[j] == fs[j][zs[j]]
    ensures var c := Coefficients(t, n);
            Red(Dot(WeighedSum(order, t, zs, fs, pw, n), c) - Dot(QuotientSum(order, zs, fs, pw, n), c)) == Red(ValueSum(order, t, zs, pw, ys))
  {
    hide IsField, Red, Quotient, Coefficients, Dot, PointWeight, Prod, Aggregated, AtPoint;
    var c := Coefficients(t, n);
    if order == [] {
      DotZeros(n, c);
    } else {
      var m := |order| - 1;
      var p, rest := order[m], order[..m];
      DifferenceAtT(rest, t, zs, fs, pw, ys, n);
      var f := Aggregated(zs, fs, pw, p, n);
      PointDifference(f, p, t);
      AggregatedAt(zs, fs, pw, ys, p, n);
      WeighRed(PointWeight(t, p), AtPoint(zs, pw, ys, p, |zs|));
      DotAdd(WeighedSum(rest, t, zs, fs, pw, n), VecScale(PointWeight(t, p), f), c);
      DotScale(PointWeight(t, p), f, c);
      DotAdd(QuotientSum(rest, zs, fs, pw, n), Quotient(f, p), c);
      AddDifferences(Dot(WeighedSum(rest, t, zs, fs, pw, n), c), Dot(QuotientSum(rest, zs, fs, pw, n), c), ValueSum(rest, t, zs, pw, ys),
                     Prod(PointWeight(t, p), Dot(f, c)), Dot(Quotient(f, p), c), Prod(PointWeight(t, p), AtPoint(zs, pw, ys, p, |zs|)), Prod(PointWeight(t, p), f[p]));
    }
  }

  lemma AggregatedAt(zs: seq<nat>, fs: seq<seq<Fr>>, pw: seq<Fr>, ys: seq<Fr>, p: nat, n: nat)
    requires WellFormed(zs, fs, pw, n) && |ys| == |zs| && p < n
    requires forall j :: 0 <= j < |zs| ==> ys[j] == fs[j][zs[j]]
    ensures Aggregated(zs, fs, pw, p, n)[p] == Red(AtPoint(zs, pw, ys, p, |zs|))
  {
    AggregatedResult(zs, fs, pw, ys, p, n, |zs|);
  }

  lemma AddDifferences(a: int, b: int, s: int, x: int, y: int, v: int, u: int)
    requires Red(a - b) == Red(s) && Red(x - y) == Red(u) && Red(u) == Red(v)
    ensures Red((a + x) - (b + y)) == Red(s + v)
  {
    hide Red;
    SumSame(a - b, x - y, s, v);
    assert (a - b) + (x - y) == (a + x) - (b + y);
  }

  lemma {:induction false} DotZeros(n: nat, c: seq<int>)
    requires |c| == n
    ensures Dot(seq(n, _ => 0), c) == 0
  {
    var z := seq(n, _ => 0);
    if n > 0 {
      DotZeros(n - 1, c[..n - 1]);
      assert z[..n - 1] == seq(n - 1, _ => 0);
    }
  }

  // ---------------------------------------------------------------- queries and the transcript

  const TAG_MULTIPROOF := Ascii("multiproof")
  const TAG_Z := Ascii("z")
  const TAG_Y := Ascii("y")
  const TAG_SMALL_R := Ascii("r")
  const TAG_T := Ascii("t")
  const TAG_D := Ascii("D")
  const TAG_E := Ascii("E")

  datatype ProverQuery = ProverQuery(commitment: Element, poly: LagrangeBasis, point: nat, result: Fr)

  datatype VerifierQuery = VerifierQuery(commitment: Element, point: Fr, result: Fr)

  function ToVerifier(q: ProverQuery): VerifierQuery {
    VerifierQuery(q.commitment, Red(q.point), q.result)
  }

  function ToVerifiers(qs: seq<ProverQuery>): (vs: seq<VerifierQuery>)
    ensures |vs| == |qs|
  {
    seq(|qs|, i requires 0 <= i < |qs| => ToVerifier(qs[i]))
  }

  /** Commitment, point and result of every query, appended one after another. */
  function AfterQueries(state: seq<Byte>, vs: seq<VerifierQuery>): seq<Byte> {
    if vs == [] then state
    else
      var n := |vs| - 1;
      AfterScalar(AfterScalar(AfterPoint(AfterQueries(state, vs[..n]), TAG_C, vs[n].commitment), TAG_Z, vs[n].point), TAG_Y, vs[n].result)
  }

  const BYTES_PER_QUERY := 99

  function QueryBytes(v: VerifierQuery): seq<Byte> {
    TAG_C + PointBytes(v.commitment) + TAG_Z + ScalarBytes(v.point) + TAG_Y + ScalarBytes(v.result)
  }

  function AllBytes(vs: seq<VerifierQuery>): seq<Byte> {
    if vs == [] then [] else AllBytes(vs[..|vs| - 1]) + QueryBytes(vs[|vs| - 1])
  }

  lemma {:induction false} AllBytesAppend(state: seq<Byte>, vs: seq<VerifierQuery>)
    ensures AfterQueries(state, vs) == state + AllBytes(vs)
  {
    if vs == [] {
      assert state + [] == state;
    } else {
      var n := |vs| - 1;
      AllBytesAppend(state, vs[..n]);
      var s, v := AllBytes(vs[..n]), vs[n];
      assert AfterQueries(state, vs) == (state + s) + TAG_C + PointBytes(v.commitment) + TAG_Z + ScalarBytes(v.point) + TAG_Y + ScalarBytes(v.result);
      assert state + (s + QueryBytes(v)) == (state + s) + TAG_C + PointBytes(v.commitment) + TAG_Z + ScalarBytes(v.point) + TAG_Y + ScalarBytes(v.result);
    }
  }

  /** Copies `source` into the buffer at `start`. */
  method CopyInto(buffer: array<Byte>, start: nat, source: seq<Byte>)
    requires start + |source| <= buffer.Length
    modifies buffer
    ensures buffer[..start + |source|] == old(buffer[..start]) + source
    ensures forall j :: start + |source| <= j < buffer.Length ==> buffer[j] == old(buffer[j])
  {
    for i := 0 to |source|
      invariant buffer[..start + i] == old(buffer[..start]) + source[..i]
      invariant forall j :: start + i <= j < buffer.Length ==> buffer[j] == old(buffer[j])
    {
      buffer[start + i] := source[i];
    }
    assert source[..|source|] == source;
  }

  /** One query's 99 bytes. */
  method FillQueryBytes(buffer: array<Byte>, start: nat, v: VerifierQuery)
    requires EncodingLengths() && start + BYTES_PER_QUERY <= buffer.Length
    modifies buffer
    ensures buffer[..start + BYTES_PER_QUERY] == old(buffer[..start]) + QueryBytes(v)
    ensures forall j :: start + BYTES_PER_QUERY <= j < buffer.Length ==> buffer[j] == old(buffer[j])
  {
    ghost var before := buffer[..start];
    CopyInto(buffer, start, TAG_C);
    CopyInto(buffer, start + 1, PointBytes(v.commitment));
    CopyInto(buffer, start + 33, TAG_Z);
    CopyInto(buffer, start + 34, ScalarBytes(v.point));
    CopyInto(buffer, start + 66, TAG_Y);
    CopyInto(buffer, start + 67, ScalarBytes(v.result));
    var c, z, y := PointBytes(v.commitment), ScalarBytes(v.point), ScalarBytes(v.result);
    assert before + TAG_C + c + TAG_Z + z + TAG_Y + y == before + (TAG_C + c + TAG_Z + z + TAG_Y + y);
  }

  /** `record_query_transcript`: one resize and a fill in place, for the bytes that appending would give. */
  method RecordQueryTranscript(transcript: Transcript, vs: seq<VerifierQuery>)
    requires EncodingLengths()
    modifies transcript
    ensures transcript.state == AfterQueries(old(transcript.state), vs)
  {
    hide EncodingLengths, QueryBytes;
    var buffer := new Byte[|vs| * BYTES_PER_QUERY](_ => 0);
    for i := 0 to |vs|
      invariant transcript.state == old(transcript.state) && |AllBytes(vs[..i])| == i * BYTES_PER_QUERY
      invariant buffer[..i * BYTES_PER_QUERY] == AllBytes(vs[..i])
    {
      QueryLength(vs[i]);
      FillQueryBytes(buffer, i * BYTES_PER_QUERY, vs[i]);
      assert vs[..i + 1][..i] == vs[..i];
    }
    assert vs[..|vs|] == vs && buffer[..|vs| * BYTES_PER_QUERY] == buffer[..];
    AllBytesAppend(transcript.state, vs);
    transcript.state := transcript.state + buffer[..];
  }

  lemma QueryLength(v: VerifierQuery)
    requires EncodingLengths()
    ensures |QueryBytes(v)| == BYTES_PER_QUERY
  {
  }

  // ---------------------------------------------------------------- the proof and its check

  datatype MultiPointProof = MultiPointProof(openProof: IpaProof, gComm: Element)

  function PowersTo(r: Fr, m: nat): (pw: seq<Fr>)
    ensures |pw| == m
  {
    seq(m, i requires 0 <= i < m => Power(r, i))
  }

  function Minus(a: Element, b: Element): Element {
    Plus(a, Times(-1, b))
  }

  ghost predicate QueriesSized(qs: seq<ProverQuery>, crs: Crs) {
    && qs != [] && |crs.g| == crs.n && DomainOk(crs.n) && IsPowerOfTwo(crs.n)
    && forall j :: 0 <= j < |qs| ==> qs[j].poly.Valid(crs.n) && qs[j].point < crs.n
  }

  ghost function QueryPoints(qs: seq<ProverQuery>): (zs: seq<nat>)
    ensures |zs| == |qs|
  {
    seq(|qs|, j requires 0 <= j < |qs| => qs[j].point)
  }

  ghost function Polys(qs: seq<ProverQuery>): (fs: seq<seq<Fr>>)
    ensures |fs| == |qs|
  {
    seq(|qs|, j requires 0 <= j < |qs| => qs[j].poly.values)
  }

  /** g(X). */
  ghost function GPoly(order: seq<nat>, qs: seq<ProverQuery>, pw: seq<Fr>, n: nat): (g: seq<Fr>)
    requires WellFormed(QueryPoints(qs), Polys(qs), pw, n) && InDomain(order, n)
    ensures |g| == n
  {
    Reduced(QuotientSum(order, QueryPoints(qs), Polys(qs), pw, n))
  }

  /** g_1(X). */
  ghost function G1Poly(order: seq<nat>, t: Fr, qs: seq<ProverQuery>, pw: seq<Fr>, n: nat): (g: seq<Fr>)
    requires WellFormed(QueryPoints(qs), Polys(qs), pw, n)
    ensures |g| == n
  {
    Reduced(WeighedSum(order, t, QueryPoints(qs), Polys(qs), pw, n))
  }

  function Difference(a: seq<Fr>, b: seq<Fr>): (d: seq<Fr>)
    requires |a| == |b|
    ensures |d| == |a|
  {
    Reduced(VecAdd(a, Negated(b)))
  }

  /** The transcript after the queries and the challenge r. */
  function AfterR(state: seq<Byte>, vs: seq<VerifierQuery>): seq<Byte> {
    AfterChallenge(AfterQueries(state + TAG_MULTIPROOF, vs), TAG_SMALL_R)
  }

  function ChallengeR(state: seq<Byte>, vs: seq<VerifierQuery>): Fr {
    Challenge(AfterQueries(state + TAG_MULTIPROOF, vs), TAG_SMALL_R)
  }

  function AfterD(state: seq<Byte>, vs: seq<VerifierQuery>, d: Element): seq<Byte> {
    AfterPoint(AfterR(state, vs), TAG_D, d)
  }

  /** The point at which the folded polynomial is opened. */
  function ChallengeT(state: seq<Byte>, vs: seq<VerifierQuery>, d: Element): Fr {
    Challenge(AfterD(state, vs, d), TAG_T)
  }

  function AfterE(state: seq<Byte>, vs: seq<VerifierQuery>, d: Element, e: Element): seq<Byte> {
    AfterPoint(AfterChallenge(AfterD(state, vs, d), TAG_T), TAG_E, e)
  }

  // ---------------------------------------------------------------- what the challenges bind

  lemma {:induction false} AllBytesLength(vs: seq<VerifierQuery>)
    requires EncodingLengths()
    ensures |AllBytes(vs)| == BYTES_PER_QUERY * |vs|
  {
    if vs != [] {
      AllBytesLength(vs[..|vs| - 1]);
      QueryLength(vs[|vs| - 1]);
    }
  }

  lemma QueryBytesBind(v: VerifierQuery, w: VerifierQuery)
    requires EncodingsDistinguish() && QueryBytes(v) == QueryBytes(w)
    ensures v == w
  {
    var v1, w1 := TAG_C + PointBytes(v.commitment) + TAG_Z + ScalarBytes(v.point), TAG_C + PointBytes(w.commitment) + TAG_Z + ScalarBytes(w.point);
    AfterMessageBinds(v1, w1, TAG_Y, ScalarBytes(v.result), ScalarBytes(w.result));
    AfterMessageBinds(TAG_C + PointBytes(v.commitment), TAG_C + PointBytes(w.commitment), TAG_Z, ScalarBytes(v.point), ScalarBytes(w.point));
    TailsAgree(TAG_C, PointBytes(v.commitment), TAG_C, PointBytes(w.commitment));
  }

  lemma {:induction false} AllBytesBind(vs: seq<VerifierQuery>, ws: seq<VerifierQuery>)
    requires EncodingsDistinguish() && AllBytes(vs) == AllBytes(ws)
    ensures vs == ws
  {
    hide EncodingsDistinguish, EncodingLengths, QueryBytes;
    assert EncodingLengths() by { LengthsKnown(); }
    AllBytesLength(vs);
    AllBytesLength(ws);
    if vs != [] {
      var n := |vs| - 1;
      QueryLength(vs[n]);
      QueryLength(ws[n]);
      TailsAgree(AllBytes(vs[..n]), QueryBytes(vs[n]), AllBytes(ws[..n]), QueryBytes(ws[n]));
      QueryBytesBind(vs[n], ws[n]);
      AllBytesBind(vs[..n], ws[..n]);
      assert vs == vs[..n] + [vs[n]] && ws == ws[..n] + [ws[n]];
    }
  }

  lemma LengthsKnown()
    requires EncodingsDistinguish()
    ensures EncodingLengths()
  {
  }

  /** The bytes of a list of queries are those of no other list. */
  lemma QueriesBind(state: seq<Byte>, vs: seq<VerifierQuery>, ws: seq<VerifierQuery>)
    requires EncodingsDistinguish()
    ensures AfterQueries(state, vs) == AfterQueries(state, ws) <==> vs == ws
  {
    if AfterQueries(state, vs) == AfterQueries(state, ws) {
      AllBytesAppend(state, vs);
      AllBytesAppend(state, ws);
      assert AllBytes(vs) == (state + AllBytes(vs))[|state|..] && AllBytes(ws) == (state + AllBytes(ws))[|state|..];
      AllBytesBind(vs, ws);
    }
  }

  /** What is hashed up to the point t. */
  ghost function HashedForT(state: seq<Byte>, vs: seq<VerifierQuery>, d: Element): set<seq<Byte>> {
    {AfterQueries(state + TAG_MULTIPROOF, vs) + TAG_SMALL_R, AfterD(state, vs, d) + TAG_T}
  }

  /** The factor r binds all queries. */
  lemma RBinds(state: seq<Byte>, vs: seq<VerifierQuery>, ws: seq<VerifierQuery>)
    requires EncodingsDistinguish()
    requires HashDistinguishes({AfterQueries(state + TAG_MULTIPROOF, vs) + TAG_SMALL_R, AfterQueries(state + TAG_MULTIPROOF, ws) + TAG_SMALL_R})
    ensures ChallengeR(state, vs) == ChallengeR(state, ws) <==> vs == ws
    ensures AfterR(state, vs) == AfterR(state, ws) <==> vs == ws
  {
    hide EncodingsDistinguish, AfterQueries, HashDistinguishes, Challenge, AfterChallenge;
    var a, b := AfterQueries(state + TAG_MULTIPROOF, vs), AfterQueries(state + TAG_MULTIPROOF, ws);
    ChallengeBinds(a, TAG_SMALL_R, b, TAG_SMALL_R);
    AfterChallengeBinds(a, b, TAG_SMALL_R);
    QueriesBind(state + TAG_MULTIPROOF, vs, ws);
  }

  /** The point t binds all queries and the commitment D. */
  lemma TBinds(state: seq<Byte>, vs: seq<VerifierQuery>, d1: Element, ws: seq<VerifierQuery>, d2: Element)
    requires EncodingsDistinguish() && HashDistinguishes(HashedForT(state, vs, d1) + HashedForT(state, ws, d2))
    ensures ChallengeT(state, vs, d1) == ChallengeT(state, ws, d2) <==> vs == ws && d1 == d2
    ensures AfterChallenge(AfterD(state, vs, d1), TAG_T) == AfterChallenge(AfterD(state, ws, d2), TAG_T) <==> vs == ws && d1 == d2
  {
    hide EncodingsDistinguish, AfterQueries, HashDistinguishes, Challenge, AfterChallenge, AfterPoint;
    var all := HashedForT(state, vs, d1) + HashedForT(state, ws, d2);
    FewerInputs({AfterQueries(state + TAG_MULTIPROOF, vs) + TAG_SMALL_R, AfterQueries(state + TAG_MULTIPROOF, ws) + TAG_SMALL_R}, all);
    FewerInputs({AfterD(state, vs, d1) + TAG_T, AfterD(state, ws, d2) + TAG_T}, all);
    ChallengeBinds(AfterD(state, vs, d1), TAG_T, AfterD(state, ws, d2), TAG_T);
    AfterChallengeBinds(AfterD(state, vs, d1), AfterD(state, ws, d2), TAG_T);
    AfterPointBinds(AfterR(state, vs), AfterR(state, ws), TAG_D, d1, d2);
    RBinds(state, vs, ws);
  }

  /** What the inner product argument starts from binds all queries, D and E. */
  lemma EBinds(state: seq<Byte>, vs: seq<VerifierQuery>, d1: Element, e1: Element, ws: seq<VerifierQuery>, d2: Element, e2: Element)
    requires EncodingsDistinguish() && HashDistinguishes(HashedForT(state, vs, d1) + HashedForT(state, ws, d2))
    ensures AfterE(state, vs, d1, e1) == AfterE(state, ws, d2, e2) <==> vs == ws && d1 == d2 && e1 == e2
  {
    hide EncodingsDistinguish, AfterQueries, HashDistinguishes, AfterChallenge, AfterPoint, AfterD, HashedForT;
    TBinds(state, vs, d1, ws, d2);
    AfterPointBinds(AfterChallenge(AfterD(state, vs, d1), TAG_T), AfterChallenge(AfterD(state, ws, d2), TAG_T), TAG_E, e1, e2);
  }

  /** `proof` is what the prover makes when it visits the groups of queries in this order. */
  ghost predicate OpenedBy(state: seq<Byte>, crs: Crs, qs: seq<ProverQuery>, order: seq<nat>, proof: MultiPointProof)
    requires QueriesSized(qs, crs)
  {
    var vs := ToVerifiers(qs);
    var pw := PowersTo(ChallengeR(state, vs), |qs|);
    && Groups(order, QueryPoints(qs)) && InDomain(order, crs.n)
    && var g := GPoly(order, qs, pw, crs.n);
    var d := Lin(g, crs.g);
    var t := ChallengeT(state, vs, d);
    var g1 := G1Poly(order, t, qs, pw, crs.n);
    var e := Lin(g1, crs.g);
    && proof.gComm == d
    && ProofOf(AfterE(state, vs, d, e), crs, Difference(g1, g), Minus(e, d), Coefficients(t, crs.n), t) == Some(proof.openProof)
  }

  /** r^j / (t - z_j) for every query. */
  function HelperScalars(t: Fr, vs: seq<VerifierQuery>, pw: seq<Fr>): (h: seq<Fr>)
    requires |pw| == |vs|
    ensures |h| == |vs|
  {
    seq(|vs|, j requires 0 <= j < |vs| => Mul(InverseOrZero(Sub(t, vs[j].point)), pw[j]))
  }

  function Commitments(vs: seq<VerifierQuery>): (cs: seq<Element>)
    ensures |cs| == |vs|
  {
    seq(|vs|, j requires 0 <= j < |vs| => vs[j].commitment)
  }

  function Results(vs: seq<VerifierQuery>): (ys: seq<Fr>)
    ensures |ys| == |vs|
  {
    seq(|vs|, j requires 0 <= j < |vs| => vs[j].result)
  }

  /** What the verifier checks. */
  ghost predicate CheckAccepts(state: seq<Byte>, crs: Crs, vs: seq<VerifierQuery>, proof: MultiPointProof)
    requires |proof.openProof.l| == |proof.openProof.r| && |crs.g| == crs.n
  {
    var d := proof.gComm;
    var pw := PowersTo(ChallengeR(state, vs), |vs|);
    var t := ChallengeT(state, vs, d);
    var helpers := HelperScalars(t, vs, pw);
    var e := Lin(helpers, Commitments(vs));
    Accepts(proof.openProof, AfterE(state, vs, d, e), crs, Coefficients(t, crs.n), Minus(e, d), t, Red(Dot(helpers, Results(vs))))
  }

  /** The combined commitment and the combined result, query by query: each is divided by t - z and weighed by the power so far. */
  ghost function CombinedCommitment(t: Fr, r: Fr, power: Fr, vs: seq<VerifierQuery>): Element
    decreases |vs|
  {
    if vs == [] then Zero
    else Plus(Times(Mul(InverseOrZero(Sub(t, vs[0].point)), power), vs[0].commitment), CombinedCommitment(t, r, Mul(power, r), vs[1..]))
  }

  ghost function CombinedResult(t: Fr, r: Fr, power: Fr, vs: seq<VerifierQuery>): int
    decreases |vs|
  {
    if vs == [] then 0
    else Mul(InverseOrZero(Sub(t, vs[0].point)), power) * vs[0].result + CombinedResult(t, r, Mul(power, r), vs[1..])
  }

  /** The textbook verifier: it combines the queries one by one and folds the argument round by round. */
  ghost predicate FoldingChecks(state: seq<Byte>, crs: Crs, vs: seq<VerifierQuery>, proof: MultiPointProof)
    requires |proof.openProof.l| == |proof.openProof.r| && |crs.g| == crs.n
  {
    var r, t := ChallengeR(state, vs), ChallengeT(state, vs, proof.gComm);
    var e := CombinedCommitment(t, r, 1, vs);
    FoldingAccepts(proof.openProof, AfterE(state, vs, proof.gComm, e), crs, Coefficients(t, crs.n), Minus(e, proof.gComm), t, Red(CombinedResult(t, r, 1, vs)))
  }

  lemma {:induction false} CombinedIsLin(t: Fr, r: Fr, k: nat, vs: seq<VerifierQuery>, h: seq<Fr>)
    requires GroupLaws() && |h| == |vs|
    requires forall j :: 0 <= j < |vs| ==> h[j] == Mul(InverseOrZero(Sub(t, vs[j].point)), Power(r, k + j))
    ensures Lin(h, Commitments(vs)) == CombinedCommitment(t, r, Power(r, k), vs)
    ensures Dot(h, Results(vs)) == CombinedResult(t, r, Power(r, k), vs)
    decreases |vs|
  {
    hide GroupLaws, Mul, Sub, InverseOrZero;
    if vs != [] {
      var cs, ys := Commitments(vs), Results(vs);
      forall j | 0 <= j < |vs[1..]|
        ensures h[1..][j] == Mul(InverseOrZero(Sub(t, vs[1..][j].point)), Power(r, k + 1 + j))
      {
        assert h[1..][j] == h[j + 1] && vs[1..][j] == vs[j + 1];
      }
      CombinedIsLin(t, r, k + 1, vs[1..], h[1..]);
      assert cs == [cs[0]] + Commitments(vs[1..]) && ys == [ys[0]] + Results(vs[1..]) && h == [h[0]] + h[1..];
      FirstTerm(h[0], cs[0], ys[0], h[1..], Commitments(vs[1..]), Results(vs[1..]));
    }
  }

  lemma FirstTerm(x: Fr, c: Element, y: Fr, h: seq<Fr>, cs: seq<Element>, ys: seq<Fr>)
    requires GroupLaws() && |h| == |cs| == |ys|
    ensures Lin([x] + h, [c] + cs) == Plus(Times(x, c), Lin(h, cs))
    ensures Dot([x] + h, [y] + ys) == x * y + Dot(h, ys)
  {
    hide GroupLaws, Lin, Dot;
    LinConcat([x], [c], h, cs);
    LinOne(x, c);
    DotConcat([x], [y], h, ys);
    DotSingle(x, y);
  }

  /** For every proof and every list of queries, honest or not: `check` is the textbook verifier. */
  lemma CheckIsFolding(state: seq<Byte>, crs: Crs, vs: seq<VerifierQuery>, proof: MultiPointProof)
    requires GroupLaws() && |proof.openProof.l| == |proof.openProof.r| && |crs.g| == crs.n
    ensures CheckAccepts(state, crs, vs, proof) <==> FoldingChecks(state, crs, vs, proof)
  {
    var r, t := ChallengeR(state, vs), ChallengeT(state, vs, proof.gComm);
    var h := HelperScalars(t, vs, PowersTo(r, |vs|));
    PowerOne(r);
    assert forall j :: 0 <= j < |vs| ==> h[j] == Mul(InverseOrZero(Sub(t, vs[j].point)), Power(r, 0 + j)) by { hide Mul, Power, Sub, InverseOrZero; }
    hide GroupLaws, ChallengeR, ChallengeT, AfterE, Lin, Dot, Red, Mul, Power, Coefficients, Accepts, FoldingAccepts, Minus, HelperScalars, CombinedCommitment, CombinedResult;
    CombinedIsLin(t, r, 0, vs, h);
    var e := Lin(h, Commitments(vs));
    AcceptsIsFolding(proof.openProof, AfterE(state, vs, proof.gComm, e), crs, Coefficients(t, crs.n), Minus(e, proof.gComm), t, Red(Dot(h, Results(vs))));
  }

  /** Every query carries the commitment of its polynomial and the polynomial's value at its point. */
  ghost predicate Honest(qs: seq<ProverQuery>, crs: Crs)
    requires QueriesSized(qs, crs)
  {
    forall j :: 0 <= j < |qs| ==> qs[j].commitment == Lin(qs[j].poly.values, crs.g) && qs[j].result == qs[j].poly.values[qs[j].point]
  }

  // ---------------------------------------------------------------- prover and verifier agree on E

  /** The combination of vectors. */
  ghost function Combined(c: seq<int>, fs: seq<seq<Fr>>, n: nat): (v: seq<int>)
    requires |c| == |fs| && forall j :: 0 <= j < |fs| ==> |fs[j]| == n
    ensures |v| == n
  {
    if c == [] then seq(n, _ => 0)
    else
      var m := |c| - 1;
      VecAdd(Combined(c[..m], fs[..m], n), VecScale(c[m], fs[m]))
  }

  lemma {:induction false} LinZeros(n: nat, g: seq<Element>)
    requires GroupLaws() && |g| == n
    ensures Lin(seq(n, _ => 0), g) == Zero
  {
    hide GroupLaws;
    var z := seq(n, _ => 0);
    if n > 0 {
      LinZeros(n - 1, g[..n - 1]);
      assert z[..n - 1] == seq(n - 1, _ => 0);
      Neutral(g[n - 1]);
      Neutral(Zero);
    }
  }

  /** Combining commitments is committing to the combination. */
  lemma {:induction false} LinOfCommitments(c: seq<int>, cs: seq<Element>, fs: seq<seq<Fr>>, g: seq<Element>)
    requires GroupLaws() && |c| == |cs| == |fs| && forall j :: 0 <= j < |fs| ==> |fs[j]| == |g| && cs[j] == Lin(fs[j], g)
    ensures Lin(c, cs) == Lin(Combined(c, fs, |g|), g)
  {
    hide GroupLaws;
    if c == [] {
      LinZeros(|g|, g);
    } else {
      var m := |c| - 1;
      LinOfCommitments(c[..m], cs[..m], fs[..m], g);
      LinAdd(Combined(c[..m], fs[..m], |g|), VecScale(c[m], fs[m]), g);
      LinScale(c[m], fs[m], g);
    }
  }

  /** The combination by the verifier's scalars is, place by place, a sum by query. */
  lemma {:induction false} CombinedIsByQuery(h: seq<Fr>, t: Fr, zs: seq<nat>, fs: seq<seq<Fr>>, pw: seq<Fr>, n: nat, k: nat, m: nat)
    requires WellFormed(zs, fs, pw, n) && k < n && m <= |zs| && |h| == |zs|
    requires forall j :: 0 <= j < |zs| ==> h[j] == Mul(PointWeight(t, zs[j]), pw[j])
    ensures Red(Combined(h[..m], fs[..m], n)[k]) == Red(ByQuery(t, zs, pw, Column(fs, k), m))
  {
    hide Red, PointWeight, Prod, Column, Combined, Mul;
    if m == 0 {
      CombinedNone(h, fs, n);
    } else {
      var i: nat := m - 1;
      CombinedIsByQuery(h, t, zs, fs, pw, n, k, i);
      CombinedNext(h, fs, n, k, i);
      ColumnAt(fs, k, i);
      HelperTerm(PointWeight(t, zs[i]), pw[i], fs[i][k]);
      SumSame(Combined(h[..i], fs[..i], n)[k], Prod(h[i], fs[i][k]), ByQuery(t, zs, pw, Column(fs, k), i), Prod(PointWeight(t, zs[i]), Prod(pw[i], fs[i][k])));
    }
  }

  lemma CombinedNone(c: seq<int>, fs: seq<seq<Fr>>, n: nat)
    ensures Combined(c[..0], fs[..0], n) == seq(n, _ => 0)
  {
  }

  lemma CombinedNext(c: seq<int>, fs: seq<seq<Fr>>, n: nat, k: nat, i: nat)
    requires |c| == |fs| && i < |c| && k < n && forall j :: 0 <= j < |fs| ==> |fs[j]| == n
    ensures Combined(c[..i + 1], fs[..i + 1], n)[k] == Combined(c[..i], fs[..i], n)[k] + Prod(c[i], fs[i][k])
  {
    assert c[..i + 1][..i] == c[..i] && fs[..i + 1][..i] == fs[..i];
  }

  lemma ColumnAt(fs: seq<seq<Fr>>, k: nat, i: nat)
    requires i < |fs| && forall j :: 0 <= j < |fs| ==> k < |fs[j]|
    ensures Column(fs, k)[i] == fs[i][k]
  {
  }

  lemma HelperTerm(w: Fr, p: Fr, x: Fr)
    ensures Red(Prod(Mul(w, p), x)) == Red(Prod(w, Prod(p, x)))
  {
    hide Red;
    var a: int, b: int, c: int := w, p, x;
    RedRed(a * b);
    RedRing(Red(a * b), c, a * b, c);
    assert a * b * c == a * (b * c);
  }

  /** The verifier's combination of the commitments is the prover's commitment to g_1. */
  lemma SameE(order: seq<nat>, t: Fr, crs: Crs, qs: seq<ProverQuery>, pw: seq<Fr>, h: seq<Fr>, cs: seq<Element>)
    requires GroupLaws() && QueriesSized(qs, crs) && Honest(qs, crs) && |pw| == |qs| == |h| == |cs| && Groups(order, QueryPoints(qs))
    requires WellFormed(QueryPoints(qs), Polys(qs), pw, crs.n)
    requires forall j :: 0 <= j < |qs| ==> h[j] == Mul(PointWeight(t, qs[j].point), pw[j]) && cs[j] == qs[j].commitment
    ensures Lin(h, cs) == Lin(G1Poly(order, t, qs, pw, crs.n), crs.g)
  {
    var zs, fs, n := QueryPoints(qs), Polys(qs), crs.n;
    hide GroupLaws, Red, PointWeight, Lin, Mul;
    LinOfCommitments(h, cs, fs, crs.g);
    var v, u := Combined(h, fs, n), WeighedSum(order, t, zs, fs, pw, n);
    forall k | 0 <= k < n
      ensures Red(v[k]) == Red(u[k])
    {
      assert h[..|zs|] == h && fs[..|zs|] == fs;
      CombinedIsByQuery(h, t, zs, fs, pw, n, k, |zs|);
      GroupingIsFree(order, t, zs, pw, Column(fs, k), |zs|);
      WeighedSumAt(order, t, zs, fs, pw, n, k);
    }
    LinSame(v, u, crs.g);
    ReducedSame(u);
    LinSame(Reduced(u), u, crs.g);
  }

  // ---------------------------------------------------------------- prover and verifier agree on the value at t

  lemma {:induction false} HelpersDot(h: seq<Fr>, t: Fr, zs: seq<nat>, pw: seq<Fr>, ys: seq<Fr>, m: nat)
    requires |zs| == |pw| == |ys| == |h| && m <= |zs|
    requires forall j :: 0 <= j < |zs| ==> h[j] == Mul(PointWeight(t, zs[j]), pw[j])
    ensures Red(Dot(h[..m], ys[..m])) == Red(ByQuery(t, zs, pw, ys, m))
  {
    hide Red, PointWeight, Prod, Mul, Dot;
    if m == 0 {
      DotNone(h, ys);
    } else {
      var i: nat := m - 1;
      HelpersDot(h, t, zs, pw, ys, i);
      DotNext(h, ys, i);
      HelperTerm(PointWeight(t, zs[i]), pw[i], ys[i]);
      SumSame(Dot(h[..i], ys[..i]), Prod(h[i], ys[i]), ByQuery(t, zs, pw, ys, i), Prod(PointWeight(t, zs[i]), Prod(pw[i], ys[i])));
    }
  }

  lemma DotNone(a: seq<int>, b: seq<int>)
    ensures Dot(a[..0], b[..0]) == 0
  {
  }

  lemma DotNext(a: seq<int>, b: seq<int>, i: nat)
    requires |a| == |b| && i < |a|
    ensures Dot(a[..i + 1], b[..i + 1]) == Dot(a[..i], b[..i]) + Prod(a[i], b[i])
  {
    assert a[..i + 1][..i] == a[..i] && b[..i + 1][..i] == b[..i];
  }

  /** The difference of two vectors over the field, up to the modulus. */
  lemma DifferenceSame(a: seq<Fr>, b: seq<Fr>, u: seq<int>, v: seq<int>)
    requires |a| == |b| && SameMod(a, u) && SameMod(b, v)
    ensures SameMod(Difference(a, b), VecAdd(u, VecScale(-1, v)))
  {
    hide Red, Negated;
    NegatedSame(b);
    ReducedSame(VecAdd(a, Negated(b)));
    forall k | 0 <= k < |a|
      ensures Red(Difference(a, b)[k]) == Red(VecAdd(u, VecScale(-1, v))[k])
    {
      RedRing(-1, b[k], -1, v[k]);
      SumSame(a[k], Negated(b)[k], u[k], -1 * v[k]);
    }
  }

  /** The commitments' difference is the commitment of the difference. */
  lemma DifferenceCommits(a: seq<Fr>, b: seq<Fr>, g: seq<Element>)
    requires GroupLaws() && |a| == |b| == |g|
    ensures Lin(Difference(a, b), g) == Minus(Lin(a, g), Lin(b, g))
  {
    hide GroupLaws, Lin, Red, Difference, SameMod;
    SameModRefl(a);
    SameModRefl(b);
    DifferenceSame(a, b, a, b);
    LinSame(Difference(a, b), VecAdd(a, VecScale(-1, b)), g);
    LinAdd(a, VecScale(-1, b), g);
    LinScale(-1, b, g);
  }

  lemma DifferenceDot(u: seq<int>, v: seq<int>, c: seq<Fr>)
    requires |u| == |v| == |c|
    ensures Red(Dot(Difference(Reduced(u), Reduced(v)), c)) == Red(Dot(u, c) - Dot(v, c))
  {
    hide Dot, Red, Difference, SameMod, Reduced;
    ReducedSame(u);
    ReducedSame(v);
    DifferenceSame(Reduced(u), Reduced(v), u, v);
    SameModRefl(c);
    DotSame(Difference(Reduced(u), Reduced(v)), c, VecAdd(u, VecScale(-1, v)), c);
    DotAdd(u, VecScale(-1, v), c);
    DotScale(-1, v, c);
  }

  /** The value that the verifier expects at t is the value of the polynomial that the prover opens. */
  lemma {:induction false} SameOutput(order: seq<nat>, t: Fr, crs: Crs, qs: seq<ProverQuery>, pw: seq<Fr>, h: seq<Fr>, ys: seq<Fr>)
    requires IsField() && QueriesSized(qs, crs) && Honest(qs, crs) && |pw| == |qs| == |h| == |ys| && Groups(order, QueryPoints(qs)) && InDomain(order, crs.n)
    requires WellFormed(QueryPoints(qs), Polys(qs), pw, crs.n) && crs.n <= t
    requires forall j :: 0 <= j < |qs| ==> h[j] == Mul(PointWeight(t, qs[j].point), pw[j]) && ys[j] == qs[j].result
    ensures Red(Dot(Difference(G1Poly(order, t, qs, pw, crs.n), GPoly(order, qs, pw, crs.n)), Coefficients(t, crs.n))) == Red(Dot(h, ys))
  {
    var zs, fs, n := QueryPoints(qs), Polys(qs), crs.n;
    var c := Coefficients(t, n);
    hide IsField, Red, PointWeight, Dot, Coefficients, QuotientSum, WeighedSum, Mul;
    DifferenceDot(WeighedSum(order, t, zs, fs, pw, n), QuotientSum(order, zs, fs, pw, n), c);
    DifferenceAtT(order, t, zs, fs, pw, ys, n);
    GroupingIsFree(order, t, zs, pw, ys, |zs|);
    HelpersDot(h, t, zs, pw, ys, |zs|);
    assert h[..|zs|] == h && ys[..|zs|] == ys;
  }

  /**
   Completeness: for every number of queries, every order in which the prover visits their
   points, and every challenge t outside the domain, the verifier accepts what the prover made.
   */
  lemma MultiPointComplete(state: seq<Byte>, crs: Crs, qs: seq<ProverQuery>, order: seq<nat>, proof: MultiPointProof)
    requires GroupLaws() && IsField() && QueriesSized(qs, crs) && Honest(qs, crs) && OpenedBy(state, crs, qs, order, proof)
    requires crs.n <= ChallengeT(state, ToVerifiers(qs), proof.gComm)
    ensures |proof.openProof.l| == |proof.openProof.r|
    ensures CheckAccepts(state, crs, ToVerifiers(qs), proof)
  {
    var vs, n := ToVerifiers(qs), crs.n;
    var pw := PowersTo(ChallengeR(state, vs), |qs|);
    var t := ChallengeT(state, vs, proof.gComm);
    var g, g1 := GPoly(order, qs, pw, n), G1Poly(order, t, qs, pw, n);
    var h := HelperScalars(t, vs, pw);
    var d, e, c := Lin(g, crs.g), Lin(g1, crs.g), Coefficients(t, n);
    assert forall j :: 0 <= j < |qs| ==> h[j] == Mul(PointWeight(t, qs[j].point), pw[j]) by { hide Mul, Red, Sub; }
    hide GroupLaws, IsField, Red, Lin, Dot, Mul, Sub, GPoly, G1Poly, Coefficients, HelperScalars, ChallengeR, ChallengeT, AfterE, PowersTo, Accepts, ProofOf, Difference, PointWeight, IsPowerOfTwo;
    SameE(order, t, crs, qs, pw, h, Commitments(vs));
    SameOutput(order, t, crs, qs, pw, h, Results(vs));
    DifferenceCommits(g1, g, crs.g);
    IpaComplete(AfterE(state, vs, d, e), crs, Difference(g1, g), Minus(e, d), c, t, proof.openProof);
  }

  // ---------------------------------------------------------------- the prover

  /** The queries at point `p` among the first `m`, in order. */
  ghost function Members(zs: seq<nat>, p: nat, m: nat): (idx: seq<nat>)
    requires m <= |zs|
    ensures forall i :: 0 <= i < |idx| ==> idx[i] < m
  {
    if m == 0 then [] else Members(zs, p, m - 1) + if zs[m - 1] == p then [m - 1] else []
  }

  /** The groups of the first `m` queries. */
  ghost predicate Grouped(groups: map<nat, seq<nat>>, zs: seq<nat>, m: nat)
    requires m <= |zs|
  {
    forall p :: (p in groups <==> Members(zs, p, m) != []) && (p in groups ==> groups[p] == Members(zs, p, m))
  }

  /** Appends query `i` to the group of point `p`. */
  function Appended(groups: map<nat, seq<nat>>, p: nat, i: nat): map<nat, seq<nat>> {
    groups[p := if p in groups then groups[p] + [i] else [i]]
  }

  lemma GroupOneMore(groups: map<nat, seq<nat>>, zs: seq<nat>, m: nat)
    requires m < |zs| && Grouped(groups, zs, m)
    ensures Grouped(Appended(groups, zs[m], m), zs, m + 1)
  {
    forall p
      ensures Members(zs, p, m + 1) == Members(zs, p, m) + if zs[m] == p then [m] else []
    {
    }
    hide Members;
  }

  /** `group_prover_queries`: for every point, its queries. */
  method GroupProverQueries(queries: seq<ProverQuery>) returns (groups: map<nat, seq<nat>>)
    ensures forall p :: p in groups <==> p in QueryPoints(queries)
    ensures forall p :: p in groups ==> groups[p] == Members(QueryPoints(queries), p, |queries|) && groups[p] != []
  {
    hide Grouped, Members, QueryPoints, Appended;
    groups := map[];
    ghost var zs := QueryPoints(queries);
    NothingGrouped(zs);
    for i := 0 to |queries|
      invariant Grouped(groups, zs, i)
    {
      GroupOneMore(groups, zs, i);
      PointsAt(queries, i);
      var point := queries[i].point;
      groups := Appended(groups, point, i);
    }
    AllGrouped(groups, zs);
  }

  lemma NothingGrouped(zs: seq<nat>)
    ensures Grouped(map[], zs, 0)
  {
  }

  lemma PointsAt(queries: seq<ProverQuery>, i: nat)
    requires i < |queries|
    ensures QueryPoints(queries)[i] == queries[i].point
  {
  }

  lemma AllGrouped(groups: map<nat, seq<nat>>, zs: seq<nat>)
    requires Grouped(groups, zs, |zs|)
    ensures forall p :: p in groups <==> p in zs
    ensures forall p :: p in groups ==> groups[p] == Members(zs, p, |zs|) && groups[p] != []
  {
    hide Members;
    forall p
      ensures Members(zs, p, |zs|) != [] <==> p in zs
    {
      MembersOf(zs, p, |zs|);
      assert zs[..|zs|] == zs;
    }
  }

  lemma {:induction false} MembersOf(zs: seq<nat>, p: nat, m: nat)
    requires m <= |zs|
    ensures Members(zs, p, m) != [] <==> p in zs[..m]
  {
    if m > 0 {
      MembersOf(zs, p, m - 1);
      assert zs[..m] == zs[..m - 1] + [zs[m - 1]];
    }
  }

  /** The weighted values of the listed queries. */
  ghost function ListedSum(pw: seq<Fr>, xs: seq<Fr>, idx: seq<nat>): int
    requires |pw| == |xs| && forall i :: 0 <= i < |idx| ==> idx[i] < |pw|
  {
    if idx == [] then 0
    else
      var n := |idx| - 1;
      ListedSum(pw, xs, idx[..n]) + Prod(pw[idx[n]], xs[idx[n]])
  }

  lemma {:induction false} ListedIsAtPoint(zs: seq<nat>, pw: seq<Fr>, xs: seq<Fr>, p: nat, m: nat)
    requires |zs| == |pw| == |xs| && m <= |zs|
    ensures ListedSum(pw, xs, Members(zs, p, m)) == AtPoint(zs, pw, xs, p, m)
  {
    hide Prod;
    if m > 0 {
      ListedIsAtPoint(zs, pw, xs, p, m - 1);
      var idx := Members(zs, p, m - 1);
      assert (idx + [m - 1])[..|idx|] == idx && idx + [] == idx;
    }
  }

  /** One query's polynomial, scaled by its power. */
  function ScaledValues(values: seq<Fr>, challenge: Fr): (v: seq<Fr>)
    ensures |v| == |values|
  {
    seq(|values|, k requires 0 <= k < |values| => Mul(values[k], challenge))
  }

  lemma ScaledSame(values: seq<Fr>, challenge: Fr, k: nat)
    requires k < |values|
    ensures Red(ScaledValues(values, challenge)[k]) == Red(Prod(challenge, values[k]))
  {
    hide Red;
    var x: int, y: int := values[k], challenge;
    RedRed(x * y);
    assert x * y == y * x;
  }

  /** The reduction of one group to its aggregated polynomial. */
  method AggregateGroup(queries: seq<ProverQuery>, pw: seq<Fr>, idx: seq<nat>, n: nat) returns (agg: LagrangeBasis)
    requires WellFormed(QueryPoints(queries), Polys(queries), pw, n) && idx != [] && forall i :: 0 <= i < |idx| ==> idx[i] < |queries|
    requires forall j :: 0 <= j < |queries| ==> queries[j].poly.Valid(n)
    ensures agg.Valid(n) && forall k :: 0 <= k < n ==> agg.values[k] == Red(ListedSum(pw, Column(Polys(queries), k), idx))
  {
    hide Red, Prod, ListedSum, Mul, ScaledValues;
    ghost var fs := Polys(queries);
    agg := LagrangeBasis(n, ScaledValues(queries[idx[0]].poly.values, pw[idx[0]]));
    FirstListed(fs, pw, idx, n, agg.values);
    for i := 1 to |idx|
      invariant agg.Valid(n)
      invariant forall k :: 0 <= k < n ==> agg.values[k] == Red(ListedSum(pw, Column(fs, k), idx[..i]))
    {
      ghost var before := agg.values;
      var term := LagrangeBasis(n, ScaledValues(queries[idx[i]].poly.values, pw[idx[i]]));
      agg := agg.Plus(term);
      NextListed(fs, pw, idx, n, i, before, term.values, agg.values);
    }
    assert idx[..|idx|] == idx;
    assert forall k :: 0 <= k < n ==> agg.values[k] == Red(ListedSum(pw, Column(fs, k), idx));
  }

  lemma FirstListed(fs: seq<seq<Fr>>, pw: seq<Fr>, idx: seq<nat>, n: nat, term: seq<Fr>)
    requires |fs| == |pw| && idx != [] && (forall i :: 0 <= i < |idx| ==> idx[i] < |fs|) && forall j :: 0 <= j < |fs| ==> |fs[j]| == n
    requires term == ScaledValues(fs[idx[0]], pw[idx[0]])
    ensures forall k :: 0 <= k < n ==> term[k] == Red(ListedSum(pw, Column(fs, k), idx[..1]))
  {
    hide Red, Prod, Mul, ScaledValues;
    forall k | 0 <= k < n
      ensures term[k] == Red(ListedSum(pw, Column(fs, k), idx[..1]))
    {
      assert idx[..1][..0] == [];
      ScaledSame(fs[idx[0]], pw[idx[0]], k);
      RedRed(term[k]);
    }
  }

  lemma NextListed(fs: seq<seq<Fr>>, pw: seq<Fr>, idx: seq<nat>, n: nat, i: nat, before: seq<Fr>, term: seq<Fr>, after: seq<Fr>)
    requires |fs| == |pw| && i < |idx| && (forall i :: 0 <= i < |idx| ==> idx[i] < |fs|) && forall j :: 0 <= j < |fs| ==> |fs[j]| == n
    requires |before| == |term| == n && term == ScaledValues(fs[idx[i]], pw[idx[i]]) && after == Reduced(VecAdd(before, term))
    requires forall k :: 0 <= k < n ==> before[k] == Red(ListedSum(pw, Column(fs, k), idx[..i]))
    ensures forall k :: 0 <= k < n ==> after[k] == Red(ListedSum(pw, Column(fs, k), idx[..i + 1]))
  {
    hide Red, Prod, Mul, ScaledValues;
    forall k | 0 <= k < n
      ensures after[k] == Red(ListedSum(pw, Column(fs, k), idx[..i + 1]))
    {
      var s := ListedSum(pw, Column(fs, k), idx[..i]);
      assert idx[..i + 1][..i] == idx[..i];
      ScaledSame(fs[idx[i]], pw[idx[i]], k);
      RedRed(s);
      SumSame(before[k], term[k], s, Prod(pw[idx[i]], fs[idx[i]][k]));
    }
  }

  // The prover's two sums, over the groups visited so far.

  lemma ReducedNext(sum: seq<int>, before: seq<Fr>, term: seq<int>, reduced: seq<Fr>)
    requires |sum| == |before| == |term| == |reduced| && before == Reduced(sum) && reduced == Reduced(term)
    ensures Reduced(VecAdd(before, reduced)) == Reduced(VecAdd(sum, term))
  {
    hide Red;
    forall k | 0 <= k < |sum|
      ensures Red((before[k] as int) + reduced[k]) == Red(sum[k] + term[k])
    {
      RedRed(sum[k]);
      RedRed(term[k]);
      SumSame(before[k], reduced[k], sum[k], term[k]);
    }
  }

  lemma ReducedFirst(n: nat, term: seq<int>)
    requires |term| == n
    ensures Reduced(VecAdd(seq(n, _ => 0), term)) == Reduced(term)
  {
    hide Red;
    forall k | 0 <= k < n
      ensures VecAdd(seq(n, _ => 0), term)[k] == term[k]
    {
    }
  }

  lemma ReducedSelf(v: seq<Fr>)
    ensures Reduced(v) == v
  {
    hide Red;
    forall k | 0 <= k < |v|
      ensures Red(v[k]) == v[k]
    {
      RedRed(v[k]);
    }
  }

  /** A sum of polynomials so far: the neutral element, or the reduced sum of the terms. */
  ghost predicate SumSoFar(g: LagrangeBasis, i: nat, sum: seq<int>, n: nat) {
    |sum| == n && if i == 0 then g == LagrangeBasis(0, []) && sum == seq(n, _ => 0) else g.Valid(n) && g.values == Reduced(sum)
  }

  /** The next term of such a sum. */
  method AddTerm(g: LagrangeBasis, term: LagrangeBasis, ghost i: nat, ghost sum: seq<int>, ghost exact: seq<int>, ghost n: nat) returns (r: LagrangeBasis)
    requires n > 0 && SumSoFar(g, i, sum, n) && term.Valid(n) && |exact| == n && term.values == Reduced(exact)
    ensures SumSoFar(r, i + 1, VecAdd(sum, exact), n)
  {
    hide Red, Reduced;
    ReducedFirst(n, exact);
    if i > 0 {
      ReducedNext(sum, g.values, exact, term.values);
    }
    r := g.Plus(term);
  }

  /** A group's point and its aggregated polynomial. */
  type Group = (nat, LagrangeBasis)

  ghost function Visited(groups: seq<Group>): (order: seq<nat>)
    ensures |order| == |groups|
  {
    seq(|groups|, i requires 0 <= i < |groups| => groups[i].0)
  }

  ghost predicate GroupsOk(groups: seq<Group>, zs: seq<nat>, fs: seq<seq<Fr>>, pw: seq<Fr>, n: nat) {
    && WellFormed(zs, fs, pw, n)
    && forall i :: 0 <= i < |groups| ==>
        groups[i].0 < n && groups[i].1.Valid(n) && groups[i].1.values == Aggregated(zs, fs, pw, groups[i].0, n)
  }

  lemma NextGroup(groups: seq<Group>, g: Group, zs: seq<nat>, fs: seq<seq<Fr>>, pw: seq<Fr>, n: nat)
    requires GroupsOk(groups, zs, fs, pw, n) && g.0 < n && g.1.Valid(n) && g.1.values == Aggregated(zs, fs, pw, g.0, n)
    ensures GroupsOk(groups + [g], zs, fs, pw, n) && Visited(groups + [g]) == Visited(groups) + [g.0]
  {
    hide Aggregated, WellFormed;
  }

  lemma DistinctNext(order: seq<nat>, p: nat)
    requires DistinctPoints(order) && p !in order
    ensures DistinctPoints(order + [p])
  {
  }

  lemma GroupAggregated(zs: seq<nat>, fs: seq<seq<Fr>>, pw: seq<Fr>, p: nat, n: nat, values: seq<Fr>)
    requires WellFormed(zs, fs, pw, n) && |values| == n && forall k :: 0 <= k < n ==> values[k] == Red(AtPoint(zs, pw, Column(fs, k), p, |zs|))
    ensures values == Aggregated(zs, fs, pw, p, n)
  {
    hide Red;
  }

  lemma NoGroups(zs: seq<nat>, fs: seq<seq<Fr>>, pw: seq<Fr>, n: nat)
    requires WellFormed(zs, fs, pw, n)
    ensures GroupsOk([], zs, fs, pw, n) && Visited([]) == [] && DistinctPoints([])
  {
  }

  lemma VisitedInDomain(groups: seq<Group>, zs: seq<nat>, fs: seq<seq<Fr>>, pw: seq<Fr>, n: nat)
    requires GroupsOk(groups, zs, fs, pw, n)
    ensures InDomain(Visited(groups), n)
  {
  }

  /** The aggregated polynomials, in whatever order the groups come. */
  method AggregateQueries(queries: seq<ProverQuery>, pw: seq<Fr>, n: nat) returns (aggregated: seq<Group>)
    requires WellFormed(QueryPoints(queries), Polys(queries), pw, n) && forall j :: 0 <= j < |queries| ==> queries[j].poly.Valid(n)
    ensures GroupsOk(aggregated, QueryPoints(queries), Polys(queries), pw, n)
    ensures Groups(Visited(aggregated), QueryPoints(queries)) && InDomain(Visited(aggregated), n)
  {
    hide Red, Prod, ListedSum, Members, GroupsOk, Visited, DistinctPoints, WellFormed, QueryPoints, Polys, Aggregated;
    ghost var zs, fs := QueryPoints(queries), Polys(queries);
    NoGroups(zs, fs, pw, n);
    var groups := GroupProverQueries(queries);
    aggregated := [];
    var rest := groups.Keys;
    while rest != {}
      invariant rest <= groups.Keys && GroupsOk(aggregated, zs, fs, pw, n)
      invariant DistinctPoints(Visited(aggregated)) && forall p :: p in Visited(aggregated) <==> p in groups.Keys - rest
      decreases |rest|
    {
      ghost var some := SomeElement(rest);
      var p :| p in rest;
      GroupIs(queries, pw, p, n);
      var agg := AggregateGroup(queries, pw, groups[p], n);
      GroupAggregated(zs, fs, pw, p, n, agg.values);
      NextGroup(aggregated, (p, agg), zs, fs, pw, n);
      DistinctNext(Visited(aggregated), p);
      aggregated := aggregated + [(p, agg)];
      rest := rest - {p};
    }
    VisitedInDomain(aggregated, zs, fs, pw, n);
  }

  lemma GroupIs(queries: seq<ProverQuery>, pw: seq<Fr>, p: nat, n: nat)
    requires WellFormed(QueryPoints(queries), Polys(queries), pw, n) && p in QueryPoints(queries)
    ensures p < n
    ensures forall k :: 0 <= k < n ==>
      ListedSum(pw, Column(Polys(queries), k), Members(QueryPoints(queries), p, |queries|)) == AtPoint(QueryPoints(queries), pw, Column(Polys(queries), k), p, |queries|)
  {
    forall k | 0 <= k < n
      ensures ListedSum(pw, Column(Polys(queries), k), Members(QueryPoints(queries), p, |queries|)) == AtPoint(QueryPoints(queries), pw, Column(Polys(queries), k), p, |queries|)
    {
      ListedIsAtPoint(QueryPoints(queries), pw, Column(Polys(queries), k), p, |queries|);
    }
  }

  /** The sum of the groups' quotients. */
  method SumQuotients(groups: seq<Group>, precomp: PrecomputedWeights, ghost zs: seq<nat>, ghost fs: seq<seq<Fr>>, ghost pw: seq<Fr>, n: nat) returns (g: LagrangeBasis)
    requires Precomputed(precomp, n) && GroupsOk(groups, zs, fs, pw, n) && groups != []
    ensures InDomain(Visited(groups), n) && g.Valid(n) && g.values == Reduced(QuotientSum(Visited(groups), zs, fs, pw, n))
  {
    hide Red, Aggregated, Quotient, Reduced, Precomputed;
    ghost var order := Visited(groups);
    g := LagrangeBasis(0, []);
    for i := 0 to |groups|
      invariant SumSoFar(g, i, QuotientSum(order[..i], zs, fs, pw, n), n)
    {
      var q := groups[i].1.DivideByLinearVanishing(precomp, groups[i].0);
      assert order[..i + 1][..i] == order[..i];
      ReducedSelf(q.values);
      g := AddTerm(g, q, i, QuotientSum(order[..i], zs, fs, pw, n), q.values, n);
    }
    assert order[..|order|] == order;
  }

  /** The sum of the groups' polynomials over t - p. */
  method SumWeighed(groups: seq<Group>, t: Fr, ghost zs: seq<nat>, ghost fs: seq<seq<Fr>>, ghost pw: seq<Fr>, n: nat) returns (g: LagrangeBasis)
    requires GroupsOk(groups, zs, fs, pw, n) && groups != []
    ensures g.Valid(n) && g.values == Reduced(WeighedSum(Visited(groups), t, zs, fs, pw, n))
  {
    hide Red, Aggregated, Reduced, Mul, Sub;
    ghost var order := Visited(groups);
    var dens := seq(|groups|, i requires 0 <= i < |groups| => InverseOrZero(Sub(t, Red(groups[i].0))));
    g := LagrangeBasis(0, []);
    for i := 0 to |groups|
      invariant SumSoFar(g, i, WeighedSum(order[..i], t, zs, fs, pw, n), n)
    {
      var values := groups[i].1.values;
      var term := LagrangeBasis(n, ScaledByWeight(dens[i], values));
      assert order[..i + 1][..i] == order[..i];
      g := AddTerm(g, term, i, WeighedSum(order[..i], t, zs, fs, pw, n), VecScale(dens[i], values), n);
    }
    assert order[..|order|] == order;
  }

  function ScaledByWeight(w: Fr, values: seq<Fr>): (v: seq<Fr>)
    ensures |v| == |values|
    ensures v == Reduced(VecScale(w, values))
  {
    seq(|values|, k requires 0 <= k < |values| => Mul(w, values[k]))
  }

  lemma QueriesWellFormed(qs: seq<ProverQuery>, crs: Crs, pw: seq<Fr>)
    requires QueriesSized(qs, crs) && |pw| == |qs|
    ensures WellFormed(QueryPoints(qs), Polys(qs), pw, crs.n)
    ensures forall j :: 0 <= j < |qs| ==> qs[j].poly.Valid(crs.n)
  {
  }

  /** The values of `a - b`. */
  function Subtract(a: LagrangeBasis, b: LagrangeBasis): (v: seq<Fr>)
    requires |a.values| == |b.values|
    ensures v == Difference(a.values, b.values)
  {
    Difference(a.values, b.values)
  }

  /** The prover; `None` when the inner product argument meets a challenge without an inverse. */
  method Open(crs: Crs, precomp: PrecomputedWeights, transcript: Transcript, queries: seq<ProverQuery>, threads: nat)
    returns (proof: Option<MultiPointProof>, ghost order: seq<nat>)
    requires EncodingLengths() && QueriesSized(queries, crs) && Precomputed(precomp, crs.n) && threads > 0
    modifies transcript
    ensures proof.Some? ==> OpenedBy(old(transcript.state), crs, queries, order, proof.value)
  {
    hide EncodingLengths, Precomputed, Challenge, AfterChallenge, AfterPoint, AfterQueries, WellFormed, Power, Quotient, Aggregated, QuotientSum, WeighedSum,
         Coefficients, Difference, Lin, GroupsOk, Groups, InDomain, Reduced, Minus, ProofOf, IsPowerOfTwo, Visited, Polys;
    var n := crs.n;
    var vs := ToVerifiers(queries);
    transcript.DomainSep(TAG_MULTIPROOF);
    RecordQueryTranscript(transcript, vs);
    var r := transcript.ChallengeScalar(TAG_SMALL_R);
    var powersOfR := PowersOfPar(r, |queries|, threads);
    var pw := powersOfR[..];
    assert pw == PowersTo(r, |queries|);
    QueriesWellFormed(queries, crs, pw);
    ghost var zs, fs := QueryPoints(queries), Polys(queries);
    var aggregated := AggregateQueries(queries, pw, n);
    order := Visited(aggregated);
    SomeGroup(aggregated, zs);
    var g := SumQuotients(aggregated, precomp, zs, fs, pw, n);
    var gComm := Lin(g.values, crs.g);
    transcript.AppendPoint(TAG_D, gComm);
    var t := transcript.ChallengeScalar(TAG_T);
    var g1 := SumWeighed(aggregated, t, zs, fs, pw, n);
    var g1Comm := Lin(g1.values, crs.g);
    transcript.AppendPoint(TAG_E, g1Comm);
    var g3 := Subtract(g1, g);
    var b := EvaluateLagrangeCoefficients(precomp, n, t);
    var ipa := Create(transcript, crs, g3, Minus(g1Comm, gComm), b, t);
    proof := if ipa.Some? then Some(MultiPointProof(ipa.value, gComm)) else None;
  }

  lemma SomeGroup(groups: seq<Group>, zs: seq<nat>)
    requires Groups(Visited(groups), zs) && zs != []
    ensures groups != []
  {
    assert zs[0] in zs;
  }

  // ---------------------------------------------------------------- the verifier

  /** The verifier; `None` when the source panics: on an empty list of queries, which it cuts into chunks of no size, and where `VerifyMultiexp` does. */
  method Check(proof: MultiPointProof, crs: Crs, precomp: PrecomputedWeights, queries: seq<VerifierQuery>, transcript: Transcript, threads: nat)
    returns (ok: Option<bool>)
    requires GroupLaws() && EncodingLengths() && Precomputed(precomp, crs.n) && threads > 0 && |crs.g| == crs.n
    modifies transcript
    ensures ok.None? <==> queries == [] || (crs.n == Pow2(|proof.openProof.l|) && |proof.openProof.l| != |proof.openProof.r|)
    ensures ok.Some? ==> (ok.value <==> |proof.openProof.l| == |proof.openProof.r| && CheckAccepts(old(transcript.state), crs, queries, proof))
    ensures ok.Some? ==> (ok.value <==> |proof.openProof.l| == |proof.openProof.r| && FoldingChecks(old(transcript.state), crs, queries, proof))
  {
    if |proof.openProof.l| == |proof.openProof.r| {
      CheckIsFolding(transcript.state, crs, queries, proof);
    }
    hide GroupLaws, EncodingLengths, Precomputed, Challenge, AfterChallenge, AfterPoint, AfterQueries, Power, Coefficients, Lin, Dot, Red, Minus, Accepts, Mul, Sub, FoldingChecks, FoldingAccepts;
    transcript.DomainSep(TAG_MULTIPROOF);
    RecordQueryTranscript(transcript, queries);
    var r := transcript.ChallengeScalar(TAG_SMALL_R);
    if queries == [] {
      return None;
    }
    var powersOfR := PowersOfPar(r, |queries|, threads);
    var pw := powersOfR[..];
    assert pw == PowersTo(r, |queries|);
    transcript.AppendPoint(TAG_D, proof.gComm);
    var t := transcript.ChallengeScalar(TAG_T);
    var helperScalars := HelperScalars(t, queries, pw);
    var g2t := InnerProduct(helperScalars, Results(queries));
    var g1Comm := MultiScalarMulPar(Commitments(queries), helperScalars, threads);
    transcript.AppendPoint(TAG_E, g1Comm);
    var b := EvaluateLagrangeCoefficients(precomp, crs.n, t);
    ok := VerifyMultiexp(proof.openProof, transcript, crs, b, Minus(g1Comm, proof.gComm), t, g2t);
  }

  /** From the same transcript, what `Open` makes of honest queries passes `Check` whenever the challenge t is outside the domain. */
  method OpenAndCheck(state: seq<Byte>, crs: Crs, queries: seq<ProverQuery>, threads: nat) returns (proof: Option<MultiPointProof>, ok: bool)
    requires GroupLaws() && IsField() && EncodingLengths() && threads > 0
    requires QueriesSized(queries, crs) && Honest(queries, crs)
    ensures proof.Some? && crs.n <= ChallengeT(state, ToVerifiers(queries), proof.value.gComm) ==> ok
  {
    hide GroupLaws, IsField, EncodingLengths, Honest, OpenedBy, CheckAccepts, Precomputed, ChallengeT;
    var precomp := NewPrecomputedWeights(crs.n);
    var prover := new Transcript(state);
    ghost var order;
    proof, order := Open(crs, precomp, prover, queries, threads);
    ok := false;
    if proof.Some? {
      OpenedShape(state, crs, queries, order, proof.value);
      var verifier := new Transcript(state);
      var accepted := Check(proof.value, crs, precomp, ToVerifiers(queries), verifier, threads);
      ok := accepted == Some(true);
      if crs.n <= ChallengeT(state, ToVerifiers(queries), proof.value.gComm) {
        MultiPointComplete(state, crs, queries, order, proof.value);
      }
    }
  }

  lemma OpenedShape(state: seq<Byte>, crs: Crs, qs: seq<ProverQuery>, order: seq<nat>, proof: MultiPointProof)
    requires QueriesSized(qs, crs) && OpenedBy(state, crs, qs, order, proof)
    ensures |proof.openProof.l| == |proof.openProof.r|
  {
    hide Rounds;
    var vs := ToVerifiers(qs);
    var pw := PowersTo(ChallengeR(state, vs), |qs|);
    var t := ChallengeT(state, vs, proof.gComm);
    var g, g1 := GPoly(order, qs, pw, crs.n), G1Poly(order, t, qs, pw, crs.n);
    var state1 := Opened(AfterE(state, vs, proof.gComm, Lin(g1, crs.g)), Minus(Lin(g1, crs.g), proof.gComm), t, Red(Dot(Difference(g1, g), Coefficients(t, crs.n))));
    RoundsShape(AfterChallenge(state1, TAG_W), Vectors(Difference(g1, g), Coefficients(t, crs.n), crs.g), Times(Challenge(state1, TAG_W), crs.q), Log2(|crs.g|));
  }
}
