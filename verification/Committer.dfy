/**
 Multiplication of a fixed base by a scalar with precomputed tables: the scalar is cut into
 windows across its 64-bit words, the windows are recoded with signs, and each signed digit
 is looked up.
 */
module CommitterModule {
  import opened Bits
  import opened Elements

  const WORD: nat := 64
  const SCALAR_BITS: nat := 253

  predicate WindowOk(w: nat) {
    1 <= w < WORD
  }

  // ---------------------------------------------------------------- windows

  /** The words of a scalar, least significant first. */
  function Words(s: nat, n: nat): (l: seq<nat>)
    ensures |l| == n
  {
    seq(n, i requires 0 <= i < n => Low(Shr(s, WORD * i), WORD))
  }

  /** The `w` bits from `start` on, from one word or two. */
  function Window(words: seq<nat>, start: nat, w: nat): nat
    requires WindowOk(w) && |words| == 4 && start < 4 * WORD
  {
    var i, offset := start / WORD, start % WORD;
    var d := And(Shr(words[i], offset), Pow2(w) - 1);
    if offset + w > WORD && i < |words| - 1 then
      var left := w - (WORD - offset);
      Or(d, Low(And(words[i + 1], Pow2(left) - 1) * Pow2(WORD - offset), WORD))
    else d
  }

  /** The extraction across words gives the true digit. */
  lemma WindowIs(s: nat, start: nat, w: nat)
    requires WindowOk(w) && s < Pow2(4 * WORD) && start < 4 * WORD
    ensures Window(Words(s, 4), start, w) == Low(Shr(s, start), w)
  {
    hide Pow2, And, Or, Low, Shr;
    var i, o := start / WORD, start % WORD;
    var v, k: nat := Shr(s, WORD * i), WORD - o;
    AndMask(Shr(Words(s, 4)[i], o), w);
    ShrShr(s, WORD * i, o);
    ShrLow(v, k, o);
    if o + w <= WORD {
      LowLow(Shr(v, o), k, w);
    } else {
      var left: nat := w - k;
      LowLow(Shr(v, o), w, k);
      LowSplit(Shr(v, o), k, left);
      ShrShr(v, o, k);
      ShrShr(s, WORD * i, WORD);
      if i < 3 {
        AndMask(Words(s, 4)[i + 1], left);
        LowLow(Shr(v, WORD), WORD, left);
        LowLow(Shr(v, WORD), left, left);
        FitsWord(Low(Shr(v, WORD), left), left, k);
        LowBound(Shr(v, o), k);
        OrAbove(Low(Shr(v, o), k), Low(Shr(v, WORD), left), k);
      } else {
        LowBound(s, 4 * WORD);
        NoBits(left);
        NoBits(WORD);
      }
    }
  }

  lemma NoBits(k: nat)
    ensures Low(0, k) == 0
  {
    LowBound(0, k);
  }

  /** The shifted bits of the next word do not leave the word. */
  lemma FitsWord(x: nat, left: nat, k: nat)
    requires left + k < WORD && x == Low(x, left)
    ensures Low(x * Pow2(k), WORD) == x * Pow2(k)
  {
    hide Pow2;
    LowBound(x, left);
    Remainder2(x, 0, Pow2(k), Pow2(left));
    Pow2Add(k, left);
    Pow2Grows(k + left, WORD);
    LowBound(x * Pow2(k), WORD);
  }

  function WindowCount(w: nat): (n: nat)
    requires WindowOk(w)
  {
    SCALAR_BITS / w + 1
  }

  /** The true base-2^w digits. */
  function Digits(s: nat, w: nat, n: nat): (c: seq<nat>)
    ensures |c| == n
  {
    seq(n, i requires 0 <= i < n => Low(Shr(s, w * i), w))
  }

  lemma ScalarFits(s: nat)
    requires s < Pow2(SCALAR_BITS)
    ensures s < Pow2(4 * WORD)
  {
    Pow2Grows(SCALAR_BITS, 4 * WORD);
  }

  lemma StartInRange(w: nat, i: nat)
    requires WindowOk(w)
    ensures w * i <= SCALAR_BITS <==> i < WindowCount(w)
  {
    var q := SCALAR_BITS / w;
    assert SCALAR_BITS == q * w + SCALAR_BITS % w;
    if i <= q {
      AtMost(i, q, w);
    } else {
      AtMost(q + 1, i, w);
      assert (q + 1) * w == q * w + w;
      assert i * w == w * i;
    }
  }

  lemma {:induction false} AtMost(a: nat, b: nat, p: nat)
    requires a <= b
    ensures p * a <= b * p && a * p <= b * p && a * p == p * a
  {
    if a < b {
      AtMost(a, b - 1, p);
      assert b * p == (b - 1) * p + p;
    } else {
      assert p * a == b * p;
    }
  }

  /** `calculate_prefetch_index`. */
  method CalculatePrefetchIndex(scalar: nat, w: nat) returns (digits: seq<nat>)
    requires WindowOk(w) && scalar < Pow2(SCALAR_BITS)
    ensures digits == Digits(scalar, w, WindowCount(w))
  {
    hide Pow2, Window, Words, Low, Shr, WindowCount;
    ScalarFits(scalar);
    var words := Words(scalar, 4);
    digits := [];
    var start := 0;
    StartInRange(w, 0);
    while start < SCALAR_BITS + 1
      invariant start == w * |digits| && |digits| <= WindowCount(w)
      invariant digits == Digits(scalar, w, |digits|)
      decreases SCALAR_BITS + 1 - start
    {
      StartInRange(w, |digits|);
      WindowIs(scalar, start, w);
      assert w * (|digits| + 1) == start + w;
      digits := digits + [Window(words, start, w)];
      start := start + w;
    }
    StartInRange(w, |digits|);
  }

  // ---------------------------------------------------------------- signed digits

  /** A digit with the carry from below, as a table index and the carry into the next window: with a carry the digit counts negative. */
  function Recoded(digit: nat, carry: nat, w: nat): (r: (nat, nat))
    requires WindowOk(w) && digit < Pow2(w) && carry <= 1
    ensures r.0 <= Pow2(w - 1) && r.1 <= 1
  {
    Pow2Doubles(w - 1);
    var index := digit + carry;
    if index > Pow2(w - 1) then (Pow2(w) - index, 1) else (index, 0)
  }

  function Signed(r: (nat, nat)): int {
    if r.1 > 0 then 0 - r.0 else r.0
  }

  /** The signed digits so far, with the carry at the next window, are the lowest bits of the scalar. */
  lemma RecodeNext(s: nat, w: nat, i: nat, carry: nat, sum: int)
    requires WindowOk(w) && carry <= 1 && sum + carry * Pow2(w * i) == Low(s, w * i)
    ensures Low(Shr(s, w * i), w) < Pow2(w)
    ensures var r := Recoded(Low(Shr(s, w * i), w), carry, w);
            sum + Signed(r) * Pow2(w * i) + r.1 * Pow2(w * (i + 1)) == Low(s, w * (i + 1))
  {
    hide Pow2, Low, Shr, Recoded, Signed;
    LowBound(Shr(s, w * i), w);
    LowSplit(s, w * i, w);
    Pow2Add(w * i, w);
    assert w * (i + 1) == w * i + w;
    var c := Low(Shr(s, w * i), w);
    RecodedIs(c, carry, w);
    var r := Recoded(c, carry, w);
    AddDigit(Low(s, w * i), sum, carry, c, Signed(r), r.1, Pow2(w * i), Pow2(w));
  }

  lemma RecodedIs(digit: nat, carry: nat, w: nat)
    requires WindowOk(w) && digit < Pow2(w) && carry <= 1
    ensures var r := Recoded(digit, carry, w); Signed(r) + r.1 * Pow2(w) == digit + carry
  {
    hide Pow2;
  }

  lemma AddDigit(low: int, sum: int, carry: int, digit: int, signed: int, next: int, p: int, q: int)
    requires sum + carry * p == low && signed + next * q == digit + carry
    ensures sum + signed * p + next * (p * q) == low + digit * p
  {
    assert (signed + next * q) * p == signed * p + next * (p * q);
    assert (digit + carry) * p == digit * p + carry * p;
  }

  /** The top window does not carry out. */
  lemma {:induction false} TopDoesNotCarry(s: nat, w: nat, carry: nat)
    requires WindowOk(w) && s < Pow2(SCALAR_BITS) && carry <= 1
    ensures var c := Low(Shr(s, w * (WindowCount(w) - 1)), w); c < Pow2(w) && Recoded(c, carry, w).1 == 0
  {
    var e: nat := w * (WindowCount(w) - 1);
    hide Pow2, Low, Shr;
    StartInRange(w, WindowCount(w) - 1);
    StartInRange(w, WindowCount(w));
    assert w * WindowCount(w) == e + w;
    var top: nat := SCALAR_BITS - e;
    LowBound(s, SCALAR_BITS);
    ShrLow(s, top, e);
    LowBound(Shr(s, e), top);
    Pow2Grows(top, w - 1);
    Pow2Doubles(w - 1);
    LowBound(Shr(s, e), w);
  }

  lemma AllBits(s: nat, w: nat)
    requires WindowOk(w) && s < Pow2(SCALAR_BITS)
    ensures Low(s, w * WindowCount(w)) == s
  {
    StartInRange(w, WindowCount(w));
    Pow2Grows(SCALAR_BITS, w * WindowCount(w));
    hide Pow2;
    LowBound(s, w * WindowCount(w));
  }

  // ---------------------------------------------------------------- the tables

  /** The multiples 0, 1, .., half of a point. */
  function Multiples(b: Element, half: nat): (t: seq<Element>)
    ensures |t| == half + 1
  {
    seq(half + 1, j requires 0 <= j <= half => Times(j, b))
  }

  /** The tables of the first `n` windows, one after another. */
  function WindowTable(base: Element, w: nat, n: nat): (t: seq<Element>)
    requires WindowOk(w)
    ensures |t| == n * (Pow2(w - 1) + 1)
  {
    if n == 0 then [] else WindowTable(base, w, n - 1) + Multiples(Times(Pow2(w * (n - 1)), base), Pow2(w - 1))
  }

  /** Where the multiple `j` of window `i` is. */
  function Slot(i: nat, j: nat, w: nat): nat
    requires WindowOk(w)
  {
    j + i * (Pow2(w - 1) + 1)
  }

  lemma {:induction false} TableAt(base: Element, w: nat, n: nat, i: nat, j: nat)
    requires GroupLaws() && WindowOk(w) && i < n && j <= Pow2(w - 1)
    ensures Slot(i, j, w) < |WindowTable(base, w, n)| && WindowTable(base, w, n)[Slot(i, j, w)] == Times(j * Pow2(w * i), base)
  {
    hide GroupLaws, Pow2, Multiples;
    var size := Pow2(w - 1) + 1;
    assert n * size == (n - 1) * size + size;
    if i == n - 1 {
      Distribute2(j, Pow2(w * i), base);
      MultipleAt(Times(Pow2(w * i), base), Pow2(w - 1), j);
    } else {
      TableAt(base, w, n - 1, i, j);
    }
  }

  lemma MultipleAt(b: Element, half: nat, j: nat)
    requires j <= half
    ensures Multiples(b, half)[j] == Times(j, b)
  {
  }

  /** One window of `new`: the multiples of `b`, and b doubled `w` times. */
  method PushWindow(table: seq<Element>, b: Element, w: nat) returns (r: seq<Element>, element: Element)
    requires GroupLaws() && WindowOk(w)
    ensures r == table + Multiples(b, Pow2(w - 1)) && element == Times(Pow2(w), b)
  {
    hide GroupLaws, Pow2;
    var half := Pow2(w - 1);
    element := b;
    r := table + [Zero];
    r := r + [element];
    Neutral(b);
    for i := 1 to half
      invariant r == table + Multiples(b, i) && element == Times(i, b)
    {
      AddTimes(i, 1, b);
      element := Plus(element, b);
      r := r + [element];
      NextMultiple(b, i);
    }
    AddTimes(half, half, b);
    Pow2Doubles(w - 1);
    element := Plus(element, element);
  }

  lemma NextMultiple(b: Element, i: nat)
    ensures Multiples(b, i + 1) == Multiples(b, i) + [Times(i + 1, b)]
  {
  }

  /** `Committer::new` for one base. */
  method BuildTable(base: Element, w: nat) returns (table: seq<Element>)
    requires GroupLaws() && WindowOk(w)
    ensures table == WindowTable(base, w, WindowCount(w))
  {
    hide GroupLaws, Pow2, Multiples;
    table := [];
    var element := base;
    Neutral(base);
    Pow2Zero();
    for i := 0 to WindowCount(w)
      invariant table == WindowTable(base, w, i) && element == Times(Pow2(w * i), base)
    {
      Distribute2(Pow2(w), Pow2(w * i), base);
      Pow2Add(w, w * i);
      assert w * (i + 1) == w + w * i;
      table, element := PushWindow(table, element, w);
    }
  }

  lemma Pow2Zero()
    ensures Pow2(0) == 1
  {
  }

  // ---------------------------------------------------------------- multiplication

  function Negate(p: Element): Element {
    Times(-1, p)
  }

  /** Adding the signed table entry of one window. */
  lemma AddEntry(base: Element, sum: int, r: (nat, nat), p: nat)
    requires GroupLaws()
    ensures var e := Times(r.0 * p, base);
            Plus(Times(sum, base), if r.1 > 0 then Negate(e) else e) == Times(sum + Signed(r) * p, base)
  {
    hide GroupLaws;
    if r.1 > 0 {
      Distribute2(-1, r.0 * p, base);
      assert -1 * (r.0 * p) == Signed(r) * p;
    }
    AddTimes(sum, Signed(r) * p, base);
  }

  function SumOf(points: seq<Element>): Element {
    if points == [] then Zero else Plus(SumOf(points[..|points| - 1]), points[|points| - 1])
  }

  lemma SumNext(points: seq<Element>, p: Element)
    ensures SumOf(points + [p]) == Plus(SumOf(points), p)
  {
    assert (points + [p])[..|points|] == points;
  }

  /** `mul_index` without prefetching: collects the signed entries of the nonzero digits, then adds them up. */
  method MulIndex(scalar: nat, w: nat, table: seq<Element>, ghost base: Element) returns (result: Element)
    requires GroupLaws() && WindowOk(w) && scalar < Pow2(SCALAR_BITS) && table == WindowTable(base, w, WindowCount(w))
    ensures result == Times(scalar, base)
  {
    hide GroupLaws, Pow2, Low, Shr, WindowTable, WindowCount, Signed;
    var digits := CalculatePrefetchIndex(scalar, w);
    var carry: nat := 0;
    var half := Pow2(w - 1);
    var points: seq<Element> := [];
    ghost var sum := 0;
    Neutral(base);
    StartOfSum(scalar);
    assert w * 0 == 0;
    for i := 0 to |digits|
      invariant carry <= 1 && sum + carry * Pow2(w * i) == Low(scalar, w * i) && SumOf(points) == Times(sum, base)
      invariant i == |digits| && i > 0 ==> carry == 0
    {
      RecodeNext(scalar, w, i, carry, sum);
      ghost var r := Recoded(digits[i], carry, w);
      if i == |digits| - 1 {
        TopDoesNotCarry(scalar, w, carry);
      }
      TableAt(base, w, WindowCount(w), i, r.0);
      AddEntry(base, sum, r, Pow2(w * i));
      EntryOfZero(r, Pow2(w * i), sum);
      var index := digits[i] + carry;
      if index != 0 {
        carry := 0;
        if index > half {
          index := Pow2(w) - index;
          if index != 0 {
            var p := Negate(table[index + i * (half + 1)]);
            SumNext(points, p);
            points := points + [p];
          }
          carry := 1;
        } else {
          var p := table[index + i * (half + 1)];
          SumNext(points, p);
          points := points + [p];
        }
      }
      sum := sum + Signed(r) * Pow2(w * i);
    }
    AllBits(scalar, w);
    SomeWindows(w);
    result := Zero;
    for i := 0 to |points|
      invariant result == SumOf(points[..i])
    {
      assert points[..i + 1] == points[..i] + [points[i]];
      SumNext(points[..i], points[i]);
      result := Plus(result, points[i]);
    }
    assert points[..|points|] == points;
  }

  lemma SomeWindows(w: nat)
    requires WindowOk(w)
    ensures WindowCount(w) > 0
  {
  }

  lemma StartOfSum(s: nat)
    ensures Low(s, 0) == 0
  {
    LowBound(s, 0);
  }

  lemma EntryOfZero(r: (nat, nat), p: nat, sum: int)
    ensures r.0 == 0 ==> sum + Signed(r) * p == sum
  {
  }

  /** `mul_index` with prefetching: one window ahead, the entry of the current window is already located. */
  method MulIndexPrefetching(scalar: nat, w: nat, table: seq<Element>, ghost base: Element) returns (result: Element)
    requires GroupLaws() && WindowOk(w) && scalar < Pow2(SCALAR_BITS) && table == WindowTable(base, w, WindowCount(w))
    ensures result == Times(scalar, base)
  {
    hide GroupLaws, Pow2, Low, Shr, WindowTable, WindowCount, Signed;
    var digits := CalculatePrefetchIndex(scalar, w);
    SomeWindows(w);
    result := Zero;
    var halfWnd := Pow2(w - 1) + 1;
    var wndSize := Pow2(w);
    ghost var sum := 0;
    Neutral(base);
    StartOfSum(scalar);
    Pow2Zero();
    assert w * 0 == 0;
    RecodeNext(scalar, w, 0, 0, 0);
    ghost var r := Recoded(digits[0], 0, w);
    var nextCarry := 0;
    var nextIdx;
    if digits[0] >= halfWnd {
      nextCarry := 1;
      nextIdx := wndSize - digits[0];
    } else {
      nextIdx := digits[0];
    }
    var idx := nextIdx;
    assert Signed(r) * Pow2(w * 0) == Signed(r);
    TopCarry(scalar, w, 0, 0);
    for i := 1 to |digits|
      invariant r.0 <= Pow2(w - 1) && r.1 <= 1 && nextCarry == r.1 && idx == Slot(i - 1, r.0, w)
      invariant result == Times(sum, base)
      invariant sum + Signed(r) * Pow2(w * (i - 1)) + r.1 * Pow2(w * i) == Low(scalar, w * i)
      invariant i == |digits| ==> r.1 == 0
    {
      ghost var sum1 := sum + Signed(r) * Pow2(w * (i - 1));
      RecodeNext(scalar, w, i, r.1, sum1);
      TopCarry(scalar, w, i, r.1);
      ghost var r1 := Recoded(digits[i], r.1, w);
      nextIdx := digits[i] + nextCarry;
      var carry := nextCarry;
      if nextIdx >= halfWnd {
        nextCarry := 1;
        nextIdx := wndSize - nextIdx + i * halfWnd;
      } else {
        nextCarry := 0;
        nextIdx := nextIdx + i * halfWnd;
      }
      TableAt(base, w, WindowCount(w), i - 1, r.0);
      AddEntry(base, sum, r, Pow2(w * (i - 1)));
      if carry > 0 {
        result := Plus(result, Negate(table[idx]));
      } else {
        result := Plus(result, table[idx]);
      }
      idx := nextIdx;
      sum, r := sum1, r1;
    }
    TableAt(base, w, WindowCount(w), |digits| - 1, r.0);
    AddEntry(base, sum, r, Pow2(w * (|digits| - 1)));
    AllBits(scalar, w);
    var last := table[idx];
    result := Plus(result, if nextCarry > 0 then Negate(last) else last);
  }

  lemma TopCarry(s: nat, w: nat, i: nat, carry: nat)
    requires WindowOk(w) && s < Pow2(SCALAR_BITS) && carry <= 1 && Low(Shr(s, w * i), w) < Pow2(w)
    ensures i + 1 == WindowCount(w) ==> Recoded(Low(Shr(s, w * i), w), carry, w).1 == 0
  {
    if i + 1 == WindowCount(w) {
      TopDoesNotCarry(s, w, carry);
    }
  }

  /** Both versions, on the table that `BuildTable` makes, multiply. */
  method Multiply(scalar: nat, w: nat, base: Element) returns (simple: Element, prefetching: Element)
    requires GroupLaws() && WindowOk(w) && scalar < Pow2(SCALAR_BITS)
    ensures simple == prefetching == Times(scalar, base)
  {
    hide GroupLaws, Pow2, WindowTable;
    var table := BuildTable(base, w);
    simple := MulIndex(scalar, w, table, base);
    prefetching := MulIndexPrefetching(scalar, w, table, base);
  }
}
