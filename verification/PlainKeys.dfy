/**
 Plain keys are byte strings compared byte by byte. The tables work on order codes: numbers
 that compare as the strings do.
 */
module PlainKeys {
  import opened Wrappers

  /** A stored key has at most as many bytes as its one-byte length can say. */
  const MAX_KEY_LENGTH := 255

  /** The order of byte slices. */
  predicate Before(a: seq<Byte>, b: seq<Byte>) {
    b != [] && (a == [] || a[0] < b[0] || (a[0] == b[0] && Before(a[1..], b[1..])))
  }

  function PlaceValue(n: nat): (w: nat)
    ensures w > 0
  {
    if n == 0 then 1 else 257 * PlaceValue(n - 1)
  }

  lemma {:induction false} MulMonotone(x: nat, y: nat, w: nat)
    requires x <= y
    ensures x * w <= y * w
  {
    if x < y {
      MulMonotone(x, y - 1, w);
      assert y * w == (y - 1) * w + w;
    }
  }

  /** A smaller first digit decides. */
  lemma FirstDigit(x: nat, y: nat, r: nat, s: nat, w: nat)
    requires x < y && r < w
    ensures x * w + r < y * w + s
  {
    MulMonotone(x + 1, y, w);
    assert (x + 1) * w == x * w + w;
  }

  function Digit(x: Byte): nat {
    (x as nat) + 1
  }

  /** A key as a number of `width` digits: digit 0 is the end of the key, digit `x + 1` the byte `x`. */
  function Code(key: seq<Byte>, width: nat): (c: nat)
    requires |key| <= width
    ensures c < PlaceValue(width)
  {
    if key == [] then 0
    else
      FirstDigit(Digit(key[0]), 257, Code(key[1..], width - 1), 0, PlaceValue(width - 1));
      Digit(key[0]) * PlaceValue(width - 1) + Code(key[1..], width - 1)
  }

  /** The empty key comes first. */
  lemma CodePositive(key: seq<Byte>, width: nat)
    requires key != [] && |key| <= width
    ensures Code(key, width) > 0
  {
    FirstDigit(0, Digit(key[0]), 0, Code(key[1..], width - 1), PlaceValue(width - 1));
  }

  /** Codes compare as the keys do, so different keys have different codes. */
  lemma {:induction false} CodeOrder(a: seq<Byte>, b: seq<Byte>, width: nat)
    requires |a| <= width && |b| <= width
    ensures Before(a, b) <==> Code(a, width) < Code(b, width)
    ensures a == b <==> Code(a, width) == Code(b, width)
    decreases width
  {
    if a == [] || b == [] {
      if a != [] { CodePositive(a, width); }
      if b != [] { CodePositive(b, width); }
    } else {
      var ca, cb := Code(a[1..], width - 1), Code(b[1..], width - 1);
      if a[0] < b[0] {
        FirstDigit(Digit(a[0]), Digit(b[0]), ca, cb, PlaceValue(width - 1));
      } else if b[0] < a[0] {
        FirstDigit(Digit(b[0]), Digit(a[0]), cb, ca, PlaceValue(width - 1));
      } else {
        CodeOrder(a[1..], b[1..], width - 1);
        assert a == [a[0]] + a[1..] && b == [b[0]] + b[1..];
      }
    }
  }
}
