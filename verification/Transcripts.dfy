/** The Fiat-Shamir transcript: the bytes absorbed so far, and challenges that depend on all of them. */
module Transcripts {
  import opened Wrappers
  import opened Scalars
  import opened Elements

  function Ascii(s: string): seq<Byte> {
    seq(|s|, i requires 0 <= i < |s| => s[i] as int % 256)
  }

  /** The encodings of points and scalars, and the hash: arbitrary functions. */
  const PointBytes: Element -> seq<Byte>
  const ScalarBytes: Fr -> seq<Byte>
  const HashToScalar: seq<Byte> -> Fr

  /** Both encodings take 32 bytes. */
  ghost predicate EncodingLengths() {
    (forall p :: |PointBytes(p)| == 32) && (forall x :: |ScalarBytes(x)| == 32)
  }

  function AfterMessage(state: seq<Byte>, tag: seq<Byte>, message: seq<Byte>): seq<Byte> {
    state + tag + message
  }

  function AfterPoint(state: seq<Byte>, tag: seq<Byte>, p: Element): seq<Byte> {
    AfterMessage(state, tag, PointBytes(p))
  }

  function AfterScalar(state: seq<Byte>, tag: seq<Byte>, x: Fr): seq<Byte> {
    AfterMessage(state, tag, ScalarBytes(x))
  }

  function Challenge(state: seq<Byte>, tag: seq<Byte>): Fr {
    HashToScalar(state + tag)
  }

  /** A challenge empties the state and absorbs itself. */
  function AfterChallenge(state: seq<Byte>, tag: seq<Byte>): seq<Byte> {
    AfterScalar([], tag, Challenge(state, tag))
  }

  // ---------------------------------------------------------------- what a challenge binds

  /** Both encodings are one-to-one. */
  ghost predicate EncodingsDistinguish() {
    && EncodingLengths()
    && (forall p, q :: PointBytes(p) == PointBytes(q) ==> p == q)
    && (forall x, y :: ScalarBytes(x) == ScalarBytes(y) ==> x == y)
  }

  /** The hash tells these inputs apart. (No hash into a finite field tells all inputs apart.) */
  ghost predicate HashDistinguishes(inputs: set<seq<Byte>>) {
    forall a, b :: a in inputs && b in inputs && HashToScalar(a) == HashToScalar(b) ==> a == b
  }

  lemma FewerInputs(inputs: set<seq<Byte>>, all: set<seq<Byte>>)
    requires HashDistinguishes(all) && inputs <= all
    ensures HashDistinguishes(inputs)
  {
  }

  lemma TailsAgree(a: seq<Byte>, x: seq<Byte>, b: seq<Byte>, y: seq<Byte>)
    requires a + x == b + y && |x| == |y|
    ensures a == b && x == y
  {
    assert a == (a + x)[..|a|] && b == (b + y)[..|b|];
    assert x == (a + x)[|a|..] && y == (b + y)[|b|..];
  }

  /** Equal challenges come from equal bytes and equal labels, unless the two inputs collide. */
  lemma ChallengeBinds(s1: seq<Byte>, tag1: seq<Byte>, s2: seq<Byte>, tag2: seq<Byte>)
    requires HashDistinguishes({s1 + tag1, s2 + tag2}) && |tag1| == |tag2|
    ensures Challenge(s1, tag1) == Challenge(s2, tag2) <==> s1 == s2 && tag1 == tag2
  {
    if Challenge(s1, tag1) == Challenge(s2, tag2) {
      TailsAgree(s1, tag1, s2, tag2);
    }
  }

  lemma AfterMessageBinds(s1: seq<Byte>, s2: seq<Byte>, tag: seq<Byte>, m1: seq<Byte>, m2: seq<Byte>)
    requires AfterMessage(s1, tag, m1) == AfterMessage(s2, tag, m2) && |m1| == |m2|
    ensures s1 == s2 && m1 == m2
  {
    TailsAgree(s1 + tag, m1, s2 + tag, m2);
    TailsAgree(s1, tag, s2, tag);
  }

  lemma AfterPointBinds(s1: seq<Byte>, s2: seq<Byte>, tag: seq<Byte>, p: Element, q: Element)
    requires EncodingsDistinguish()
    ensures AfterPoint(s1, tag, p) == AfterPoint(s2, tag, q) <==> s1 == s2 && p == q
  {
    if AfterPoint(s1, tag, p) == AfterPoint(s2, tag, q) {
      AfterMessageBinds(s1, s2, tag, PointBytes(p), PointBytes(q));
    }
  }

  lemma AfterScalarBinds(s1: seq<Byte>, s2: seq<Byte>, tag: seq<Byte>, x: Fr, y: Fr)
    requires EncodingsDistinguish()
    ensures AfterScalar(s1, tag, x) == AfterScalar(s2, tag, y) <==> s1 == s2 && x == y
  {
    if AfterScalar(s1, tag, x) == AfterScalar(s2, tag, y) {
      AfterMessageBinds(s1, s2, tag, ScalarBytes(x), ScalarBytes(y));
    }
  }

  /** The state after a challenge still binds all bytes before it. */
  lemma AfterChallengeBinds(s1: seq<Byte>, s2: seq<Byte>, tag: seq<Byte>)
    requires EncodingsDistinguish() && HashDistinguishes({s1 + tag, s2 + tag})
    ensures AfterChallenge(s1, tag) == AfterChallenge(s2, tag) <==> s1 == s2
  {
    AfterScalarBinds([], [], tag, Challenge(s1, tag), Challenge(s2, tag));
    ChallengeBinds(s1, tag, s2, tag);
  }

  class Transcript {
    var state: seq<Byte>

    constructor (tag: seq<Byte>)
      ensures state == tag
    {
      state := tag;
    }

    method DomainSep(tag: seq<Byte>)
      modifies this
      ensures state == old(state) + tag
    {
      state := state + tag;
    }

    method AppendMessage(message: seq<Byte>, tag: seq<Byte>)
      modifies this
      ensures state == AfterMessage(old(state), tag, message)
    {
      state := state + tag;
      state := state + message;
    }

    method AppendPoint(tag: seq<Byte>, p: Element)
      modifies this
      ensures state == AfterPoint(old(state), tag, p)
    {
      AppendMessage(PointBytes(p), tag);
    }

    method AppendScalar(tag: seq<Byte>, x: Fr)
      modifies this
      ensures state == AfterScalar(old(state), tag, x)
    {
      AppendMessage(ScalarBytes(x), tag);
    }

    method ChallengeScalar(tag: seq<Byte>) returns (x: Fr)
      modifies this
      ensures x == Challenge(old(state), tag) && state == AfterChallenge(old(state), tag)
    {
      DomainSep(tag);
      x := HashToScalar(state);
      state := [];
      AppendScalar(tag, x);
    }
  }
}
