/**
 Insertion into a bucket of fixed capacity as a function, and the order of insertions: the
 pairs that come in decide the table, their order does not.
 */
module Insertion {
  import opened Wrappers
  import opened ShiTable

  /** The table of an empty bucket. */
  ghost function Vacant(n: nat): Table {
    seq(n, _ => None)
  }

  lemma VacantFacts(n: nat, nonce: nat)
    requires n > 0
    ensures Canonical(Vacant(n), nonce) && Contents(Vacant(n)) == map[]
  {
  }

  /** The pairs that a list of insertions leaves: the last one of a key counts. */
  ghost function PairMap(pairs: seq<Entry>): (m: map<Key, Bytes>) {
    if pairs == [] then map[]
    else PairMap(pairs[..|pairs| - 1])[pairs[|pairs| - 1].key := pairs[|pairs| - 1].val]
  }

  /** The probing loop of an insertion, from probe number `step` on; `None` when it finds no place. */
  ghost function Probing(t: Table, hashedKey: nat, e: Entry, step: nat): Option<Table>
    requires step <= |t|
    decreases |t| - step
  {
    if step == |t| then None
    else
      var cur := Probe(hashedKey, step, |t|);
      if t[cur].None? || t[cur].value.key == e.key then Some(t[cur := Some(e)])
      else if t[cur].value.key < e.key then Probing(t[cur := Some(e)], hashedKey, t[cur].value, step + 1)
      else Probing(t, hashedKey, e, step + 1)
  }

  ghost function InsertEntry(t: Table, nonce: nat, e: Entry): Option<Table> {
    Probing(t, HashWithNonce(e.key, nonce), e, 0)
  }

  /** Insertion of pairs one by one into an empty bucket. */
  ghost function InsertAll(capacity: nat, nonce: nat, es: seq<Entry>): Option<Table> {
    if es == [] then Some(Vacant(capacity))
    else
      var t := InsertAll(capacity, nonce, es[..|es| - 1]);
      if t.None? then None else InsertEntry(t.value, nonce, es[|es| - 1])
  }

  /** What a finished insertion has done; it ends without a place exactly in a full table that lacks the key. */
  ghost predicate Inserted(t0: Table, nonce: nat, key: Key, val: Bytes, r: Option<Table>) {
    match r
    case None => key !in KeysOf(t0) && forall x :: 0 <= x < |t0| ==> t0[x].Some?
    case Some(t) =>
      && |t| == |t0| && Canonical(t, nonce) && Contents(t) == Contents(t0)[key := val]
      && (key in KeysOf(t0) || exists x :: 0 <= x < |t0| && t0[x].None?)
  }

  lemma {:induction false} ProbingInserts(t0: Table, nonce: nat, key: Key, val: Bytes, t: Table, e: Entry, step: nat)
    requires Inserting(t0, nonce, key, val, t, e, step)
    ensures Inserted(t0, nonce, key, val, Probing(t, HashWithNonce(key, nonce), e, step))
    decreases |t| - step
  {
    hide CanonicalExcept, Contents, PassedLarger, Probe;
    if step == |t| {
      InsertFull(t0, nonce, key, val, t, e);
    } else {
      var cur := Probe(HashWithNonce(key, nonce), step, |t|);
      if t[cur].None? {
        InsertPlace(t0, nonce, key, val, t, e, step);
        assert t0[cur].None?;
      } else if t[cur].value.key == e.key {
        InsertUpdate(t0, nonce, key, val, t, e, step);
      } else if t[cur].value.key < e.key {
        InsertDisplace(t0, nonce, key, val, t, e, step);
        ProbingInserts(t0, nonce, key, val, t[cur := Some(e)], t[cur].value, step + 1);
      } else {
        InsertPassOver(t0, nonce, key, val, t, e, step);
        ProbingInserts(t0, nonce, key, val, t, e, step + 1);
      }
    }
  }

  /** Insertion adds its pair to the map and keeps the order; it runs out of slots if and only if the table is full and lacks the key. */
  lemma InsertEntryIs(t: Table, nonce: nat, e: Entry)
    requires Canonical(t, nonce)
    ensures Inserted(t, nonce, e.key, e.val, InsertEntry(t, nonce, e))
    ensures InsertEntry(t, nonce, e).None? <==> e.key !in KeysOf(t) && forall x :: 0 <= x < |t| ==> t[x].Some?
  {
    InsertStart(t, nonce, e.key, e.val);
    ProbingInserts(t, nonce, e.key, e.val, t, e, 0);
  }

  lemma FullByCount(t: Table, nonce: nat)
    requires Canonical(t, nonce)
    ensures |Contents(t)| <= |t|
    ensures (forall x :: 0 <= x < |t| ==> t[x].Some?) ==> |Contents(t)| == |t|
  {
    CanonicalDistinct(t, nonce, -1);
    CountIsContents(t);
    CountFull(t);
  }

  /** A pair that fits finds its place. */
  lemma InsertEntryFits(t: Table, nonce: nat, e: Entry)
    requires Canonical(t, nonce) && |Contents(t)[e.key := e.val]| <= |t|
    ensures InsertEntry(t, nonce, e).Some?
    ensures var u := InsertEntry(t, nonce, e).value;
            |u| == |t| && Canonical(u, nonce) && Contents(u) == Contents(t)[e.key := e.val]
  {
    InsertEntryIs(t, nonce, e);
    FullByCount(t, nonce);
    hide CanonicalExcept, InsertEntry;
    var m := Contents(t);
    assert m[e.key := e.val].Keys == m.Keys + {e.key};
    assert |m| == |m.Keys| && |m[e.key := e.val]| == |m[e.key := e.val].Keys|;
    hide Contents;
  }

  /** Pairs that fit can be inserted one by one, whatever their order and however often a key comes up. */
  lemma {:induction false} InsertAllIs(capacity: nat, nonce: nat, es: seq<Entry>)
    requires 0 < capacity && |PairMap(es)| <= capacity
    ensures InsertAll(capacity, nonce, es).Some?
    ensures var t := InsertAll(capacity, nonce, es).value;
            |t| == capacity && Canonical(t, nonce) && Contents(t) == PairMap(es)
  {
    if es == [] {
      VacantFacts(capacity, nonce);
    } else {
      var n := |es| - 1;
      var m := PairMap(es[..n]);
      assert m.Keys <= PairMap(es).Keys && |m| == |m.Keys| && |PairMap(es)| == |PairMap(es).Keys|;
      Fewer(m.Keys, PairMap(es).Keys);
      InsertAllIs(capacity, nonce, es[..n]);
      InsertEntryFits(InsertAll(capacity, nonce, es[..n]).value, nonce, es[n]);
    }
  }

  lemma Fewer<T>(a: set<T>, b: set<T>)
    requires a <= b
    ensures |a| <= |b|
  {
    assert b == a + (b - a);
  }

  /** The order of insertions leaves no trace. */
  lemma InsertionOrderIsFree(capacity: nat, nonce: nat, es1: seq<Entry>, es2: seq<Entry>)
    requires 0 < capacity && PairMap(es1) == PairMap(es2) && |PairMap(es1)| <= capacity
    ensures InsertAll(capacity, nonce, es1) == InsertAll(capacity, nonce, es2)
  {
    InsertAllIs(capacity, nonce, es1);
    InsertAllIs(capacity, nonce, es2);
    CanonicalUnique(InsertAll(capacity, nonce, es1).value, InsertAll(capacity, nonce, es2).value, nonce);
  }
}
