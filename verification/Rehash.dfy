/** Rebuilding the layout of a bucket from its plain pairs, as `shi_rehash` does. */
module Rehash {
  import opened Wrappers
  import opened ShiTable
  import opened Insertion

  predicate IsLargest(keys: set<Key>, k: Key) {
    k in keys && forall j :: j in keys ==> j <= k
  }

  lemma {:induction false} LargestExists(keys: set<Key>)
    requires keys != {}
    ensures exists k :: IsLargest(keys, k)
  {
    var x := SomeElement(keys);
    var others := keys - {x};
    if keys == {x} {
      assert IsLargest(keys, x);
    } else {
      LargestExists(others);
      var y :| IsLargest(others, y);
      var largest := if x > y then x else y;
      forall j | j in keys
        ensures j <= largest
      {
        assert j == x || j in others;
      }
      assert IsLargest(keys, largest);
    }
  }

  /** The plain pairs of a table, and how many slots they occupy. */
  method PairsOf(t: Table) returns (pairs: map<Key, Bytes>, used: nat)
    requires Distinct(t)
    ensures pairs == Contents(t) && used == Count(t) == |pairs|
  {
    pairs, used := map[], 0;
    for i := 0 to |t|
      invariant pairs == Contents(t[..i]) && used == Count(t[..i])
    {
      ContentsOfPrefix(t, i);
      assert t[..i + 1][..i] == t[..i];
      if t[i].Some? {
        pairs := pairs[t[i].value.key := t[i].value.val];
        used := used + 1;
      }
    }
    assert t[..|t|] == t;
    CountIsContents(t);
  }

  lemma ContentsOfPrefix(t: Table, i: nat)
    requires Distinct(t) && i < |t|
    ensures Contents(t[..i + 1]) == if t[i].Some? then Contents(t[..i])[t[i].value.key := t[i].value.val] else Contents(t[..i])
  {
    var s, u := t[..i], t[..i + 1];
    assert u[..|u| - 1] == s && u[|u| - 1] == t[i];
    KeysOfLast(u);
    var m := if t[i].Some? then Contents(s)[t[i].value.key := t[i].value.val] else Contents(s);
    forall q | 0 <= q < |u| && u[q].Some?
      ensures u[q].value.key in m && m[u[q].value.key] == u[q].value.val
    {
      if q < i {
        assert s[q] == u[q];
        ContentsAt(s, q);
      }
    }
    ContentsIs(u, m);
  }

  /** A table in order is the one that inserting its pairs one by one into an empty bucket ends in, in any order. */
  lemma RehashIsTheLayout(es: seq<Entry>, nonce: nat, built: Table)
    requires Canonical(built, nonce) && Contents(built) == PairMap(es)
    ensures InsertAll(|built|, nonce, es) == Some(built)
  {
    FullByCount(built, nonce);
    InsertAllIs(|built|, nonce, es);
    CanonicalUnique(built, InsertAll(|built|, nonce, es).value, nonce);
  }

  /** What has been placed while the keys still to come are all smaller. */
  ghost predicate Placed(pairs: map<Key, Bytes>, t: Table, nonce: nat, rest: set<Key>) {
    && Canonical(t, nonce)
    && rest <= pairs.Keys
    && Contents(t) == pairs - rest
    && forall j, k :: j in pairs.Keys - rest && k in rest ==> j > k
  }

  /**
   Reinsertion in descending key order, each key at the first empty slot of its probe
   sequence: no keys are compared, and yet the result is the canonical table.
   */
  method PlaceDescending(pairs: map<Key, Bytes>, nonce: nat, capacity: nat) returns (t: Table)
    requires 0 < capacity && |pairs| <= capacity
    ensures |t| == capacity && Canonical(t, nonce) && Contents(t) == pairs
    ensures forall es: seq<Entry> :: PairMap(es) == pairs ==> InsertAll(capacity, nonce, es) == Some(t)
  {
    hide InsertAll, PairMap;
    t := seq(capacity, _ => None);
    assert Contents(t) == map[];
    var rest := pairs.Keys;
    assert pairs - rest == map[];
    while rest != {}
      invariant |t| == capacity && Placed(pairs, t, nonce, rest)
      decreases |rest|
    {
      LargestExists(rest);
      var key :| IsLargest(rest, key);
      var slot := FirstEmpty(t, pairs, key, nonce, rest);
      PlaceLargest(pairs, t, nonce, rest, key, slot);
      t := t[slot := Some(Entry(key, pairs[key]))];
      rest := rest - {key};
    }
    assert pairs - rest == pairs;
    forall es: seq<Entry> | PairMap(es) == pairs
      ensures InsertAll(capacity, nonce, es) == Some(t)
    {
      RehashIsTheLayout(es, nonce, t);
    }
  }

  /** The first empty slot of a probe sequence; one exists as long as a pair is unplaced. */
  method FirstEmpty(t: Table, pairs: map<Key, Bytes>, key: Key, nonce: nat, ghost rest: set<Key>) returns (slot: nat)
    requires Placed(pairs, t, nonce, rest) && key in rest && |pairs| <= |t|
    ensures slot < |t| && t[slot].None? && OnRun(t, Home(key, nonce, |t|), slot)
  {
    var hashedKey := HashWithNonce(key, nonce);
    SearchRunStart(t, nonce, key);
    for step := 0 to |t|
      invariant RunSo(t, nonce, key, step)
    {
      slot := Probe(hashedKey, step, |t|);
      if t[slot].None? {
        return;
      }
      RunGoesOn(t, nonce, key, step);
    }
    NotFull(pairs, t, nonce, rest, key);
    assert false;
  }

  /** The first `step` slots of the probe sequence are occupied. */
  ghost predicate RunSo(t: Table, nonce: nat, key: Key, step: nat) {
    && 0 < |t| && step <= |t|
    && (forall x {:trigger t[x]} :: 0 <= x < |t| && Dist(|t|, Home(key, nonce, |t|), x) < step ==> t[x].Some?)
    && (step < |t| ==> OnRun(t, Home(key, nonce, |t|), Probe(HashWithNonce(key, nonce), step, |t|)))
  }

  lemma SearchRunStart(t: Table, nonce: nat, key: Key)
    requires 0 < |t|
    ensures RunSo(t, nonce, key, 0)
  {
    ProbeRank(HashWithNonce(key, nonce), |t|, 0, 0);
  }

  lemma RunGoesOn(t: Table, nonce: nat, key: Key, step: nat)
    requires RunSo(t, nonce, key, step) && step < |t| && t[Probe(HashWithNonce(key, nonce), step, |t|)].Some?
    ensures RunSo(t, nonce, key, step + 1)
  {
    NextProbe(HashWithNonce(key, nonce), step, |t|);
    if step + 1 < |t| {
      ProbeRank(HashWithNonce(key, nonce), |t|, step + 1, 0);
    }
  }

  lemma NotFull(pairs: map<Key, Bytes>, t: Table, nonce: nat, rest: set<Key>, key: Key)
    requires Placed(pairs, t, nonce, rest) && key in rest && |pairs| <= |t|
    ensures exists x :: 0 <= x < |t| && t[x].None?
  {
    CanonicalDistinct(t, nonce, -1);
    CountIsContents(t);
    CountFull(t);
    assert |Contents(t)| < |pairs| by {
      assert Contents(t).Keys < pairs.Keys by {
        assert key in pairs.Keys - Contents(t).Keys;
      }
      SmallerSet(Contents(t).Keys, pairs.Keys);
      assert |pairs| == |pairs.Keys| && |Contents(t)| == |Contents(t).Keys|;
    }
  }

  lemma SmallerSet<T>(a: set<T>, b: set<T>)
    requires a < b
    ensures |a| < |b|
  {
    var rest := b - a;
    assert b == a + rest && rest != {};
  }

  lemma PlaceLargest(pairs: map<Key, Bytes>, t: Table, nonce: nat, rest: set<Key>, key: Key, slot: nat)
    requires Placed(pairs, t, nonce, rest) && IsLargest(rest, key)
    requires slot < |t| && t[slot].None? && OnRun(t, Home(key, nonce, |t|), slot)
    ensures Placed(pairs, t[slot := Some(Entry(key, pairs[key]))], nonce, rest - {key})
  {
    var e := Entry(key, pairs[key]);
    CanonicalDistinct(t, nonce, -1);
    forall x | 0 <= x < |t| && t[x].Some?
      ensures t[x].value.key > key
    {
      ContentsAt(t, x);
      assert t[x].value.key in pairs.Keys - rest;
    }
    assert PassedLarger(t, nonce, key, slot);
    assert key !in Contents(t);
    CanonicalWrite(t, nonce, slot, e);
    ContentsPut(t, slot, e);
    assert pairs - (rest - {key}) == (pairs - rest)[key := pairs[key]];
  }
}
