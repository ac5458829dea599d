/**
 The layout of one strongly history-independent (SHI) bucket: an ordered
 linear-probing table, stated on values. `Canonical` is the invariant that every
 bucket operation keeps; `CanonicalUnique` says that it leaves a key set one layout.
 */
module ShiTable {
  import opened Wrappers

  /** The order code of a plain key; module PlainKeys shows that codes compare as the byte strings do. */
  type Key = int

  type Bytes = seq<bv8>

  datatype Entry = Entry(key: Key, val: Bytes)

  type Table = seq<Option<Entry>>

  /** The hash of a plain key under a bucket's nonce: an arbitrary function. */
  const HashWithNonce: (Key, nat) -> nat

  // ---------------------------------------------------------------- probing

  /** The i-th slot of a probe sequence, as computed by `probe`. */
  function Probe(hashedKey: nat, i: nat, capacity: nat): (slot: nat)
    requires capacity > 0
    ensures slot < capacity
  {
    (hashedKey % capacity + i) % capacity
  }

  /** The number of steps from slot `from` forward to slot `to`. */
  function Dist(capacity: nat, from: nat, to: nat): (d: nat)
    requires from < capacity && to < capacity
    ensures d < capacity
  {
    if to >= from then to - from else to + capacity - from
  }

  /** The probe distance of a slot, as computed by `rank`. */
  function Rank(hashedKey: nat, slot: nat, capacity: nat): (d: nat)
    requires slot < capacity
  {
    var first := Probe(hashedKey, 0, capacity);
    if slot >= first then slot - first else slot + capacity - first
  }

  /** Where the probe sequence of a key starts. */
  function Home(key: Key, nonce: nat, capacity: nat): (slot: nat)
    requires capacity > 0
    ensures slot < capacity
  {
    HashWithNonce(key, nonce) % capacity
  }

  lemma HomeIs(key: Key, nonce: nat, capacity: nat)
    requires capacity > 0
    ensures Home(key, nonce, capacity) == HashWithNonce(key, nonce) % capacity
  {
  }

  /** `rank` inverts `probe`, in both directions. */
  lemma ProbeRank(hashedKey: nat, capacity: nat, i: nat, slot: nat)
    requires i < capacity && slot < capacity
    ensures Rank(hashedKey, Probe(hashedKey, i, capacity), capacity) == i
    ensures Probe(hashedKey, Rank(hashedKey, slot, capacity), capacity) == slot
    ensures Rank(hashedKey, slot, capacity) == Dist(capacity, hashedKey % capacity, slot)
    ensures Dist(capacity, hashedKey % capacity, Probe(hashedKey, i, capacity)) == i
  {
    var home := hashedKey % capacity;
    ModOnce(home, capacity);
    ModOnce(home + i, capacity);
    ModOnce(home + Dist(capacity, home, slot), capacity);
  }

  lemma ModOnce(x: nat, n: nat)
    requires n > 0 && x < 2 * n
    ensures x % n == if x < n then x else x - n
  {
    if x >= n {
      assert x == n + (x - n);
      assert x / n == 1;
    }
  }

  /** `x` lies on the circular stretch of slots from `a` up to but not including `b`. */
  predicate InArc(capacity: nat, a: nat, x: nat, b: nat)
    requires a < capacity && x < capacity && b < capacity
  {
    Dist(capacity, a, x) < Dist(capacity, a, b)
  }

  // ---------------------------------------------------------------- canonical tables

  /**
   The ordering invariant: every slot that a stored key's probe passes before its own
   slot holds a larger key. `hole` is a slot exempt from the demand (a deletion in progress);
   a negative number exempts none.
   */
  ghost predicate CanonicalExcept(t: Table, nonce: nat, hole: int) {
    && |t| > 0
    && forall q, x {:trigger t[q], t[x]} ::
      0 <= q < |t| && 0 <= x < |t| && t[q].Some? && x != hole
      && InArc(|t|, Home(t[q].value.key, nonce, |t|), x, q)
      ==> t[x].Some? && t[x].value.key > t[q].value.key
  }

  ghost predicate Canonical(t: Table, nonce: nat) {
    CanonicalExcept(t, nonce, -1)
  }

  ghost predicate IsAt(t: Table, key: Key, q: nat) {
    q < |t| && t[q].Some? && t[q].value.key == key
  }

  ghost function KeysOf(t: Table): (keys: set<Key>) {
    set q | 0 <= q < |t| && t[q].Some? :: t[q].value.key
  }

  ghost function SlotOf(t: Table, key: Key): (q: nat)
    requires key in KeysOf(t)
    ensures IsAt(t, key, q)
  {
    var q :| 0 <= q < |t| && t[q].Some? && t[q].value.key == key;
    q
  }

  /** The plain map that a table stores. */
  ghost function Contents(t: Table): (m: map<Key, Bytes>)
    ensures m.Keys == KeysOf(t)
  {
    map k | k in KeysOf(t) :: t[SlotOf(t, k)].value.val
  }

  /** A canonical table stores a key at most once. */
  lemma DistinctKeys(t: Table, nonce: nat, hole: int, p: nat, q: nat)
    requires CanonicalExcept(t, nonce, hole)
    requires p < |t| && q < |t| && t[p].Some? && t[q].Some? && p != hole && q != hole
    requires t[p].value.key == t[q].value.key
    ensures p == q
  {
    var home := Home(t[p].value.key, nonce, |t|);
    assert !InArc(|t|, home, p, q) && !InArc(|t|, home, q, p);
  }

  ghost predicate Distinct(t: Table) {
    forall p, q {:trigger t[p], t[q]} :: 0 <= p < |t| && 0 <= q < |t| && t[p].Some? && t[q].Some?
      && t[p].value.key == t[q].value.key
      ==> p == q
  }

  lemma CanonicalDistinct(t: Table, nonce: nat, hole: int)
    requires CanonicalExcept(t, nonce, hole)
    requires 0 <= hole < |t| ==> t[hole].None?
    ensures Distinct(t)
  {
    forall p, q | 0 <= p < |t| && 0 <= q < |t| && t[p].Some? && t[q].Some? && t[p].value.key == t[q].value.key
      ensures p == q
    {
      DistinctKeys(t, nonce, hole, p, q);
    }
  }

  lemma ContentsAt(t: Table, q: nat)
    requires Distinct(t) && q < |t| && t[q].Some?
    ensures t[q].value.key in Contents(t)
    ensures SlotOf(t, t[q].value.key) == q
    ensures Contents(t)[t[q].value.key] == t[q].value.val
  {
    assert t[q].value.key in KeysOf(t);
  }

  /** A map is the contents of a table as soon as both list the same pairs. */
  lemma ContentsIs(t: Table, m: map<Key, Bytes>)
    requires m.Keys == KeysOf(t)
    requires forall q :: 0 <= q < |t| && t[q].Some? ==> t[q].value.key in m && m[t[q].value.key] == t[q].value.val
    ensures Contents(t) == m
  {
    forall k | k in m
      ensures m[k] == Contents(t)[k]
    {
      assert IsAt(t, k, SlotOf(t, k));
    }
  }

  // ---------------------------------------------------------------- uniqueness

  /** In two canonical tables of one capacity, nonce and content, each key has one slot. */
  lemma SameSlot(t1: Table, t2: Table, nonce: nat, key: Key)
    requires Canonical(t1, nonce) && Canonical(t2, nonce) && |t1| == |t2|
    requires KeysOf(t1) == KeysOf(t2) && key in KeysOf(t1)
    ensures SlotOf(t1, key) == SlotOf(t2, key)
    decreases set k | k in KeysOf(t1) && k > key
  {
    var q1, q2 := SlotOf(t1, key), SlotOf(t2, key);
    var home := Home(key, nonce, |t1|);
    if Dist(|t1|, home, q1) < Dist(|t1|, home, q2) {
      assert InArc(|t2|, home, q1, q2);
      LargerKeepsSlot(t1, t2, nonce, key, t2[q1].value.key, q1);
    } else if Dist(|t1|, home, q2) < Dist(|t1|, home, q1) {
      assert InArc(|t1|, home, q2, q1);
      LargerKeepsSlot(t2, t1, nonce, key, t1[q2].value.key, q2);
    }
  }

  /** A larger key has one slot in both tables, so neither table keeps it at `key`'s slot of the other. */
  lemma LargerKeepsSlot(t1: Table, t2: Table, nonce: nat, key: Key, larger: Key, q: nat)
    requires Canonical(t1, nonce) && Canonical(t2, nonce) && |t1| == |t2|
    requires KeysOf(t1) == KeysOf(t2)
    requires IsAt(t1, key, q) && larger > key && larger in KeysOf(t1)
    ensures !IsAt(t2, larger, q)
    decreases set k | k in KeysOf(t1) && k > key, 0
  {
    assert key in KeysOf(t1);
    var above := set k | k in KeysOf(t1) && k > larger;
    assert above < set k | k in KeysOf(t1) && k > key by {
      assert larger in (set k | k in KeysOf(t1) && k > key) - above;
    }
    SameSlot(t1, t2, nonce, larger);
    if IsAt(t2, larger, q) {
      DistinctKeys(t2, nonce, -1, q, SlotOf(t2, larger));
    }
  }

  /** History independence of one bucket: content, nonce and capacity determine every slot. */
  lemma CanonicalUnique(t1: Table, t2: Table, nonce: nat)
    requires Canonical(t1, nonce) && Canonical(t2, nonce) && |t1| == |t2|
    requires Contents(t1) == Contents(t2)
    ensures t1 == t2
  {
    CanonicalDistinct(t1, nonce, -1);
    CanonicalDistinct(t2, nonce, -1);
    forall q | 0 <= q < |t1|
      ensures t1[q] == t2[q]
    {
      assert KeysOf(t1) == Contents(t1).Keys == KeysOf(t2);
      if t1[q].Some? {
        ContentsAt(t1, q);
        SameSlot(t1, t2, nonce, t1[q].value.key);
      }
      if t2[q].Some? {
        ContentsAt(t2, q);
        SameSlot(t1, t2, nonce, t2[q].value.key);
      }
    }
  }

  // ---------------------------------------------------------------- insertion

  /** The slots reached by a probe that only an empty slot stops. */
  ghost predicate OnRun(t: Table, start: nat, x: nat)
    requires start < |t| && x < |t|
  {
    forall y {:trigger t[y]} :: 0 <= y < |t| && InArc(|t|, start, y, x) ==> t[y].Some?
  }

  /** Every slot the probe of `key` passes on its way to `cur` holds a larger key. */
  ghost predicate PassedLarger(t: Table, nonce: nat, key: Key, cur: nat)
    requires cur < |t|
  {
    forall x {:trigger t[x]} :: 0 <= x < |t| && InArc(|t|, Home(key, nonce, |t|), x, cur)
      ==> t[x].Some? && t[x].value.key > key
  }

  /** Clearing a slot removes its key and nothing else. */
  lemma ContentsClear(t: Table, q: nat)
    requires Distinct(t) && q < |t| && t[q].Some?
    ensures Distinct(t[q := None]) && Contents(t[q := None]) == Contents(t) - {t[q].value.key}
  {
    var t', key := t[q := None], t[q].value.key;
    forall k | k in KeysOf(t) && k != key
      ensures k in KeysOf(t')
    {
      assert t'[SlotOf(t, k)] == t[SlotOf(t, k)];
    }
    forall p | 0 <= p < |t'| && t'[p].Some?
      ensures t'[p].value.key != key && t'[p].value.key in Contents(t) && Contents(t)[t'[p].value.key] == t'[p].value.val
    {
      assert t'[p] == t[p];
      ContentsAt(t, p);
    }
    ContentsIs(t', Contents(t) - {key});
  }

  /** Filling a vacant slot with a new key adds that pair and nothing else. */
  lemma ContentsPut(t: Table, q: nat, e: Entry)
    requires Distinct(t) && q < |t| && t[q].None? && e.key !in KeysOf(t)
    ensures Distinct(t[q := Some(e)]) && Contents(t[q := Some(e)]) == Contents(t)[e.key := e.val]
  {
    var t' := t[q := Some(e)];
    forall k | k in KeysOf(t)
      ensures k in KeysOf(t')
    {
      assert t'[SlotOf(t, k)] == t[SlotOf(t, k)];
    }
    assert t'[q] == Some(e);
    forall p | 0 <= p < |t'| && t'[p].Some? && p != q
      ensures t'[p].value.key in Contents(t) && Contents(t)[t'[p].value.key] == t'[p].value.val
    {
      assert t'[p] == t[p];
      ContentsAt(t, p);
    }
    assert KeysOf(t') == KeysOf(t) + {e.key};
    ContentsIs(t', Contents(t)[e.key := e.val]);
  }

  /** The content after an entry is written over a vacant slot or over another entry. */
  lemma ContentsWrite(t: Table, q: nat, e: Entry)
    requires Distinct(t) && q < |t|
    requires e.key in KeysOf(t) ==> IsAt(t, e.key, q)
    ensures var rest := if t[q].Some? then Contents(t) - {t[q].value.key} else Contents(t);
            Contents(t[q := Some(e)]) == rest[e.key := e.val]
  {
    var rest := t[q := None];
    if t[q].Some? {
      ContentsClear(t, q);
      assert e.key !in KeysOf(rest) by {
        assert KeysOf(rest) == Contents(rest).Keys;
      }
    } else {
      assert rest == t;
    }
    ContentsPut(rest, q, e);
    assert rest[q := Some(e)] == t[q := Some(e)];
  }

  /** Writing an entry where its probe has passed only larger keys keeps the order, whether the slot
      was vacant, held a smaller key, or held this very key. */
  lemma CanonicalWrite(t: Table, nonce: nat, q: nat, e: Entry)
    requires Canonical(t, nonce) && q < |t|
    requires PassedLarger(t, nonce, e.key, q)
    requires t[q].None? || t[q].value.key <= e.key
    ensures Canonical(t[q := Some(e)], nonce)
  {
  }

  /** Replacing the value of a stored key leaves every key where it is. */
  lemma ReplaceInPlace(t: Table, nonce: nat, q: nat, e: Entry)
    requires Canonical(t, nonce) && IsAt(t, e.key, q)
    ensures Canonical(t[q := Some(e)], nonce)
    ensures Contents(t[q := Some(e)]) == Contents(t)[e.key := e.val] && e.key in Contents(t)
  {
    CanonicalWrite(t, nonce, q, e);
    hide CanonicalExcept;
    CanonicalDistinct(t, nonce, -1);
    ContentsAt(t, q);
    hide Distinct, KeysOf;
    KeysOfAt(t, e.key, q);
    ContentsWrite(t, q, e);
    hide Contents;
    assert (Contents(t) - {e.key})[e.key := e.val] == Contents(t)[e.key := e.val];
  }

  lemma KeysOfAt(t: Table, key: Key, q: nat)
    requires IsAt(t, key, q)
    ensures key in KeysOf(t)
  {
  }

  /** A displaced key goes on correctly at the next slot, around the end of the table too. */
  lemma DisplacedGoesOn(t: Table, nonce: nat, q: nat, e: Entry)
    requires Canonical(t, nonce) && q < |t| && t[q].Some? && t[q].value.key < e.key
    ensures PassedLarger(t[q := Some(e)], nonce, t[q].value.key, if q + 1 < |t| then q + 1 else 0)
  {
  }

  /**
   The state of an insertion of (`key`, `val`) into `t0` after `step` probes: `t` is the table
   so far and `e` the entry still to be placed.
   */
  ghost predicate Inserting(t0: Table, nonce: nat, key: Key, val: Bytes, t: Table, e: Entry, step: nat) {
    && |t| == |t0| && step <= |t|
    && Canonical(t0, nonce) && Canonical(t, nonce)
    && (forall x :: 0 <= x < |t| ==> (t[x].Some? <==> t0[x].Some?))
    && (forall x {:trigger t[x]} :: 0 <= x < |t| && Dist(|t|, Home(key, nonce, |t|), x) < step ==> t[x].Some?)
    && (step < |t| ==> PassedLarger(t, nonce, e.key, Probe(HashWithNonce(key, nonce), step, |t|)))
    && (if key in KeysOf(t0)
        then StillSearching(t0, nonce, key, val, t, e, step)
        else PendingPair(t0, key, val, t, e))
  }

  /** The inserted key is stored further on: nothing has moved, and only larger keys were met. */
  ghost predicate StillSearching(t0: Table, nonce: nat, key: Key, val: Bytes, t: Table, e: Entry, step: nat)
    requires |t| > 0
  {
    && t == t0 && e == Entry(key, val)
    && forall x {:trigger t[x]} ::
      0 <= x < |t| && Dist(|t|, Home(key, nonce, |t|), x) < step && t[x].Some? ==> t[x].value.key > key
  }

  /** Table and pending entry together hold exactly what the finished insertion must hold. */
  ghost predicate PendingPair(t0: Table, key: Key, val: Bytes, t: Table, e: Entry) {
    && e.key !in KeysOf(t)
    && Contents(t)[e.key := e.val] == Contents(t0)[key := val]
  }

  lemma InsertStart(t: Table, nonce: nat, key: Key, val: Bytes)
    requires Canonical(t, nonce)
    ensures Inserting(t, nonce, key, val, t, Entry(key, val), 0)
  {
    ProbeRank(HashWithNonce(key, nonce), |t|, 0, 0);
  }

  lemma NextProbe(hashedKey: nat, step: nat, capacity: nat)
    requires step < capacity
    ensures var cur := Probe(hashedKey, step, capacity);
            step + 1 < capacity ==> Probe(hashedKey, step + 1, capacity) == if cur + 1 < capacity then cur + 1 else 0
    ensures forall x :: 0 <= x < capacity ==>
      (Dist(capacity, hashedKey % capacity, x) < step + 1 <==>
       Dist(capacity, hashedKey % capacity, x) < step || x == Probe(hashedKey, step, capacity))
  {
    var home := hashedKey % capacity;
    ModOnce(home + step, capacity);
    if step + 1 < capacity {
      ModOnce(home + step + 1, capacity);
    }
  }

  /** A stored key is met before anything is displaced. */
  lemma MeetsStoredKey(t0: Table, nonce: nat, key: Key, val: Bytes, t: Table, e: Entry, step: nat)
    requires Inserting(t0, nonce, key, val, t, e, step) && step < |t|
    ensures var cur := Probe(HashWithNonce(key, nonce), step, |t|);
            key in KeysOf(t0) ==> t[cur].Some? && t[cur].value.key >= key && (t[cur].value.key == key <==> IsAt(t0, key, cur))
  {
    var cur := Probe(HashWithNonce(key, nonce), step, |t|);
    if key in KeysOf(t0) {
      var q := SlotOf(t0, key);
      var home := Home(key, nonce, |t|);
      ProbeRank(HashWithNonce(key, nonce), |t|, step, q);
      assert Dist(|t|, home, q) >= step;
      if q != cur {
        ProbeRank(HashWithNonce(key, nonce), |t|, Dist(|t|, home, q), cur);
        assert InArc(|t|, home, cur, q);
      }
    }
  }

  lemma InsertPassOver(t0: Table, nonce: nat, key: Key, val: Bytes, t: Table, e: Entry, step: nat)
    requires Inserting(t0, nonce, key, val, t, e, step) && step < |t|
    requires var cur := Probe(HashWithNonce(key, nonce), step, |t|); t[cur].Some? && t[cur].value.key > e.key
    ensures Inserting(t0, nonce, key, val, t, e, step + 1)
  {
    NextProbe(HashWithNonce(key, nonce), step, |t|);
  }

  lemma InsertDisplace(t0: Table, nonce: nat, key: Key, val: Bytes, t: Table, e: Entry, step: nat)
    requires Inserting(t0, nonce, key, val, t, e, step) && step < |t|
    requires var cur := Probe(HashWithNonce(key, nonce), step, |t|); t[cur].Some? && t[cur].value.key < e.key
    ensures var cur := Probe(HashWithNonce(key, nonce), step, |t|);
            Inserting(t0, nonce, key, val, t[cur := Some(e)], t[cur].value, step + 1)
  {
    hide CanonicalExcept, KeysOf, PassedLarger, Contents, Probe, Home;
    var cur := Probe(HashWithNonce(key, nonce), step, |t|);
    MeetsStoredKey(t0, nonce, key, val, t, e, step);
    DisplacedContents(t, nonce, cur, e);
    NextProbe(HashWithNonce(key, nonce), step, |t|);
    HomeIs(key, nonce, |t|);
    CanonicalWrite(t, nonce, cur, e);
    DisplacedGoesOn(t, nonce, cur, e);
  }

  /** A displacement neither loses nor invents a pair. */
  lemma DisplacedContents(t: Table, nonce: nat, q: nat, e: Entry)
    requires Canonical(t, nonce) && q < |t| && t[q].Some? && e.key !in KeysOf(t)
    ensures var t', d := t[q := Some(e)], t[q].value;
            d.key !in KeysOf(t') && Contents(t')[d.key := d.val] == Contents(t)[e.key := e.val]
  {
    var t', d := t[q := Some(e)], t[q].value;
    CanonicalDistinct(t, nonce, -1);
    ContentsAt(t, q);
    ContentsWrite(t, q, e);
    assert KeysOf(t') == Contents(t').Keys;
  }

  /** An empty slot ends the insertion. */
  lemma InsertPlace(t0: Table, nonce: nat, key: Key, val: Bytes, t: Table, e: Entry, step: nat)
    requires Inserting(t0, nonce, key, val, t, e, step) && step < |t|
    requires t[Probe(HashWithNonce(key, nonce), step, |t|)].None?
    ensures var t' := t[Probe(HashWithNonce(key, nonce), step, |t|) := Some(e)];
            key !in KeysOf(t0) && Canonical(t', nonce) && Contents(t') == Contents(t0)[key := val]
  {
    var cur := Probe(HashWithNonce(key, nonce), step, |t|);
    MeetsStoredKey(t0, nonce, key, val, t, e, step);
    CanonicalWrite(t, nonce, cur, e);
    CanonicalDistinct(t, nonce, -1);
    ContentsWrite(t, cur, e);
  }

  /** Meeting the pending key means that the inserted key was stored, and nothing has moved. */
  lemma InsertUpdate(t0: Table, nonce: nat, key: Key, val: Bytes, t: Table, e: Entry, step: nat)
    requires Inserting(t0, nonce, key, val, t, e, step) && step < |t|
    requires IsAt(t, e.key, Probe(HashWithNonce(key, nonce), step, |t|))
    ensures key in KeysOf(t0) && t == t0 && e == Entry(key, val)
    ensures var t' := t[Probe(HashWithNonce(key, nonce), step, |t|) := Some(e)];
            Canonical(t', nonce) && Contents(t') == Contents(t0)[key := val]
  {
    var cur := Probe(HashWithNonce(key, nonce), step, |t|);
    assert e.key in KeysOf(t);
    CanonicalWrite(t, nonce, cur, e);
    CanonicalDistinct(t, nonce, -1);
    ContentsAt(t, cur);
    ContentsWrite(t, cur, e);
  }

  /** The slots an insertion of `key` has to read: its search path when the key is stored, otherwise
      the whole run of occupied slots from its home, and the empty slot that ends it. */
  ghost predicate OnInsertPath(t: Table, nonce: nat, key: Key, x: nat)
    requires x < |t|
  {
    if key in KeysOf(t) then PassedLarger(t, nonce, key, x) else OnRun(t, Home(key, nonce, |t|), x)
  }

  /** An insertion reads on its path, and when it stops it has read all of the path. */
  lemma InsertPathRead(t0: Table, nonce: nat, key: Key, val: Bytes, t: Table, e: Entry, step: nat)
    requires Inserting(t0, nonce, key, val, t, e, step) && step < |t|
    ensures var cur := Probe(HashWithNonce(key, nonce), step, |t|);
            OnInsertPath(t0, nonce, key, cur)
    ensures var cur := Probe(HashWithNonce(key, nonce), step, |t|);
            t[cur].None? || t[cur].value.key == e.key ==>
              forall x :: 0 <= x < |t| && OnInsertPath(t0, nonce, key, x) ==> Dist(|t|, Home(key, nonce, |t|), x) < step || x == cur
  {
    var cur := Probe(HashWithNonce(key, nonce), step, |t|);
    var home := Home(key, nonce, |t|);
    ProbeRank(HashWithNonce(key, nonce), |t|, step, cur);
    if t[cur].None? || t[cur].value.key == e.key {
      if t[cur].Some? {
        InsertUpdate(t0, nonce, key, val, t, e, step);
      }
      forall x | 0 <= x < |t| && Dist(|t|, home, x) > Dist(|t|, home, cur)
        ensures !OnInsertPath(t0, nonce, key, x)
      {
        assert InArc(|t|, home, cur, x);
        assert t[cur].Some? <==> t0[cur].Some?;
      }
      assert forall x :: 0 <= x < |t| && Dist(|t|, home, x) == Dist(|t|, home, cur) ==> x == cur;
    }
  }

  /** Running out of slots happens only in a full table that lacks the key. */
  lemma InsertFull(t0: Table, nonce: nat, key: Key, val: Bytes, t: Table, e: Entry)
    requires Inserting(t0, nonce, key, val, t, e, |t|)
    ensures key !in KeysOf(t0)
    ensures forall x :: 0 <= x < |t| ==> t[x].Some?
  {
    assert forall q :: 0 <= q < |t| ==> !IsAt(t0, key, q);
  }

  // ---------------------------------------------------------------- search

  /**
   The slots a search for `key` reads: it goes on exactly past larger keys.
   */
  ghost predicate OnSearchPath(t: Table, nonce: nat, key: Key, x: nat)
    requires x < |t|
  {
    PassedLarger(t, nonce, key, x)
  }

  /** A search for `key` that has passed `step` slots, all of them larger. */
  ghost predicate Searching(t: Table, nonce: nat, key: Key, step: nat) {
    && 0 < |t| && step <= |t|
    && (forall x {:trigger t[x]} ::
      0 <= x < |t| && Dist(|t|, Home(key, nonce, |t|), x) < step ==> t[x].Some? && t[x].value.key > key)
    && (step < |t| ==> OnSearchPath(t, nonce, key, Probe(HashWithNonce(key, nonce), step, |t|)))
  }

  lemma SearchStart(t: Table, nonce: nat, key: Key)
    requires 0 < |t|
    ensures Searching(t, nonce, key, 0)
  {
    ProbeRank(HashWithNonce(key, nonce), |t|, 0, 0);
  }

  lemma SearchGoesOn(t: Table, nonce: nat, key: Key, step: nat)
    requires Searching(t, nonce, key, step) && step < |t|
    requires var cur := Probe(HashWithNonce(key, nonce), step, |t|); t[cur].Some? && t[cur].value.key > key
    ensures Searching(t, nonce, key, step + 1)
  {
    NextProbe(HashWithNonce(key, nonce), step, |t|);
    if step + 1 < |t| {
      ProbeRank(HashWithNonce(key, nonce), |t|, step + 1, 0);
    }
  }

  /** No slot past the one where the search stops is on its path; a search may stop at an empty
      slot or at a smaller key, for the key is then nowhere. */
  lemma SearchStops(t: Table, nonce: nat, key: Key, step: nat)
    requires Canonical(t, nonce) && Searching(t, nonce, key, step) && step < |t|
    requires var cur := Probe(HashWithNonce(key, nonce), step, |t|); t[cur].None? || t[cur].value.key <= key
    ensures var cur := Probe(HashWithNonce(key, nonce), step, |t|);
            forall x :: 0 <= x < |t| && OnSearchPath(t, nonce, key, x) ==> Dist(|t|, Home(key, nonce, |t|), x) < step || x == cur
    ensures var cur := Probe(HashWithNonce(key, nonce), step, |t|);
            key in KeysOf(t) <==> IsAt(t, key, cur)
  {
    var cur := Probe(HashWithNonce(key, nonce), step, |t|);
    var home := Home(key, nonce, |t|);
    ProbeRank(HashWithNonce(key, nonce), |t|, step, cur);
    forall x | 0 <= x < |t| && Dist(|t|, home, x) > Dist(|t|, home, cur)
      ensures !OnSearchPath(t, nonce, key, x) && !IsAt(t, key, x)
    {
      assert InArc(|t|, home, cur, x);
    }
    assert forall x :: 0 <= x < |t| && Dist(|t|, home, x) == Dist(|t|, home, cur) ==> x == cur;
  }

  lemma SearchExhausted(t: Table, nonce: nat, key: Key)
    requires Searching(t, nonce, key, |t|)
    ensures key !in KeysOf(t)
  {
    assert forall q :: 0 <= q < |t| ==> !IsAt(t, key, q);
  }

  // ---------------------------------------------------------------- deletion

  /** `shi_next`'s test: the entry at `x` would get closer to its home by moving into the hole. */
  predicate Suitable(t: Table, nonce: nat, hole: nat, x: nat)
    requires hole < |t| && x < |t| && t[x].Some?
  {
    var home := HashWithNonce(t[x].value.key, nonce);
    Rank(home, x, |t|) > Rank(home, hole, |t|)
  }

  /** The state of a deletion of `key` from `t0` whose hole has come to `hole` (the slot still
      shows the entry that left it). */
  ghost predicate Deleting(t0: Table, nonce: nat, key: Key, t: Table, hole: nat) {
    && |t| == |t0| && hole < |t|
    && Canonical(t0, nonce) && key in KeysOf(t0)
    && (forall x :: 0 <= x < |t| ==> (t[x].Some? <==> t0[x].Some?))
    && t[hole].Some?
    && CanonicalExcept(t[hole := None], nonce, hole)
    && Contents(t[hole := None]) == Contents(t0) - {key}
    && OnRun(t0, Home(key, nonce, |t|), hole)
  }

  /** The slots before `i` steps past the hole are occupied by entries that must stay. */
  ghost predicate Scanned(t: Table, nonce: nat, hole: nat, i: nat)
    requires hole < |t|
  {
    forall x {:trigger t[x]} :: 0 <= x < |t| && 0 < Dist(|t|, hole, x) < i ==> t[x].Some? && !Suitable(t, nonce, hole, x)
  }

  lemma DeleteStart(t: Table, nonce: nat, key: Key, q: nat)
    requires Canonical(t, nonce) && IsAt(t, key, q)
    ensures Deleting(t, nonce, key, t, q)
  {
    assert t[q].value.key in KeysOf(t);
    CanonicalDistinct(t, nonce, -1);
    ContentsClear(t, q);
  }

  lemma SuitableIsArc(t: Table, nonce: nat, hole: nat, x: nat)
    requires hole < |t| && x < |t| && t[x].Some?
    ensures Suitable(t, nonce, hole, x) <==> InArc(|t|, Home(t[x].value.key, nonce, |t|), hole, x)
  {
    ProbeRank(HashWithNonce(t[x].value.key, nonce), |t|, 0, x);
    ProbeRank(HashWithNonce(t[x].value.key, nonce), |t|, 0, hole);
  }

  /** The first suitable entry is the right one to fill the hole: every other entry whose probe
      passes the hole also passes that entry, so it is the largest of them. */
  lemma FirstSuitableIsLargest(t: Table, nonce: nat, hole: nat, next: nat, w: nat)
    requires hole < |t| && next < |t| && w < |t| && w != hole && w != next
    requires CanonicalExcept(t[hole := None], nonce, hole)
    requires t[next].Some? && next != hole && Suitable(t, nonce, hole, next)
    requires Scanned(t, nonce, hole, Dist(|t|, hole, next))
    requires t[w].Some? && Suitable(t, nonce, hole, w)
    ensures t[next].value.key > t[w].value.key
  {
    var t' := t[hole := None];
    SuitableIsArc(t, nonce, hole, w);
    assert Dist(|t|, hole, w) > Dist(|t|, hole, next);
    assert InArc(|t|, Home(t'[w].value.key, nonce, |t|), next, w);
    assert t'[next] == t[next];
  }

  lemma FillHole(t0: Table, nonce: nat, key: Key, t: Table, hole: nat, next: nat)
    requires Deleting(t0, nonce, key, t, hole)
    requires next < |t| && next != hole && t[next].Some? && Suitable(t, nonce, hole, next)
    requires Scanned(t, nonce, hole, Dist(|t|, hole, next))
    ensures Deleting(t0, nonce, key, t[hole := t[next]], next)
  {
    FillKeepsOrder(t, nonce, hole, next);
    MovedContents(t, nonce, hole, next);
    HoleStaysOnRun(t0, nonce, key, t, hole, next);
  }

  lemma FillKeepsOrder(t: Table, nonce: nat, hole: nat, next: nat)
    requires hole < |t| && next < |t| && next != hole && t[next].Some? && Suitable(t, nonce, hole, next)
    requires CanonicalExcept(t[hole := None], nonce, hole)
    requires Scanned(t, nonce, hole, Dist(|t|, hole, next))
    ensures CanonicalExcept(t[hole := t[next]][next := None], nonce, next)
  {
    var closed := t[hole := t[next]][next := None];
    forall q, x | 0 <= q < |t| && 0 <= x < |t| && closed[q].Some? && x != next
                  && InArc(|t|, Home(closed[q].value.key, nonce, |t|), x, q)
      ensures closed[x].Some? && closed[x].value.key > closed[q].value.key
    {
      OrderAfterMove(t, nonce, hole, next, q, x);
    }
  }

  lemma OrderAfterMove(t: Table, nonce: nat, hole: nat, next: nat, q: nat, x: nat)
    requires hole < |t| && next < |t| && next != hole && t[next].Some? && Suitable(t, nonce, hole, next)
    requires CanonicalExcept(t[hole := None], nonce, hole)
    requires Scanned(t, nonce, hole, Dist(|t|, hole, next))
    requires q < |t| && x < |t| && q != next && x != next
    requires var v := if q == hole then t[next] else t[q];
             v.Some? && InArc(|t|, Home(v.value.key, nonce, |t|), x, q)
    ensures var v, w := if q == hole then t[next] else t[q], if x == hole then t[next] else t[x];
            w.Some? && w.value.key > v.value.key
  {
    var open := t[hole := None];
    if q == hole {
      SuitableIsArc(t, nonce, hole, next);
      assert InArc(|t|, Home(open[next].value.key, nonce, |t|), x, next);
      assert open[x] == t[x];
    } else if x == hole {
      SuitableIsArc(t, nonce, hole, q);
      FirstSuitableIsLargest(t, nonce, hole, next, q);
    } else {
      assert open[q] == t[q] && open[x] == t[x];
    }
  }

  lemma MovedContents(t: Table, nonce: nat, hole: nat, next: nat)
    requires hole < |t| && next < |t| && hole != next && t[next].Some?
    requires CanonicalExcept(t[hole := None], nonce, hole)
    ensures Contents(t[hole := t[next]][next := None]) == Contents(t[hole := None])
  {
    hide CanonicalExcept, Contents, KeysOf;
    var open := t[hole := None];
    var e := open[next].value;
    CanonicalDistinct(open, nonce, hole);
    ContentsClear(open, next);
    var both := open[next := None];
    assert e.key !in KeysOf(both) by {
      assert KeysOf(both) == Contents(both).Keys;
    }
    ContentsPut(both, hole, e);
    ContentsAt(open, next);
    assert both[hole := Some(e)] == t[hole := t[next]][next := None];
  }

  /** The deletion never leaves the run of occupied slots that starts at the key's home. */
  lemma HoleStaysOnRun(t0: Table, nonce: nat, key: Key, t: Table, hole: nat, next: nat)
    requires Deleting(t0, nonce, key, t, hole) && next < |t| && next != hole
    requires forall x {:trigger t[x]} :: 0 <= x < |t| && 0 < Dist(|t|, hole, x) < Dist(|t|, hole, next) ==> t[x].Some?
    ensures OnRun(t0, Home(key, nonce, |t|), next)
  {
    var home := Home(key, nonce, |t|);
    forall y | 0 <= y < |t| && InArc(|t|, home, y, next)
      ensures t0[y].Some?
    {
      assert InArc(|t|, home, y, hole) || y == hole || 0 < Dist(|t|, hole, y) < Dist(|t|, hole, next);
      assert t[y].Some? <==> t0[y].Some?;
    }
  }

  /** When the scan meets an empty slot, or has gone all the way round, no entry wants the hole. */
  lemma CloseHole(t0: Table, nonce: nat, key: Key, t: Table, hole: nat, i: nat)
    requires Deleting(t0, nonce, key, t, hole) && 0 < i <= |t|
    requires Scanned(t, nonce, hole, i)
    requires i < |t| ==> exists z :: 0 <= z < |t| && Dist(|t|, hole, z) == i && t[z].None?
    ensures Canonical(t[hole := None], nonce)
  {
    var open := t[hole := None];
    forall q | 0 <= q < |t| && open[q].Some?
      ensures !InArc(|t|, Home(open[q].value.key, nonce, |t|), hole, q)
    {
      NothingWantsHole(t, nonce, hole, i, q);
    }
  }

  lemma NothingWantsHole(t: Table, nonce: nat, hole: nat, i: nat, q: nat)
    requires hole < |t| && q < |t| && q != hole && t[q].Some? && 0 < i <= |t|
    requires CanonicalExcept(t[hole := None], nonce, hole)
    requires Scanned(t, nonce, hole, i)
    requires i < |t| ==> exists z :: 0 <= z < |t| && Dist(|t|, hole, z) == i && t[z].None?
    ensures !InArc(|t|, Home(t[q].value.key, nonce, |t|), hole, q)
  {
    var open := t[hole := None];
    SuitableIsArc(t, nonce, hole, q);
    if Dist(|t|, hole, q) >= i {
      var z :| 0 <= z < |t| && Dist(|t|, hole, z) == i && t[z].None?;
      assert open[z].None? && open[q] == t[q];
    }
  }

  /** The slots a deletion of `key` has to read: its search path, and when the key is stored the
      whole run of occupied slots from its home. */
  ghost predicate OnDeletePath(t: Table, nonce: nat, key: Key, x: nat)
    requires x < |t|
  {
    if key in KeysOf(t) then OnRun(t, Home(key, nonce, |t|), x) else PassedLarger(t, nonce, key, x)
  }

  /** The slots from the key's home up to the hole. */
  predicate UpTo(capacity: nat, home: nat, x: nat, hole: nat)
    requires home < capacity && x < capacity && hole < capacity
  {
    Dist(capacity, home, x) <= Dist(capacity, home, hole)
  }

  /** A stored key's own slot, and every slot before it, is on its search path. */
  lemma BeforeFoundSlot(t: Table, nonce: nat, key: Key, q: nat, x: nat)
    requires Canonical(t, nonce) && IsAt(t, key, q) && x < |t| && UpTo(|t|, Home(key, nonce, |t|), x, q)
    ensures OnSearchPath(t, nonce, key, x) && key in KeysOf(t)
  {
    forall y | 0 <= y < |t| && InArc(|t|, Home(key, nonce, |t|), y, x)
      ensures t[y].Some? && t[y].value.key > key
    {
      assert InArc(|t|, Home(t[q].value.key, nonce, |t|), y, q);
    }
  }

  lemma SearchPathOnDeletePath(t: Table, nonce: nat, key: Key, x: nat)
    requires x < |t| && OnSearchPath(t, nonce, key, x)
    ensures OnDeletePath(t, nonce, key, x)
  {
  }

  /** What the scan behind the hole reads is on the deletion's path. */
  lemma ScanOnDeletePath(t0: Table, nonce: nat, key: Key, t: Table, hole: nat, x: nat)
    requires Deleting(t0, nonce, key, t, hole) && x < |t| && x != hole
    requires Scanned(t, nonce, hole, Dist(|t|, hole, x))
    ensures OnDeletePath(t0, nonce, key, x)
  {
    HoleStaysOnRun(t0, nonce, key, t, hole, x);
  }

  /** The slots up to the next hole were up to this one, or have just been scanned. */
  lemma UpToNextHole(capacity: nat, home: nat, hole: nat, next: nat, x: nat)
    requires home < capacity && hole < capacity && next < capacity && x < capacity && UpTo(capacity, home, x, next)
    ensures UpTo(capacity, home, x, hole) || 0 < Dist(capacity, hole, x) <= Dist(capacity, hole, next)
  {
  }

  /** Once the scan has met an empty slot or come around, the whole path has been read. */
  lemma DeletePathRead(t0: Table, nonce: nat, key: Key, t: Table, hole: nat, i: nat, x: nat)
    requires Deleting(t0, nonce, key, t, hole) && 0 < i <= |t| && x < |t|
    requires i < |t| ==> exists z :: 0 <= z < |t| && Dist(|t|, hole, z) == i && t[z].None?
    requires OnDeletePath(t0, nonce, key, x)
    ensures UpTo(|t|, Home(key, nonce, |t|), x, hole) || 0 < Dist(|t|, hole, x) <= i
  {
    if i < |t| {
      var z :| 0 <= z < |t| && Dist(|t|, hole, z) == i && t[z].None?;
      var home := Home(key, nonce, |t|);
      assert t0[z].None?;
      assert !InArc(|t|, home, z, hole) && !InArc(|t|, home, z, x);
    }
  }

  // ---------------------------------------------------------------- counting

  /** The number of occupied slots. */
  function Count(t: Table): (n: nat)
    ensures n <= |t|
  {
    if t == [] then 0 else Count(t[..|t| - 1]) + if t[|t| - 1].Some? then 1 else 0
  }

  lemma {:induction false} CountIsContents(t: Table)
    requires Distinct(t)
    ensures Count(t) == |Contents(t)|
  {
    assert |Contents(t)| == |Contents(t).Keys|;
    if t != [] {
      var s := t[..|t| - 1];
      assert |Contents(s)| == |Contents(s).Keys|;
      CountIsContents(s);
      KeysOfLast(t);
    }
  }

  lemma KeysOfLast(t: Table)
    requires Distinct(t) && t != []
    ensures var s, last := t[..|t| - 1], t[|t| - 1];
            KeysOf(t) == (KeysOf(s) + if last.Some? then {last.value.key} else {})
            && (last.Some? ==> last.value.key !in KeysOf(s))
  {
    var s, last := t[..|t| - 1], t[|t| - 1];
    forall k
      ensures k in KeysOf(t) <==> k in KeysOf(s) || (last.Some? && k == last.value.key)
    {
      if k in KeysOf(s) {
        assert IsAt(t, k, SlotOf(s, k));
      }
      if k in KeysOf(t) && SlotOf(t, k) < |s| {
        assert IsAt(s, k, SlotOf(t, k));
      }
    }
  }

  lemma {:induction false} CountFull(t: Table)
    ensures Count(t) == |t| <==> forall x :: 0 <= x < |t| ==> t[x].Some?
  {
    if t != [] {
      CountFull(t[..|t| - 1]);
      assert forall x :: 0 <= x < |t| - 1 ==> t[..|t| - 1][x] == t[x];
    }
  }

  /** The sum of the ranks of all entries: what each move of a deletion makes smaller. */
  ghost function RankSum(t: Table, nonce: nat, n: nat): nat
    requires n <= |t|
  {
    if n == 0 then 0 else RankSum(t, nonce, n - 1) + RankAt(t, nonce, n - 1)
  }

  ghost function RankAt(t: Table, nonce: nat, q: nat): nat
    requires q < |t|
  {
    if t[q].Some? then Rank(HashWithNonce(t[q].value.key, nonce), q, |t|) else 0
  }

  lemma {:induction false} RankSumWrite(t: Table, nonce: nat, n: nat, q: nat, v: Option<Entry>)
    requires n <= |t| && q < |t|
    ensures RankSum(t[q := v], nonce, n) ==
            RankSum(t, nonce, n) + if q < n then RankAt(t[q := v], nonce, q) - RankAt(t, nonce, q) else 0
  {
    if n > 0 {
      RankSumWrite(t, nonce, n - 1, q, v);
      assert n - 1 != q ==> RankAt(t[q := v], nonce, n - 1) == RankAt(t, nonce, n - 1);
    }
  }

  /** Each move of a deletion lowers the sum of ranks, so the deletion ends. */
  lemma FillHoleLowersRanks(t: Table, nonce: nat, hole: nat, next: nat)
    requires hole < |t| && next < |t| && next != hole && t[next].Some? && Suitable(t, nonce, hole, next)
    ensures RankSum(t[hole := t[next]][next := None], nonce, |t|) < RankSum(t[hole := None], nonce, |t|)
  {
    var open := t[hole := None];
    var filled := open[hole := t[next]];
    RankSumWrite(open, nonce, |t|, hole, t[next]);
    RankSumWrite(filled, nonce, |t|, next, None);
    assert filled[next := None] == t[hole := t[next]][next := None];
  }
}
