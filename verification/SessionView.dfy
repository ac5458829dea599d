/**
 What a session over a store shows, on values: the view of every key, the table of every
 bucket, and the invariant `SessionOk` that the operations of `EphemeralSaltState` keep.
 */
module SessionView {
  import opened Wrappers
  import opened ShiTable
  import opened SaltTypes
  import opened StateUpdatesModule

  type Cache = map<SaltKey, Option<SaltValue>>

  /**
   The fields of a session. `truth` is the full state behind the store: the store itself
   for a `MemStore`, the state the witness was taken from for a witness.
   */
  datatype Session = Session(store: Store, truth: Kvs, cacheRead: bool,
                             cache: Cache, delta: map<BucketId, int>, rehashed: set<DataBucketId>)

  // ---------------------------------------------------------------- views

  /** Absent metadata stands for the default metadata. */
  ghost function Normal(key: SaltKey, v: Option<SaltValue>): Option<SaltValue> {
    if v.None? && key.IsInMetaBucket() then Some(DEFAULT_META.ToValue()) else v
  }

  ghost function At(truth: Kvs, cache: Cache, key: SaltKey): Option<SaltValue> {
    Normal(key, if key in cache then cache[key] else if key in truth then Some(truth[key]) else None)
  }

  ghost function ViewOf(truth: Kvs, cache: Cache): View {
    key => At(truth, cache, key)
  }

  ghost function MetaAt(truth: Kvs, cache: Cache, b: DataBucketId): BucketMeta {
    var v := At(truth, cache, BucketMetadataKey(b));
    if v.Some? && v.value.Meta? then BucketMeta(v.value.nonce, v.value.capacity, None) else DEFAULT_META
  }

  ghost function EntryAt(truth: Kvs, cache: Cache, b: DataBucketId, i: nat): Option<Entry> {
    var v := At(truth, cache, SaltKey(b, i));
    if v.Some? && v.value.Plain? then Some(v.value.entry) else None
  }

  function Lift(e: Option<Entry>): Option<SaltValue> {
    if e.Some? then Some(Plain(e.value)) else None
  }

  /** The table of a bucket. */
  ghost function Tab(truth: Kvs, cache: Cache, b: DataBucketId): (t: Table)
    ensures |t| == MetaAt(truth, cache, b).capacity
    ensures forall i :: 0 <= i < |t| ==> t[i] == EntryAt(truth, cache, b, i)
  {
    seq(MetaAt(truth, cache, b).capacity, i requires i >= 0 => EntryAt(truth, cache, b, i))
  }

  ghost function BaseTab(truth: Kvs, b: DataBucketId): Table {
    Tab(truth, map[], b)
  }

  ghost function BaseMeta(truth: Kvs, b: DataBucketId): BucketMeta {
    MetaAt(truth, map[], b)
  }

  ghost predicate SameOutside(truth: Kvs, c0: Cache, c1: Cache, b: DataBucketId) {
    forall key :: !InBucket(key, b) ==> At(truth, c0, key) == At(truth, c1, key)
  }

  ghost predicate SameInside(truth: Kvs, c0: Cache, c1: Cache, b: DataBucketId) {
    && At(truth, c0, BucketMetadataKey(b)) == At(truth, c1, BucketMetadataKey(b))
    && forall i: nat :: At(truth, c0, SaltKey(b, i)) == At(truth, c1, SaltKey(b, i))
  }

  lemma SameInsideSameTable(truth: Kvs, c0: Cache, c1: Cache, b: DataBucketId)
    requires SameInside(truth, c0, c1, b)
    ensures Tab(truth, c0, b) == Tab(truth, c1, b) && MetaAt(truth, c0, b) == MetaAt(truth, c1, b)
  {
  }

  lemma BucketsDisjoint(b: DataBucketId, b': DataBucketId, i: nat)
    requires b != b'
    ensures !InBucket(SaltKey(b', i), b) && !InBucket(BucketMetadataKey(b'), b)
  {
    MetadataKeyRoundTrip(b);
    MetadataKeyRoundTrip(b');
  }

  // ---------------------------------------------------------------- the invariant

  /** The stored data of a bucket is well formed: decodable metadata, plain pairs of this bucket, nothing past the capacity. */
  ghost predicate Shape(truth: Kvs, cache: Cache, b: DataBucketId) {
    && var meta := MetaAt(truth, cache, b);
    && At(truth, cache, BucketMetadataKey(b)) == Some(Meta(meta.nonce, meta.capacity))
    && 0 < meta.capacity <= BUCKET_SLOT_ID_MASK
    && forall i: nat :: var v := At(truth, cache, SaltKey(b, i));
        v.Some? ==> i < meta.capacity && v.value.Plain? && BucketOf(v.value.entry.key) == b
  }

  ghost predicate BucketOk(truth: Kvs, cache: Cache, b: DataBucketId) {
    Shape(truth, cache, b) && Canonical(Tab(truth, cache, b), MetaAt(truth, cache, b).nonce)
  }

  ghost predicate TruthOk(truth: Kvs) {
    forall b: DataBucketId :: BucketOk(truth, map[], b)
  }

  /** The store answers from `truth`: completely, with true counts, or as far as it knows. */
  ghost predicate Agrees(store: Store, truth: Kvs) {
    match store
    case Full(state) =>
      && state.kvs == truth
      && forall b: DataBucketId :: (if b in state.usedSlots then state.usedSlots[b] else 0) == Count(BaseTab(truth, b))
    case Partial(w) =>
      && (forall key :: key in w.kvs ==> w.kvs[key] == At(truth, map[], key))
      && (forall k :: k in w.directLookupTbl ==> NUM_META_BUCKETS <= w.directLookupTbl[k].bucket < NUM_BUCKETS)
  }

  ghost predicate Known(s: Session, key: SaltKey) {
    key in s.cache || s.store.Value(key).Success?
  }

  ghost predicate SlotsKnown(s: Session, b: DataBucketId, n: nat) {
    forall x :: 0 <= x < n ==> Known(s, SaltKey(b, x))
  }

  ghost predicate SlotsCached(s: Session, b: DataBucketId, n: nat) {
    forall x :: 0 <= x < n ==> SaltKey(b, x) in s.cache
  }

  ghost predicate MetaKnown(s: Session, b: DataBucketId) {
    BucketMetadataKey(b) in s.cache || s.store.Metadata(b).Success?
  }

  ghost predicate CountsKnown(s: Session, b: DataBucketId) {
    s.store.BucketUsedSlots(b).Success?
  }

  function DeltaAt(delta: map<BucketId, int>, b: BucketId): int {
    if b in delta then delta[b] else 0
  }

  ghost function TabOf(s: Session, b: DataBucketId): Table {
    Tab(s.truth, s.cache, b)
  }

  ghost function MetaOf(s: Session, b: DataBucketId): BucketMeta {
    MetaAt(s.truth, s.cache, b)
  }

  /** The store's count plus the session's delta is the real number of occupied slots. */
  ghost predicate Counted(s: Session, b: DataBucketId) {
    Count(BaseTab(s.truth, b)) + DeltaAt(s.delta, b) == Count(TabOf(s, b))
  }

  /** Slots that the stored bucket does not have are answered by the cache. */
  ghost predicate ExpansionCached(s: Session, b: DataBucketId) {
    forall i: nat :: BaseMeta(s.truth, b).capacity <= i < MetaOf(s, b).capacity ==> SaltKey(b, i) in s.cache
  }

  /** Whatever the cache holds of the stored data, the store knows too. */
  ghost predicate CacheKnown(s: Session) {
    && (forall b: DataBucketId, i: nat ::
          i < BaseMeta(s.truth, b).capacity && SaltKey(b, i) in s.cache ==> s.store.Value(SaltKey(b, i)).Success?)
    && (forall b: DataBucketId :: BucketMetadataKey(b) in s.cache ==> s.store.Metadata(b).Success?)
  }

  /** The stored slots of a bucket from number `n` on are in the store's knowledge. */
  ghost predicate TailKnown(s: Session, b: DataBucketId, n: nat) {
    forall i: nat :: n <= i < BaseMeta(s.truth, b).capacity ==> s.store.Value(SaltKey(b, i)).Success?
  }

  /** A bucket got smaller than the stored one only where the store knows what was cut off. */
  ghost predicate CutKnown(s: Session, b: DataBucketId) {
    TailKnown(s, b, MetaOf(s, b).capacity)
  }

  ghost predicate BucketInv(s: Session, b: DataBucketId) {
    BucketOk(s.truth, s.cache, b) && Counted(s, b) && ExpansionCached(s, b) && CutKnown(s, b)
  }

  ghost predicate SessionOk(s: Session) {
    && Agrees(s.store, s.truth)
    && TruthOk(s.truth)
    && CacheKnown(s)
    && forall b: DataBucketId :: BucketInv(s, b)
  }

  lemma SessionBucket(s: Session, b: DataBucketId)
    requires SessionOk(s)
    ensures BucketInv(s, b) && BucketOpen(s, b)
    ensures Canonical(TabOf(s, b), MetaOf(s, b).nonce)
    ensures CutKnown(s, b) && Shape(s.truth, s.cache, b)
  {
  }

  /** Buckets that are not marked as rehashed still have their stored nonce and capacity. */
  ghost predicate Tracked(s: Session) {
    forall b: DataBucketId :: b !in s.rehashed ==> MetaOf(s, b) == BaseMeta(s.truth, b)
  }

  // ---------------------------------------------------------------- steps that touch one bucket

  ghost predicate SameStore(s0: Session, s1: Session) {
    s1.store == s0.store && s1.truth == s0.truth && s1.cacheRead == s0.cacheRead
  }

  /** A step that changes at most bucket `b`. */
  ghost predicate StepIn(s0: Session, s1: Session, b: DataBucketId) {
    && SameStore(s0, s1)
    && SameOutside(s0.truth, s0.cache, s1.cache, b)
    && (forall b': DataBucketId :: b' != b ==> DeltaAt(s1.delta, b') == DeltaAt(s0.delta, b'))
    && s0.rehashed <= s1.rehashed <= s0.rehashed + {b}
    && CacheKnown(s1)
  }

  ghost predicate CacheGrows(s0: Session, s1: Session) {
    s0.cache.Keys <= s1.cache.Keys
  }

  lemma StepKeepsOthers(s0: Session, s1: Session, b: DataBucketId, b': DataBucketId)
    requires StepIn(s0, s1, b) && b' != b
    ensures TabOf(s0, b') == TabOf(s1, b') && MetaOf(s0, b') == MetaOf(s1, b')
    ensures BucketOk(s0.truth, s0.cache, b') ==> BucketOk(s1.truth, s1.cache, b')
  {
    forall i: nat
      ensures At(s0.truth, s0.cache, SaltKey(b', i)) == At(s1.truth, s1.cache, SaltKey(b', i))
    {
      BucketsDisjoint(b, b', i);
    }
    BucketsDisjoint(b, b', 0);
    SameInsideSameTable(s0.truth, s0.cache, s1.cache, b');
  }

  lemma StepKeepsSession(s0: Session, s1: Session, b: DataBucketId)
    requires SessionOk(s0) && StepIn(s0, s1, b) && BucketInv(s1, b)
    requires forall b': DataBucketId, i: nat :: b' != b && SaltKey(b', i) in s0.cache ==> SaltKey(b', i) in s1.cache
    ensures SessionOk(s1)
  {
    forall b': DataBucketId
      ensures BucketInv(s1, b')
    {
      if b' != b {
        assert BucketInv(s0, b');
        StepKeepsOthers(s0, s1, b, b');
      }
    }
  }

  /** Reads that the cache may keep: no view changes. */
  ghost predicate OnlyReads(s0: Session, s1: Session) {
    && SameStore(s0, s1)
    && s1.delta == s0.delta && s1.rehashed == s0.rehashed
    && (forall key :: At(s0.truth, s0.cache, key) == At(s1.truth, s1.cache, key))
    && CacheGrows(s0, s1)
    && CacheKnown(s1)
  }

  lemma ReadsKeepDiff(s0: Session, s1: Session, data: Log, v0: View)
    requires OnlyReads(s0, s1) && IsDiff(data, v0, ViewOf(s0.truth, s0.cache))
    ensures IsDiff(data, v0, ViewOf(s1.truth, s1.cache))
  {
    DiffOfSame(data, v0, ViewOf(s0.truth, s0.cache), v0, ViewOf(s1.truth, s1.cache));
  }

  /** What is unknown after reading was unknown before. */
  lemma UnknownBefore(s0: Session, s1: Session, b: DataBucketId, n: nat)
    requires SameStore(s0, s1) && CacheGrows(s0, s1)
    ensures SlotsKnown(s0, b, n) ==> SlotsKnown(s1, b, n)
    ensures forall key :: !Known(s1, key) ==> !Known(s0, key)
    ensures SlotsCached(s0, b, n) ==> SlotsCached(s1, b, n)
  {
  }

  lemma UnknownSlot(s: Session, b: DataBucketId, x: nat, n: nat)
    requires x < n && !Known(s, SaltKey(b, x))
    ensures !SlotsKnown(s, b, n)
  {
  }

  lemma OneMoreSlot(s: Session, b: DataBucketId, n: nat)
    ensures SlotsKnown(s, b, n) && Known(s, SaltKey(b, n)) ==> SlotsKnown(s, b, n + 1)
    ensures SlotsCached(s, b, n) && SaltKey(b, n) in s.cache ==> SlotsCached(s, b, n + 1)
  {
  }

  lemma ReadsCompose(s0: Session, s1: Session, s2: Session)
    requires OnlyReads(s0, s1) && OnlyReads(s1, s2)
    ensures OnlyReads(s0, s2)
  {
  }

  lemma ReadsKeepTable(s0: Session, s1: Session, b: DataBucketId)
    requires OnlyReads(s0, s1)
    ensures TabOf(s0, b) == TabOf(s1, b) && MetaOf(s0, b) == MetaOf(s1, b)
    ensures BucketInv(s0, b) ==> BucketInv(s1, b)
  {
    SameInsideSameTable(s0.truth, s0.cache, s1.cache, b);
  }

  lemma ReadsKeepSession(s0: Session, s1: Session)
    requires SessionOk(s0) && OnlyReads(s0, s1)
    ensures SessionOk(s1)
    ensures Tracked(s0) ==> Tracked(s1)
  {
    forall b: DataBucketId
      ensures BucketInv(s1, b) && MetaOf(s1, b) == MetaOf(s0, b)
    {
      assert BucketInv(s0, b);
      ReadsKeepTable(s0, s1, b);
    }
  }

  /** What reading needs: a store that answers from the full state. */
  ghost predicate ReadOk(s: Session) {
    Agrees(s.store, s.truth) && TruthOk(s.truth) && CacheKnown(s)
  }

  /** A bucket whose slots are being read and rewritten; only the order of its table is open. */
  ghost predicate BucketOpen(s: Session, b: DataBucketId) {
    ReadOk(s) && Shape(s.truth, s.cache, b) && Counted(s, b)
  }

  /** Reads and slot writes of bucket `b`, so far. */
  ghost predicate MidStep(s0: Session, s: Session, b: DataBucketId) {
    && StepIn(s0, s, b) && CacheGrows(s0, s)
    && MetaOf(s, b) == MetaOf(s0, b) && s.rehashed == s0.rehashed
    && BucketOpen(s, b)
  }

  lemma OpenReads(s: Session, b: DataBucketId)
    requires BucketOpen(s, b)
    ensures ReadOk(s) && Shape(s.truth, s.cache, b)
  {
  }

  lemma MidStepStart(s: Session, b: DataBucketId)
    requires BucketOpen(s, b)
    ensures MidStep(s, s, b)
  {
  }

  lemma MidStepsCompose(s0: Session, s1: Session, s2: Session, b: DataBucketId)
    requires MidStep(s0, s1, b) && MidStep(s1, s2, b)
    ensures MidStep(s0, s2, b)
  {
    hide BucketOpen, MetaOf;
  }

  /** Once the order of the table is restored, the session is in order. */
  lemma MidStepEnds(s0: Session, s: Session, b: DataBucketId)
    requires SessionOk(s0) && MidStep(s0, s, b) && Canonical(TabOf(s, b), MetaOf(s, b).nonce)
    ensures SessionOk(s)
    ensures Tracked(s0) ==> Tracked(s)
  {
    hide CanonicalExcept;
    assert BucketInv(s0, b);
    StepKeepsSession(s0, s, b);
    forall b': DataBucketId | b' != b
      ensures MetaOf(s, b') == MetaOf(s0, b')
    {
      StepKeepsOthers(s0, s, b, b');
    }
  }

  // ---------------------------------------------------------------- writes

  /** `update_value`: cache, count delta. */
  function Updated(s: Session, key: SaltKey, before: Option<SaltValue>, after: Option<SaltValue>): Session {
    if before == after then s
    else
      var change := (if after.Some? then 1 else 0) - (if before.Some? then 1 else 0);
      s.(cache := s.cache[key := after],
         delta := if change == 0 then s.delta else s.delta[key.bucket := DeltaAt(s.delta, key.bucket) + change])
  }

  lemma UpdatedView(s: Session, key: SaltKey, after: Option<SaltValue>)
    requires Normal(key, after) == after
    ensures var s1 := Updated(s, key, At(s.truth, s.cache, key), after);
            SameView(ViewOf(s1.truth, s1.cache), Write(ViewOf(s.truth, s.cache), key, after))
  {
  }

  /** A store key that could be read may be written. */
  lemma UpdatedKnown(s: Session, b: DataBucketId, i: nat, before: Option<SaltValue>, after: Option<SaltValue>)
    requires CacheKnown(s) && Known(s, SaltKey(b, i))
    ensures CacheKnown(Updated(s, SaltKey(b, i), before, after))
  {
  }

  lemma UpdatedTable(s: Session, s1: Session, b: DataBucketId, i: nat, v: Option<Entry>)
    requires i < MetaOf(s, b).capacity && s1.truth == s.truth
    requires SameView(ViewOf(s1.truth, s1.cache), Write(ViewOf(s.truth, s.cache), SaltKey(b, i), Lift(v)))
    ensures SameOutside(s.truth, s.cache, s1.cache, b)
    ensures MetaOf(s1, b) == MetaOf(s, b) && TabOf(s1, b) == TabOf(s, b)[i := v]
    ensures Shape(s.truth, s.cache, b) && (v.Some? ==> BucketOf(v.value.key) == b) ==> Shape(s1.truth, s1.cache, b)
  {
    var view, view1 := ViewOf(s.truth, s.cache), ViewOf(s1.truth, s1.cache);
    forall key
      ensures At(s1.truth, s1.cache, key) == if key == SaltKey(b, i) then Lift(v) else At(s.truth, s.cache, key)
    {
      assert view1(key) == Write(view, SaltKey(b, i), Lift(v))(key);
    }
  }

  /** Writing a slot of bucket `b` changes that slot of its table, and nothing else. */
  lemma SlotWrite(s: Session, s1: Session, b: DataBucketId, i: nat, v: Option<Entry>)
    requires Shape(s.truth, s.cache, b) && CacheKnown(s)
    requires i < MetaOf(s, b).capacity && (v.Some? ==> BucketOf(v.value.key) == b)
    requires Known(s, SaltKey(b, i))
    requires s1 == Updated(s, SaltKey(b, i), At(s.truth, s.cache, SaltKey(b, i)), Lift(v))
    ensures StepIn(s, s1, b) && CacheGrows(s, s1) && Shape(s1.truth, s1.cache, b)
    ensures TabOf(s1, b) == TabOf(s, b)[i := v] && MetaOf(s1, b) == MetaOf(s, b) && s1.rehashed == s.rehashed
    ensures SameView(ViewOf(s1.truth, s1.cache), Write(ViewOf(s.truth, s.cache), SaltKey(b, i), Lift(v)))
    ensures Counted(s, b) ==> Counted(s1, b)
  {
    hide TruthOk, Agrees, SameView, Count;
    UpdatedView(s, SaltKey(b, i), Lift(v));
    UpdatedKnown(s, b, i, At(s.truth, s.cache, SaltKey(b, i)), Lift(v));
    UpdatedTable(s, s1, b, i, v);
    CountWrite(TabOf(s, b), i, v);
  }

  lemma {:induction false} CountWrite(t: Table, i: nat, v: Option<Entry>)
    requires i < |t|
    ensures Count(t[i := v]) == Count(t) + (if v.Some? then 1 else 0) - (if t[i].Some? then 1 else 0)
  {
    var n := |t| - 1;
    if i < n {
      CountWrite(t[..n], i, v);
      assert t[i := v][..n] == t[..n][i := v];
    } else {
      assert t[i := v][..n] == t[..n];
    }
  }

  // ---------------------------------------------------------------- what the stores answer

  lemma MetadataSound(store: Store, truth: Kvs, b: DataBucketId)
    requires Agrees(store, truth) && TruthOk(truth)
    ensures store.Metadata(b).Success? ==>
      store.Metadata(b).value.nonce == BaseMeta(truth, b).nonce
      && store.Metadata(b).value.capacity == BaseMeta(truth, b).capacity
    ensures store.Metadata(b).Success? <==> store.Full? || BucketMetadataKey(b) in store.known.kvs
  {
    assert BucketOk(truth, map[], b);
  }

  lemma {:induction false} CountWitnessedSound(w: Witness, truth: Kvs, b: DataBucketId, n: nat)
    requires Agrees(Partial(w), truth) && BucketOk(truth, map[], b) && n <= BaseMeta(truth, b).capacity
    ensures w.CountWitnessed(b, n).Success? <==> forall i :: 0 <= i < n ==> SaltKey(b, i) in w.kvs
    ensures w.CountWitnessed(b, n).Success? ==> w.CountWitnessed(b, n).value == Count(BaseTab(truth, b)[..n])
  {
    if n > 0 {
      CountWitnessedSound(w, truth, b, n - 1);
      assert BaseTab(truth, b)[..n][..n - 1] == BaseTab(truth, b)[..n - 1];
      assert BaseTab(truth, b)[n - 1] == EntryAt(truth, map[], b, n - 1);
    }
  }

  /** A count that a store gives is the real one; a witness gives it when it knows every slot. */
  lemma CountsSound(store: Store, truth: Kvs, b: DataBucketId)
    requires Agrees(store, truth) && TruthOk(truth)
    ensures store.BucketUsedSlots(b).Success? ==> store.BucketUsedSlots(b).value == Count(BaseTab(truth, b))
    ensures store.BucketUsedSlots(b).Success? <==>
      store.Full? || (BucketMetadataKey(b) in store.known.kvs
                      && forall i :: 0 <= i < BaseMeta(truth, b).capacity ==> SaltKey(b, i) in store.known.kvs)
  {
    MetadataSound(store, truth, b);
    if store.Partial? {
      assert BucketOk(truth, map[], b);
      CountWitnessedSound(store.known, truth, b, BaseMeta(truth, b).capacity);
      assert BaseTab(truth, b)[..BaseMeta(truth, b).capacity] == BaseTab(truth, b);
    }
  }

  /** Where the slot count of a bucket is known, so is the bucket. */
  lemma CountsKnownAllKnown(s: Session, b: DataBucketId)
    requires SessionOk(s) && CountsKnown(s, b)
    ensures SlotsKnown(s, b, MetaOf(s, b).capacity) && MetaKnown(s, b)
  {
    SessionBucket(s, b);
    CountsSound(s.store, s.truth, b);
    MetadataSound(s.store, s.truth, b);
    hide CanonicalExcept, TruthOk;
    forall i: nat | i < MetaOf(s, b).capacity
      ensures Known(s, SaltKey(b, i))
    {
      assert i >= BaseMeta(s.truth, b).capacity ==> SaltKey(b, i) in s.cache;
    }
  }

  /** Where a whole bucket is known, so is its slot count: a witness that reveals every slot reveals the count. */
  lemma AllKnownCountsKnown(s: Session, b: DataBucketId)
    requires Agrees(s.store, s.truth) && TruthOk(s.truth) && CacheKnown(s) && CutKnown(s, b)
    requires SlotsKnown(s, b, MetaOf(s, b).capacity) && MetaKnown(s, b)
    ensures CountsKnown(s, b)
  {
    CountsSound(s.store, s.truth, b);
    MetadataSound(s.store, s.truth, b);
    hide CanonicalExcept, TruthOk;
    if s.store.Partial? {
      forall i: nat | i < BaseMeta(s.truth, b).capacity
        ensures SaltKey(b, i) in s.store.known.kvs
      {
        assert i < MetaOf(s, b).capacity ==> Known(s, SaltKey(b, i));
      }
    }
  }
}
