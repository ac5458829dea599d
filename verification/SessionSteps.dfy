/**
 What each bucket operation does to a session, on values: the contracts of the methods of
 `EphemeralSaltState`, and the lemmas that assemble them.
 */
module SessionSteps {
  import opened Wrappers
  import opened ShiTable
  import opened Insertion
  import opened LoadFactor
  import opened SaltTypes
  import opened StateUpdatesModule
  import opened SessionView

  // ---------------------------------------------------------------- lookup

  /** The plain state: the value of a plain key, if it is stored. */
  ghost function Lookup(s: Session, key: Key): Option<Bytes> {
    var m := Contents(TabOf(s, BucketOf(key)));
    if key in m then Some(m[key]) else None
  }

  /** The store's direct table leads to the slot where the key is now. */
  ghost predicate DirectHit(s: Session, key: Key) {
    && s.store.Partial? && key in s.store.known.directLookupTbl
    && var saltKey := s.store.known.directLookupTbl[key];
    && saltKey.bucket == BucketOf(key) && IsAt(TabOf(s, BucketOf(key)), key, saltKey.slot) && Known(s, saltKey)
  }

  lemma DirectHitShown(s: Session, key: Key)
    ensures DirectHit(s, key) ==> var saltKey := s.store.known.directLookupTbl[key];
            At(s.truth, s.cache, saltKey).Some? && At(s.truth, s.cache, saltKey).value.Plain?
            && At(s.truth, s.cache, saltKey).value.entry.key == key
  {
  }

  /** A plain pair sits in the bucket of its key. */
  lemma PlainInItsBucket(s: Session, saltKey: SaltKey, e: Entry)
    requires SessionOk(s) && !saltKey.IsInMetaBucket() && At(s.truth, s.cache, saltKey) == Some(Plain(e))
    requires saltKey.bucket < NUM_BUCKETS
    ensures saltKey.bucket == BucketOf(e.key) && saltKey.slot < |TabOf(s, BucketOf(e.key))|
    ensures TabOf(s, BucketOf(e.key))[saltKey.slot] == Some(e)
  {
    SessionBucket(s, saltKey.bucket);
  }

  /** A lookup has read the metadata of the bucket and the slots on the key's path. */
  ghost predicate LookupCached(s0: Session, s1: Session, key: Key) {
    var b := BucketOf(key);
    && BucketMetadataKey(b) in s1.cache
    && forall x :: 0 <= x < |TabOf(s0, b)| && OnSearchPath(TabOf(s0, b), MetaOf(s0, b).nonce, key, x) ==> SaltKey(b, x) in s1.cache
  }

  /** A lookup fails only on data that the store does not know: metadata, or a slot on the path. */
  ghost predicate LookupFails(s: Session, key: Key, error: SaltError) {
    var b := BucketOf(key);
    && error == NotInWitness
    && (!MetaKnown(s, b)
        || exists x :: 0 <= x < |TabOf(s, b)| && OnSearchPath(TabOf(s, b), MetaOf(s, b).nonce, key, x) && !Known(s, SaltKey(b, x)))
  }

  // ---------------------------------------------------------------- rehash

  function SlotIn(t: Table, i: nat): Option<Entry> {
    if i < |t| then t[i] else None
  }

  ghost predicate BelongsTo(t: Table, b: DataBucketId) {
    forall q :: 0 <= q < |t| && t[q].Some? ==> BucketOf(t[q].value.key) == b
  }

  /** The first `n` slots of bucket `b` show `new`, the others still show `old`; the metadata is untouched. */
  ghost predicate LaidOut(s0: Session, s: Session, b: DataBucketId, before: Table, after: Table, n: nat) {
    && StepIn(s0, s, b) && CacheGrows(s0, s)
    && s.delta == s0.delta && s.rehashed == s0.rehashed
    && At(s.truth, s.cache, BucketMetadataKey(b)) == At(s0.truth, s0.cache, BucketMetadataKey(b))
    && (forall i: nat :: At(s.truth, s.cache, SaltKey(b, i)) == Lift(SlotIn(if i < n then after else before, i)))
    && (forall i: nat :: |before| <= i < |after| && i < n ==> SaltKey(b, i) in s.cache)
  }

  lemma LayoutStart(s: Session, b: DataBucketId, after: Table)
    requires Shape(s.truth, s.cache, b) && CacheKnown(s)
    ensures LaidOut(s, s, b, TabOf(s, b), after, 0)
  {
    forall i: nat
      ensures At(s.truth, s.cache, SaltKey(b, i)) == Lift(SlotIn(TabOf(s, b), i))
    {
    }
  }

  lemma LayoutNow(s0: Session, s: Session, b: DataBucketId, before: Table, after: Table, slot: nat)
    requires LaidOut(s0, s, b, before, after, slot)
    ensures At(s.truth, s.cache, SaltKey(b, slot)) == Lift(SlotIn(before, slot))
    ensures s == s0.(cache := s.cache)
  {
  }

  lemma LayoutKnown(s0: Session, s: Session, b: DataBucketId, before: Table, after: Table, slot: nat)
    requires LaidOut(s0, s, b, before, after, slot) && SlotsKnown(s0, b, |before|)
    ensures slot < |before| ==> Known(s, SaltKey(b, slot))
  {
  }

  /** One slot of the layout, written into the cache. */
  lemma LayoutSlot(s0: Session, s: Session, b: DataBucketId, before: Table, after: Table, slot: nat)
    requires LaidOut(s0, s, b, before, after, slot)
    requires slot < |before| ==> Known(s, SaltKey(b, slot))
    requires TailKnown(s, b, |before|)
    ensures var s1 := s.(cache := s.cache[SaltKey(b, slot) := Lift(SlotIn(after, slot))]);
            && LaidOut(s0, s1, b, before, after, slot + 1)
            && SameView(Write(ViewOf(s.truth, s.cache), SaltKey(b, slot), Lift(SlotIn(after, slot))), ViewOf(s1.truth, s1.cache))
  {
    hide MetaAt;
    var s1 := s.(cache := s.cache[SaltKey(b, slot) := Lift(SlotIn(after, slot))]);
    assert forall key :: key != SaltKey(b, slot) ==> At(s1.truth, s1.cache, key) == At(s.truth, s.cache, key);
  }

  /** An old slot that keeps its entry needs no write. */
  lemma LayoutSlotKept(s0: Session, s: Session, b: DataBucketId, before: Table, after: Table, slot: nat)
    requires LaidOut(s0, s, b, before, after, slot)
    requires slot < |before| && SlotIn(before, slot) == SlotIn(after, slot)
    ensures LaidOut(s0, s, b, before, after, slot + 1)
  {
    hide MetaAt;
  }

  /** `shi_rehash`: the same pairs under the new nonce and capacity, or nothing when they would not fit. */
  ghost predicate Rehashed(s0: Session, s1: Session, b: DataBucketId, nonce: nat, capacity: nat) {
    && StepIn(s0, s1, b) && CacheGrows(s0, s1) && s1.delta == s0.delta
    && if capacity < |Contents(TabOf(s0, b))| then
         OnlyReads(s0, s1)
       else
         && MetaOf(s1, b) == BucketMeta(nonce, capacity, None)
         && Contents(TabOf(s1, b)) == Contents(TabOf(s0, b))
         && s1.rehashed == s0.rehashed + {b}
  }

  /** The session once the new metadata is written over a finished layout. */
  ghost function WithMeta(s: Session, b: DataBucketId, nonce: nat, capacity: nat): Session {
    var key := BucketMetadataKey(b);
    var u := Updated(s, key, At(s.truth, s.cache, key), Some(Meta(nonce, capacity)));
    u.(rehashed := u.rehashed + {b})
  }

  lemma WithMetaView(s: Session, b: DataBucketId, nonce: nat, capacity: nat)
    requires At(s.truth, s.cache, BucketMetadataKey(b)).Some?
    ensures var s1 := WithMeta(s, b, nonce, capacity);
            && s1.delta == s.delta && SameStore(s, s1) && CacheGrows(s, s1)
            && (forall k :: k != BucketMetadataKey(b) ==> At(s1.truth, s1.cache, k) == At(s.truth, s.cache, k))
            && At(s1.truth, s1.cache, BucketMetadataKey(b)) == Some(Meta(nonce, capacity))
            && (forall b': DataBucketId, i: nat :: SaltKey(b', i) in s1.cache <==> SaltKey(b', i) in s.cache)
            && (forall b': DataBucketId :: b' != b ==> (BucketMetadataKey(b') in s1.cache <==> BucketMetadataKey(b') in s.cache))
  {
    var key := BucketMetadataKey(b);
    var s1 := WithMeta(s, b, nonce, capacity);
    forall k
      ensures At(s1.truth, s1.cache, k) == if k == key then Some(Meta(nonce, capacity)) else At(s.truth, s.cache, k)
    {
    }
  }

  lemma RehashedTable(s0: Session, s: Session, b: DataBucketId, nonce: nat, before: Table, after: Table, n: nat)
    requires LaidOut(s0, s, b, before, after, n) && n >= |before| && n >= |after| && 0 < |after| <= BUCKET_SLOT_ID_MASK
    requires BelongsTo(after, b) && At(s.truth, s.cache, BucketMetadataKey(b)).Some? && MetaKnown(s0, b)
    ensures var s1 := WithMeta(s, b, nonce, |after|);
            && StepIn(s0, s1, b) && CacheGrows(s0, s1) && s1.delta == s0.delta && s1.rehashed == s0.rehashed + {b}
            && MetaOf(s1, b) == BucketMeta(nonce, |after|, None) && TabOf(s1, b) == after && Shape(s1.truth, s1.cache, b)
  {
    var s1 := WithMeta(s, b, nonce, |after|);
    WithMetaView(s, b, nonce, |after|);
    forall i: nat
      ensures At(s1.truth, s1.cache, SaltKey(b, i)) == Lift(SlotIn(after, i))
    {
      assert SlotIn(if i < n then after else before, i) == SlotIn(after, i);
    }
    assert TabOf(s1, b) == after;
  }

  lemma RehashKeepsCached(s0: Session, s: Session, s1: Session, b: DataBucketId, nonce: nat, capacity: nat)
    requires BucketCached(s0, s, b) && Rehashed(s, s1, b, nonce, capacity)
    ensures BucketCached(s0, s1, b)
  {
    hide Contents;
  }

  lemma NotRehashed(s: Session, b: DataBucketId, nonce: nat, capacity: nat)
    requires CacheKnown(s) && capacity < |Contents(TabOf(s, b))|
    ensures Rehashed(s, s, b, nonce, capacity)
  {
    hide Contents;
  }

  lemma LaidOutMeta(s0: Session, s: Session, b: DataBucketId, before: Table, after: Table)
    requires Shape(s0.truth, s0.cache, b)
    requires LaidOut(s0, s, b, before, after, if |before| > |after| then |before| else |after|)
    ensures At(s.truth, s.cache, BucketMetadataKey(b)) == Some(MetaOf(s0, b).ToValue())
    ensures SameStore(s0, s)
  {
  }

  /** Reading first changes nothing of what a rehash does. */
  lemma RehashAfterReads(s0: Session, s: Session, s1: Session, b: DataBucketId, nonce: nat, capacity: nat)
    requires OnlyReads(s0, s) && Rehashed(s, s1, b, nonce, capacity)
    ensures Rehashed(s0, s1, b, nonce, capacity)
  {
    hide Contents;
    ReadsKeepTable(s0, s, b);
  }

  lemma RehashEnds(s0: Session, s: Session, b: DataBucketId, nonce: nat, after: Table)
    requires SessionOk(s0) && LaidOut(s0, s, b, TabOf(s0, b), after, if |TabOf(s0, b)| > |after| then |TabOf(s0, b)| else |after|)
    requires Canonical(after, nonce) && Contents(after) == Contents(TabOf(s0, b)) && 0 < |after| <= BUCKET_SLOT_ID_MASK
    requires MetaKnown(s0, b) && SlotsKnown(s0, b, |TabOf(s0, b)|)
    ensures var s1 := WithMeta(s, b, nonce, |after|);
            SessionOk(s1) && Rehashed(s0, s1, b, nonce, |after|) && TabOf(s1, b) == after
  {
    hide CanonicalExcept, Contents, Count;
    var s1 := WithMeta(s, b, nonce, |after|);
    assert BucketInv(s0, b);
    RehashedBelongs(s0, b, after, nonce);
    RehashedTable(s0, s, b, nonce, TabOf(s0, b), after, if |TabOf(s0, b)| > |after| then |TabOf(s0, b)| else |after|);
    RehashKeepsCount(s0, s1, b, after, nonce);
    SameCount(s0, after, b, nonce);
    forall i: nat | BaseMeta(s1.truth, b).capacity <= i < |after|
      ensures SaltKey(b, i) in s1.cache
    {
      WithMetaView(s, b, nonce, |after|);
      assert i < |TabOf(s0, b)| ==> SaltKey(b, i) in s0.cache;
    }
    StoredSlotsKnown(s0, b);
    StepKeepsSession(s0, s1, b);
  }

  /** Where all slots of a bucket are known, so are all its stored slots. */
  lemma StoredSlotsKnown(s: Session, b: DataBucketId)
    requires CutKnown(s, b) && CacheKnown(s) && SlotsKnown(s, b, MetaOf(s, b).capacity)
    ensures TailKnown(s, b, 0)
  {
    forall i: nat | i < BaseMeta(s.truth, b).capacity
      ensures s.store.Value(SaltKey(b, i)).Success?
    {
      assert i < MetaOf(s, b).capacity ==> Known(s, SaltKey(b, i));
    }
  }

  lemma SameCount(s0: Session, after: Table, b: DataBucketId, nonce: nat)
    requires BucketInv(s0, b) && Canonical(after, nonce) && Contents(after) == Contents(TabOf(s0, b))
    ensures |Contents(TabOf(s0, b))| <= |after|
  {
    CanonicalDistinct(after, nonce, -1);
    CountIsContents(after);
  }

  lemma RehashKeepsCount(s0: Session, s1: Session, b: DataBucketId, after: Table, nonce: nat)
    requires BucketInv(s0, b) && TabOf(s1, b) == after && s1.truth == s0.truth && DeltaAt(s1.delta, b) == DeltaAt(s0.delta, b)
    requires Canonical(after, nonce) && Contents(after) == Contents(TabOf(s0, b))
    ensures Counted(s1, b)
  {
    CanonicalDistinct(after, nonce, -1);
    CanonicalDistinct(TabOf(s0, b), MetaOf(s0, b).nonce, -1);
    CountIsContents(after);
    CountIsContents(TabOf(s0, b));
  }

  lemma RehashedBelongs(s0: Session, b: DataBucketId, after: Table, nonce: nat)
    requires BucketOk(s0.truth, s0.cache, b) && Contents(after) == Contents(TabOf(s0, b))
    ensures BelongsTo(after, b)
  {
    hide CanonicalExcept;
    var t := TabOf(s0, b);
    forall q | 0 <= q < |after| && after[q].Some?
      ensures BucketOf(after[q].value.key) == b
    {
      assert after[q].value.key in Contents(after).Keys && Contents(t).Keys == KeysOf(t);
      var p := SlotOf(t, after[q].value.key);
      assert t[p] == EntryAt(s0.truth, s0.cache, b, p);
    }
  }

  /** A rehash under the nonce and capacity that the bucket has moves no entry, and no view changes. */
  lemma SameRehashMovesNothing(s0: Session, s1: Session, b: DataBucketId)
    requires SessionOk(s0) && SessionOk(s1) && Rehashed(s0, s1, b, MetaOf(s0, b).nonce, MetaOf(s0, b).capacity)
    ensures TabOf(s1, b) == TabOf(s0, b) && MetaOf(s1, b) == MetaOf(s0, b)
    ensures SameView(ViewOf(s0.truth, s0.cache), ViewOf(s1.truth, s1.cache))
  {
    hide SessionOk, CanonicalExcept, Contents, BucketInv;
    SessionBucket(s0, b);
    SessionBucket(s1, b);
    FullByCount(TabOf(s0, b), MetaOf(s0, b).nonce);
    CanonicalUnique(TabOf(s0, b), TabOf(s1, b), MetaOf(s0, b).nonce);
    forall key
      ensures At(s1.truth, s1.cache, key) == At(s0.truth, s0.cache, key)
    {
      if key.bucket == b {
        SlotShown(s0, b, key.slot);
        SlotShown(s1, b, key.slot);
      }
    }
  }

  /** So the log of the session gains no entry and loses none. */
  lemma SameRehashLogsNothing(s0: Session, s1: Session, b: DataBucketId, log0: Log, log1: Log, v0: View)
    requires SessionOk(s0) && SessionOk(s1) && Rehashed(s0, s1, b, MetaOf(s0, b).nonce, MetaOf(s0, b).capacity)
    requires IsDiff(log0, v0, ViewOf(s0.truth, s0.cache)) && IsDiff(log1, v0, ViewOf(s1.truth, s1.cache))
    ensures log1 == log0
  {
    SameRehashMovesNothing(s0, s1, b);
    hide SessionOk, Rehashed;
    DiffOfSame(log0, v0, ViewOf(s0.truth, s0.cache), v0, ViewOf(s1.truth, s1.cache));
    DiffUnique(log0, log1, v0, ViewOf(s1.truth, s1.cache));
  }

  lemma SlotShown(s: Session, b: DataBucketId, i: nat)
    requires Shape(s.truth, s.cache, b)
    ensures At(s.truth, s.cache, SaltKey(b, i)) == Lift(SlotIn(TabOf(s, b), i))
  {
  }

  /** The metadata and all slots of a bucket have been read into the cache. */
  ghost predicate BucketCached(s0: Session, s1: Session, b: DataBucketId) {
    && BucketMetadataKey(b) in s1.cache
    && SlotsCached(s1, b, MetaOf(s0, b).capacity)
  }

  /** The reasons why a rehash fails: a capacity out of range, or a part of the bucket that the store does not know. */
  ghost predicate RehashFails(s: Session, b: DataBucketId, capacity: nat, error: SaltError) {
    if error == CapacityPanic then capacity > BUCKET_SLOT_ID_MASK
    else
      && error == NotInWitness
      && (!MetaKnown(s, b) || !CountsKnown(s, b)
          || !SlotsKnown(s, b, MetaOf(s, b).capacity))
  }

  // ---------------------------------------------------------------- upsert

  /** The capacity after an upsert: a new key grows the bucket past its load factor, where the slot count is known. */
  ghost function UpsertCapacity(s: Session, b: DataBucketId, key: Key): nat {
    var m := Contents(TabOf(s, b));
    var capacity := MetaOf(s, b).capacity;
    if key in m || !CountsKnown(s, b) || capacity == 0 then capacity else ResizeCapacity(capacity, |m| + 1)
  }

  /** `shi_upsert`: the pair is stored, everything else of the bucket is as before, and the capacity is as due. */
  ghost predicate Upserted(s0: Session, s1: Session, b: DataBucketId, key: Key, val: Bytes) {
    && StepIn(s0, s1, b) && CacheGrows(s0, s1)
    && Contents(TabOf(s1, b)) == Contents(TabOf(s0, b))[key := val]
    && MetaOf(s1, b) == BucketMeta(MetaOf(s0, b).nonce, UpsertCapacity(s0, b, key), None)
    && s1.rehashed == (if UpsertCapacity(s0, b, key) != MetaOf(s0, b).capacity then s0.rehashed + {b} else s0.rehashed)
  }

  /** The slot is one that an insertion of `key` reads. */
  ghost predicate InsertReads(s: Session, b: DataBucketId, key: Key, x: nat)
    requires x < |TabOf(s, b)|
  {
    OnInsertPath(TabOf(s, b), MetaOf(s, b).nonce, key, x)
  }

  ghost predicate InsertPathKnown(s: Session, b: DataBucketId, key: Key) {
    MetaKnown(s, b) && forall x :: 0 <= x < |TabOf(s, b)| && InsertReads(s, b, key, x) ==> Known(s, SaltKey(b, x))
  }

  /** The reasons why an upsert fails: the store does not know what it must read, or the bucket would grow out of range. */
  ghost predicate UpsertFails(s: Session, b: DataBucketId, key: Key, error: SaltError) {
    if error == CapacityPanic then UpsertCapacity(s, b, key) > BUCKET_SLOT_ID_MASK
    else error == NotInWitness && !InsertPathKnown(s, b, key)
  }

  /** What an upsert has read into the cache: the insertion path, and the whole bucket when it grows. */
  ghost predicate UpsertCached(s0: Session, s1: Session, b: DataBucketId, key: Key) {
    && BucketMetadataKey(b) in s1.cache
    && (forall x :: 0 <= x < |TabOf(s0, b)| && InsertReads(s0, b, key, x) ==> SaltKey(b, x) in s1.cache)
    && (MetaOf(s1, b).capacity != MetaOf(s0, b).capacity ==> SlotsCached(s1, b, MetaOf(s0, b).capacity))
  }

  /** The probing loop of an upsert of (`key`, `val`) that started at `s0`, before probe number `step`. */
  ghost predicate InsertingIn(s0: Session, s: Session, b: DataBucketId, key: Key, val: Bytes, e: Entry, step: nat) {
    && MidStep(s0, s, b) && MetaKnown(s, b)
    && Inserting(TabOf(s0, b), MetaOf(s0, b).nonce, key, val, TabOf(s, b), e, step)
    && BucketOf(key) == b && BucketOf(e.key) == b
    && KnownBefore(s, b, |TabOf(s0, b)|, Home(key, MetaOf(s0, b).nonce, |TabOf(s0, b)|), step)
    && (s.cacheRead ==> BucketMetadataKey(b) in s.cache)
    && (s.cacheRead ==> CachedBefore(s.cache, b, |TabOf(s0, b)|, Home(key, MetaOf(s0, b).nonce, |TabOf(s0, b)|), step))
  }

  /** The cache holds every slot of the bucket that is fewer than `step` steps from `home`. */
  ghost predicate CachedBefore(cache: Cache, b: BucketId, capacity: nat, home: nat, step: nat)
    requires home < capacity
  {
    forall x :: 0 <= x < capacity && Dist(capacity, home, x) < step ==> SaltKey(b, x) in cache
  }

  ghost predicate KnownBefore(s: Session, b: BucketId, capacity: nat, home: nat, step: nat)
    requires home < capacity
  {
    forall x :: 0 <= x < capacity && Dist(capacity, home, x) < step ==> Known(s, SaltKey(b, x))
  }

  /** The insertion ended without a rehash. */
  ghost predicate InsertDone(s0: Session, s: Session, b: DataBucketId, key: Key, val: Bytes) {
    && MidStep(s0, s, b) && MetaKnown(s, b)
    && Canonical(TabOf(s, b), MetaOf(s, b).nonce)
    && Contents(TabOf(s, b)) == Contents(TabOf(s0, b))[key := val]
    && (s.cacheRead ==> UpsertCached(s0, s, b, key))
  }

  /** Reading the next slot of the probe sequence. */
  lemma InsertReadsNext(s0: Session, s: Session, s1: Session, b: DataBucketId, key: Key, val: Bytes, e: Entry, step: nat)
    requires InsertingIn(s0, s, b, key, val, e, step) && step < |TabOf(s0, b)|
    requires MidStep(s, s1, b) && TabOf(s1, b) == TabOf(s, b)
    ensures InsertingIn(s0, s1, b, key, val, e, step)
    ensures var cur := Probe(HashWithNonce(key, MetaOf(s0, b).nonce), step, |TabOf(s0, b)|);
            InsertReads(s0, b, key, cur) && (!Known(s, SaltKey(b, cur)) ==> !InsertPathKnown(s0, b, key))
  {
    MidStepsCompose(s0, s, s1, b);
    MidStepGrows(s, s1, b);
    MidStepGrows(s0, s, b);
    InsertingFacts(s0, s, b, key, val, e, step);
    InsertPathRead(TabOf(s0, b), MetaOf(s0, b).nonce, key, val, TabOf(s, b), e, step);
    hide Inserting, OnInsertPath, MidStep;
  }

  lemma InsertingFacts(s0: Session, s: Session, b: DataBucketId, key: Key, val: Bytes, e: Entry, step: nat)
    requires InsertingIn(s0, s, b, key, val, e, step)
    ensures |TabOf(s, b)| == |TabOf(s0, b)| > 0 && MetaOf(s, b) == MetaOf(s0, b) && BucketOpen(s, b)
    ensures Canonical(TabOf(s, b), MetaOf(s, b).nonce)
  {
  }

  lemma InsertingBelongs(s0: Session, s: Session, b: DataBucketId, key: Key, val: Bytes, e: Entry, step: nat)
    requires InsertingIn(s0, s, b, key, val, e, step)
    ensures BucketOf(e.key) == b
  {
  }

  lemma InsertBegins(s0: Session, s: Session, b: DataBucketId, key: Key, val: Bytes)
    requires SessionOk(s0) && OnlyReads(s0, s) && MetaKnown(s, b) && BucketOf(key) == b
    requires s.cacheRead ==> BucketMetadataKey(b) in s.cache
    ensures InsertingIn(s0, s, b, key, val, Entry(key, val), 0)
  {
    SessionBucket(s0, b);
    ReadsKeepTable(s0, s, b);
    ReadsKeepSession(s0, s);
    SessionBucket(s, b);
    InsertStart(TabOf(s, b), MetaOf(s, b).nonce, key, val);
    hide Inserting, CanonicalExcept;
  }

  lemma InsertGoesOn(s0: Session, s: Session, b: DataBucketId, key: Key, val: Bytes, e: Entry, step: nat)
    requires InsertingIn(s0, s, b, key, val, e, step) && step < |TabOf(s0, b)|
    requires var cur := Probe(HashWithNonce(key, MetaOf(s0, b).nonce), step, |TabOf(s0, b)|);
             && TabOf(s, b)[cur].Some? && TabOf(s, b)[cur].value.key > e.key
             && Known(s, SaltKey(b, cur)) && (s.cacheRead ==> SaltKey(b, cur) in s.cache)
    ensures InsertingIn(s0, s, b, key, val, e, step + 1)
  {
    InsertingFacts(s0, s, b, key, val, e, step);
    InsertPassOver(TabOf(s0, b), MetaOf(s0, b).nonce, key, val, TabOf(s, b), e, step);
    NextProbe(HashWithNonce(key, MetaOf(s0, b).nonce), step, |TabOf(s0, b)|);
    hide Inserting, MidStep;
  }

  lemma InsertDisplaces(s0: Session, s: Session, s1: Session, b: DataBucketId, key: Key, val: Bytes, e: Entry, step: nat)
    requires InsertingIn(s0, s, b, key, val, e, step) && step < |TabOf(s0, b)|
    requires var cur := Probe(HashWithNonce(key, MetaOf(s0, b).nonce), step, |TabOf(s0, b)|);
             && TabOf(s, b)[cur].Some? && TabOf(s, b)[cur].value.key < e.key
             && Known(s, SaltKey(b, cur)) && (s.cacheRead ==> SaltKey(b, cur) in s.cache)
             && MidStep(s, s1, b) && TabOf(s1, b) == TabOf(s, b)[cur := Some(e)]
    ensures var cur := Probe(HashWithNonce(key, MetaOf(s0, b).nonce), step, |TabOf(s0, b)|);
            InsertingIn(s0, s1, b, key, val, TabOf(s, b)[cur].value, step + 1)
  {
    var cur := Probe(HashWithNonce(key, MetaOf(s0, b).nonce), step, |TabOf(s0, b)|);
    InsertingFacts(s0, s, b, key, val, e, step);
    EntryBelongs(s, b, cur);
    InsertDisplace(TabOf(s0, b), MetaOf(s0, b).nonce, key, val, TabOf(s, b), e, step);
    NextProbe(HashWithNonce(key, MetaOf(s0, b).nonce), step, |TabOf(s0, b)|);
    MidStepsCompose(s0, s, s1, b);
    hide Inserting, MidStep, BucketOpen;
    assert s.cache.Keys <= s1.cache.Keys by {
      MidStepGrows(s, s1, b);
    }
  }

  lemma MidStepGrows(s: Session, s1: Session, b: DataBucketId)
    requires MidStep(s, s1, b)
    ensures CacheGrows(s, s1) && SameStore(s, s1) && MetaOf(s, b) == MetaOf(s1, b)
  {
  }

  lemma EntryBelongs(s: Session, b: DataBucketId, q: nat)
    requires Shape(s.truth, s.cache, b) && q < |TabOf(s, b)| && TabOf(s, b)[q].Some?
    ensures BucketOf(TabOf(s, b)[q].value.key) == b
  {
    assert TabOf(s, b)[q] == EntryAt(s.truth, s.cache, b, q);
  }

  /** The empty slot is filled, or the stored pair is replaced: the insertion is done. */
  lemma InsertEnds(s0: Session, s: Session, s1: Session, b: DataBucketId, key: Key, val: Bytes, e: Entry, step: nat)
    requires InsertingIn(s0, s, b, key, val, e, step) && step < |TabOf(s0, b)|
    requires var cur := Probe(HashWithNonce(key, MetaOf(s0, b).nonce), step, |TabOf(s0, b)|);
             && (TabOf(s, b)[cur].None? || TabOf(s, b)[cur].value.key == e.key)
             && (s.cacheRead ==> SaltKey(b, cur) in s.cache)
             && MidStep(s, s1, b) && TabOf(s1, b) == TabOf(s, b)[cur := Some(e)]
    ensures InsertDone(s0, s1, b, key, val)
    ensures var cur := Probe(HashWithNonce(key, MetaOf(s0, b).nonce), step, |TabOf(s0, b)|);
            key in Contents(TabOf(s0, b)) <==> TabOf(s, b)[cur].Some?
  {
    var nonce, t0, t := MetaOf(s0, b).nonce, TabOf(s0, b), TabOf(s, b);
    InsertingFacts(s0, s, b, key, val, e, step);
    if t[Probe(HashWithNonce(key, nonce), step, |t0|)].None? {
      InsertPlace(t0, nonce, key, val, t, e, step);
    } else {
      InsertUpdate(t0, nonce, key, val, t, e, step);
    }
    InsertEndsCached(s0, s, s1, b, key, val, e, step);
    MidStepsCompose(s0, s, s1, b);
    MidStepGrows(s, s1, b);
    hide Inserting, MidStep, UpsertCached, CanonicalExcept;
    assert Contents(t0).Keys == KeysOf(t0);
  }

  lemma InsertEndsCached(s0: Session, s: Session, s1: Session, b: DataBucketId, key: Key, val: Bytes, e: Entry, step: nat)
    requires InsertingIn(s0, s, b, key, val, e, step) && step < |TabOf(s0, b)|
    requires var cur := Probe(HashWithNonce(key, MetaOf(s0, b).nonce), step, |TabOf(s0, b)|);
             && (TabOf(s, b)[cur].None? || TabOf(s, b)[cur].value.key == e.key)
             && (s.cacheRead ==> SaltKey(b, cur) in s.cache)
    requires MidStep(s, s1, b)
    ensures s.cacheRead ==> UpsertCached(s0, s1, b, key)
  {
    InsertingFacts(s0, s, b, key, val, e, step);
    InsertPathRead(TabOf(s0, b), MetaOf(s0, b).nonce, key, val, TabOf(s, b), e, step);
    MidStepGrows(s, s1, b);
    hide Inserting, MidStep, OnInsertPath;
  }

  /** Without a rehash, the count is right for the capacity that stays. */
  lemma UpsertEnds(s0: Session, s: Session, b: DataBucketId, key: Key, val: Bytes)
    requires SessionOk(s0) && InsertDone(s0, s, b, key, val) && MetaOf(s0, b).capacity > 0
    requires key in Contents(TabOf(s0, b)) || !CountsKnown(s0, b) || LoadOk(MetaOf(s0, b).capacity, |Contents(TabOf(s0, b))| + 1)
    ensures SessionOk(s) && Upserted(s0, s, b, key, val)
  {
    MidStepEnds(s0, s, b);
  }

  /** A pair found directly is replaced in place. */
  lemma DirectReplaces(s0: Session, s: Session, s1: Session, b: DataBucketId, key: Key, val: Bytes, slot: nat)
    requires SessionOk(s0) && OnlyReads(s0, s) && IsAt(TabOf(s, b), key, slot)
    requires MidStep(s, s1, b) && TabOf(s1, b) == TabOf(s, b)[slot := Some(Entry(key, val))]
    ensures SessionOk(s1) && Upserted(s0, s1, b, key, val)
  {
    hide CanonicalExcept, Contents, SessionOk, BucketOpen, KeysOf, BucketInv;
    ReadsKeepTable(s0, s, b);
    ReadsKeepSession(s0, s);
    SessionBucket(s, b);
    ReplaceInPlace(TabOf(s, b), MetaOf(s, b).nonce, slot, Entry(key, val));
    MidStepEnds(s, s1, b);
    ReadsThenStep(s0, s, s1, b);
  }

  lemma ReadsThenStep(s0: Session, s: Session, s1: Session, b: DataBucketId)
    requires OnlyReads(s0, s) && StepIn(s, s1, b)
    ensures StepIn(s0, s1, b) && (CacheGrows(s, s1) ==> CacheGrows(s0, s1))
  {
  }

  lemma InsertDoneFacts(s0: Session, s: Session, b: DataBucketId, key: Key, val: Bytes)
    requires SessionOk(s0) && InsertDone(s0, s, b, key, val)
    ensures SessionOk(s) && MetaKnown(s, b) && MetaOf(s, b) == MetaOf(s0, b) && MetaOf(s, b).capacity > 0 && SameStore(s0, s)
    ensures key !in Contents(TabOf(s0, b)) ==> Count(TabOf(s, b)) == |Contents(TabOf(s0, b))| + 1
  {
    MidStepEnds(s0, s, b);
    SessionBucket(s, b);
    CanonicalDistinct(TabOf(s, b), MetaOf(s, b).nonce, -1);
    CountIsContents(TabOf(s, b));
    hide CanonicalExcept;
  }

  /** Past the load factor the bucket is rehashed into the capacity that is due. */
  lemma UpsertGrows(s0: Session, s: Session, s1: Session, b: DataBucketId, key: Key, val: Bytes)
    requires SessionOk(s0) && InsertDone(s0, s, b, key, val) && key !in Contents(TabOf(s0, b)) && CountsKnown(s0, b)
    requires MetaOf(s0, b).capacity > 0 && !LoadOk(MetaOf(s0, b).capacity, |Contents(TabOf(s0, b))| + 1)
    requires Rehashed(s, s1, b, MetaOf(s, b).nonce, UpsertCapacity(s0, b, key))
    ensures Upserted(s0, s1, b, key, val)
    ensures s.cacheRead && BucketCached(s, s1, b) ==> UpsertCached(s0, s1, b, key)
  {
    hide CanonicalExcept, SessionOk;
    assert |Contents(TabOf(s, b))| == |Contents(TabOf(s0, b))| + 1;
    StepsCompose(s0, s, s1, b);
  }

  lemma StepsCompose(s0: Session, s1: Session, s2: Session, b: DataBucketId)
    requires StepIn(s0, s1, b) && StepIn(s1, s2, b)
    ensures StepIn(s0, s2, b)
    ensures CacheGrows(s0, s1) && CacheGrows(s1, s2) ==> CacheGrows(s0, s2)
  {
  }

  lemma RehashFailsHow(s: Session, b: DataBucketId, capacity: nat, error: SaltError)
    requires RehashFails(s, b, capacity, error)
    ensures if capacity > BUCKET_SLOT_ID_MASK then error == CapacityPanic || error == NotInWitness else error == NotInWitness
  {
  }

  /** A rehash for a bucket whose count is known can fail only by its capacity. */
  lemma KnownRehashFails(s: Session, b: DataBucketId, capacity: nat, error: SaltError)
    requires SessionOk(s) && CountsKnown(s, b) && RehashFails(s, b, capacity, error)
    ensures error == CapacityPanic && capacity > BUCKET_SLOT_ID_MASK
  {
    CountsKnownAllKnown(s, b);
  }

  /** An upsert that does not grow its bucket is the insertion into its table. */
  lemma UpsertIsInsertion(s0: Session, s1: Session, b: DataBucketId, key: Key, val: Bytes)
    requires SessionOk(s0) && SessionOk(s1) && Upserted(s0, s1, b, key, val)
    requires UpsertCapacity(s0, b, key) == MetaOf(s0, b).capacity
    ensures InsertEntry(TabOf(s0, b), MetaOf(s0, b).nonce, Entry(key, val)) == Some(TabOf(s1, b))
  {
    SessionBucket(s0, b);
    SessionBucket(s1, b);
    var t, nonce := TabOf(s0, b), MetaOf(s0, b).nonce;
    FullByCount(TabOf(s1, b), nonce);
    hide SessionOk, CanonicalExcept, Contents, InsertEntry;
    InsertEntryFits(t, nonce, Entry(key, val));
    CanonicalUnique(InsertEntry(t, nonce, Entry(key, val)).value, TabOf(s1, b), nonce);
  }

  // ---------------------------------------------------------------- forced expansion

  /** When no slot is empty, the table is full and lacks the key, and everything about the bucket is known. */
  lemma InsertFindsFull(s0: Session, s: Session, b: DataBucketId, key: Key, val: Bytes, e: Entry)
    requires SessionOk(s0) && InsertingIn(s0, s, b, key, val, e, |TabOf(s0, b)|)
    ensures SessionOk(s) && CountsKnown(s, b) && MetaOf(s, b) == MetaOf(s0, b) && MetaOf(s, b).capacity > 0
    ensures key !in Contents(TabOf(s0, b)) && e.key !in Contents(TabOf(s, b))
    ensures |Contents(TabOf(s0, b))| == |Contents(TabOf(s, b))| == MetaOf(s, b).capacity
    ensures !LoadOk(MetaOf(s, b).capacity, MetaOf(s, b).capacity)
  {
    InsertingFacts(s0, s, b, key, val, e, |TabOf(s0, b)|);
    InsertFull(TabOf(s0, b), MetaOf(s0, b).nonce, key, val, TabOf(s, b), e);
    MidStepEnds(s0, s, b);
    SessionBucket(s0, b);
    SessionBucket(s, b);
    FullCount(TabOf(s0, b), MetaOf(s0, b).nonce);
    FullCount(TabOf(s, b), MetaOf(s, b).nonce);
    AllKnownHere(s0, s, b, key, val, e);
    AllKnownCountsKnown(s, b);
    hide CanonicalExcept, SessionOk;
    assert Contents(TabOf(s0, b)).Keys == KeysOf(TabOf(s0, b)) && Contents(TabOf(s, b)).Keys == KeysOf(TabOf(s, b));
  }

  lemma AllKnownHere(s0: Session, s: Session, b: DataBucketId, key: Key, val: Bytes, e: Entry)
    requires InsertingIn(s0, s, b, key, val, e, |TabOf(s0, b)|)
    ensures SlotsKnown(s, b, MetaOf(s, b).capacity) && MetaKnown(s, b)
  {
    hide Inserting;
  }

  lemma FullCount(t: Table, nonce: nat)
    requires Canonical(t, nonce) && forall x :: 0 <= x < |t| ==> t[x].Some?
    ensures |Contents(t)| == |t|
  {
    CanonicalDistinct(t, nonce, -1);
    CountFull(t);
    CountIsContents(t);
  }

  /** Forced expansion: the bucket without the pending pair is rehashed, and the pair inserted into it. */
  lemma ForcedUpsert(s0: Session, s: Session, s1: Session, s2: Session, b: DataBucketId, key: Key, val: Bytes, e: Entry)
    requires SessionOk(s0) && InsertingIn(s0, s, b, key, val, e, |TabOf(s0, b)|)
    requires MetaOf(s, b).capacity > 0
    requires Rehashed(s, s1, b, MetaOf(s, b).nonce, ResizeCapacity(MetaOf(s, b).capacity, MetaOf(s, b).capacity))
    requires Upserted(s1, s2, b, e.key, e.val)
    ensures Upserted(s0, s2, b, key, val)
    ensures s.cacheRead && BucketCached(s, s1, b) ==> UpsertCached(s0, s2, b, key)
  {
    InsertFindsFull(s0, s, b, key, val, e);
    ForcedCapacity(s0, s, s1, b, key, val, e);
    InsertingPending(s0, s, b, key, val, e);
    hide *;
    RehashedGrew(s, s1, b, MetaOf(s, b).nonce, ResizeCapacity(MetaOf(s, b).capacity, MetaOf(s, b).capacity));
    UpsertedParts(s1, s2, b, e.key, e.val);
    StepsCompose(s0, s, s1, b);
    StepsCompose(s0, s1, s2, b);
    UpsertedParts(s0, s2, b, key, val);
    if BucketCached(s, s1, b) {
      BucketCachedIsUpsertCached(s0, s, s1, s2, b, key);
    }
  }

  lemma RehashedGrew(s0: Session, s1: Session, b: DataBucketId, nonce: nat, capacity: nat)
    requires Rehashed(s0, s1, b, nonce, capacity) && |Contents(TabOf(s0, b))| <= capacity
    ensures StepIn(s0, s1, b) && CacheGrows(s0, s1) && s1.rehashed == s0.rehashed + {b}
    ensures MetaOf(s1, b) == BucketMeta(nonce, capacity, None) && Contents(TabOf(s1, b)) == Contents(TabOf(s0, b))
  {
  }

  lemma UpsertedParts(s0: Session, s1: Session, b: DataBucketId, key: Key, val: Bytes)
    ensures Upserted(s0, s1, b, key, val) <==>
      && StepIn(s0, s1, b) && CacheGrows(s0, s1)
      && Contents(TabOf(s1, b)) == Contents(TabOf(s0, b))[key := val]
      && MetaOf(s1, b) == BucketMeta(MetaOf(s0, b).nonce, UpsertCapacity(s0, b, key), None)
      && s1.rehashed == (if UpsertCapacity(s0, b, key) != MetaOf(s0, b).capacity then s0.rehashed + {b} else s0.rehashed)
  {
  }

  lemma BucketCachedIsUpsertCached(s0: Session, s: Session, s1: Session, s2: Session, b: DataBucketId, key: Key)
    requires BucketCached(s, s1, b) && MetaOf(s, b) == MetaOf(s0, b) && CacheGrows(s1, s2)
    ensures UpsertCached(s0, s2, b, key)
  {
    hide InsertReads;
  }

  lemma InsertingPending(s0: Session, s: Session, b: DataBucketId, key: Key, val: Bytes, e: Entry)
    requires SessionOk(s0) && InsertingIn(s0, s, b, key, val, e, |TabOf(s0, b)|)
    ensures Contents(TabOf(s, b))[e.key := e.val] == Contents(TabOf(s0, b))[key := val]
    ensures StepIn(s0, s, b) && CacheGrows(s0, s) && SameStore(s0, s) && MetaOf(s, b) == MetaOf(s0, b) && s.rehashed == s0.rehashed
  {
    InsertFull(TabOf(s0, b), MetaOf(s0, b).nonce, key, val, TabOf(s, b), e);
    hide CanonicalExcept, SessionOk, Contents;
    assert Contents(TabOf(s0, b)).Keys == KeysOf(TabOf(s0, b));
  }

  lemma ForcedCapacity(s0: Session, s: Session, s1: Session, b: DataBucketId, key: Key, val: Bytes, e: Entry)
    requires SessionOk(s0) && InsertingIn(s0, s, b, key, val, e, |TabOf(s0, b)|)
    requires MetaOf(s, b).capacity > 0
    requires Rehashed(s, s1, b, MetaOf(s, b).nonce, ResizeCapacity(MetaOf(s, b).capacity, MetaOf(s, b).capacity))
    ensures UpsertCapacity(s1, b, e.key) == UpsertCapacity(s0, b, key) > MetaOf(s0, b).capacity
    ensures MetaOf(s1, b).capacity == ResizeCapacity(MetaOf(s, b).capacity, MetaOf(s, b).capacity) > MetaOf(s, b).capacity
    ensures ResizeCapacity(MetaOf(s, b).capacity, MetaOf(s, b).capacity) <= UpsertCapacity(s0, b, key)
    ensures s1.rehashed == s0.rehashed + {b}
  {
    InsertFindsFull(s0, s, b, key, val, e);
    InsertingPending(s0, s, b, key, val, e);
    var capacity := MetaOf(s, b).capacity;
    ResizeInSteps(capacity, capacity, capacity + 1);
    hide InsertingIn, CanonicalExcept, SessionOk, Contents;
  }

  lemma ForcedRange(s0: Session, s: Session, b: DataBucketId, key: Key, val: Bytes, e: Entry)
    requires SessionOk(s0) && InsertingIn(s0, s, b, key, val, e, |TabOf(s0, b)|)
    requires MetaOf(s, b).capacity > 0
    ensures ResizeCapacity(MetaOf(s, b).capacity, MetaOf(s, b).capacity) <= UpsertCapacity(s0, b, key)
  {
    InsertFindsFull(s0, s, b, key, val, e);
    InsertingPending(s0, s, b, key, val, e);
    var capacity := MetaOf(s, b).capacity;
    ResizeInSteps(capacity, capacity, capacity + 1);
    hide InsertingIn, CanonicalExcept, SessionOk, Contents;
  }

  lemma KnownUpsertFails(s: Session, b: DataBucketId, key: Key, error: SaltError)
    requires SessionOk(s) && CountsKnown(s, b) && UpsertFails(s, b, key, error)
    ensures error == CapacityPanic && UpsertCapacity(s, b, key) > BUCKET_SLOT_ID_MASK
  {
    CountsKnownAllKnown(s, b);
  }

  lemma InsertDoneCached(s0: Session, s: Session, b: DataBucketId, key: Key, val: Bytes)
    requires SessionOk(s0) && InsertDone(s0, s, b, key, val)
    ensures s.cacheRead ==> UpsertCached(s0, s, b, key)
    ensures MetaOf(s0, b).capacity > 0
  {
    SessionBucket(s0, b);
    hide UpsertCached;
  }

  lemma ReadsFacts(s0: Session, s1: Session)
    requires OnlyReads(s0, s1)
    ensures SameStore(s0, s1) && CacheGrows(s0, s1) && CacheKnown(s1)
  {
  }

  lemma UnknownMetaFails(s0: Session, s1: Session, b: DataBucketId, key: Key)
    requires OnlyReads(s0, s1) && !MetaKnown(s1, b)
    ensures UpsertFails(s0, b, key, NotInWitness)
  {
  }

  lemma UnknownPathFails(s0: Session, b: DataBucketId, key: Key)
    requires !InsertPathKnown(s0, b, key)
    ensures UpsertFails(s0, b, key, NotInWitness)
  {
  }

  lemma CapacityInRange(s: Session, b: DataBucketId)
    requires SessionOk(s)
    ensures 0 < MetaOf(s, b).capacity <= BUCKET_SLOT_ID_MASK
  {
    SessionBucket(s, b);
  }

  // ---------------------------------------------------------------- delete

  /** `shi_delete`: the key is gone, everything else of the bucket is as before. */
  ghost predicate Deleted(s0: Session, s1: Session, b: DataBucketId, key: Key) {
    && StepIn(s0, s1, b) && CacheGrows(s0, s1)
    && Contents(TabOf(s1, b)) == Contents(TabOf(s0, b)) - {key}
    && MetaOf(s1, b) == MetaOf(s0, b) && s1.rehashed == s0.rehashed
    && (key !in Contents(TabOf(s0, b)) ==> OnlyReads(s0, s1))
  }

  ghost predicate DeleteReads(s: Session, b: DataBucketId, key: Key, x: nat)
    requires x < |TabOf(s, b)|
  {
    OnDeletePath(TabOf(s, b), MetaOf(s, b).nonce, key, x)
  }

  ghost predicate DeletePathKnown(s: Session, b: DataBucketId, key: Key) {
    MetaKnown(s, b) && forall x :: 0 <= x < |TabOf(s, b)| && DeleteReads(s, b, key, x) ==> Known(s, SaltKey(b, x))
  }

  /** A deletion fails only when the store does not know what it must read. */
  ghost predicate DeleteFails(s: Session, b: DataBucketId, key: Key, error: SaltError) {
    error == NotInWitness && !DeletePathKnown(s, b, key)
  }

  ghost predicate DeleteCached(s0: Session, s1: Session, b: DataBucketId, key: Key) {
    && BucketMetadataKey(b) in s1.cache
    && forall x :: 0 <= x < |TabOf(s0, b)| && DeleteReads(s0, b, key, x) ==> SaltKey(b, x) in s1.cache
  }

  /** The slots from `home` to `hole` are in the cache. */
  ghost predicate CachedUpTo(cache: Cache, b: BucketId, capacity: nat, home: nat, hole: nat)
    requires home < capacity && hole < capacity
  {
    forall x :: 0 <= x < capacity && UpTo(capacity, home, x, hole) ==> SaltKey(b, x) in cache
  }

  /** The slots after `hole`, up to `i` steps from it, are in the cache. */
  ghost predicate CachedScan(cache: Cache, b: BucketId, capacity: nat, hole: nat, i: nat)
    requires hole < capacity
  {
    forall x :: 0 <= x < capacity && 0 < Dist(capacity, hole, x) <= i ==> SaltKey(b, x) in cache
  }

  /** The compaction loop of a deletion that started at `s0`, with its hole at `hole`. */
  ghost predicate DeletingIn(s0: Session, s: Session, b: DataBucketId, key: Key, hole: nat) {
    && MidStep(s0, s, b) && Known(s, SaltKey(b, hole))
    && Deleting(TabOf(s0, b), MetaOf(s0, b).nonce, key, TabOf(s, b), hole)
    && (s.cacheRead ==> BucketMetadataKey(b) in s.cache)
    && (s.cacheRead ==> CachedUpTo(s.cache, b, |TabOf(s0, b)|, Home(key, MetaOf(s0, b).nonce, |TabOf(s0, b)|), hole))
  }

  lemma DeletingFacts(s0: Session, s: Session, b: DataBucketId, key: Key, hole: nat)
    requires DeletingIn(s0, s, b, key, hole)
    ensures hole < |TabOf(s, b)| == |TabOf(s0, b)| && TabOf(s, b)[hole].Some?
    ensures MetaOf(s, b) == MetaOf(s0, b) && BucketOpen(s, b) && Known(s, SaltKey(b, hole)) && SameStore(s0, s) && CacheGrows(s0, s)
  {
  }

  lemma DeleteBegins(s0: Session, s: Session, b: DataBucketId, key: Key, q: nat)
    requires SessionOk(s0) && OnlyReads(s0, s) && IsAt(TabOf(s, b), key, q) && Known(s, SaltKey(b, q))
    requires s.cacheRead ==> BucketMetadataKey(b) in s.cache
    requires s.cacheRead ==>
      forall x :: 0 <= x < |TabOf(s, b)| && OnSearchPath(TabOf(s, b), MetaOf(s, b).nonce, key, x) ==> SaltKey(b, x) in s.cache
    ensures DeletingIn(s0, s, b, key, q)
  {
    SessionBucket(s0, b);
    ReadsKeepTable(s0, s, b);
    ReadsKeepSession(s0, s);
    SessionBucket(s, b);
    var t, nonce := TabOf(s, b), MetaOf(s, b).nonce;
    DeleteStart(t, nonce, key, q);
    forall x | 0 <= x < |t| && UpTo(|t|, Home(key, nonce, |t|), x, q)
      ensures OnSearchPath(t, nonce, key, x)
    {
      BeforeFoundSlot(t, nonce, key, q, x);
    }
    hide Deleting, CanonicalExcept, OnSearchPath;
  }

  /** The next entry of the displacement chain moves back into the hole. */
  lemma DeleteGoesOn(s0: Session, s: Session, s1: Session, s2: Session, b: DataBucketId, key: Key, hole: nat, next: nat)
    requires DeletingIn(s0, s, b, key, hole) && MidStep(s, s1, b) && TabOf(s1, b) == TabOf(s, b)
    requires next < |TabOf(s, b)| && next != hole && TabOf(s, b)[next].Some?
    requires Suitable(TabOf(s, b), MetaOf(s0, b).nonce, hole, next)
    requires Scanned(TabOf(s, b), MetaOf(s0, b).nonce, hole, Dist(|TabOf(s, b)|, hole, next))
    requires Known(s1, SaltKey(b, next)) && (s1.cacheRead ==> CachedScan(s1.cache, b, |TabOf(s, b)|, hole, Dist(|TabOf(s, b)|, hole, next)))
    requires MidStep(s1, s2, b) && TabOf(s2, b) == TabOf(s, b)[hole := TabOf(s, b)[next]]
    ensures DeletingIn(s0, s2, b, key, next)
    ensures RankSum(TabOf(s2, b)[next := None], MetaOf(s0, b).nonce, |TabOf(s2, b)|)
            < RankSum(TabOf(s, b)[hole := None], MetaOf(s0, b).nonce, |TabOf(s, b)|)
  {
    var t0, t, nonce := TabOf(s0, b), TabOf(s, b), MetaOf(s0, b).nonce;
    DeletingFacts(s0, s, b, key, hole);
    FillHole(t0, nonce, key, t, hole, next);
    FillHoleLowersRanks(t, nonce, hole, next);
    MidStepsCompose(s0, s, s1, b);
    MidStepsCompose(s0, s1, s2, b);
    MidStepGrows(s, s1, b);
    MidStepGrows(s1, s2, b);
    hide Deleting, MidStep, RankSum, Suitable, Scanned, UpTo, Dist, CachedScan, CachedUpTo;
    if s.cacheRead {
      CachedToNextHole(s.cache, s1.cache, s2.cache, b, |t|, Home(key, nonce, |t|), hole, next);
    }
  }

  lemma CachedToNextHole(c: Cache, c1: Cache, c2: Cache, b: BucketId, capacity: nat, home: nat, hole: nat, next: nat)
    requires home < capacity && hole < capacity && next < capacity && c.Keys <= c1.Keys <= c2.Keys
    requires CachedUpTo(c, b, capacity, home, hole) && CachedScan(c1, b, capacity, hole, Dist(capacity, hole, next))
    ensures CachedUpTo(c2, b, capacity, home, next)
  {
    forall x | 0 <= x < capacity && UpTo(capacity, home, x, next)
      ensures SaltKey(b, x) in c2
    {
      UpToNextHole(capacity, home, hole, next, x);
    }
  }

  /** No entry wants the hole: clearing it ends the deletion. */
  lemma DeleteEnds(s0: Session, s: Session, s1: Session, s2: Session, b: DataBucketId, key: Key, hole: nat, n: nat)
    requires SessionOk(s0) && DeletingIn(s0, s, b, key, hole) && MidStep(s, s1, b) && TabOf(s1, b) == TabOf(s, b)
    requires ScanEnds(TabOf(s, b), MetaOf(s0, b).nonce, hole, n)
    requires s1.cacheRead ==> CachedScan(s1.cache, b, |TabOf(s, b)|, hole, n)
    requires MidStep(s1, s2, b) && TabOf(s2, b) == TabOf(s, b)[hole := None]
    ensures SessionOk(s2) && Deleted(s0, s2, b, key)
    ensures s.cacheRead ==> DeleteCached(s0, s2, b, key)
  {
    var t0, t, nonce := TabOf(s0, b), TabOf(s, b), MetaOf(s0, b).nonce;
    DeletingFacts(s0, s, b, key, hole);
    CloseHole(t0, nonce, key, t, hole, n);
    MidStepsCompose(s0, s, s1, b);
    MidStepsCompose(s0, s1, s2, b);
    MidStepGrows(s0, s2, b);
    MidStepEnds(s0, s2, b);
    DeletingContents(s0, s, b, key, hole);
    DeleteEndsCached(s0, s, s1, s2, b, key, hole, n);
    hide Deleting, CanonicalExcept, SessionOk, Contents, DeleteCached, BucketOpen;
  }

  lemma DeletingContents(s0: Session, s: Session, b: DataBucketId, key: Key, hole: nat)
    requires DeletingIn(s0, s, b, key, hole)
    ensures key in Contents(TabOf(s0, b)) && Contents(TabOf(s, b)[hole := None]) == Contents(TabOf(s0, b)) - {key}
  {
    assert Contents(TabOf(s0, b)).Keys == KeysOf(TabOf(s0, b));
  }

  lemma DeleteEndsCached(s0: Session, s: Session, s1: Session, s2: Session, b: DataBucketId, key: Key, hole: nat, n: nat)
    requires DeletingIn(s0, s, b, key, hole) && MidStep(s, s1, b)
    requires ScanEnds(TabOf(s, b), MetaOf(s0, b).nonce, hole, n)
    requires s1.cacheRead ==> CachedScan(s1.cache, b, |TabOf(s, b)|, hole, n)
    requires MidStep(s1, s2, b)
    ensures s.cacheRead ==> DeleteCached(s0, s2, b, key)
  {
    var t0, t, nonce := TabOf(s0, b), TabOf(s, b), MetaOf(s0, b).nonce;
    DeletingFacts(s0, s, b, key, hole);
    MidStepGrows(s, s1, b);
    MidStepGrows(s1, s2, b);
    if s.cacheRead {
      forall x | 0 <= x < |t0| && DeleteReads(s0, b, key, x)
        ensures SaltKey(b, x) in s2.cache
      {
        DeletePathRead(t0, nonce, key, t, hole, n, x);
      }
    }
  }

  /** The scan behind the hole has met an empty slot, or has come around, without finding a suitable entry. */
  ghost predicate ScanEnds(t: Table, nonce: nat, hole: nat, n: nat) {
    && hole < |t| && 0 < n <= |t|
    && Scanned(t, nonce, hole, n)
    && (n < |t| ==> exists z :: 0 <= z < |t| && Dist(|t|, hole, z) == n && t[z].None?)
  }

  /** A slot that the scan could not read is on the deletion's path. */
  lemma ScanFails(s0: Session, s: Session, b: DataBucketId, key: Key, hole: nat, x: nat)
    requires DeletingIn(s0, s, b, key, hole) && x < |TabOf(s, b)| && x != hole
    requires Scanned(TabOf(s, b), MetaOf(s0, b).nonce, hole, Dist(|TabOf(s, b)|, hole, x)) && !Known(s, SaltKey(b, x))
    ensures DeleteFails(s0, b, key, NotInWitness)
  {
    hide OnDeletePath, Scanned, BucketOpen, CanonicalExcept, Contents;
    DeletingFacts(s0, s, b, key, hole);
    ScanOnDeletePath(TabOf(s0, b), MetaOf(s0, b).nonce, key, TabOf(s, b), hole, x);
    assert DeleteReads(s0, b, key, x) && !Known(s0, SaltKey(b, x));
  }

  /** A slot behind the hole, with only unsuitable entries before it, that could not be read. */
  ghost predicate ScanBlocked(s: Session, b: DataBucketId, nonce: nat, hole: nat)
    requires hole < |TabOf(s, b)|
  {
    exists x :: 0 <= x < |TabOf(s, b)| && x != hole && !Known(s, SaltKey(b, x))
      && Scanned(TabOf(s, b), nonce, hole, Dist(|TabOf(s, b)|, hole, x))
  }

  lemma ScanIsBlocked(s0: Session, s1: Session, b: DataBucketId, nonce: nat, hole: nat, x: nat)
    requires SameStore(s0, s1) && CacheGrows(s0, s1) && TabOf(s0, b) == TabOf(s1, b)
    requires hole < |TabOf(s0, b)| && x < |TabOf(s0, b)| && x != hole && !Known(s1, SaltKey(b, x))
    requires Scanned(TabOf(s0, b), nonce, hole, Dist(|TabOf(s0, b)|, hole, x))
    ensures ScanBlocked(s0, b, nonce, hole)
  {
    assert !Known(s0, SaltKey(b, x));
  }

  lemma ScanBlockedFails(s0: Session, s: Session, b: DataBucketId, key: Key, hole: nat)
    requires DeletingIn(s0, s, b, key, hole) && hole < |TabOf(s, b)| && ScanBlocked(s, b, MetaOf(s0, b).nonce, hole)
    ensures DeleteFails(s0, b, key, NotInWitness)
  {
    var x :| 0 <= x < |TabOf(s, b)| && x != hole && !Known(s, SaltKey(b, x))
      && Scanned(TabOf(s, b), MetaOf(s0, b).nonce, hole, Dist(|TabOf(s, b)|, hole, x));
    ScanFails(s0, s, b, key, hole, x);
  }

  lemma StepFromHole(hole: nat, i: nat, capacity: nat)
    requires hole < capacity && 0 < i < capacity
    ensures var x := Probe(hole, i, capacity);
            && x != hole && Dist(capacity, hole, x) == i
            && forall y :: 0 <= y < capacity && 0 < Dist(capacity, hole, y) < i + 1 ==> 0 < Dist(capacity, hole, y) < i || y == x
  {
    ModOnce(hole, capacity);
    ProbeRank(hole, capacity, i, hole);
  }

  lemma SuitableByRank(t: Table, nonce: nat, hole: nat, x: nat)
    requires hole < |t| && x < |t| && t[x].Some?
    ensures Suitable(t, nonce, hole, x) <==>
      Rank(HashWithNonce(t[x].value.key, nonce), x, |t|) > Rank(HashWithNonce(t[x].value.key, nonce), hole, |t|)
  {
  }

  lemma MidStepFacts(s0: Session, s: Session, b: DataBucketId)
    requires MidStep(s0, s, b)
    ensures BucketOpen(s, b) && ReadOk(s) && Shape(s.truth, s.cache, b) && MetaOf(s, b) == MetaOf(s0, b)
    ensures SameStore(s0, s) && CacheGrows(s0, s)
  {
  }

  /** The scan behind `hole`, before its step number `i`. */
  ghost predicate ScanningIn(s0: Session, s: Session, b: DataBucketId, nonce: nat, hole: nat, i: nat) {
    && OnlyReads(s0, s) && MidStep(s0, s, b) && TabOf(s, b) == TabOf(s0, b)
    && hole < |TabOf(s0, b)| && 0 < i <= |TabOf(s0, b)|
    && Scanned(TabOf(s0, b), nonce, hole, i)
    && (s.cacheRead ==> CachedScan(s.cache, b, |TabOf(s0, b)|, hole, i - 1))
  }

  lemma ScanStart(s: Session, b: DataBucketId, nonce: nat, hole: nat)
    requires BucketOpen(s, b) && hole < |TabOf(s, b)|
    ensures ScanningIn(s, s, b, nonce, hole, 1)
  {
  }

  lemma ScanningFacts(s0: Session, s: Session, b: DataBucketId, nonce: nat, hole: nat, i: nat)
    requires ScanningIn(s0, s, b, nonce, hole, i)
    ensures OnlyReads(s0, s) && MidStep(s0, s, b) && TabOf(s, b) == TabOf(s0, b) && MetaOf(s, b) == MetaOf(s0, b)
    ensures BucketOpen(s, b) && ReadOk(s) && Shape(s.truth, s.cache, b) && SameStore(s0, s)
    ensures Scanned(TabOf(s0, b), nonce, hole, i)
  {
  }

  /** What one more read of the scan establishes, for each way to go on. */
  lemma ScanReads(s0: Session, s: Session, s1: Session, b: DataBucketId, nonce: nat, hole: nat, i: nat, x: nat)
    requires ScanningIn(s0, s, b, nonce, hole, i) && i < |TabOf(s0, b)| && x == Probe(hole, i, |TabOf(s0, b)|)
    requires OnlyReads(s, s1) && MidStep(s, s1, b) && TabOf(s1, b) == TabOf(s, b)
    requires Known(s, SaltKey(b, x)) && s1.cacheRead ==> SaltKey(b, x) in s1.cache
    ensures OnlyReads(s0, s1) && MidStep(s0, s1, b) && TabOf(s1, b) == TabOf(s0, b) && MetaOf(s1, b) == MetaOf(s0, b) && SameStore(s0, s1)
    ensures !Known(s, SaltKey(b, x)) ==> ScanBlocked(s0, b, nonce, hole)
    ensures Known(s, SaltKey(b, x)) && s1.cacheRead ==> CachedScan(s1.cache, b, |TabOf(s0, b)|, hole, i)
    ensures Scanned(TabOf(s0, b), nonce, hole, i)
    ensures TabOf(s0, b)[x].None? ==> ScanEnds(TabOf(s0, b), nonce, hole, i)
    ensures Known(s, SaltKey(b, x)) && TabOf(s0, b)[x].Some? && !Suitable(TabOf(s0, b), nonce, hole, x) ==> ScanningIn(s0, s1, b, nonce, hole, i + 1)
  {
    var t := TabOf(s0, b);
    ScanStepTable(t, nonce, hole, i, x);
    ReadsFacts(s0, s);
    ReadsFacts(s, s1);
    ReadsCompose(s0, s, s1);
    MidStepsCompose(s0, s, s1, b);
    MidStepFacts(s0, s1, b);
    hide OnlyReads, MidStep, Suitable, Scanned, ScanEnds, Dist, Probe, CachedScan;
    if Known(s, SaltKey(b, x)) && s1.cacheRead {
      ScanStepCached(s.cache, s1.cache, b, |t|, hole, i, x);
    }
    if !Known(s, SaltKey(b, x)) {
      ScanIsBlocked(s0, s, b, nonce, hole, x);
    }
  }

  lemma ScanStepTable(t: Table, nonce: nat, hole: nat, i: nat, x: nat)
    requires hole < |t| && 0 < i < |t| && x == Probe(hole, i, |t|) && Scanned(t, nonce, hole, i)
    ensures x != hole && Dist(|t|, hole, x) == i
    ensures t[x].None? ==> ScanEnds(t, nonce, hole, i)
    ensures t[x].Some? && !Suitable(t, nonce, hole, x) ==> Scanned(t, nonce, hole, i + 1)
  {
    hide Suitable, Probe;
    StepFromHole(hole, i, |t|);
    if t[x].Some? && !Suitable(t, nonce, hole, x) {
      ScannedOneMore(t, nonce, hole, i, x);
    }
  }

  lemma ScannedOneMore(t: Table, nonce: nat, hole: nat, i: nat, x: nat)
    requires hole < |t| && x < |t| && Scanned(t, nonce, hole, i) && t[x].Some? && !Suitable(t, nonce, hole, x)
    requires forall y :: 0 <= y < |t| && 0 < Dist(|t|, hole, y) < i + 1 ==> 0 < Dist(|t|, hole, y) < i || y == x
    ensures Scanned(t, nonce, hole, i + 1)
  {
    hide Suitable, Dist;
  }

  lemma ScanStepCached(c: Cache, c1: Cache, b: BucketId, capacity: nat, hole: nat, i: nat, x: nat)
    requires hole < capacity && 0 < i < capacity && x == Probe(hole, i, capacity)
    requires CachedScan(c, b, capacity, hole, i - 1) && c.Keys <= c1.Keys && SaltKey(b, x) in c1
    ensures CachedScan(c1, b, capacity, hole, i)
  {
    StepFromHole(hole, i, capacity);
  }

  lemma ScanComesAround(s0: Session, s: Session, b: DataBucketId, nonce: nat, hole: nat)
    requires ScanningIn(s0, s, b, nonce, hole, |TabOf(s0, b)|)
    ensures OnlyReads(s0, s) && MidStep(s0, s, b) && TabOf(s, b) == TabOf(s0, b)
    ensures ScanEnds(TabOf(s0, b), nonce, hole, |TabOf(s0, b)|)
    ensures s.cacheRead ==> CachedScan(s.cache, b, |TabOf(s0, b)|, hole, |TabOf(s0, b)|)
  {
  }

  lemma SearchFailsDelete(s0: Session, s1: Session, b: DataBucketId, key: Key)
    requires OnlyReads(s0, s1)
    requires exists x :: 0 <= x < |TabOf(s1, b)| && OnSearchPath(TabOf(s1, b), MetaOf(s1, b).nonce, key, x) && !Known(s1, SaltKey(b, x))
    ensures DeleteFails(s0, b, key, NotInWitness)
  {
    ReadsKeepTable(s0, s1, b);
    var x :| 0 <= x < |TabOf(s1, b)| && OnSearchPath(TabOf(s1, b), MetaOf(s1, b).nonce, key, x) && !Known(s1, SaltKey(b, x));
    SearchPathOnDeletePath(TabOf(s0, b), MetaOf(s0, b).nonce, key, x);
    assert !Known(s0, SaltKey(b, x));
  }

  lemma DeleteAbsent(s0: Session, s: Session, b: DataBucketId, key: Key)
    requires OnlyReads(s0, s) && key !in KeysOf(TabOf(s, b))
    requires s.cacheRead ==> BucketMetadataKey(b) in s.cache
    requires s.cacheRead ==>
      forall x :: 0 <= x < |TabOf(s, b)| && OnSearchPath(TabOf(s, b), MetaOf(s, b).nonce, key, x) ==> SaltKey(b, x) in s.cache
    ensures Deleted(s0, s, b, key)
    ensures s.cacheRead ==> DeleteCached(s0, s, b, key)
  {
    ReadsKeepTable(s0, s, b);
    assert Contents(TabOf(s0, b)).Keys == KeysOf(TabOf(s0, b));
    assert Contents(TabOf(s, b)) == Contents(TabOf(s0, b)) - {key};
  }
}
