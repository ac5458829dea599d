/**
 The session over a store: buffered reads and writes, and the bucket operations as the
 loops that run them. Every operation is proved against the views of module SessionView.
 */
module EphemeralState {
  import opened Wrappers
  import opened ShiTable
  import opened Insertion
  import opened LoadFactor
  import opened SaltTypes
  import opened StateUpdatesModule
  import opened SessionView
  import opened SessionSteps
  import opened CacheBounds
  import opened SessionRuns
  import opened Canonicalization
  import opened Rehash

  class EphemeralSaltState {
    const store: Store
    ghost const truth: Kvs
    const cacheRead: bool
    var cache: Cache
    var usageCountDelta: map<BucketId, int>
    var rehashedBuckets: set<DataBucketId>

    ghost function Snap(): Session
      reads this
    {
      Session(store, truth, cacheRead, cache, usageCountDelta, rehashedBuckets)
    }

    constructor (store: Store, cacheRead: bool, ghost truth: Kvs)
      requires Agrees(store, truth) && TruthOk(truth)
      ensures Snap() == Session(store, truth, cacheRead, map[], map[], {})
      ensures SessionOk(Snap()) && Tracked(Snap())
    {
      this.store, this.cacheRead, this.truth := store, cacheRead, truth;
      cache, usageCountDelta, rehashedBuckets := map[], map[], {};
      new;
      forall b: DataBucketId
        ensures BucketInv(Snap(), b)
      {
        assert BucketOk(truth, map[], b);
      }
    }

    // -------------------------------------------------------------- reads

    /** Reads a key: from the cache, else from the store. */
    method Value(key: SaltKey) returns (r: Result<Option<SaltValue>, SaltError>)
      requires ReadOk(Snap())
      modifies this`cache
      ensures OnlyReads(old(Snap()), Snap())
      ensures r.Success? <==> Known(old(Snap()), key)
      ensures r.Success? ==> Normal(key, r.value) == At(truth, cache, key) && Known(Snap(), key)
      ensures r.Success? && cacheRead ==> key in cache
      ensures r.Failure? ==> r.error == NotInWitness
      ensures CacheBelow(old(Snap())) && Below(old(Snap()), key) ==> CacheBelow(Snap())
    {
      hide CacheBelow;
      if key in cache {
        return Success(cache[key]);
      }
      var value :- store.Value(key);
      forall b: DataBucketId
        ensures BucketMetadataKey(b) == key ==> store.Metadata(b).Success?
      {
        MetadataSound(store, truth, b);
      }
      ghost var s0 := Snap();
      if cacheRead {
        cache := cache[key := value];
      }
      ReadBelow(s0, Snap(), key);
      r := Success(value);
    }

    method UsageCount(b: DataBucketId) returns (r: Result<nat, SaltError>)
      requires ReadOk(Snap()) && Counted(Snap(), b)
      ensures r.Success? <==> CountsKnown(Snap(), b)
      ensures r.Success? ==> r.value == Count(TabOf(Snap(), b))
      ensures r.Failure? ==> r.error == NotInWitness
    {
      CountsSound(store, truth, b);
      MetadataSound(store, truth, b);
      CountErrors(b);
      var baseCount :- store.BucketUsedSlots(b);
      r := Success(baseCount + DeltaAt(usageCountDelta, b));
    }

    lemma CountErrors(b: DataBucketId)
      requires ReadOk(Snap())
      ensures store.BucketUsedSlots(b).Failure? ==> store.BucketUsedSlots(b).error == NotInWitness
      ensures store.Metadata(b).Failure? ==> store.Metadata(b).error == NotInWitness
    {
      assert BucketOk(truth, map[], b);
      CountsSound(store, truth, b);
      MetadataSound(store, truth, b);
      if store.Partial? {
        WitnessCountError(store.known, b, BaseMeta(truth, b).capacity);
      }
    }

    /** Nonce and capacity of a bucket; its slot count too when asked for. */
    method Metadata(b: DataBucketId, needUsed: bool) returns (r: Result<BucketMeta, SaltError>)
      requires ReadOk(Snap()) && Shape(truth, cache, b)
      requires needUsed ==> Counted(Snap(), b)
      modifies this`cache
      ensures OnlyReads(old(Snap()), Snap())
      ensures r.Success? <==> MetaKnown(old(Snap()), b) && (needUsed ==> CountsKnown(old(Snap()), b))
      ensures r.Success? ==> r.value == MetaOf(Snap(), b).(used := if needUsed then Some(Count(TabOf(Snap(), b))) else None)
      ensures r.Success? && cacheRead ==> BucketMetadataKey(b) in cache
      ensures r.Success? ==> MetaKnown(Snap(), b)
      ensures r.Failure? ==> r.error == NotInWitness
      ensures CacheBelow(old(Snap())) ==> CacheBelow(Snap())
    {
      hide CacheBelow;
      hide TruthOk, Agrees, Shape, MetaKnown, CountsKnown;
      ghost var s0 := Snap();
      var meta :- NonceAndCapacity(b);
      ReadsKeepTable(s0, Snap(), b);
      SameCounts(s0, Snap(), b);
      hide OnlyReads, TabOf, MetaOf;
      if needUsed {
        var used :- UsageCount(b);
        meta := meta.(used := Some(used));
      }
      r := Success(meta);
    }

    /** The part of `Metadata` without the slot count. */
    method NonceAndCapacity(b: DataBucketId) returns (r: Result<BucketMeta, SaltError>)
      requires ReadOk(Snap()) && Shape(truth, cache, b)
      modifies this`cache
      ensures OnlyReads(old(Snap()), Snap()) && ReadOk(Snap())
      ensures r.Success? <==> MetaKnown(old(Snap()), b)
      ensures r.Success? ==> r.value == MetaOf(Snap(), b)
      ensures r.Success? && cacheRead ==> BucketMetadataKey(b) in cache
      ensures r.Success? ==> MetaKnown(Snap(), b)
      ensures r.Failure? ==> r.error == NotInWitness
      ensures CacheBelow(old(Snap())) ==> CacheBelow(Snap())
    {
      hide CacheBelow;
      var key := BucketMetadataKey(b);
      MetadataSound(store, truth, b);
      CountErrors(b);
      NothingRead(Snap());
      hide TruthOk, CanonicalExcept, OnlyReads, Tab, Agrees;
      var meta := DEFAULT_META;
      if key in cache {
        if cache[key].Some? {
          var decoded := DecodeMeta(cache[key].value);
          assert decoded.Success?;
          meta := decoded.value;
        }
      } else {
        meta :- store.Metadata(b);
        if cacheRead {
          ghost var s := Snap();
          cache := cache[key := if meta.IsDefault() then None else Some(meta.ToValue())];
          CachesMeta(s, b, cache[key]);
          MetadataKeyBelow(s, b);
          ReadBelow(s, Snap(), key);
        }
      }
      ReadsKeepTable(old(Snap()), Snap(), b);
      r := Success(meta.(used := None));
    }

    /** Reads one slot of a bucket. */
    method ReadSlot(b: DataBucketId, slot: nat) returns (r: Result<Option<Entry>, SaltError>)
      requires ReadOk(Snap()) && Shape(truth, cache, b)
      requires slot < MetaOf(Snap(), b).capacity
      modifies this`cache
      ensures OnlyReads(old(Snap()), Snap())
      ensures TabOf(Snap(), b) == old(TabOf(Snap(), b)) && MetaOf(Snap(), b) == old(MetaOf(Snap(), b))
      ensures old(BucketOpen(Snap(), b)) ==> MidStep(old(Snap()), Snap(), b)
      ensures Shape(truth, cache, b)
      ensures r.Success? <==> Known(old(Snap()), SaltKey(b, slot))
      ensures r.Success? ==> r.value == TabOf(Snap(), b)[slot] && Known(Snap(), SaltKey(b, slot))
      ensures r.Success? && cacheRead ==> SaltKey(b, slot) in cache
      ensures r.Failure? ==> r.error == NotInWitness
      ensures CacheBelow(old(Snap())) ==> CacheBelow(Snap())
    {
      hide CacheBelow;
      ghost var s0 := Snap();
      var v := Value(SaltKey(b, slot));
      ReadsKeepTable(s0, Snap(), b);
      if v.Failure? {
        return Failure(v.error);
      }
      assert v.value == Lift(TabOf(Snap(), b)[slot]);
      r := Success(if v.value.Some? then Some(v.value.value.entry) else None);
    }

    // -------------------------------------------------------------- writes

    /** Writes a key whose present value is `before`, and logs the change. */
    method UpdateValue(out: StateUpdates, key: SaltKey, before: Option<SaltValue>, after: Option<SaltValue>, ghost v0: View)
      requires IsDiff(out.data, v0, ViewOf(truth, cache))
      requires before == At(truth, cache, key) && Normal(key, after) == after
      modifies this, out
      ensures Snap() == Updated(old(Snap()), key, before, after)
      ensures IsDiff(out.data, v0, ViewOf(truth, cache))
    {
      AddKeepsDiff(out.data, v0, ViewOf(truth, cache), key, after);
      UpdatedView(Snap(), key, after);
      ghost var written := Write(ViewOf(truth, cache), key, after);
      if before != after {
        var change := (if after.Some? then 1 else 0) - (if before.Some? then 1 else 0);
        if change != 0 {
          usageCountDelta := usageCountDelta[key.bucket := DeltaAt(usageCountDelta, key.bucket) + change];
        }
        out.Add(key, before, after);
        cache := cache[key := after];
        DiffOfSame(out.data, v0, written, v0, ViewOf(truth, cache));
      }
    }

    /** Writes one slot of a bucket whose present entry is `before`. */
    method WriteSlot(b: DataBucketId, slot: nat, before: Option<Entry>, after: Option<Entry>, out: StateUpdates, ghost v0: View)
      requires BucketOpen(Snap(), b) && IsDiff(out.data, v0, ViewOf(truth, cache))
      requires slot < MetaOf(Snap(), b).capacity && Known(Snap(), SaltKey(b, slot))
      requires before == TabOf(Snap(), b)[slot] && (after.Some? ==> BucketOf(after.value.key) == b)
      modifies this, out
      ensures MidStep(old(Snap()), Snap(), b)
      ensures TabOf(Snap(), b) == old(TabOf(Snap(), b))[slot := after]
      ensures IsDiff(out.data, v0, ViewOf(truth, cache))
      ensures CacheBelow(old(Snap())) ==> CacheBelow(Snap())
    {
      hide CacheBelow;
      assert Lift(before) == At(truth, cache, SaltKey(b, slot));
      UpdateValue(out, SaltKey(b, slot), Lift(before), Lift(after), v0);
      SlotWrite(old(Snap()), Snap(), b, slot, after);
      WriteBelow(old(Snap()), b, slot, Lift(before), Lift(after));
    }

    /**
     The search of a bucket for a key. It stops at an empty slot or at a smaller key, and
     reads no slot past that.
     */
    method ShiFind(b: DataBucketId, nonce: nat, capacity: nat, key: Key) returns (r: Result<Option<(nat, Entry)>, SaltError>)
      requires ReadOk(Snap()) && BucketOk(truth, cache, b)
      requires nonce == MetaOf(Snap(), b).nonce && capacity == MetaOf(Snap(), b).capacity
      modifies this`cache
      ensures OnlyReads(old(Snap()), Snap())
      ensures r.Success? && r.value.Some? ==>
        IsAt(TabOf(Snap(), b), key, r.value.value.0) && TabOf(Snap(), b)[r.value.value.0] == Some(r.value.value.1)
        && Known(Snap(), SaltKey(b, r.value.value.0))
      ensures r.Success? && r.value.None? ==> key !in KeysOf(TabOf(Snap(), b))
      ensures r.Success? && cacheRead ==>
        forall x :: 0 <= x < capacity && OnSearchPath(TabOf(Snap(), b), nonce, key, x) ==> SaltKey(b, x) in cache
      ensures r.Failure? ==> r.error == NotInWitness
      ensures r.Failure? ==> exists x :: 0 <= x < capacity && OnSearchPath(TabOf(Snap(), b), nonce, key, x) && !Known(old(Snap()), SaltKey(b, x))
      ensures CacheBelow(old(Snap())) ==> CacheBelow(Snap())
    {
      hide CacheBelow;
      var hashedKey := HashWithNonce(key, nonce);
      hide CanonicalExcept, OnSearchPath, TruthOk, MidStep, BucketOpen, Agrees;
      ghost var s0, t := Snap(), TabOf(Snap(), b);
      SearchStart(t, nonce, key);
      for step := 0 to capacity
        invariant OnlyReads(s0, Snap()) && TabOf(Snap(), b) == t
        invariant Searching(t, nonce, key, step)
        invariant cacheRead ==> CachedBefore(cache, b, capacity, hashedKey % capacity, step)
        invariant CacheBelow(s0) ==> CacheBelow(Snap())
      {
        var slot := Probe(hashedKey, step, capacity);
        var v := ReadSlot(b, slot);
        if v.Failure? {
          assert !Known(s0, SaltKey(b, slot));
          return Failure(v.error);
        }
        NextProbe(hashedKey, step, capacity);
        if v.value.None? || v.value.value.key <= key {
          SearchStops(t, nonce, key, step);
          return Success(if v.value.Some? && v.value.value.key == key then Some((slot, v.value.value)) else None);
        }
        SearchGoesOn(t, nonce, key, step);
      }
      SearchExhausted(t, nonce, key);
      r := Success(None);
    }

    // -------------------------------------------------------------- rehash

    /** Reads a whole bucket. */
    method ReadBucket(b: DataBucketId, capacity: nat) returns (r: Result<Table, SaltError>)
      requires BucketOpen(Snap(), b) && capacity == MetaOf(Snap(), b).capacity
      modifies this`cache
      ensures OnlyReads(old(Snap()), Snap()) && MidStep(old(Snap()), Snap(), b)
      ensures TabOf(Snap(), b) == old(TabOf(Snap(), b))
      ensures r.Success? ==> r.value == TabOf(Snap(), b)
      ensures r.Success? ==> SlotsKnown(Snap(), b, capacity) && (cacheRead ==> SlotsCached(Snap(), b, capacity))
      ensures r.Failure? ==> r.error == NotInWitness && !SlotsKnown(old(Snap()), b, capacity)
      ensures CacheBelow(old(Snap())) ==> CacheBelow(Snap())
    {
      hide CacheBelow;
      ghost var s0, t := Snap(), TabOf(Snap(), b);
      hide ReadingBucket, BucketOpen, SlotsKnown, MidStep, OnlyReads, Shape, TruthOk, Agrees, CacheKnown, Counted, SlotsCached, ReadOk;
      ReadingStarts(s0, b);
      var read: Table := [];
      for slot := 0 to capacity
        invariant ReadingBucket(s0, Snap(), b, slot)
        invariant read == t[..slot]
        invariant CacheBelow(s0) ==> CacheBelow(Snap())
      {
        var v := ReadNextSlot(b, slot, s0);
        if v.Failure? {
          ReadingSoFar(s0, Snap(), b, slot);
          return Failure(v.error);
        }
        read := read + [v.value];
      }
      ReadingSoFar(s0, Snap(), b, capacity);
      r := Success(read);
    }

    /** One slot of `ReadBucket`. */
    method ReadNextSlot(b: DataBucketId, slot: nat, ghost s0: Session) returns (r: Result<Option<Entry>, SaltError>)
      requires ReadingBucket(s0, Snap(), b, slot) && slot < MetaOf(s0, b).capacity
      modifies this`cache
      ensures r.Success? ==> r.value == TabOf(s0, b)[slot]
      ensures ReadingBucket(s0, Snap(), b, if r.Success? then slot + 1 else slot)
      ensures r.Failure? ==> r.error == NotInWitness && !SlotsKnown(s0, b, MetaOf(s0, b).capacity)
      ensures CacheBelow(old(Snap())) ==> CacheBelow(Snap())
    {
      hide CacheBelow;
      ghost var s1 := Snap();
      ReadingSoFar(s0, s1, b, slot);
      OpenReads(s1, b);
      hide BucketOpen, Shape, Agrees, TruthOk, SlotsKnown, SlotsCached, Known;
      r := ReadSlot(b, slot);
      MidStepsCompose(s0, s1, Snap(), b);
      ReadsCompose(s0, s1, Snap());
      UnknownBefore(s1, Snap(), b, slot);
      OneMoreSlot(Snap(), b, slot);
      if r.Failure? {
        UnknownBefore(s0, s1, b, slot);
        UnknownSlot(s0, b, slot, MetaOf(s0, b).capacity);
      }
    }

    /** Writes a new layout over an old one, slot by slot, caching and logging what differs. */
    method RecordLayout(b: DataBucketId, before: Table, after: Table, out: StateUpdates, ghost v0: View)
      requires BucketOpen(Snap(), b) && IsDiff(out.data, v0, ViewOf(truth, cache))
      requires before == TabOf(Snap(), b)
      requires SlotsKnown(Snap(), b, |before|)
      requires TailKnown(Snap(), b, |before|)
      modifies this`cache, out
      ensures LaidOut(old(Snap()), Snap(), b, before, after, if |before| > |after| then |before| else |after|)
      ensures IsDiff(out.data, v0, ViewOf(truth, cache))
      ensures |before| <= |after| && CacheBelow(old(Snap())) ==> LayoutBelow(Snap(), b, |after|)
    {
      hide CacheBelow, LayoutBelow;
      hide BucketOpen, Shape, Agrees, TruthOk, IsDiff, LaidOut, SlotsKnown, Known, Counted, TabOf, CacheKnown, At, SlotIn, MetaAt;
      ghost var s0 := Snap();
      OpenReads(s0, b);
      LayoutStart(s0, b, after);
      if |before| <= |after| {
        LayoutBelowStarts(s0, b, before, |after|);
      }
      var n := if |before| > |after| then |before| else |after|;
      for slot := 0 to n
        invariant LaidOut(s0, Snap(), b, before, after, slot)
        invariant IsDiff(out.data, v0, ViewOf(truth, cache))
        invariant |before| <= |after| && CacheBelow(s0) ==> LayoutBelow(Snap(), b, |after|)
      {
        LayoutKnown(s0, Snap(), b, before, after, slot);
        RecordSlot(b, slot, SlotIn(before, slot), SlotIn(after, slot), slot >= |before|, before, after, s0, out, v0);
      }
    }

    /** One slot of `RecordLayout`. */
    method RecordSlot(b: DataBucketId, slot: nat, oldValue: Option<Entry>, newValue: Option<Entry>, isNew: bool,
                      ghost before: Table, ghost after: Table, ghost s0: Session, out: StateUpdates, ghost v0: View)
      requires IsDiff(out.data, v0, ViewOf(truth, cache)) && LaidOut(s0, Snap(), b, before, after, slot)
      requires oldValue == SlotIn(before, slot) && newValue == SlotIn(after, slot) && isNew == (slot >= |before|)
      requires slot < |before| ==> Known(Snap(), SaltKey(b, slot))
      requires TailKnown(Snap(), b, |before|)
      modifies this`cache, out
      ensures LaidOut(s0, Snap(), b, before, after, slot + 1)
      ensures IsDiff(out.data, v0, ViewOf(truth, cache))
      ensures slot < |after| && LayoutBelow(old(Snap()), b, |after|) ==> LayoutBelow(Snap(), b, |after|)
    {
      hide LayoutBelow;
      hide IsDiff, LaidOut, SlotsKnown, Known, SameView, MetaAt, Write;
      ghost var s := Snap();
      LayoutNow(s0, s, b, before, after, slot);
      var key := SaltKey(b, slot);
      ghost var view := ViewOf(truth, cache);
      ghost var written := Write(view, key, Lift(newValue));
      AddKeepsDiff(out.data, v0, view, key, Lift(newValue));
      if oldValue != newValue {
        out.Add(key, Lift(oldValue), Lift(newValue));
      } else {
        WriteSame(out.data, v0, view, key);
      }
      if oldValue != newValue || isNew {
        LayoutSlot(s0, s, b, before, after, slot);
        cache := cache[key := Lift(newValue)];
        if slot < |after| {
          LayoutBelowNext(s, Snap(), b, slot, Lift(newValue), |after|);
        }
        DiffOfSame(out.data, v0, written, v0, ViewOf(truth, cache));
      } else {
        LayoutSlotKept(s0, s, b, before, after, slot);
      }
    }

    /** Steps 1 and 2 of a rehash: metadata with the slot count, and every slot. */
    method LoadBucket(b: DataBucketId) returns (r: Result<(BucketMeta, Table), SaltError>)
      requires SessionOk(Snap())
      modifies this`cache
      ensures OnlyReads(old(Snap()), Snap()) && SessionOk(Snap())
      ensures r.Success? ==> r.value.0.(used := None) == MetaOf(Snap(), b) && r.value.1 == TabOf(Snap(), b)
      ensures r.Success? ==> SlotsKnown(Snap(), b, |TabOf(Snap(), b)|) && MetaKnown(Snap(), b)
      ensures r.Success? && cacheRead ==> BucketCached(old(Snap()), Snap(), b)
      ensures r.Failure? ==> RehashFails(old(Snap()), b, 0, r.error)
      ensures CacheBelow(old(Snap())) ==> CacheBelow(Snap())
    {
      hide CacheBelow;
      ghost var s0 := Snap();
      SessionBucket(s0, b);
      hide SessionOk, CanonicalExcept, TruthOk, Agrees, Shape, Canonical, BucketInv;
      var metadata := Metadata(b, true);
      ReadsKeepTable(s0, Snap(), b);
      ReadsKeepSession(s0, Snap());
      if metadata.Failure? {
        return Failure(metadata.error);
      }
      ghost var s1 := Snap();
      SessionBucket(s1, b);
      var slots := ReadBucket(b, metadata.value.capacity);
      ReadsKeepTable(s1, Snap(), b);
      ReadsKeepSession(s1, Snap());
      ReadsCompose(s0, s1, Snap());
      if slots.Failure? {
        UnknownBefore(s0, s1, b, metadata.value.capacity);
        return Failure(slots.error);
      }
      r := Success((metadata.value, slots.value));
    }

    /** Steps 3 to 5 of a rehash: build the new table, record it, then the new metadata. */
    method LayOut(b: DataBucketId, oldMetadata: BucketMeta, before: Table, newNonce: nat, newCapacity: nat,
                  out: StateUpdates, ghost v0: View)
      requires SessionOk(Snap()) && IsDiff(out.data, v0, ViewOf(truth, cache))
      requires before == TabOf(Snap(), b) && oldMetadata.(used := None) == MetaOf(Snap(), b)
      requires SlotsKnown(Snap(), b, |before|) && MetaKnown(Snap(), b)
      requires newCapacity <= BUCKET_SLOT_ID_MASK && (newCapacity == 0 ==> Contents(before) != map[])
      modifies this, out
      ensures SessionOk(Snap()) && IsDiff(out.data, v0, ViewOf(truth, cache))
      ensures Rehashed(old(Snap()), Snap(), b, newNonce, newCapacity)
      ensures |before| <= newCapacity && CacheBelow(old(Snap())) ==> CacheBelow(Snap())
    {
      hide CacheBelow, LayoutBelow;
      ghost var s0 := Snap();
      SessionBucket(s0, b);
      hide SessionOk, Agrees, TruthOk, IsDiff, LaidOut, Rehashed, Contents, Shape, Distinct, BucketInv, ExpansionCached, Counted, SlotsKnown,
           BucketOpen, Canonical, Tab, At, ViewOf, WithMeta;
      CanonicalDistinct(before, oldMetadata.nonce, -1);
      var pairs, used := PairsOf(before);
      if newCapacity < used {
        NotRehashed(s0, b, newNonce, newCapacity);
        return;
      }
      var after := PlaceDescending(pairs, newNonce, newCapacity);
      RecordLayout(b, before, after, out, v0);
      ghost var s1 := Snap();
      RehashEnds(s0, s1, b, newNonce, after);
      LaidOutMeta(s0, s1, b, before, after);
      WriteMeta(b, oldMetadata, newNonce, newCapacity, out, v0);
      if |before| <= newCapacity {
        LayoutBelowEnds(s1, b, newNonce, newCapacity);
      }
    }

    /** Writes the metadata of a rehashed bucket, and marks the bucket. */
    method WriteMeta(b: DataBucketId, oldMetadata: BucketMeta, nonce: nat, capacity: nat, out: StateUpdates, ghost v0: View)
      requires IsDiff(out.data, v0, ViewOf(truth, cache))
      requires At(truth, cache, BucketMetadataKey(b)) == Some(oldMetadata.ToValue())
      modifies this, out
      ensures Snap() == WithMeta(old(Snap()), b, nonce, capacity)
      ensures IsDiff(out.data, v0, ViewOf(truth, cache))
    {
      UpdateValue(out, BucketMetadataKey(b), Some(oldMetadata.ToValue()), Some(Meta(nonce, capacity)), v0);
      rehashedBuckets := rehashedBuckets + {b};
    }

    /**
     Rehashes a bucket under a new nonce and capacity. Nothing changes when the pairs would not
     fit; otherwise the bucket becomes the canonical table of the same pairs.
     */
    method ShiRehash(b: DataBucketId, newNonce: nat, newCapacity: nat, out: StateUpdates, ghost v0: View)
      returns (r: Result<(), SaltError>)
      requires SessionOk(Snap()) && IsDiff(out.data, v0, ViewOf(truth, cache))
      requires newCapacity == 0 ==> Contents(TabOf(Snap(), b)) != map[]
      modifies this, out
      ensures r.Success? ==> SessionOk(Snap()) && IsDiff(out.data, v0, ViewOf(truth, cache))
      ensures r.Success? ==> Rehashed(old(Snap()), Snap(), b, newNonce, newCapacity)
      ensures r.Success? && cacheRead ==> BucketCached(old(Snap()), Snap(), b)
      ensures r.Failure? ==> RehashFails(old(Snap()), b, newCapacity, r.error)
      ensures r.Success? && MetaOf(old(Snap()), b).capacity <= newCapacity && CacheBelow(old(Snap())) ==> CacheBelow(Snap())
    {
      hide CacheBelow;
      hide SessionOk, IsDiff, Rehashed, BucketCached, Contents, OnlyReads, SlotsKnown;
      if newCapacity > BUCKET_SLOT_ID_MASK {
        return Failure(CapacityPanic);
      }
      ghost var s0 := Snap();
      var loaded := LoadBucket(b);
      ReadsKeepTable(s0, Snap(), b);
      if loaded.Failure? {
        return Failure(loaded.error);
      }
      ReadsKeepDiff(s0, Snap(), out.data, v0);
      ghost var s1 := Snap();
      LayOut(b, loaded.value.0, loaded.value.1, newNonce, newCapacity, out, v0);
      RehashAfterReads(s0, s1, Snap(), b, newNonce, newCapacity);
      if cacheRead {
        RehashKeepsCached(s0, s1, Snap(), b, newNonce, newCapacity);
      }
      r := Success(());
    }

    // -------------------------------------------------------------- lookup

    /** A lookup by the store's direct table; whatever it says is checked against the slot. */
    method DirectFind(key: Key) returns (r: Option<(nat, Entry)>)
      requires SessionOk(Snap())
      modifies this`cache
      ensures OnlyReads(old(Snap()), Snap()) && SessionOk(Snap())
      ensures r.Some? ==> IsAt(TabOf(Snap(), BucketOf(key)), key, r.value.0)
                          && TabOf(Snap(), BucketOf(key))[r.value.0] == Some(r.value.1)
                          && Known(Snap(), SaltKey(BucketOf(key), r.value.0))
      ensures store.Full? ==> r.None?
      ensures DirectHit(old(Snap()), key) ==> r.Some?
      ensures CacheBelow(old(Snap())) ==> CacheBelow(Snap())
    {
      DirectHitShown(Snap(), key);
      var saltKey := store.PlainValueFast(key);
      if saltKey.Failure? {
        return None;
      }
      ghost var s0 := Snap();
      var v := Value(saltKey.value);
      ReadsKeepSession(s0, Snap());
      if v.Failure? || v.value.None? || !v.value.value.Plain? || v.value.value.entry.key != key {
        return None;
      }
      PlainInItsBucket(Snap(), saltKey.value, v.value.value.entry);
      r := Some((saltKey.value.slot, v.value.value.entry));
    }

    /** Finds a plain key: directly, else by the search of its bucket. */
    method Find(key: Key) returns (r: Result<Option<(SaltKey, Entry)>, SaltError>)
      requires SessionOk(Snap())
      modifies this`cache
      ensures OnlyReads(old(Snap()), Snap()) && SessionOk(Snap())
      ensures r.Success? ==> (r.value.Some? <==> key in Contents(TabOf(Snap(), BucketOf(key))))
      ensures r.Success? && r.value.Some? ==>
        && r.value.value.0 == SaltKey(BucketOf(key), SlotOf(TabOf(Snap(), BucketOf(key)), key))
        && r.value.value.1 == Entry(key, Contents(TabOf(Snap(), BucketOf(key)))[key])
      ensures r.Success? && cacheRead && store.Full? ==> LookupCached(old(Snap()), Snap(), key)
      ensures r.Failure? ==> LookupFails(old(Snap()), key, r.error) && !DirectHit(old(Snap()), key)
      ensures r.Success? && r.value.Some? ==> Known(Snap(), r.value.value.0)
      ensures CacheBelow(old(Snap())) ==> CacheBelow(Snap())
    {
      hide CacheBelow;
      ghost var s0 := Snap();
      var b := BucketOf(key);
      var direct := DirectFind(key);
      ghost var s1 := Snap();
      SessionBucket(s1, b);
      CanonicalDistinct(TabOf(s1, b), MetaOf(s1, b).nonce, -1);
      ReadsKeepTable(s0, s1, b);
      if direct.Some? {
        ContentsAt(TabOf(s1, b), direct.value.0);
        return Success(Some((SaltKey(b, direct.value.0), direct.value.1)));
      }
      r := SearchBucket(key, b, s0);
    }

    /** The second step of `Find`. */
    method SearchBucket(key: Key, b: DataBucketId, ghost s0: Session) returns (r: Result<Option<(SaltKey, Entry)>, SaltError>)
      requires SessionOk(s0) && SessionOk(Snap()) && OnlyReads(s0, Snap()) && b == BucketOf(key)
      modifies this`cache
      ensures OnlyReads(s0, Snap()) && SessionOk(Snap())
      ensures r.Success? ==> (r.value.Some? <==> key in Contents(TabOf(Snap(), b)))
      ensures r.Success? && r.value.Some? ==>
        && r.value.value.0 == SaltKey(b, SlotOf(TabOf(Snap(), b), key)) && Known(Snap(), r.value.value.0)
        && r.value.value.1 == Entry(key, Contents(TabOf(Snap(), b))[key])
      ensures r.Success? && cacheRead ==> LookupCached(s0, Snap(), key)
      ensures r.Failure? ==> LookupFails(s0, key, r.error)
      ensures CacheBelow(old(Snap())) ==> CacheBelow(Snap())
    {
      hide CacheBelow;
      ghost var s1 := Snap();
      SessionBucket(s1, b);
      hide SessionOk, CanonicalExcept, TruthOk, Agrees, BucketInv;
      var metadata := Metadata(b, false);
      ghost var s2 := Snap();
      ReadsKeepTable(s0, s1, b);
      ReadsKeepTable(s1, s2, b);
      ReadsKeepSession(s1, s2);
      ReadsCompose(s0, s1, s2);
      if metadata.Failure? {
        return Failure(metadata.error);
      }
      var found := ShiFind(b, metadata.value.nonce, metadata.value.capacity, key);
      ReadsKeepTable(s2, Snap(), b);
      ReadsKeepSession(s2, Snap());
      ReadsCompose(s0, s2, Snap());
      if found.Failure? {
        return Failure(found.error);
      }
      assert Contents(TabOf(Snap(), b)).Keys == KeysOf(TabOf(Snap(), b));
      if found.value.None? {
        return Success(None);
      }
      CanonicalDistinct(TabOf(Snap(), b), MetaOf(Snap(), b).nonce, -1);
      ContentsAt(TabOf(Snap(), b), found.value.value.0);
      r := Success(Some((SaltKey(b, found.value.value.0), found.value.value.1)));
    }

    /** The value of a plain key. */
    method PlainValue(key: Key) returns (r: Result<Option<Bytes>, SaltError>)
      requires SessionOk(Snap())
      modifies this`cache
      ensures OnlyReads(old(Snap()), Snap()) && SessionOk(Snap())
      ensures r.Success? ==> r.value == Lookup(Snap(), key) == Lookup(old(Snap()), key)
      ensures r.Success? && cacheRead && store.Full? ==> LookupCached(old(Snap()), Snap(), key)
      ensures r.Failure? ==> LookupFails(old(Snap()), key, r.error) && !DirectHit(old(Snap()), key)
      ensures CacheBelow(old(Snap())) ==> CacheBelow(Snap())
    {
      hide CacheBelow;
      ghost var s0 := Snap();
      var found := Find(key);
      ReadsKeepTable(s0, Snap(), BucketOf(key));
      if found.Failure? {
        return Failure(found.error);
      }
      r := Success(if found.value.Some? then Some(found.value.value.1.val) else None);
    }

    // -------------------------------------------------------------- upsert

    /**
     One probe of an upsert: reads the slot, and passes over a larger key, displaces a smaller
     one, replaces the same one, or fills the empty slot.
     */
    method ProbeStep(b: DataBucketId, slot: nat, e: Entry, out: StateUpdates, ghost v0: View,
                     ghost s0: Session, ghost key: Key, ghost val: Bytes, ghost step: nat)
      returns (r: Result<ProbeOutcome, SaltError>)
      requires InsertingIn(s0, Snap(), b, key, val, e, step) && step < |TabOf(s0, b)|
      requires slot == Probe(HashWithNonce(key, MetaOf(s0, b).nonce), step, |TabOf(s0, b)|)
      requires IsDiff(out.data, v0, ViewOf(truth, cache))
      modifies this, out
      ensures r.Success? ==> IsDiff(out.data, v0, ViewOf(truth, cache))
      ensures r.Success? && r.value.GoOn? ==> InsertingIn(s0, Snap(), b, key, val, r.value.e, step + 1)
      ensures r.Success? && !r.value.GoOn? ==> InsertDone(s0, Snap(), b, key, val)
      ensures r.Success? && !r.value.GoOn? ==> (key in Contents(TabOf(s0, b)) <==> r.value.Replaced?)
      ensures r.Failure? ==> r.error == NotInWitness && !InsertPathKnown(s0, b, key)
      ensures r.Success? && CacheBelow(old(Snap())) ==> CacheBelow(Snap())
    {
      hide CacheBelow;
      ghost var s := Snap();
      InsertingFacts(s0, s, b, key, val, e, step);
      OpenReads(s, b);
      hide InsertingIn, BucketOpen, MidStep, IsDiff, InsertDone, InsertPathKnown, InsertReads, OnlyReads, Shape, ReadOk, CanonicalExcept;
      var found := ReadSlot(b, slot);
      ghost var s1 := Snap();
      InsertReadsNext(s0, s, s1, b, key, val, e, step);
      InsertingFacts(s0, s1, b, key, val, e, step);
      if found.Failure? {
        return Failure(found.error);
      }
      ReadsKeepDiff(s, s1, out.data, v0);
      if found.value.Some? && found.value.value.key > e.key {
        InsertGoesOn(s0, s1, b, key, val, e, step);
        return Success(GoOn(e));
      }
      InsertingBelongs(s0, s1, b, key, val, e, step);
      WriteSlot(b, slot, found.value, Some(e), out, v0);
      if found.value.Some? && found.value.value.key < e.key {
        InsertDisplaces(s0, s1, Snap(), b, key, val, e, step);
        return Success(GoOn(found.value.value));
      }
      InsertEnds(s0, s1, Snap(), b, key, val, e, step);
      r := Success(if found.value.Some? then Replaced else Filled);
    }

    /** After a new pair has found its slot: the load factor test, and the rehash it may ask for. */
    method GrowIfLoaded(b: DataBucketId, metadata: BucketMeta, out: StateUpdates, ghost v0: View,
                        ghost s0: Session, ghost key: Key, ghost val: Bytes)
      returns (r: Result<(), SaltError>)
      requires SessionOk(s0) && InsertDone(s0, Snap(), b, key, val) && key !in Contents(TabOf(s0, b))
      requires metadata.(used := None) == MetaOf(s0, b)
      requires IsDiff(out.data, v0, ViewOf(truth, cache))
      modifies this, out
      ensures r.Success? ==> SessionOk(Snap()) && IsDiff(out.data, v0, ViewOf(truth, cache)) && Upserted(s0, Snap(), b, key, val)
      ensures r.Success? && cacheRead ==> UpsertCached(s0, Snap(), b, key)
      ensures r.Failure? ==> UpsertFails(s0, b, key, r.error)
      ensures r.Success? && CacheBelow(old(Snap())) ==> CacheBelow(Snap())
    {
      hide CacheBelow;
      ghost var s := Snap();
      InsertDoneFacts(s0, s, b, key, val);
      SessionBucket(s, b);
      InsertDoneCached(s0, s, b, key, val);
      ThresholdTest(metadata.capacity, |Contents(TabOf(s0, b))| + 1);
      hide SessionOk, InsertDone, IsDiff, Upserted, UpsertCached, Contents, CanonicalExcept, Shape, BucketInv, TruthOk, Agrees, StepIn, LoadOk, Canonical;
      var used := UsageCount(b);
      if used.Success? && used.value > metadata.capacity * BUCKET_RESIZE_LOAD_FACTOR_PCT / 100 {
        r := Grow(b, metadata, used.value, out, v0, s0, key, val);
      } else {
        UpsertEnds(s0, s, b, key, val);
        r := Success(());
      }
    }

    /** The rehash of a bucket past its load factor. */
    method Grow(b: DataBucketId, metadata: BucketMeta, used: nat, out: StateUpdates, ghost v0: View,
                ghost s0: Session, ghost key: Key, ghost val: Bytes)
      returns (r: Result<(), SaltError>)
      requires SessionOk(s0) && InsertDone(s0, Snap(), b, key, val) && key !in Contents(TabOf(s0, b))
      requires metadata.(used := None) == MetaOf(s0, b) && CountsKnown(s0, b)
      requires used == |Contents(TabOf(s0, b))| + 1 && !LoadOk(metadata.capacity, used)
      requires IsDiff(out.data, v0, ViewOf(truth, cache))
      modifies this, out
      ensures r.Success? ==> SessionOk(Snap()) && IsDiff(out.data, v0, ViewOf(truth, cache)) && Upserted(s0, Snap(), b, key, val)
      ensures r.Success? && cacheRead ==> UpsertCached(s0, Snap(), b, key)
      ensures r.Failure? ==> UpsertFails(s0, b, key, r.error)
      ensures r.Success? && CacheBelow(old(Snap())) ==> CacheBelow(Snap())
    {
      hide CacheBelow;
      ghost var s := Snap();
      InsertDoneFacts(s0, s, b, key, val);
      hide SessionOk, InsertDone, IsDiff, Upserted, UpsertCached, Contents, Rehashed, RehashFails, BucketCached, LoadOk, ResizeCapacity;
      var newCapacity := ComputeResizeCapacity(metadata.capacity, used);
      r := ShiRehash(b, metadata.nonce, newCapacity, out, v0);
      if r.Failure? {
        KnownRehashFails(s, b, newCapacity, r.error);
      } else {
        UpsertGrows(s0, s, Snap(), b, key, val);
      }
    }

    /**
     Inserts or replaces a pair. A key that is not stored displaces smaller keys along its probe
     sequence, which go on to the next slots; past the load factor the bucket grows; and a bucket
     without an empty slot is expanded first.
     */
    method ShiUpsert(b: DataBucketId, key: Key, val: Bytes, out: StateUpdates, ghost v0: View) returns (r: Result<(), SaltError>)
      requires SessionOk(Snap()) && BucketOf(key) == b && IsDiff(out.data, v0, ViewOf(truth, cache))
      modifies this, out
      ensures r.Success? ==> SessionOk(Snap()) && IsDiff(out.data, v0, ViewOf(truth, cache))
      ensures r.Success? ==> Upserted(old(Snap()), Snap(), b, key, val)
      ensures r.Success? && cacheRead && store.Full? ==> UpsertCached(old(Snap()), Snap(), b, key)
      ensures r.Failure? ==> UpsertFails(old(Snap()), b, key, r.error)
      ensures r.Success? && CacheBelow(old(Snap())) ==> CacheBelow(Snap())
      decreases BUCKET_SLOT_ID_MASK - MetaOf(Snap(), b).capacity
    {
      hide CacheBelow;
      ghost var s0 := Snap();
      hide SessionOk, IsDiff, Upserted, UpsertCached, InsertingIn, InsertDone, CanonicalExcept, OnlyReads, Contents, UpsertFails;
      var direct := DirectFind(key);
      ghost var s1 := Snap();
      ReadsKeepDiff(s0, s1, out.data, v0);
      SessionBucket(s1, b);
      ReadsFacts(s0, s1);
      if direct.Some? {
        WriteSlot(b, direct.value.0, Some(direct.value.1), Some(Entry(key, val)), out, v0);
        DirectReplaces(s0, s1, Snap(), b, key, val, direct.value.0);
        return Success(());
      }
      var metadata := Metadata(b, false);
      ReadsKeepDiff(s1, Snap(), out.data, v0);
      ReadsCompose(s0, s1, Snap());
      if metadata.Failure? {
        UnknownMetaFails(s0, s1, b, key);
        return Failure(metadata.error);
      }
      ReadsKeepTable(s0, Snap(), b);
      InsertBegins(s0, Snap(), b, key, val);
      r := ProbeAndInsert(b, metadata.value, key, val, out, v0, s0);
    }

    /** The probing loop of an upsert, and the forced expansion when it finds no empty slot. */
    method ProbeAndInsert(b: DataBucketId, metadata: BucketMeta, key: Key, val: Bytes, out: StateUpdates, ghost v0: View, ghost s0: Session)
      returns (r: Result<(), SaltError>)
      requires SessionOk(s0) && InsertingIn(s0, Snap(), b, key, val, Entry(key, val), 0) && IsDiff(out.data, v0, ViewOf(truth, cache))
      requires metadata == MetaOf(s0, b)
      modifies this, out
      ensures r.Success? ==> SessionOk(Snap()) && IsDiff(out.data, v0, ViewOf(truth, cache))
      ensures r.Success? ==> Upserted(s0, Snap(), b, key, val)
      ensures r.Success? && cacheRead ==> UpsertCached(s0, Snap(), b, key)
      ensures r.Failure? ==> UpsertFails(s0, b, key, r.error)
      ensures r.Success? && CacheBelow(old(Snap())) ==> CacheBelow(Snap())
      decreases BUCKET_SLOT_ID_MASK - MetaOf(s0, b).capacity, 1
    {
      hide CacheBelow;
      hide SessionOk, IsDiff, Upserted, UpsertCached, InsertingIn, InsertDone, CanonicalExcept, Contents, UpsertFails, InsertPathKnown;
      InsertingFacts(s0, Snap(), b, key, val, Entry(key, val), 0);
      var hashedKey := HashWithNonce(key, metadata.nonce);
      var pending := Entry(key, val);
      for step := 0 to metadata.capacity
        invariant InsertingIn(s0, Snap(), b, key, val, pending, step) && IsDiff(out.data, v0, ViewOf(truth, cache))
        invariant old(CacheBelow(Snap())) ==> CacheBelow(Snap())
      {
        InsertingFacts(s0, Snap(), b, key, val, pending, step);
        var outcome := ProbeStep(b, Probe(hashedKey, step, metadata.capacity), pending, out, v0, s0, key, val, step);
        if outcome.Failure? {
          UnknownPathFails(s0, b, key);
          return Failure(outcome.error);
        }
        match outcome.value
        case GoOn(e) =>
          pending := e;
        case Replaced =>
          InsertDoneCached(s0, Snap(), b, key, val);
          UpsertEnds(s0, Snap(), b, key, val);
          return Success(());
        case Filled =>
          r := GrowIfLoaded(b, metadata, out, v0, s0, key, val);
          return;
      }
      r := ForceExpansion(b, metadata, pending, out, v0, s0, key, val);
    }

    /** No slot is empty: the bucket is expanded, and the pending pair inserted into the larger one. */
    method ForceExpansion(b: DataBucketId, metadata: BucketMeta, pending: Entry, out: StateUpdates, ghost v0: View,
                          ghost s0: Session, ghost key: Key, ghost val: Bytes)
      returns (r: Result<(), SaltError>)
      requires SessionOk(s0) && InsertingIn(s0, Snap(), b, key, val, pending, |TabOf(s0, b)|) && IsDiff(out.data, v0, ViewOf(truth, cache))
      requires metadata == MetaOf(s0, b)
      modifies this, out
      ensures r.Success? ==> SessionOk(Snap()) && IsDiff(out.data, v0, ViewOf(truth, cache))
      ensures r.Success? ==> Upserted(s0, Snap(), b, key, val)
      ensures r.Success? && cacheRead ==> UpsertCached(s0, Snap(), b, key)
      ensures r.Failure? ==> UpsertFails(s0, b, key, r.error)
      ensures r.Success? && CacheBelow(old(Snap())) ==> CacheBelow(Snap())
      decreases BUCKET_SLOT_ID_MASK - MetaOf(s0, b).capacity, 0
    {
      hide CacheBelow;
      ghost var s := Snap();
      InsertFindsFull(s0, s, b, key, val, pending);
      ForcedRange(s0, s, b, key, val, pending);
      InsertingBelongs(s0, s, b, key, val, pending, |TabOf(s0, b)|);
      hide SessionOk, IsDiff, Upserted, UpsertCached, InsertingIn, CanonicalExcept, Contents, Rehashed, RehashFails, BucketCached;
      var newCapacity := ComputeResizeCapacity(metadata.capacity, metadata.capacity);
      r := ShiRehash(b, metadata.nonce, newCapacity, out, v0);
      if r.Failure? {
        KnownRehashFails(s, b, newCapacity, r.error);
        return;
      }
      ghost var s1 := Snap();
      ForcedCapacity(s0, s, s1, b, key, val, pending);
      CapacityInRange(s1, b);
      r := ShiUpsert(b, pending.key, pending.val, out, v0);
      if r.Failure? {
        KnownUpsertFails(s1, b, pending.key, r.error);
        return;
      }
      ForcedUpsert(s0, s, s1, Snap(), b, key, val, pending);
    }

    // -------------------------------------------------------------- delete

    /**
     The next entry that should move into the hole: the first one behind it, in probe order, that
     gets closer to its home by the move. `n` is how far the scan went.
     */
    method ShiNext(b: DataBucketId, hole: nat, nonce: nat, capacity: nat)
      returns (r: Result<Option<(nat, Entry)>, SaltError>, ghost n: nat)
      requires BucketOpen(Snap(), b) && capacity == MetaOf(Snap(), b).capacity && hole < capacity
      modifies this`cache
      ensures OnlyReads(old(Snap()), Snap()) && MidStep(old(Snap()), Snap(), b)
      ensures TabOf(Snap(), b) == old(TabOf(Snap(), b))
      ensures r.Success? && r.value.Some? ==>
        && var (next, e) := r.value.value;
        && next < capacity && next != hole && n == Dist(capacity, hole, next)
        && TabOf(Snap(), b)[next] == Some(e) && Known(Snap(), SaltKey(b, next))
        && Suitable(TabOf(Snap(), b), nonce, hole, next) && Scanned(TabOf(Snap(), b), nonce, hole, n)
      ensures r.Success? && r.value.None? ==> ScanEnds(TabOf(Snap(), b), nonce, hole, n)
      ensures r.Success? && cacheRead ==> CachedScan(cache, b, capacity, hole, n)
      ensures r.Failure? ==> r.error == NotInWitness
      ensures r.Failure? ==> ScanBlocked(old(Snap()), b, nonce, hole)
      ensures CacheBelow(old(Snap())) ==> CacheBelow(Snap())
    {
      hide CacheBelow;
      ghost var s0 := Snap();
      ScanStart(s0, b, nonce, hole);
      hide BucketOpen, MidStep, OnlyReads, ScanningIn, Scanned, Suitable, CachedScan, ScanBlocked;
      n := 0;
      for i := 1 to capacity
        invariant ScanningIn(s0, Snap(), b, nonce, hole, i)
        invariant CacheBelow(s0) ==> CacheBelow(Snap())
      {
        n := i;
        var nextSlot := Probe(hole, i, capacity);
        StepFromHole(hole, i, capacity);
        ScanningFacts(s0, Snap(), b, nonce, hole, i);
        ghost var s1 := Snap();
        var v := ReadSlot(b, nextSlot);
        ScanReads(s0, s1, Snap(), b, nonce, hole, i, nextSlot);
        if v.Failure? {
          return Failure(v.error), n;
        }
        if v.value.None? {
          return Success(None), n;
        }
        SuitableByRank(TabOf(s0, b), nonce, hole, nextSlot);
        if Rank(HashWithNonce(v.value.value.key, nonce), nextSlot, capacity) > Rank(HashWithNonce(v.value.value.key, nonce), hole, capacity) {
          return Success(Some((nextSlot, v.value.value))), n;
        }
      }
      n := capacity;
      ScanComesAround(s0, Snap(), b, nonce, hole);
      r := Success(None);
    }

    /**
     Deletes a key. The entries that its insertion displaced move back, one by one, into the
     hole, until nothing wants it; the sum of ranks bounds the number of moves.
     */
    method ShiDelete(b: DataBucketId, key: Key, out: StateUpdates, ghost v0: View) returns (r: Result<(), SaltError>)
      requires SessionOk(Snap()) && BucketOf(key) == b && IsDiff(out.data, v0, ViewOf(truth, cache))
      modifies this, out
      ensures r.Success? ==> SessionOk(Snap()) && IsDiff(out.data, v0, ViewOf(truth, cache))
      ensures r.Success? ==> Deleted(old(Snap()), Snap(), b, key)
      ensures r.Success? && cacheRead ==> DeleteCached(old(Snap()), Snap(), b, key)
      ensures r.Failure? ==> DeleteFails(old(Snap()), b, key, r.error)
      ensures r.Success? && CacheBelow(old(Snap())) ==> CacheBelow(Snap())
    {
      hide CacheBelow;
      ghost var s0 := Snap();
      SessionBucket(s0, b);
      hide SessionOk, IsDiff, CanonicalExcept, Contents, Shape, ReadOk, BucketInv, BucketOpen, OnlyReads, OnSearchPath;
      OpenReads(s0, b);
      var metadata := Metadata(b, false);
      ghost var s1 := Snap();
      ReadsKeepDiff(s0, s1, out.data, v0);
      ReadsKeepTable(s0, s1, b);
      ReadsKeepSession(s0, s1);
      ReadsFacts(s0, s1);
      if metadata.Failure? {
        return Failure(metadata.error);
      }
      SessionBucket(s1, b);
      OpenReads(s1, b);
      var found := ShiFind(b, metadata.value.nonce, metadata.value.capacity, key);
      ReadsKeepDiff(s1, Snap(), out.data, v0);
      ReadsKeepTable(s1, Snap(), b);
      ReadsKeepSession(s1, Snap());
      ReadsFacts(s1, Snap());
      ReadsCompose(s0, s1, Snap());
      if found.Failure? {
        SearchFailsDelete(s0, s1, b, key);
        return Failure(found.error);
      }
      if found.value.None? {
        DeleteAbsent(s0, Snap(), b, key);
        return Success(());
      }
      DeleteBegins(s0, Snap(), b, key, found.value.value.0);
      r := Compact(b, metadata.value, found.value.value.0, found.value.value.1, out, v0, s0, key);
    }

    /** The compaction loop of a deletion. */
    method Compact(b: DataBucketId, metadata: BucketMeta, slot: nat, e: Entry, out: StateUpdates, ghost v0: View,
                   ghost s0: Session, ghost key: Key)
      returns (r: Result<(), SaltError>)
      requires SessionOk(s0) && DeletingIn(s0, Snap(), b, key, slot) && IsDiff(out.data, v0, ViewOf(truth, cache))
      requires metadata == MetaOf(s0, b) && TabOf(Snap(), b)[slot] == Some(e)
      modifies this, out
      ensures r.Success? ==> SessionOk(Snap()) && IsDiff(out.data, v0, ViewOf(truth, cache))
      ensures r.Success? ==> Deleted(s0, Snap(), b, key)
      ensures r.Success? && cacheRead ==> DeleteCached(s0, Snap(), b, key)
      ensures r.Failure? ==> DeleteFails(s0, b, key, r.error)
      ensures r.Success? && CacheBelow(old(Snap())) ==> CacheBelow(Snap())
    {
      hide CacheBelow;
      hide SessionOk, IsDiff, DeletingIn, Deleted, DeleteCached, DeleteFails, BucketOpen, OnlyReads, MidStep, CanonicalExcept, Suitable, Scanned;
      var delSlot: nat := slot;
      var delValue := e;
      DeletingFacts(s0, Snap(), b, key, delSlot);
      while true
        invariant DeletingIn(s0, Snap(), b, key, delSlot) && IsDiff(out.data, v0, ViewOf(truth, cache))
        invariant delSlot < |TabOf(Snap(), b)| && TabOf(Snap(), b)[delSlot] == Some(delValue)
        invariant old(CacheBelow(Snap())) ==> CacheBelow(Snap())
        decreases RankSum(TabOf(Snap(), b)[delSlot := None], MetaOf(s0, b).nonce, |TabOf(Snap(), b)|)
      {
        ghost var s := Snap();
        DeletingFacts(s0, s, b, key, delSlot);
        var next, n := ShiNext(b, delSlot, metadata.nonce, metadata.capacity);
        ghost var s1 := Snap();
        ReadsKeepDiff(s, s1, out.data, v0);
        if next.Failure? {
          ScanBlockedFails(s0, s, b, key, delSlot);
          return Failure(next.error);
        }
        MidStepFacts(s, s1, b);
        match next.value
        case Some((nextSlot, nextValue)) =>
          WriteSlot(b, delSlot, Some(delValue), Some(nextValue), out, v0);
          DeleteGoesOn(s0, s, s1, Snap(), b, key, delSlot, nextSlot);
          DeletingFacts(s0, Snap(), b, key, nextSlot);
          delSlot, delValue := nextSlot, nextValue;
        case None =>
          WriteSlot(b, delSlot, Some(delValue), None, out, v0);
          DeleteEnds(s0, s, s1, Snap(), b, key, delSlot, n);
          return Success(());
      }
    }

    // -------------------------------------------------------------- batches

    /** Applies a batch of plain updates in order. `trace` shows the session around every operation. */
    method Update(kvs: seq<Op>) returns (r: Result<StateUpdates, SaltError>, ghost trace: seq<Session>)
      requires SessionOk(Snap())
      modifies this
      ensures r.Success? ==> fresh(r.value) && Trace(kvs, trace) && trace[0] == old(Snap()) && trace[|kvs|] == Snap()
      ensures r.Success? ==> SessionOk(Snap()) && IsDiff(r.value.data, ViewOf(truth, old(cache)), ViewOf(truth, cache))
      ensures r.Success? && cacheRead && store.Full? ==> TraceCached(kvs, trace)
      ensures r.Failure? ==> 0 < |trace| <= |kvs| && trace[0] == old(Snap())
                             && Trace(kvs[..|trace| - 1], trace) && OpFails(trace[|trace| - 1], kvs[|trace| - 1], r.error)
      ensures r.Success? && CacheBelow(old(Snap())) ==> CacheBelow(Snap())
    {
      hide CacheBelow;
      hide SessionOk, OpPost, OpFails, OpCached, IsDiff, At;
      var out := new StateUpdates();
      ghost var v0 := ViewOf(truth, cache);
      EmptyDiff(v0);
      trace := [Snap()];
      for i := 0 to |kvs|
        invariant fresh(out) && Trace(kvs[..i], trace) && trace[0] == old(Snap()) && trace[i] == Snap() && SessionOk(Snap())
        invariant IsDiff(out.data, v0, ViewOf(truth, cache))
        invariant cacheRead && store.Full? ==> TraceCached(kvs[..i], trace)
        invariant old(CacheBelow(Snap())) ==> CacheBelow(Snap())
      {
        ghost var s := Snap();
        var applied := ApplyOp(kvs[i], out, v0);
        if applied.Failure? {
          return Failure(applied.error), trace;
        }
        TraceExtends(kvs[..i], trace, kvs[i], Snap());
        trace := trace + [Snap()];
        assert kvs[..i + 1] == kvs[..i] + [kvs[i]];
      }
      assert kvs[..|kvs|] == kvs;
      r := Success(out);
    }

    /** One plain update. */
    method ApplyOp(op: Op, out: StateUpdates, ghost v0: View) returns (r: Result<(), SaltError>)
      requires SessionOk(Snap()) && IsDiff(out.data, v0, ViewOf(truth, cache))
      modifies this, out
      ensures r.Success? ==> SessionOk(Snap()) && IsDiff(out.data, v0, ViewOf(truth, cache)) && OpPost(old(Snap()), Snap(), op)
      ensures r.Success? && cacheRead && store.Full? ==> OpCached(old(Snap()), Snap(), op)
      ensures r.Failure? ==> OpFails(old(Snap()), op, r.error)
      ensures r.Success? && CacheBelow(old(Snap())) ==> CacheBelow(Snap())
    {
      hide CacheBelow;
      hide SessionOk, IsDiff, Upserted, Deleted, UpsertCached, DeleteCached, UpsertFails, DeleteFails;
      var b := BucketOf(op.0);
      match op.1
      case Some(val) => r := ShiUpsert(b, op.0, val, out, v0);
      case None => r := ShiDelete(b, op.0, out, v0);
    }

    // -------------------------------------------------------------- canonicalization

    /** Takes the pairs out of a bucket, slot by slot. */
    method ClearSlots(b: DataBucketId, capacity: nat, out: StateUpdates, ghost v0: View) returns (r: Result<seq<Entry>, SaltError>)
      requires SessionOk(Snap()) && IsDiff(out.data, v0, ViewOf(truth, cache)) && capacity == MetaOf(Snap(), b).capacity
      modifies this`cache, out
      ensures r.Success? ==> IsDiff(out.data, v0, ViewOf(truth, cache))
      ensures r.Success? ==> LaidOut(old(Snap()), Snap(), b, old(TabOf(Snap(), b)), Vacant(capacity), capacity)
      ensures r.Success? ==> Collected(r.value, old(TabOf(Snap(), b)))
      ensures r.Failure? ==> r.error == NotInWitness && !SlotsKnown(old(Snap()), b, capacity)
    {
      hide SessionOk, IsDiff, Clearing, Shape, BucketOpen, BucketInv, SlotsKnown, Known, LaidOut, Collected, TruthOk, Agrees, CanonicalExcept, CutKnown, BucketOk;
      ghost var s0 := Snap();
      SessionBucket(s0, b);
      BaseOk(s0, b);
      ClearingStart(s0, b);
      var pairs: seq<Entry> := [];
      for slot := 0 to capacity
        invariant Clearing(s0, Snap(), b, pairs, slot) && IsDiff(out.data, v0, ViewOf(truth, cache))
      {
        r := ClearSlot(b, slot, pairs, out, v0, s0);
        if r.Failure? {
          return;
        }
        pairs := r.value;
      }
      ClearingEnds(s0, Snap(), b, pairs);
      r := Success(pairs);
    }

    /** One slot of `ClearSlots`. */
    method ClearSlot(b: DataBucketId, slot: nat, pairs: seq<Entry>, out: StateUpdates, ghost v0: View, ghost s0: Session)
      returns (r: Result<seq<Entry>, SaltError>)
      requires SessionOk(s0) && slot < |TabOf(s0, b)| && IsDiff(out.data, v0, ViewOf(truth, cache))
      requires Clearing(s0, Snap(), b, pairs, slot)
      modifies this`cache, out
      ensures r.Success? ==> IsDiff(out.data, v0, ViewOf(truth, cache)) && Clearing(s0, Snap(), b, r.value, slot + 1)
      ensures r.Failure? ==> r.error == NotInWitness && !SlotsKnown(s0, b, |TabOf(s0, b)|)
    {
      ghost var s, t := Snap(), TabOf(s0, b);
      SessionBucket(s0, b);
      BaseOk(s0, b);
      LaidOutFacts(s0, s, b, t, Vacant(|t|), slot);
      LaidOutShape(s0, s, b, t, slot);
      hide SessionOk, CanonicalExcept, IsDiff, LaidOut, Shape, BucketOpen, BucketInv, MidStep, Collected, SlotsKnown;
      var v := ReadSlot(b, slot);
      ReadsFacts(s, Snap());
      if v.Failure? {
        UnknownSlot(s0, b, slot, |t|);
        return Failure(v.error);
      }
      ReadsKeepDiff(s, Snap(), out.data, v0);
      LaidOutReads(s0, s, Snap(), b, t, Vacant(|t|), slot);
      RecordSlot(b, slot, v.value, None, false, t, Vacant(|t|), s0, out, v0);
      ClearingNext(s0, s, Snap(), b, pairs, slot);
      r := Success(if v.value.Some? then pairs + [v.value.value] else pairs);
    }

    /** Empties a bucket and gives it its stored metadata back; returns its pairs. */
    method ResetBucket(b: DataBucketId, out: StateUpdates, ghost v0: View) returns (r: Result<seq<Entry>, SaltError>)
      requires SessionOk(Snap()) && IsDiff(out.data, v0, ViewOf(truth, cache))
      modifies this, out
      ensures r.Success? ==> IsDiff(out.data, v0, ViewOf(truth, cache)) && BucketReset(old(Snap()), Snap(), b)
      ensures r.Success? ==> Collected(r.value, old(TabOf(Snap(), b)))
      ensures r.Failure? ==> r.error == NotInWitness && !CountsKnown(old(Snap()), b)
    {
      ghost var s0 := Snap();
      SessionBucket(s0, b);
      BaseOk(s0, b);
      CountsKnownNeeds(s0, b);
      hide SessionOk, CanonicalExcept, IsDiff, LaidOut, Collected, Shape, BucketOpen, BucketInv, OnlyReads, Emptied, TruthOk, Agrees, Vacant, BucketReset;
      var oldMetadata := Metadata(b, false);
      ghost var s1 := Snap();
      if oldMetadata.Failure? {
        return Failure(oldMetadata.error);
      }
      ReadsFacts(s0, s1);
      ReadsKeepTable(s0, s1, b);
      ReadsKeepSession(s0, s1);
      ReadsKeepDiff(s0, s1, out.data, v0);
      var pairs := ClearSlots(b, oldMetadata.value.capacity, out, v0);
      if pairs.Failure? {
        UnknownBefore(s0, s1, b, oldMetadata.value.capacity);
        return Failure(pairs.error);
      }
      SessionBucket(s1, b);
      CollectedOk(s1, b, pairs.value);
      RestoreMeta(b, oldMetadata.value, out, v0, s1);
      ghost var s2 := Snap();
      EmptiedIsReset(s1, s2, b, |pairs.value|);
      SubtractUsage(b, |pairs.value|);
      ResetAfterReads(s0, s1, Snap(), b);
      r := Success(pairs.value);
    }

    method SubtractUsage(b: DataBucketId, n: nat)
      modifies this`usageCountDelta
      ensures Snap() == Uncounted(old(Snap()), b, n)
    {
      usageCountDelta := usageCountDelta[b := DeltaAt(usageCountDelta, b) - n];
    }

    /** Drops the cached metadata of an emptied bucket and reads the stored one; the read cannot fail
        where the metadata was known before. */
    method RestoreMeta(b: DataBucketId, oldMetadata: BucketMeta, out: StateUpdates, ghost v0: View, ghost s0: Session)
      requires SessionOk(s0) && MetaKnown(s0, b) && oldMetadata == MetaOf(s0, b) && IsDiff(out.data, v0, ViewOf(truth, cache))
      requires LaidOut(s0, Snap(), b, TabOf(s0, b), Vacant(|TabOf(s0, b)|), |TabOf(s0, b)|)
      modifies this`cache, out
      ensures IsDiff(out.data, v0, ViewOf(truth, cache)) && Emptied(s0, Snap(), b)
    {
      ghost var s, key := Snap(), BucketMetadataKey(b);
      ghost var view := ViewOf(truth, cache);
      ghost var written := Write(view, key, At(truth, map[], key));
      LaidOutFacts(s0, s, b, TabOf(s0, b), Vacant(|TabOf(s0, b)|), |TabOf(s0, b)|);
      DropMetaEmpties(s0, s, b);
      DropMetaView(s, b);
      BaseOk(s0, b);
      AddKeepsDiff(out.data, v0, view, key, At(truth, map[], key));
      hide SessionOk, CanonicalExcept, IsDiff, LaidOut, TruthOk, Agrees, Vacant, SameView, Write;
      cache := cache - {BucketMetadataKey(b)};
      ghost var s1 := Snap();
      EmptiedReadOk(s0, s1, b);
      var newMetadata := Metadata(b, false);
      assert newMetadata.Success?;
      EmptiedReads(s0, s1, Snap(), b);
      out.Add(BucketMetadataKey(b), Some(oldMetadata.ToValue()), Some(newMetadata.value.ToValue()));
      DiffOfSame(out.data, v0, written, v0, ViewOf(truth, s1.cache));
      ReadsKeepDiff(s1, Snap(), out.data, v0);
    }

    /** Replays one rehashed bucket from its stored nonce and capacity. */
    method ReplayBucket(b: DataBucketId, out: StateUpdates, ghost v0: View) returns (r: Result<(), SaltError>)
      requires SessionOk(Snap()) && IsDiff(out.data, v0, ViewOf(truth, cache))
      modifies this, out
      ensures r.Success? ==> IsDiff(out.data, v0, ViewOf(truth, cache)) && Replayed(old(Snap()), Snap(), b)
      ensures r.Failure? ==> ReplayFails(old(Snap()), b, r.error)
    {
      ghost var s0 := Snap();
      hide SessionOk, IsDiff, BucketReset, Refilling, Collected, Replayed, PairsOk, Contents, Upserted;
      var pairs := ResetBucket(b, out, v0);
      if pairs.Failure? {
        return Failure(pairs.error);
      }
      CollectedOk(s0, b, pairs.value);
      RefillBegins(s0, Snap(), b, pairs.value);
      for j := 0 to |pairs.value|
        invariant Refilling(s0, Snap(), b, pairs.value, j) && IsDiff(out.data, v0, ViewOf(truth, cache))
      {
        ghost var s := Snap();
        RefillFacts(s0, s, b, pairs.value, j);
        r := ShiUpsert(b, pairs.value[j].key, pairs.value[j].val, out, v0);
        if r.Failure? {
          RefillFails(s0, s, b, pairs.value, j, r.error);
          return;
        }
        RefillGoesOn(s0, s, Snap(), b, pairs.value, j);
      }
      RefillEnds(s0, Snap(), b, pairs.value);
      r := Success(());
    }

    /**
     Undoes premature expansions: every bucket rehashed in this session is replayed from its
     stored nonce and capacity with the pairs it holds now.
     */
    method Canonicalize() returns (r: Result<StateUpdates, SaltError>)
      requires SessionOk(Snap())
      modifies this
      ensures r.Success? ==> fresh(r.value) && SessionOk(Snap()) && Canonicalized(old(Snap()), Snap())
      ensures r.Success? ==> IsDiff(r.value.data, ViewOf(truth, old(cache)), ViewOf(truth, cache))
      ensures r.Failure? ==> exists b :: b in old(rehashedBuckets) && ReplayFails(old(Snap()), b, r.error)
    {
      ghost var s0 := Snap();
      CanonicalizeStarts(s0);
      hide SessionOk, IsDiff, Canonicalizing, Canonicalized, Replayed, ReplayFails;
      var updates := new StateUpdates();
      ghost var v0 := ViewOf(truth, cache);
      EmptyDiff(v0);
      var rest := rehashedBuckets;
      rehashedBuckets := {};
      while rest != {}
        invariant fresh(updates) && Canonicalizing(s0, Snap(), rest) && IsDiff(updates.data, v0, ViewOf(truth, cache))
        decreases |rest|
      {
        var b :| b in rest;
        ghost var s := Snap();
        CanonicalizingFacts(s0, s, rest, b);
        var replayed := ReplayBucket(b, updates, v0);
        if replayed.Failure? {
          ReplayFailsBefore(s0, s, rest, b, replayed.error);
          return Failure(replayed.error);
        }
        CanonicalizeGoesOn(s0, s, Snap(), rest, b);
        rest := rest - {b};
      }
      CanonicalizeEnds(s0, Snap());
      rehashedBuckets := {};
      CanonicalizedOk(s0, Snap());
      r := Success(updates);
    }

    /** `Update` and `Canonicalize` in one. */
    method UpdateFin(kvs: seq<Op>) returns (r: Result<StateUpdates, SaltError>, ghost trace: seq<Session>)
      requires SessionOk(Snap())
      modifies this
      ensures r.Success? ==> fresh(r.value) && Trace(kvs, trace) && trace[0] == old(Snap()) && Canonicalized(trace[|kvs|], Snap())
      ensures r.Success? ==> SessionOk(Snap()) && IsDiff(r.value.data, ViewOf(truth, old(cache)), ViewOf(truth, cache))
      ensures r.Failure? ==> 0 < |trace| <= |kvs| + 1 && trace[0] == old(Snap()) && Trace(kvs[..|trace| - 1], trace)
      ensures r.Failure? ==>
        if |trace| <= |kvs| then OpFails(trace[|trace| - 1], kvs[|trace| - 1], r.error)
        else exists b :: b in trace[|kvs|].rehashed && ReplayFails(trace[|kvs|], b, r.error)
    {
      hide SessionOk, IsDiff, Trace, TraceCached, OpFails, Canonicalized, ReplayFails, At;
      ghost var v0 := ViewOf(truth, cache);
      r, trace := Update(kvs);
      if r.Failure? {
        return;
      }
      TraceEnds(kvs, trace);
      var updates := r.value;
      ghost var v1 := ViewOf(truth, cache);
      var canonical := Canonicalize();
      if canonical.Failure? {
        assert kvs[..|trace| - 1] == kvs;
        return Failure(canonical.error), trace;
      }
      MergeComposes(updates.data, canonical.value.data, updates.data, v0, v1, ViewOf(truth, cache));
      ghost var d1 := updates.data;
      var merged := updates.TryMerge(canonical.value.data);
      MergeComposes(d1, canonical.value.data, updates.data, v0, v1, ViewOf(truth, cache));
      r := Success(updates);
    }

    /** A new nonce for a bucket: the same pairs in another layout. */
    method SetNonce(b: DataBucketId, newNonce: nat) returns (r: Result<StateUpdates, SaltError>)
      requires SessionOk(Snap())
      modifies this
      ensures r.Success? ==> fresh(r.value) && SessionOk(Snap())
      ensures r.Success? ==> IsDiff(r.value.data, ViewOf(truth, old(cache)), ViewOf(truth, cache))
      ensures r.Success? ==> Rehashed(old(Snap()), Snap(), b, newNonce, MetaOf(old(Snap()), b).capacity)
      ensures r.Failure? ==> r.error == NotInWitness && !CountsKnown(old(Snap()), b)
    {
      ghost var s0 := Snap();
      SessionBucket(s0, b);
      BaseOk(s0, b);
      CountsKnownNeeds(s0, b);
      CapacityInRange(s0, b);
      hide SessionOk, IsDiff, CanonicalExcept, Rehashed, Shape, BucketInv, BucketOpen, OnlyReads, Contents;
      EmptyDiff(ViewOf(truth, cache));
      var metadata := Metadata(b, false);
      ReadsKeepTable(s0, Snap(), b);
      ReadsKeepSession(s0, Snap());
      ReadsKeepDiff(s0, Snap(), map[], ViewOf(s0.truth, s0.cache));
      ReadsFacts(s0, Snap());
      if metadata.Failure? {
        return Failure(metadata.error);
      }
      var updates := new StateUpdates();
      ghost var s1 := Snap();
      var rehashed := ShiRehash(b, newNonce, metadata.value.capacity, updates, ViewOf(s0.truth, s0.cache));
      if rehashed.Failure? {
        if CountsKnown(s0, b) {
          KnownRehashFails(s1, b, metadata.value.capacity, rehashed.error);
        }
        RehashFailsHow(s1, b, metadata.value.capacity, rehashed.error);
        return Failure(rehashed.error);
      }
      RehashAfterReads(s0, s1, Snap(), b, newNonce, metadata.value.capacity);
      r := Success(updates);
    }
  }

  datatype ProbeOutcome = GoOn(e: Entry) | Replaced | Filled

  /** The first `n` slots of a bucket have been read. */
  ghost predicate ReadingBucket(s0: Session, s: Session, b: DataBucketId, n: nat) {
    && OnlyReads(s0, s) && MidStep(s0, s, b) && TabOf(s, b) == TabOf(s0, b)
    && SlotsKnown(s, b, n) && (s.cacheRead ==> SlotsCached(s, b, n))
  }

  lemma SameCounts(s0: Session, s1: Session, b: DataBucketId)
    requires OnlyReads(s0, s1)
    ensures CountsKnown(s0, b) == CountsKnown(s1, b)
    ensures Counted(s0, b) ==> Counted(s1, b)
  {
    ReadsKeepTable(s0, s1, b);
  }

  lemma CachesMeta(s: Session, b: DataBucketId, v: Option<SaltValue>)
    requires CacheKnown(s) && s.store.Metadata(b).Success? && BucketMetadataKey(b) !in s.cache
    requires Normal(BucketMetadataKey(b), v) == At(s.truth, s.cache, BucketMetadataKey(b))
    ensures OnlyReads(s, s.(cache := s.cache[BucketMetadataKey(b) := v]))
  {
    forall b': DataBucketId | BucketMetadataKey(b') == BucketMetadataKey(b)
      ensures b' == b
    {
      MetadataKeyRoundTrip(b);
      MetadataKeyRoundTrip(b');
    }
  }

  lemma NothingRead(s: Session)
    requires CacheKnown(s)
    ensures OnlyReads(s, s)
  {
  }

  lemma ReadingStarts(s: Session, b: DataBucketId)
    requires BucketOpen(s, b)
    ensures ReadingBucket(s, s, b, 0)
  {
    MidStepStart(s, b);
  }

  lemma ReadingSoFar(s0: Session, s: Session, b: DataBucketId, n: nat)
    requires ReadingBucket(s0, s, b, n)
    ensures OnlyReads(s0, s) && MidStep(s0, s, b) && TabOf(s, b) == TabOf(s0, b) && MetaOf(s, b) == MetaOf(s0, b)
    ensures SlotsKnown(s, b, n) && (s.cacheRead ==> SlotsCached(s, b, n)) && BucketOpen(s, b) && s.cacheRead == s0.cacheRead
  {
  }

  lemma {:induction false} WitnessCountError(w: Witness, b: BucketId, n: nat)
    ensures w.CountWitnessed(b, n).Failure? ==> w.CountWitnessed(b, n).error == NotInWitness
  {
    if n > 0 {
      WitnessCountError(w, b, n - 1);
    }
  }
}
