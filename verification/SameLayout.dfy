/** Tables and sessions that hold the same keys, whatever the values: they read the same slots. */
module SameLayout {
  import opened Wrappers
  import opened ShiTable
  import opened LoadFactor
  import opened SaltTypes
  import opened SessionView
  import opened SessionSteps
  import opened SessionRuns

  ghost predicate SameKeys(t: Table, u: Table) {
    && |t| == |u|
    && forall x :: 0 <= x < |t| ==>
      (t[x].Some? <==> u[x].Some?) && (t[x].Some? && u[x].Some? ==> t[x].value.key == u[x].value.key)
  }

  /** The keys alone fix where each of them sits. */
  lemma CanonicalSameKeys(t: Table, u: Table, nonce: nat)
    requires Canonical(t, nonce) && Canonical(u, nonce) && |t| == |u| && KeysOf(t) == KeysOf(u)
    ensures SameKeys(t, u)
  {
    forall x | 0 <= x < |t|
      ensures t[x].Some? ==> u[x].Some? && u[x].value.key == t[x].value.key
      ensures u[x].Some? ==> t[x].Some? && u[x].value.key == t[x].value.key
    {
      SlotKeepsKey(t, u, nonce, x);
      SlotKeepsKey(u, t, nonce, x);
    }
  }

  lemma SlotKeepsKey(t: Table, u: Table, nonce: nat, x: nat)
    requires Canonical(t, nonce) && Canonical(u, nonce) && |t| == |u| && KeysOf(t) == KeysOf(u) && x < |t|
    ensures t[x].Some? ==> u[x].Some? && u[x].value.key == t[x].value.key
  {
    if t[x].Some? {
      var k := t[x].value.key;
      assert k in KeysOf(t);
      SameSlot(t, u, nonce, k);
      DistinctKeys(t, nonce, -1, x, SlotOf(t, k));
    }
  }

  lemma SamePaths(t: Table, u: Table, nonce: nat, key: Key, x: nat)
    requires SameKeys(t, u) && KeysOf(t) == KeysOf(u) && x < |t|
    ensures OnInsertPath(t, nonce, key, x) <==> OnInsertPath(u, nonce, key, x)
    ensures OnDeletePath(t, nonce, key, x) <==> OnDeletePath(u, nonce, key, x)
  {
  }

  /** Two sessions over the same state whose buckets have the same nonces, capacities and keys. */
  ghost predicate Alike(r: Session, v: Session) {
    && r.truth == v.truth
    && forall b: DataBucketId :: AlikeIn(r, v, b)
  }

  ghost predicate AlikeIn(r: Session, v: Session, b: DataBucketId) {
    MetaOf(r, b) == MetaOf(v, b) && KeysOf(TabOf(r, b)) == KeysOf(TabOf(v, b))
  }

  lemma AlikePaths(r: Session, v: Session, b: DataBucketId, key: Key, x: nat)
    requires SessionOk(r) && SessionOk(v) && AlikeIn(r, v, b) && x < |TabOf(r, b)|
    ensures |TabOf(v, b)| == |TabOf(r, b)|
    ensures InsertReads(r, b, key, x) <==> InsertReads(v, b, key, x)
    ensures DeleteReads(r, b, key, x) <==> DeleteReads(v, b, key, x)
  {
    SessionBucket(r, b);
    SessionBucket(v, b);
    hide SessionOk, CanonicalExcept, KeysOf, OnInsertPath, OnDeletePath;
    CanonicalSameKeys(TabOf(r, b), TabOf(v, b), MetaOf(r, b).nonce);
    SamePaths(TabOf(r, b), TabOf(v, b), MetaOf(r, b).nonce, key, x);
  }

  lemma AlikeCounts(r: Session, v: Session, b: DataBucketId)
    requires AlikeIn(r, v, b)
    ensures |Contents(TabOf(r, b))| == |Contents(TabOf(v, b))| && Contents(TabOf(r, b)).Keys == Contents(TabOf(v, b)).Keys
  {
    var m, n := Contents(TabOf(r, b)), Contents(TabOf(v, b));
    assert |m| == |m.Keys| && |n| == |n.Keys|;
  }

  // ---------------------------------------------------------------- what the witness must know

  /** The store knows every stored slot and all metadata that `cache` holds. */
  ghost predicate KnowsCached(store: Store, truth: Kvs, cache: Cache) {
    && (forall b: DataBucketId, i: nat :: i < BaseMeta(truth, b).capacity && SaltKey(b, i) in cache ==> store.Value(SaltKey(b, i)).Success?)
    && (forall b: DataBucketId :: BucketMetadataKey(b) in cache ==> store.Metadata(b).Success?)
  }

  lemma KnowsMore(store: Store, truth: Kvs, c0: Cache, c1: Cache)
    requires KnowsCached(store, truth, c1) && c0.Keys <= c1.Keys
    ensures KnowsCached(store, truth, c0)
  {
  }

  lemma CachedIsKnown(v: Session, cache: Cache, b: DataBucketId, x: nat)
    requires SessionOk(v) && KnowsCached(v.store, v.truth, cache) && x < MetaOf(v, b).capacity && SaltKey(b, x) in cache
    ensures Known(v, SaltKey(b, x))
  {
    SessionBucket(v, b);
    hide SessionOk, CanonicalExcept;
  }

  /** An operation that was recorded succeeds on any session that is alike and knows what the record has read. */
  lemma RecordedOpSucceeds(r: Session, r1: Session, v: Session, op: Op, error: SaltError)
    requires OpPost(r, r1, op) && OpCached(r, r1, op) && CountsKnown(r, BucketOf(op.0))
    requires SessionOk(v) && Alike(r, v) && KnowsCached(v.store, v.truth, r1.cache)
    ensures !OpFails(v, op, error)
  {
    var b := BucketOf(op.0);
    assert AlikeIn(r, v, b);
    CapacityInRange(r, b);
    if op.1.Some? {
      RecordedUpsertKnown(r, r1, v, op.0, op.1.value);
      RecordedUpsertInRange(r, r1, v, op.0, op.1.value);
    } else {
      RecordedDeleteKnown(r, r1, v, op.0);
    }
    hide SessionOk, InsertPathKnown, DeletePathKnown;
  }

  lemma RecordedUpsertKnown(r: Session, r1: Session, v: Session, key: Key, val: Bytes)
    requires SessionOk(r) && SessionOk(v) && AlikeIn(r, v, BucketOf(key))
    requires UpsertCached(r, r1, BucketOf(key), key) && KnowsCached(v.store, v.truth, r1.cache)
    ensures InsertPathKnown(v, BucketOf(key), key)
  {
    var b := BucketOf(key);
    hide SessionOk, KnowsCached, InsertReads;
    RecordedMetaKnown(v, r1.cache, b);
    forall x | 0 <= x < |TabOf(v, b)| && InsertReads(v, b, key, x)
      ensures Known(v, SaltKey(b, x))
    {
      AlikePaths(r, v, b, key, x);
      CachedIsKnown(v, r1.cache, b, x);
    }
  }

  lemma RecordedMetaKnown(v: Session, cache: Cache, b: DataBucketId)
    requires KnowsCached(v.store, v.truth, cache) && BucketMetadataKey(b) in cache
    ensures MetaKnown(v, b)
  {
  }

  lemma RecordedDeleteKnown(r: Session, r1: Session, v: Session, key: Key)
    requires SessionOk(r) && SessionOk(v) && AlikeIn(r, v, BucketOf(key))
    requires DeleteCached(r, r1, BucketOf(key), key) && KnowsCached(v.store, v.truth, r1.cache)
    ensures DeletePathKnown(v, BucketOf(key), key)
  {
    var b := BucketOf(key);
    hide SessionOk, KnowsCached, DeleteReads;
    RecordedMetaKnown(v, r1.cache, b);
    forall x | 0 <= x < |TabOf(v, b)| && DeleteReads(v, b, key, x)
      ensures Known(v, SaltKey(b, x))
    {
      AlikePaths(r, v, b, key, x);
      CachedIsKnown(v, r1.cache, b, x);
    }
  }

  lemma RecordedUpsertInRange(r: Session, r1: Session, v: Session, key: Key, val: Bytes)
    requires SessionOk(r1) && AlikeIn(r, v, BucketOf(key)) && CountsKnown(r, BucketOf(key))
    requires Upserted(r, r1, BucketOf(key), key, val) && 0 < MetaOf(r, BucketOf(key)).capacity
    ensures UpsertCapacity(v, BucketOf(key), key) <= BUCKET_SLOT_ID_MASK
  {
    CapacityInRange(r1, BucketOf(key));
    AlikeCounts(r, v, BucketOf(key));
    hide SessionOk, Contents;
  }

  /** The record and the replay grow a bucket alike: where the record grew it, it has read all of it,
      so the replay knows its count. */
  lemma SameGrowth(r: Session, r1: Session, v: Session, key: Key, val: Bytes)
    requires SessionOk(r) && SessionOk(v) && AlikeIn(r, v, BucketOf(key)) && CountsKnown(r, BucketOf(key))
    requires Upserted(r, r1, BucketOf(key), key, val) && UpsertCached(r, r1, BucketOf(key), key)
    requires KnowsCached(v.store, v.truth, r1.cache)
    ensures UpsertCapacity(v, BucketOf(key), key) == UpsertCapacity(r, BucketOf(key), key)
  {
    var b := BucketOf(key);
    AlikeCounts(r, v, b);
    SessionBucket(v, b);
    hide CanonicalExcept, Contents, InsertReads;
    if UpsertCapacity(r, b, key) != MetaOf(r, b).capacity {
      forall x | 0 <= x < MetaOf(v, b).capacity
        ensures Known(v, SaltKey(b, x))
      {
        CachedIsKnown(v, r1.cache, b, x);
      }
      AllKnownCountsKnown(v, b);
    }
  }

  /** Performed on sessions that are alike, a recorded operation leaves them alike. */
  lemma StepAlike(r: Session, r1: Session, v: Session, v1: Session, op: Op)
    requires OpPost(r, r1, op) && OpCached(r, r1, op) && CountsKnown(r, BucketOf(op.0))
    requires OpPost(v, v1, op) && Alike(r, v) && KnowsCached(v.store, v.truth, r1.cache)
    ensures Alike(r1, v1)
  {
    var b := BucketOf(op.0);
    OpStep(r, r1, op);
    OpStep(v, v1, op);
    assert AlikeIn(r, v, b);
    StepAlikeIn(r, r1, v, v1, op);
    hide OpPost, OpCached, SessionOk, KnowsCached, MetaOf, TabOf, KeysOf;
    forall b': DataBucketId | b' != b
      ensures AlikeIn(r1, v1, b')
    {
      assert AlikeIn(r, v, b');
      OpKeepsOthers(r, r1, op, b');
      OpKeepsOthers(v, v1, op, b');
    }
  }

  lemma StepAlikeIn(r: Session, r1: Session, v: Session, v1: Session, op: Op)
    requires OpPost(r, r1, op) && OpCached(r, r1, op) && CountsKnown(r, BucketOf(op.0))
    requires OpPost(v, v1, op) && AlikeIn(r, v, BucketOf(op.0)) && KnowsCached(v.store, v.truth, r1.cache)
    ensures AlikeIn(r1, v1, BucketOf(op.0))
  {
    var b := BucketOf(op.0);
    if op.1.Some? {
      SameGrowth(r, r1, v, op.0, op.1.value);
    }
    hide SessionOk, KnowsCached, OnlyReads, UpsertCached, DeleteCached, StepIn, UpsertCapacity;
    assert Contents(TabOf(r1, b)).Keys == KeysOf(TabOf(r1, b)) && Contents(TabOf(v1, b)).Keys == KeysOf(TabOf(v1, b));
    assert Contents(TabOf(r, b)).Keys == KeysOf(TabOf(r, b)) && Contents(TabOf(v, b)).Keys == KeysOf(TabOf(v, b));
  }
}
