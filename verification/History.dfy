/**
 History independence over whole runs: the state that update batches and a canonicalization
 leave behind, and the log of its changes, depend only on the plain pairs.
 */
module History {
  import opened Wrappers
  import opened ShiTable
  import opened LoadFactor
  import opened SaltTypes
  import opened StateUpdatesModule
  import opened SessionView
  import opened SessionSteps
  import opened SessionRuns
  import opened Canonicalization
  import opened EphemeralState
  import opened MemStoreModule

  /** Operations `ops` on a new session, and the canonicalization after them. */
  ghost predicate IsRun(store: Store, truth: Kvs, ops: seq<Op>, trace: seq<Session>, final: Session) {
    && Trace(ops, trace)
    && trace[0] == Session(store, truth, trace[0].cacheRead, map[], map[], {})
    && Canonicalized(trace[|ops|], final)
  }

  ghost predicate BaseLoaded(truth: Kvs) {
    forall b: DataBucketId :: LoadOk(BaseMeta(truth, b).capacity, |Contents(BaseTab(truth, b))|)
  }

  /** The stored plain value of a key. */
  ghost function StoredValue(truth: Kvs, key: Key): Option<Bytes> {
    MapGet(Contents(BaseTab(truth, BucketOf(key))), key)
  }

  /** Two sessions that agree on the plain pairs and on every nonce and capacity show the same state, slot by slot. */
  lemma SamePairsSameView(f1: Session, f2: Session)
    requires SessionOk(f1) && SessionOk(f2) && f1.truth == f2.truth
    requires forall b: DataBucketId :: MetaOf(f1, b) == MetaOf(f2, b)
    requires forall key :: Lookup(f1, key) == Lookup(f2, key)
    requires forall key :: OutsideBuckets(key) ==> At(f1.truth, f1.cache, key) == At(f2.truth, f2.cache, key)
    ensures forall b: DataBucketId :: TabOf(f1, b) == TabOf(f2, b)
    ensures SameView(ViewOf(f1.truth, f1.cache), ViewOf(f2.truth, f2.cache))
  {
    forall b: DataBucketId
      ensures TabOf(f1, b) == TabOf(f2, b)
    {
      SamePairsSameTable(f1, f2, b);
    }
    forall key
      ensures At(f1.truth, f1.cache, key) == At(f2.truth, f2.cache, key)
    {
      if !OutsideBuckets(key) {
        var b: DataBucketId :| InBucket(key, b);
        SameTableSameKey(f1, f2, b, key);
      }
    }
  }

  lemma SamePairsSameTable(f1: Session, f2: Session, b: DataBucketId)
    requires SessionOk(f1) && SessionOk(f2)
    requires MetaOf(f1, b) == MetaOf(f2, b)
    requires forall key :: Lookup(f1, key) == Lookup(f2, key)
    ensures TabOf(f1, b) == TabOf(f2, b)
  {
    SessionBucket(f1, b);
    SessionBucket(f2, b);
    SameKeysHeld(f1, f2, b);
    CanonicalUnique(TabOf(f1, b), TabOf(f2, b), MetaOf(f1, b).nonce);
  }

  lemma KeysInTheirBucket(s: Session, b: DataBucketId, k: Key)
    requires Shape(s.truth, s.cache, b)
    ensures k in Contents(TabOf(s, b)) ==> BucketOf(k) == b
  {
    if k in Contents(TabOf(s, b)) {
      EntryBelongs(s, b, SlotOf(TabOf(s, b), k));
    }
  }

  lemma SameTableSameKey(f1: Session, f2: Session, b: DataBucketId, key: SaltKey)
    requires SessionOk(f1) && SessionOk(f2) && InBucket(key, b)
    requires MetaOf(f1, b) == MetaOf(f2, b) && TabOf(f1, b) == TabOf(f2, b)
    ensures At(f1.truth, f1.cache, key) == At(f2.truth, f2.cache, key)
  {
    SessionBucket(f1, b);
    SessionBucket(f2, b);
    hide SessionOk, CanonicalExcept;
    if key.bucket == b {
      SlotShown(f1, b, key.slot);
      SlotShown(f2, b, key.slot);
    }
  }

  /** After a run every bucket is settled, the plain pairs are what the operations say, and the rest of the state is untouched. */
  lemma RunSettles(store: Store, truth: Kvs, ops: seq<Op>, trace: seq<Session>, final: Session)
    requires IsRun(store, truth, ops, trace, final) && store.Full? && BaseLoaded(truth)
    ensures SessionOk(final) && SameStore(trace[0], final)
    ensures forall b: DataBucketId :: Settled(final, b)
    ensures forall key :: Lookup(final, key) == AfterOps(ops, key, StoredValue(truth, key))
    ensures forall key :: OutsideBuckets(key) ==> At(final.truth, final.cache, key) == At(truth, map[], key)
  {
    var last := trace[|ops|];
    TraceKeeps(ops, trace);
    FreshKeeps(trace[0], store, truth);
    forall b: DataBucketId
      ensures Settled(final, b)
      ensures Contents(TabOf(final, b)) == Contents(TabOf(last, b))
    {
      if b !in last.rehashed {
        UnmarkedSettled(last, b);
        SettledSame(last, final, b);
      }
    }
    hide SessionOk, Settled, OutsideBuckets, At, Tracked, AllLoaded, RehashedKnown, CacheGrows;
    forall key
      ensures Lookup(final, key) == AfterOps(ops, key, StoredValue(truth, key))
    {
      TraceLookup(ops, trace, key);
    }
  }

  lemma FreshKeeps(s: Session, store: Store, truth: Kvs)
    requires s == Session(store, truth, s.cacheRead, map[], map[], {})
    ensures Tracked(s) && RehashedKnown(s)
    ensures BaseLoaded(truth) ==> AllLoaded(s)
    ensures forall key :: Lookup(s, key) == StoredValue(truth, key)
  {
  }

  /** Whatever a session does on a state within the load factor, read from a full store or a witness, no upsert expands a bucket by force. */
  lemma FreshNeverForced(store: Store, truth: Kvs, ops: seq<Op>, trace: seq<Session>, i: nat, s: Session, b: DataBucketId, key: Key, val: Bytes, e: Entry)
    requires Trace(ops, trace) && BaseLoaded(truth) && i <= |ops|
    requires trace[0] == Session(store, truth, trace[0].cacheRead, map[], map[], {})
    ensures !ForcedAt(trace[i], s, b, key, val, e)
  {
    FreshKeeps(trace[0], store, truth);
    hide BaseLoaded, OpPost, ForcedAt, AllLoaded;
    NeverForced(ops, trace, i, s, b, key, val, e);
  }

  /** A bucket that was never rehashed is within the load factor of its stored capacity, so it is settled. */
  lemma UnmarkedSettled(s: Session, b: DataBucketId)
    requires Tracked(s) && AllLoaded(s) && b !in s.rehashed
    requires CountsKnown(s, b)
    ensures Settled(s, b)
  {
    hide Contents;
    assert Loaded(s, b);
  }

  /**
   History independence: any two sequences of update batches on the same pairs that end in a
   canonicalization and reach the same plain pairs leave the same slots, nonces and capacities,
   and the same log.
   */
  lemma HistoryIndependence(truth: Kvs,
                            store1: Store, ops1: seq<Op>, trace1: seq<Session>, final1: Session, log1: Log,
                            store2: Store, ops2: seq<Op>, trace2: seq<Session>, final2: Session, log2: Log)
    requires store1.Full? && store2.Full? && BaseLoaded(truth)
    requires IsRun(store1, truth, ops1, trace1, final1) && IsRun(store2, truth, ops2, trace2, final2)
    requires forall key :: AfterOps(ops1, key, StoredValue(truth, key)) == AfterOps(ops2, key, StoredValue(truth, key))
    requires IsDiff(log1, BaseView(truth), ViewOf(final1.truth, final1.cache))
    requires IsDiff(log2, BaseView(truth), ViewOf(final2.truth, final2.cache))
    ensures forall b: DataBucketId :: TabOf(final1, b) == TabOf(final2, b) && MetaOf(final1, b) == MetaOf(final2, b)
    ensures SameView(ViewOf(final1.truth, final1.cache), ViewOf(final2.truth, final2.cache))
    ensures log1 == log2
  {
    RunSettles(store1, truth, ops1, trace1, final1);
    RunSettles(store2, truth, ops2, trace2, final2);
    hide IsRun, SessionOk, BaseLoaded;
    forall b: DataBucketId
      ensures MetaOf(final1, b) == MetaOf(final2, b)
    {
      SettledMeta(final1, final2, b);
    }
    hide IsDiff, Settled, At, MetaOf, TabOf, AfterOps, StoredValue, Lookup;
    SamePairsSameView(final1, final2);
    DiffOfSame(log2, BaseView(truth), ViewOf(final2.truth, final2.cache), BaseView(truth), ViewOf(final1.truth, final1.cache));
    DiffUnique(log1, log2, BaseView(truth), ViewOf(final1.truth, final1.cache));
  }

  /** Settled buckets with the same number of pairs have the same nonce and capacity. */
  lemma SettledMeta(f1: Session, f2: Session, b: DataBucketId)
    requires SessionOk(f1) && SessionOk(f2) && f1.truth == f2.truth && CountsKnown(f1, b) && CountsKnown(f2, b) && Settled(f1, b) && Settled(f2, b)
    requires forall key :: Lookup(f1, key) == Lookup(f2, key)
    ensures MetaOf(f1, b) == MetaOf(f2, b)
  {
    SameKeysHeld(f1, f2, b);
    hide SessionOk, Contents;
  }

  lemma SameKeysHeld(f1: Session, f2: Session, b: DataBucketId)
    requires SessionOk(f1) && SessionOk(f2)
    requires forall key :: Lookup(f1, key) == Lookup(f2, key)
    ensures Contents(TabOf(f1, b)) == Contents(TabOf(f2, b))
  {
    hide *;
    SessionBucket(f1, b);
    SessionBucket(f2, b);
    forall k
      ensures MapGet(Contents(TabOf(f1, b)), k) == MapGet(Contents(TabOf(f2, b)), k)
    {
      HeldIsLookup(f1, b, k);
      HeldIsLookup(f2, b, k);
    }
    MapsAgree(Contents(TabOf(f1, b)), Contents(TabOf(f2, b)));
  }

  ghost function MapGet(m: map<Key, Bytes>, k: Key): Option<Bytes> {
    if k in m then Some(m[k]) else None
  }

  lemma HeldIsLookup(s: Session, b: DataBucketId, k: Key)
    requires Shape(s.truth, s.cache, b)
    ensures MapGet(Contents(TabOf(s, b)), k) == if BucketOf(k) == b then Lookup(s, k) else None
  {
    KeysInTheirBucket(s, b, k);
    hide Contents;
  }

  lemma MapsAgree(m1: map<Key, Bytes>, m2: map<Key, Bytes>)
    requires forall k :: MapGet(m1, k) == MapGet(m2, k)
    ensures m1 == m2
  {
    forall k
      ensures k in m1 <==> k in m2
      ensures k in m1 ==> m1[k] == m2[k]
    {
      assert MapGet(m1, k) == MapGet(m2, k);
    }
  }
}
