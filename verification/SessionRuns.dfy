/**
 Whole runs of a session: update batches as sequences of single operations, and the
 canonicalization that ends them.
 */
module SessionRuns {
  import opened Wrappers
  import opened ShiTable
  import opened LoadFactor
  import opened SaltTypes
  import opened StateUpdatesModule
  import opened SessionView
  import opened SessionSteps

  /** A plain key and its new value; `None` deletes the key. */
  type Op = (Key, Option<Bytes>)

  ghost predicate OpPost(s0: Session, s1: Session, op: Op) {
    && SessionOk(s0) && SessionOk(s1)
    && match op.1
       case Some(val) => Upserted(s0, s1, BucketOf(op.0), op.0, val)
       case None => Deleted(s0, s1, BucketOf(op.0), op.0)
  }

  ghost predicate OpFails(s: Session, op: Op, error: SaltError) {
    if op.1.Some? then UpsertFails(s, BucketOf(op.0), op.0, error) else DeleteFails(s, BucketOf(op.0), op.0, error)
  }

  ghost predicate OpCached(s0: Session, s1: Session, op: Op) {
    if op.1.Some? then UpsertCached(s0, s1, BucketOf(op.0), op.0) else DeleteCached(s0, s1, BucketOf(op.0), op.0)
  }

  /** The sessions before, between and after the operations of a batch. */
  ghost predicate Trace(ops: seq<Op>, trace: seq<Session>) {
    && |trace| == |ops| + 1
    && SessionOk(trace[0])
    && forall i {:trigger ops[i]} :: 0 <= i < |ops| ==> OpPost(trace[i], trace[i + 1], ops[i])
  }

  ghost predicate TraceCached(ops: seq<Op>, trace: seq<Session>)
    requires |trace| == |ops| + 1
  {
    forall i {:trigger ops[i]} :: 0 <= i < |ops| ==> OpCached(trace[i], trace[i + 1], ops[i])
  }

  lemma TraceExtends(ops: seq<Op>, trace: seq<Session>, op: Op, s: Session)
    requires Trace(ops, trace) && OpPost(trace[|ops|], s, op)
    ensures Trace(ops + [op], trace + [s])
    ensures TraceCached(ops, trace) && OpCached(trace[|ops|], s, op) ==> TraceCached(ops + [op], trace + [s])
  {
    hide OpPost, OpCached, SessionOk;
    var ops', trace' := ops + [op], trace + [s];
    forall i | 0 <= i < |ops'|
      ensures OpPost(trace'[i], trace'[i + 1], ops'[i])
      ensures TraceCached(ops, trace) && OpCached(trace[|ops|], s, op) ==> OpCached(trace'[i], trace'[i + 1], ops'[i])
    {
      if i < |ops| {
        assert OpPost(trace[i], trace[i + 1], ops[i]);
        assert TraceCached(ops, trace) ==> OpCached(trace[i], trace[i + 1], ops[i]);
      }
    }
  }

  lemma TraceOk(ops: seq<Op>, trace: seq<Session>, i: nat)
    requires Trace(ops, trace) && i < |trace|
    ensures SessionOk(trace[i])
  {
    hide SessionOk;
    if i > 0 {
      assert OpPost(trace[i - 1], trace[i], ops[i - 1]);
    }
  }

  lemma TraceEnds(ops: seq<Op>, trace: seq<Session>)
    requires Trace(ops, trace)
    ensures |trace| == |ops| + 1
  {
  }

  /** What the last operation on `key`, if there is one, leaves behind. */
  ghost function AfterOps(ops: seq<Op>, key: Key, before: Option<Bytes>): Option<Bytes> {
    if ops == [] then before
    else if ops[|ops| - 1].0 == key then ops[|ops| - 1].1
    else AfterOps(ops[..|ops| - 1], key, before)
  }

  /** One operation changes the plain value of its own key, and of no other. */
  lemma OpLookup(s0: Session, s1: Session, op: Op, key: Key)
    requires OpPost(s0, s1, op)
    ensures Lookup(s1, key) == if key == op.0 then op.1 else Lookup(s0, key)
  {
    hide SessionOk, OnlyReads;
    var b := BucketOf(op.0);
    if BucketOf(key) != b {
      StepKeepsOthers(s0, s1, b, BucketOf(key));
    }
  }

  /** The plain state after a run is what the operations say. */
  lemma {:induction false} TraceLookup(ops: seq<Op>, trace: seq<Session>, key: Key)
    requires Trace(ops, trace)
    ensures Lookup(trace[|ops|], key) == AfterOps(ops, key, Lookup(trace[0], key))
  {
    hide OpPost, SessionOk, Lookup;
    if ops != [] {
      var n := |ops| - 1;
      TracePrefix(ops, trace, n);
      TraceLookup(ops[..n], trace[..n + 1], key);
      assert OpPost(trace[n], trace[n + 1], ops[n]);
      OpLookup(trace[n], trace[n + 1], ops[n], key);
    }
  }

  lemma TracePrefix(ops: seq<Op>, trace: seq<Session>, n: nat)
    requires Trace(ops, trace) && n <= |ops|
    ensures Trace(ops[..n], trace[..n + 1])
    ensures TraceCached(ops, trace) ==> TraceCached(ops[..n], trace[..n + 1])
  {
    hide OpPost, OpCached, SessionOk;
    forall i | 0 <= i < n
      ensures OpPost(trace[..n + 1][i], trace[..n + 1][i + 1], ops[..n][i])
      ensures TraceCached(ops, trace) ==> OpCached(trace[..n + 1][i], trace[..n + 1][i + 1], ops[..n][i])
    {
      assert OpPost(trace[i], trace[i + 1], ops[i]);
      assert TraceCached(ops, trace) ==> OpCached(trace[i], trace[i + 1], ops[i]);
    }
  }

  // ---------------------------------------------------------------- what a run keeps

  ghost predicate RehashedKnown(s: Session) {
    forall b :: b in s.rehashed ==> CountsKnown(s, b)
  }

  ghost predicate Loaded(s: Session, b: DataBucketId) {
    LoadOk(MetaOf(s, b).capacity, |Contents(TabOf(s, b))|)
  }

  /** Where slot counts are known, buckets are within the load factor. */
  ghost predicate AllLoaded(s: Session) {
    forall b: DataBucketId :: CountsKnown(s, b) ==> Loaded(s, b)
  }

  ghost predicate OutsideBuckets(key: SaltKey) {
    forall b: DataBucketId :: !InBucket(key, b)
  }

  /** What every operation of a run keeps besides the invariant. */
  ghost predicate RunKeeps(s0: Session, s1: Session) {
    && SameStore(s0, s1) && CacheGrows(s0, s1)
    && (Tracked(s0) ==> Tracked(s1))
    && (RehashedKnown(s0) ==> RehashedKnown(s1))
    && (AllLoaded(s0) ==> AllLoaded(s1))
    && (forall key :: OutsideBuckets(key) ==> At(s1.truth, s1.cache, key) == At(s0.truth, s0.cache, key))
  }

  lemma RunKeepsCompose(s0: Session, s1: Session, s2: Session)
    requires RunKeeps(s0, s1) && RunKeeps(s1, s2)
    ensures RunKeeps(s0, s2)
  {
    hide Tracked, RehashedKnown, AllLoaded, OutsideBuckets, At;
  }

  /** An operation touches one bucket; a change of its metadata marks the bucket, and needs its slot count. */
  lemma OpStep(s0: Session, s1: Session, op: Op)
    requires OpPost(s0, s1, op)
    ensures StepIn(s0, s1, BucketOf(op.0)) && CacheGrows(s0, s1) && SameStore(s0, s1)
    ensures BucketOf(op.0) !in s1.rehashed ==> MetaOf(s1, BucketOf(op.0)) == MetaOf(s0, BucketOf(op.0))
    ensures BucketOf(op.0) in s1.rehashed && BucketOf(op.0) !in s0.rehashed ==> CountsKnown(s0, BucketOf(op.0))
  {
    hide SessionOk, Contents, CountsKnown, ResizeCapacity;
    StepFacts(s0, s1, BucketOf(op.0));
  }

  lemma StepFacts(s0: Session, s1: Session, b: DataBucketId)
    requires StepIn(s0, s1, b)
    ensures SameStore(s0, s1) && s0.rehashed <= s1.rehashed <= s0.rehashed + {b}
  {
  }

  lemma OpKeepsLoad(s0: Session, s1: Session, op: Op)
    requires OpPost(s0, s1, op) && (CountsKnown(s0, BucketOf(op.0)) ==> Loaded(s0, BucketOf(op.0)))
    ensures CountsKnown(s1, BucketOf(op.0)) ==> Loaded(s1, BucketOf(op.0))
  {
    hide SessionOk, OnlyReads, CanonicalExcept, BucketOpen, Shape, BucketInv, CutKnown, Contents;
    var b := BucketOf(op.0);
    CapacityInRange(s0, b);
    StepFacts(s0, s1, b);
    var m0, m1 := Contents(TabOf(s0, b)), Contents(TabOf(s1, b));
    match op.1
    case Some(val) =>
      assert m1.Keys == m0.Keys + {op.0};
      assert |m1| == |m1.Keys| && |m0| == |m0.Keys|;
    case None =>
      FewerKeys(m0, op.0);
  }

  lemma FewerKeys(m: map<Key, Bytes>, key: Key)
    ensures |m - {key}| <= |m|
  {
    assert (m - {key}).Keys == m.Keys - {key};
    assert |m - {key}| == |(m - {key}).Keys| && |m| == |m.Keys|;
  }

  lemma OpKeepsOthers(s0: Session, s1: Session, op: Op, b: DataBucketId)
    requires OpPost(s0, s1, op) && b != BucketOf(op.0)
    ensures TabOf(s0, b) == TabOf(s1, b) && MetaOf(s0, b) == MetaOf(s1, b)
  {
    OpStep(s0, s1, op);
    hide OpPost;
    StepKeepsOthers(s0, s1, BucketOf(op.0), b);
  }

  lemma OpKeeps(s0: Session, s1: Session, op: Op)
    requires OpPost(s0, s1, op)
    ensures RunKeeps(s0, s1)
  {
    OpStep(s0, s1, op);
    OpKeepsTracked(s0, s1, op);
    OpKeepsRehashedKnown(s0, s1, op);
    OpKeepsAllLoaded(s0, s1, op);
    hide OpPost, Tracked, RehashedKnown, AllLoaded;
    OutsideUnchanged(s0, s1, BucketOf(op.0));
  }

  lemma OutsideUnchanged(s0: Session, s1: Session, b: DataBucketId)
    requires StepIn(s0, s1, b)
    ensures forall key :: OutsideBuckets(key) ==> At(s1.truth, s1.cache, key) == At(s0.truth, s0.cache, key)
  {
  }

  lemma OpKeepsTracked(s0: Session, s1: Session, op: Op)
    requires OpPost(s0, s1, op)
    ensures Tracked(s0) ==> Tracked(s1)
  {
    OpStep(s0, s1, op);
    StepFacts(s0, s1, BucketOf(op.0));
    hide OpPost, StepIn, MetaAt;
    forall b: DataBucketId | b !in s1.rehashed
      ensures MetaOf(s1, b) == MetaOf(s0, b)
    {
      if b != BucketOf(op.0) {
        OpKeepsOthers(s0, s1, op, b);
      }
    }
  }

  lemma OpKeepsRehashedKnown(s0: Session, s1: Session, op: Op)
    requires OpPost(s0, s1, op)
    ensures RehashedKnown(s0) ==> RehashedKnown(s1)
  {
    OpStep(s0, s1, op);
    StepFacts(s0, s1, BucketOf(op.0));
    hide OpPost, StepIn;
  }

  lemma OpKeepsAllLoaded(s0: Session, s1: Session, op: Op)
    requires OpPost(s0, s1, op)
    ensures AllLoaded(s0) ==> AllLoaded(s1)
  {
    OpStep(s0, s1, op);
    StepFacts(s0, s1, BucketOf(op.0));
    if CountsKnown(s0, BucketOf(op.0)) ==> Loaded(s0, BucketOf(op.0)) {
      OpKeepsLoad(s0, s1, op);
    }
    hide OpPost, StepIn, LoadOk, Contents;
    forall b: DataBucketId | b != BucketOf(op.0)
      ensures Loaded(s1, b) == Loaded(s0, b)
    {
      OpKeepsOthers(s0, s1, op, b);
    }
  }

  /** Every run keeps the load factor, the marks of rehashed buckets, and what no bucket holds. */
  lemma {:induction false} TraceKeeps(ops: seq<Op>, trace: seq<Session>)
    requires Trace(ops, trace)
    ensures RunKeeps(trace[0], trace[|ops|])
  {
    hide OpPost, SessionOk, RunKeeps;
    if ops == [] {
      RunKeepsNothing(trace[0]);
    } else {
      var n := |ops| - 1;
      TracePrefix(ops, trace, n);
      TraceKeeps(ops[..n], trace[..n + 1]);
      assert OpPost(trace[n], trace[n + 1], ops[n]);
      OpKeeps(trace[n], trace[n + 1], ops[n]);
      RunKeepsCompose(trace[0], trace[n], trace[n + 1]);
    }
  }

  lemma RunKeepsNothing(s: Session)
    ensures RunKeeps(s, s)
  {
  }

  // ---------------------------------------------------------------- forced expansion

  /** An upsert that began at `s0` has probed every slot and found no place: the branch that expands the bucket by force. */
  ghost predicate ForcedAt(s0: Session, s: Session, b: DataBucketId, key: Key, val: Bytes, e: Entry) {
    SessionOk(s0) && InsertingIn(s0, s, b, key, val, e, |TabOf(s0, b)|)
  }

  /** Only an upsert that begins over the load factor gets there, and then the slot count is known. */
  lemma ForcedMeansOverloaded(s0: Session, s: Session, b: DataBucketId, key: Key, val: Bytes, e: Entry)
    requires ForcedAt(s0, s, b, key, val, e)
    ensures CountsKnown(s0, b) && !Loaded(s0, b)
  {
    InsertFindsFull(s0, s, b, key, val, e);
    hide SessionOk, InsertingIn, Contents;
  }

  /**
   No operation of a run gets there when the run starts with every bucket of known count within
   its load factor, over a full store and over a witness.
   */
  lemma NeverForced(ops: seq<Op>, trace: seq<Session>, i: nat, s: Session, b: DataBucketId, key: Key, val: Bytes, e: Entry)
    requires Trace(ops, trace) && AllLoaded(trace[0]) && i <= |ops|
    ensures !ForcedAt(trace[i], s, b, key, val, e)
  {
    TracePrefix(ops, trace, i);
    TraceKeeps(ops[..i], trace[..i + 1]);
    hide OpPost, ForcedAt;
    assert CountsKnown(trace[i], b) ==> Loaded(trace[i], b);
    if ForcedAt(trace[i], s, b, key, val, e) {
      ForcedMeansOverloaded(trace[i], s, b, key, val, e);
    }
  }

  // ---------------------------------------------------------------- canonicalization

  /** The capacity a bucket is due for its number of pairs: grown from the stored one, as far as its count is known. */
  ghost function DueCapacity(s: Session, b: DataBucketId, n: nat): nat {
    var base := BaseMeta(s.truth, b).capacity;
    if base == 0 || !CountsKnown(s, b) then base else ResizeCapacity(base, n)
  }

  /** Nonce and capacity are what the stored metadata and the present pairs ask for. */
  ghost predicate Settled(s: Session, b: DataBucketId) {
    MetaOf(s, b) == BucketMeta(BaseMeta(s.truth, b).nonce, DueCapacity(s, b, |Contents(TabOf(s, b))|), None)
  }

  /** `canonicalize`: every rehashed bucket keeps its pairs and is settled; the others are left alone. */
  ghost predicate Canonicalized(s0: Session, s1: Session) {
    && SameStore(s0, s1) && SessionOk(s1) && s1.rehashed == {}
    && (forall b: DataBucketId :: b in s0.rehashed ==> Settled(s1, b) && Contents(TabOf(s1, b)) == Contents(TabOf(s0, b)))
    && (forall b: DataBucketId :: b !in s0.rehashed ==> MetaOf(s1, b) == MetaOf(s0, b) && TabOf(s1, b) == TabOf(s0, b))
    && (forall key :: OutsideBuckets(key) ==> At(s1.truth, s1.cache, key) == At(s0.truth, s0.cache, key))
  }
}
