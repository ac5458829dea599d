/** Blocks of update batches over the in-memory store, one after another. */
module Blocks {
  import opened Wrappers
  import opened ShiTable
  import opened LoadFactor
  import opened SaltTypes
  import opened StateUpdatesModule
  import opened SessionView
  import opened SessionSteps
  import opened SessionRuns
  import opened Canonicalization
  import opened EphemeralState
  import opened MemStoreModule
  import opened History

  ghost function Flatten<T>(batches: seq<seq<T>>): seq<T> {
    if batches == [] then [] else Flatten(batches[..|batches| - 1]) + batches[|batches| - 1]
  }

  /** Consecutive runs make one run. */
  lemma TraceJoin(ops1: seq<Op>, trace1: seq<Session>, ops2: seq<Op>, trace2: seq<Session>)
    requires Trace(ops1, trace1) && Trace(ops2, trace2) && trace1[|ops1|] == trace2[0]
    ensures Trace(ops1 + ops2, trace1 + trace2[1..])
    ensures (trace1 + trace2[1..])[|ops1 + ops2|] == trace2[|ops2|]
  {
    hide OpPost, SessionOk;
    var ops, trace := ops1 + ops2, trace1 + trace2[1..];
    forall i | 0 <= i < |ops|
      ensures OpPost(trace[i], trace[i + 1], ops[i])
    {
      if i < |ops1| {
        assert OpPost(trace1[i], trace1[i + 1], ops1[i]);
      } else {
        assert OpPost(trace2[i - |ops1|], trace2[i - |ops1| + 1], ops2[i - |ops1|]);
      }
    }
  }

  lemma {:induction false} AfterOpsJoin(ops1: seq<Op>, ops2: seq<Op>, key: Key, before: Option<Bytes>)
    ensures AfterOps(ops1 + ops2, key, before) == AfterOps(ops2, key, AfterOps(ops1, key, before))
  {
    if ops2 == [] {
      assert ops1 + ops2 == ops1;
    } else {
      var n := |ops2| - 1;
      AfterOpsJoin(ops1, ops2[..n], key, before);
      assert (ops1 + ops2)[..|ops1 + ops2| - 1] == ops1 + ops2[..n];
    }
  }

  /** Over a full store an operation fails only by the range of the capacity. */
  lemma FullStoreFails(s: Session, op: Op, error: SaltError)
    requires s.store.Full? && SessionOk(s) && OpFails(s, op, error)
    ensures error == CapacityPanic
  {
    var b := BucketOf(op.0);
    CountsKnownNeeds(s, b);
    hide SessionOk, OnInsertPath, OnDeletePath;
  }

  /** The session of a run so far, and the merged log of its batches. */
  ghost predicate Running(store: Store, truth: Kvs, ops: seq<Op>, trace: seq<Session>, s: Session, log: Log) {
    && Trace(ops, trace)
    && trace[0] == Session(store, truth, false, map[], map[], {}) && trace[|ops|] == s
    && SessionOk(s) && SameStore(trace[0], s)
    && IsDiff(log, BaseView(truth), ViewOf(s.truth, s.cache))
  }

  lemma RunningStarts(store: Store, truth: Kvs, s: Session)
    requires SessionOk(s) && s == Session(store, truth, false, map[], map[], {})
    ensures Running(store, truth, [], [s], s, map[])
  {
    EmptyDiff(BaseView(truth));
    DiffOfSame(map[], BaseView(truth), BaseView(truth), BaseView(truth), ViewOf(s.truth, s.cache));
  }

  lemma RunningGoesOn(store: Store, truth: Kvs, ops: seq<Op>, trace: seq<Session>, s: Session, log: Log,
                      ops1: seq<Op>, trace1: seq<Session>, s1: Session, log1: Log, merged: Log)
    requires Running(store, truth, ops, trace, s, log)
    requires Trace(ops1, trace1) && trace1[0] == s && trace1[|ops1|] == s1
    requires IsDiff(log1, ViewOf(s.truth, s.cache), ViewOf(s1.truth, s1.cache))
    ensures AllChain(log, log1)
    ensures IsMerge(log, log1, merged) ==> Running(store, truth, ops + ops1, trace + trace1[1..], s1, merged)
  {
    TraceJoin(ops, trace, ops1, trace1);
    TraceKeeps(ops1, trace1);
    TraceOk(ops1, trace1, |ops1|);
    hide SessionOk, OpPost, At, IsDiff, IsMerge, AllChain, Trace;
    MergeComposes(log, log1, merged, BaseView(truth), ViewOf(s.truth, s.cache), ViewOf(s1.truth, s1.cache));
  }

  /** Runs the batches of a block in a new session and canonicalizes; returns the merged log. */
  method ProduceBlock(store: Store, ghost truth: Kvs, batches: seq<seq<Op>>)
    returns (r: Result<StateUpdates, SaltError>, ghost trace: seq<Session>, ghost final: Session)
    requires store.Full? && Agrees(store, truth) && TruthOk(truth)
    ensures r.Success? ==> fresh(r.value) && IsRun(store, truth, Flatten(batches), trace, final)
    ensures r.Success? ==> IsDiff(r.value.data, BaseView(truth), ViewOf(final.truth, final.cache))
    ensures r.Failure? ==> r.error == CapacityPanic
  {
    hide TruthOk, Agrees, SessionOk, Trace, IsDiff, OpFails, ReplayFails, Canonicalized, Running, IsMerge, AllChain, IsRun;
    var state := new EphemeralSaltState(store, false, truth);
    var updates := new StateUpdates();
    trace := [state.Snap()];
    final := state.Snap();
    RunningStarts(store, truth, state.Snap());
    for i := 0 to |batches|
      invariant fresh(state) && fresh(updates)
      invariant Running(store, truth, Flatten(batches[..i]), trace, state.Snap(), updates.data)
    {
      RunningFacts(store, truth, Flatten(batches[..i]), trace, state.Snap(), updates.data);
      ghost var s, log := state.Snap(), updates.data;
      var batch, trace1 := state.Update(batches[i]);
      if batch.Failure? {
        BatchFails(batches[i], trace1, batch.error);
        return Failure(batch.error), trace, final;
      }
      TraceEnds(batches[i], trace1);
      RunningGoesOn(store, truth, Flatten(batches[..i]), trace, s, log, batches[i], trace1, state.Snap(), batch.value.data, log);
      var merged := updates.TryMerge(batch.value.data);
      RunningGoesOn(store, truth, Flatten(batches[..i]), trace, s, log, batches[i], trace1, state.Snap(), batch.value.data, updates.data);
      trace := trace + trace1[1..];
      FlattenNext(batches, i);
    }
    assert batches[..|batches|] == batches;
    r, final := FinishBlock(state, updates, store, truth, Flatten(batches), trace);
  }

  /** The canonicalization at the end of a block. */
  method FinishBlock(state: EphemeralSaltState, updates: StateUpdates, store: Store, ghost truth: Kvs, ghost ops: seq<Op>, ghost trace: seq<Session>)
    returns (r: Result<StateUpdates, SaltError>, ghost final: Session)
    requires store.Full? && Running(store, truth, ops, trace, state.Snap(), updates.data)
    modifies state, updates
    ensures r.Success? ==> r.value == updates && IsRun(store, truth, ops, trace, final)
    ensures r.Success? ==> IsDiff(updates.data, BaseView(truth), ViewOf(final.truth, final.cache))
    ensures r.Failure? ==> r.error == CapacityPanic
  {
    ghost var s, log := state.Snap(), updates.data;
    RunningFacts(store, truth, ops, trace, s, log);
    hide TruthOk, Agrees, SessionOk, Trace, IsDiff, ReplayFails, Canonicalized, Running, IsMerge, AllChain, At;
    var canonical := state.Canonicalize();
    final := state.Snap();
    if canonical.Failure? {
      FullReplayFails(s, canonical.error);
      return Failure(canonical.error), final;
    }
    MergeComposes(log, canonical.value.data, log, BaseView(truth), ViewOf(s.truth, s.cache), ViewOf(final.truth, final.cache));
    var merged := updates.TryMerge(canonical.value.data);
    MergeComposes(log, canonical.value.data, updates.data, BaseView(truth), ViewOf(s.truth, s.cache), ViewOf(final.truth, final.cache));
    r := Success(updates);
  }

  lemma RunningFacts(store: Store, truth: Kvs, ops: seq<Op>, trace: seq<Session>, s: Session, log: Log)
    requires Running(store, truth, ops, trace, s, log)
    ensures SessionOk(s) && s.store == store && s.truth == truth && |trace| == |ops| + 1 && trace[|ops|] == s && Trace(ops, trace)
    ensures trace[0] == Session(store, truth, false, map[], map[], {})
    ensures IsDiff(log, BaseView(truth), ViewOf(s.truth, s.cache))
  {
  }

  lemma BatchFails(ops: seq<Op>, trace: seq<Session>, error: SaltError)
    requires 0 < |trace| <= |ops| && Trace(ops[..|trace| - 1], trace) && trace[0].store.Full?
    requires OpFails(trace[|trace| - 1], ops[|trace| - 1], error)
    ensures error == CapacityPanic
  {
    TraceKeeps(ops[..|trace| - 1], trace);
    TraceOk(ops[..|trace| - 1], trace, |trace| - 1);
    hide SessionOk, OpFails, OpPost;
    FullStoreFails(trace[|trace| - 1], ops[|trace| - 1], error);
  }

  lemma FullReplayFails(s: Session, error: SaltError)
    requires s.store.Full? && exists b :: b in s.rehashed && ReplayFails(s, b, error)
    ensures error == CapacityPanic
  {
  }

  lemma FlattenNext<T>(batches: seq<seq<T>>, i: nat)
    requires i < |batches|
    ensures Flatten(batches[..i + 1]) == Flatten(batches[..i]) + batches[i]
  {
    assert batches[..i + 1][..i] == batches[..i];
  }

  // ---------------------------------------------------------------- chains of blocks

  /** The store after a block is again sound and within the load factor, and holds what the block's operations say. */
  lemma BlockKeepsStore(store: Store, truth: Kvs, ops: seq<Op>, trace: seq<Session>, final: Session, kvs: Kvs)
    requires IsRun(store, truth, ops, trace, final) && store.Full? && BaseLoaded(truth)
    requires SameView(BaseView(kvs), ViewOf(final.truth, final.cache))
    ensures BaseLoaded(kvs)
    ensures forall key :: StoredValue(kvs, key) == AfterOps(ops, key, StoredValue(truth, key))
  {
    RunSettles(store, truth, ops, trace, final);
    SameViewTruthOk(final, kvs);
    TraceEnds(ops, trace);
    TraceKeeps(ops, trace);
    hide SameView, OpPost, Trace, Canonicalized;
    forall b: DataBucketId
      ensures LoadOk(BaseMeta(kvs, b).capacity, |Contents(BaseTab(kvs, b))|)
    {
      SettledIsLoaded(final, b);
    }
    hide SessionOk, Settled, AfterOps;
    forall key
      ensures StoredValue(kvs, key) == Lookup(final, key)
    {
    }
  }

  lemma SettledIsLoaded(s: Session, b: DataBucketId)
    requires SessionOk(s) && Settled(s, b) && CountsKnown(s, b)
    ensures Loaded(s, b)
  {
    SessionBucket(s, b);
    BaseOk(s, b);
    hide SessionOk, Contents, CanonicalExcept;
  }

  /**
   A chain of blocks over the in-memory store. However many blocks are applied, the store stays
   canonical, correctly counted and within the load factor, and holds the plain pairs that all
   operations together say.
   */
  method RunChain(mem: MemStore, blocks: seq<seq<seq<Op>>>) returns (r: Result<(), SaltError>)
    requires mem.Valid() && BaseLoaded(mem.state.kvs)
    modifies mem
    ensures r.Success? ==> mem.Valid() && BaseLoaded(mem.state.kvs)
    ensures r.Success? ==> forall key ::
      StoredValue(mem.state.kvs, key) == AfterOps(Flatten(Flatten(blocks)), key, StoredValue(old(mem.state.kvs), key))
    ensures r.Failure? ==> r.error == CapacityPanic
  {
    hide TruthOk, Agrees, BaseLoaded, SessionOk, Trace, IsDiff, Canonicalized, StoredValue, AfterOps, SameView;
    ghost var kvs0 := mem.state.kvs;
    NoOps(kvs0);
    for i := 0 to |blocks|
      invariant mem.Valid() && BaseLoaded(mem.state.kvs)
      invariant HoldsAfter(kvs0, mem.state.kvs, Flatten(Flatten(blocks[..i])))
    {
      ghost var kvs := mem.state.kvs;
      var updates, trace, final := ProduceBlock(Full(mem.state), kvs, blocks[i]);
      if updates.Failure? {
        return Failure(updates.error);
      }
      RunFacts(Full(mem.state), kvs, Flatten(blocks[i]), trace, final);
      mem.UpdateState(updates.value.data, final);
      BlockKeepsStore(trace[0].store, kvs, Flatten(blocks[i]), trace, final, mem.state.kvs);
      HoldsNext(kvs0, kvs, mem.state.kvs, Flatten(Flatten(blocks[..i])), Flatten(blocks[i]));
      FlattenNext(blocks, i);
      FlattenJoin(Flatten(blocks[..i]), blocks[i]);
    }
    assert blocks[..|blocks|] == blocks;
    r := Success(());
  }

  /**
   Two producers on equal stores, each with its own batches: when the batches of both reach the
   same plain pairs, both publish the same log and end with the same stored map.
   */
  method TwoProducers(mem1: MemStore, mem2: MemStore, batches1: seq<seq<Op>>, batches2: seq<seq<Op>>)
    returns (r1: Result<StateUpdates, SaltError>, r2: Result<StateUpdates, SaltError>)
    requires mem1 != mem2 && mem1.Valid() && mem2.Valid() && BaseLoaded(mem1.state.kvs) && mem1.state.kvs == mem2.state.kvs
    requires forall key :: AfterOps(Flatten(batches1), key, StoredValue(mem1.state.kvs, key))
                        == AfterOps(Flatten(batches2), key, StoredValue(mem1.state.kvs, key))
    modifies mem1, mem2
    ensures r1.Success? && r2.Success? ==> r1.value.data == r2.value.data && mem1.state.kvs == mem2.state.kvs
    ensures r1.Success? && r2.Success? ==> mem1.Valid() && mem2.Valid() && BaseLoaded(mem1.state.kvs)
    ensures r1.Failure? ==> r1.error == CapacityPanic
    ensures r2.Failure? ==> r2.error == CapacityPanic
  {
    hide TruthOk, Agrees, BaseLoaded, SessionOk, Trace, IsDiff, Canonicalized, StoredValue, AfterOps, SameView, IsRun, Flatten, ApplyKvs;
    ghost var kvs := mem1.state.kvs;
    ghost var trace1, final1, trace2, final2;
    r1, trace1, final1 := ProduceBlock(Full(mem1.state), kvs, batches1);
    r2, trace2, final2 := ProduceBlock(Full(mem2.state), kvs, batches2);
    if r1.Success? && r2.Success? {
      RunFacts(Full(mem1.state), kvs, Flatten(batches1), trace1, final1);
      RunFacts(Full(mem2.state), kvs, Flatten(batches2), trace2, final2);
      HistoryIndependence(kvs, Full(mem1.state), Flatten(batches1), trace1, final1, r1.value.data,
                          Full(mem2.state), Flatten(batches2), trace2, final2, r2.value.data);
      mem1.UpdateState(r1.value.data, final1);
      mem2.UpdateState(r2.value.data, final2);
      BlockKeepsStore(trace1[0].store, kvs, Flatten(batches1), trace1, final1, mem1.state.kvs);
    }
  }

  /** A log for which rolling back leaves a default behind is one that `set_nonce` makes. */
  method NewNonceOnEmptyStore(b: DataBucketId, cacheRead: bool) returns (updates: StateUpdates)
    ensures updates.data == NewNonceLog(b)
  {
    hide SessionOk, IsDiff, Rehashed, NewNonceLog, CountsKnown, TruthOk, Agrees;
    EmptyStoreOk();
    var store := Full(StateStore(map[], map[]));
    var state := new EphemeralSaltState(store, cacheRead, map[]);
    ghost var s0 := state.Snap();
    FullCountsKnown(s0, b);
    var r := state.SetNonce(b, 1);
    RollbackLeavesDefault(b, s0, state.Snap());
    updates := r.value;
    DiffUnique(updates.data, NewNonceLog(b), BaseView(map[]), ViewOf(state.Snap().truth, state.Snap().cache));
  }

  lemma FullCountsKnown(s: Session, b: DataBucketId)
    requires s.store.Full?
    ensures CountsKnown(s, b)
  {
  }

  ghost predicate HoldsAfter(kvs0: Kvs, kvs: Kvs, ops: seq<Op>) {
    forall key :: StoredValue(kvs, key) == AfterOps(ops, key, StoredValue(kvs0, key))
  }

  lemma NoOps(kvs: Kvs)
    ensures HoldsAfter(kvs, kvs, Flatten(Flatten([])))
  {
    hide StoredValue;
  }

  lemma HoldsNext(kvs0: Kvs, kvs: Kvs, kvs1: Kvs, ops: seq<Op>, ops1: seq<Op>)
    requires HoldsAfter(kvs0, kvs, ops) && HoldsAfter(kvs, kvs1, ops1)
    ensures HoldsAfter(kvs0, kvs1, ops + ops1)
  {
    hide StoredValue, AfterOps;
    forall key
      ensures StoredValue(kvs1, key) == AfterOps(ops + ops1, key, StoredValue(kvs0, key))
    {
      AfterOpsJoin(ops, ops1, key, StoredValue(kvs0, key));
    }
  }

  lemma {:induction false} FlattenJoin<T>(a: seq<seq<T>>, b: seq<seq<T>>)
    ensures Flatten(a + b) == Flatten(a) + Flatten(b)
  {
    if b == [] {
      assert a + b == a;
    } else {
      var n := |b| - 1;
      FlattenJoin(a, b[..n]);
      assert (a + b)[..|a + b| - 1] == a + b[..n];
    }
  }

  lemma RunFacts(store: Store, truth: Kvs, ops: seq<Op>, trace: seq<Session>, final: Session)
    requires IsRun(store, truth, ops, trace, final)
    ensures SessionOk(final) && final.truth == truth && |trace| > 0 && trace[0].store == store
  {
    TraceKeeps(ops, trace);
    hide SessionOk, OpPost;
  }
}
