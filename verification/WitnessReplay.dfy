/**
 Witnesses: which keys `Witness::create` records, and why a validator that holds nothing else
 reproduces the block producer's changes.
 */
module WitnessReplay {
  import opened Wrappers
  import opened ShiTable
  import opened LoadFactor
  import opened SaltTypes
  import opened StateUpdatesModule
  import opened SessionView
  import opened SessionSteps
  import opened SessionRuns
  import opened Canonicalization
  import opened EphemeralState
  import opened MemStoreModule
  import opened History
  import opened Blocks
  import opened SameLayout

  // ---------------------------------------------------------------- updates, inserts and deletes

  /** An update: the key is stored, and gets a new value. */
  ghost predicate IsUpdate(truth: Kvs, op: Op) {
    op.1.Some? && StoredValue(truth, op.0).Some?
  }

  ghost function Updates(truth: Kvs, ops: seq<Op>): (r: seq<Op>)
    ensures forall i :: 0 <= i < |r| ==> IsUpdate(truth, r[i])
  {
    if ops == [] then []
    else
      var n := |ops| - 1;
      if IsUpdate(truth, ops[n]) then Updates(truth, ops[..n]) + [ops[n]] else Updates(truth, ops[..n])
  }

  ghost function InsertsOrDeletes(truth: Kvs, ops: seq<Op>): seq<Op> {
    if ops == [] then []
    else
      var n := |ops| - 1;
      if IsUpdate(truth, ops[n]) then InsertsOrDeletes(truth, ops[..n]) else InsertsOrDeletes(truth, ops[..n]) + [ops[n]]
  }

  /** The keys of a sorted map occur once. */
  ghost predicate DistinctOps(ops: seq<Op>) {
    forall i, j :: 0 <= i < j < |ops| ==> ops[i].0 != ops[j].0
  }

  ghost predicate Concerns(ops: seq<Op>, key: Key) {
    exists i :: 0 <= i < |ops| && ops[i].0 == key
  }

  lemma {:induction false} NotConcerned(ops: seq<Op>, key: Key, before: Option<Bytes>)
    requires !Concerns(ops, key)
    ensures AfterOps(ops, key, before) == before
  {
    if ops != [] {
      assert ops[|ops| - 1].0 != key;
      NotConcerned(ops[..|ops| - 1], key, before);
    }
  }

  lemma {:induction false} PartsConcern(truth: Kvs, ops: seq<Op>, key: Key)
    ensures Concerns(Updates(truth, ops), key) || Concerns(InsertsOrDeletes(truth, ops), key) ==> Concerns(ops, key)
  {
    if ops != [] {
      var n := |ops| - 1;
      PartsConcern(truth, ops[..n], key);
      assert ops[n].0 == key ==> Concerns(ops, key);
      assert Concerns(ops[..n], key) ==> Concerns(ops, key);
    }
  }

  /** Doing the updates first changes nothing of the plain state that a batch with distinct keys leaves. */
  lemma {:induction false} UpdatesFirst(truth: Kvs, ops: seq<Op>, key: Key, before: Option<Bytes>)
    requires DistinctOps(ops)
    ensures AfterOps(InsertsOrDeletes(truth, ops), key, AfterOps(Updates(truth, ops), key, before)) == AfterOps(ops, key, before)
  {
    if ops != [] {
      var n := |ops| - 1;
      var rest := ops[..n];
      UpdatesFirst(truth, rest, key, before);
      if ops[n].0 == key {
        assert !Concerns(rest, key);
        PartsConcern(truth, rest, key);
        NotConcerned(InsertsOrDeletes(truth, rest), key, ops[n].1);
      }
      if IsUpdate(truth, ops[n]) {
        assert (Updates(truth, rest) + [ops[n]])[..|Updates(truth, rest)|] == Updates(truth, rest);
      } else {
        assert (InsertsOrDeletes(truth, rest) + [ops[n]])[..|InsertsOrDeletes(truth, rest)|] == InsertsOrDeletes(truth, rest);
      }
    }
  }

  // ---------------------------------------------------------------- what a witness covers

  ghost function NewSession(store: Store, truth: Kvs, cacheRead: bool): Session {
    Session(store, truth, cacheRead, map[], map[], {})
  }

  /** The direct table leads to the stored slot of a key, and the witness knows the slot. */
  ghost predicate Directs(w: Witness, truth: Kvs, key: Key) {
    var b := BucketOf(key);
    && key in w.directLookupTbl && w.directLookupTbl[key] in w.kvs
    && w.directLookupTbl[key].bucket == b
    && IsAt(BaseTab(truth, b), key, w.directLookupTbl[key].slot)
  }

  /**
   What the recorder has done: `trace[0]` is its session after the lookups of absent keys, the
   rest of the trace its run of the inserts and deletes, with every read cached.
   */
  ghost predicate Recorded(state: StateStore, lookups: seq<Key>, ops: seq<Op>, trace: seq<Session>) {
    && Trace(InsertsOrDeletes(state.kvs, ops), trace) && TraceCached(InsertsOrDeletes(state.kvs, ops), trace)
    && OnlyReads(NewSession(Full(state), state.kvs, true), trace[0])
    && forall i :: 0 <= i < |lookups| && StoredValue(state.kvs, lookups[i]).None? ==>
      LookupCached(NewSession(Full(state), state.kvs, true), trace[0], lookups[i])
  }

  /** The witness knows all that the recorder has read of the stored data, and finds the looked-up and updated keys directly. */
  ghost predicate Covers(w: Witness, state: StateStore, lookups: seq<Key>, ops: seq<Op>, trace: seq<Session>) {
    && Agrees(Partial(w), state.kvs)
    && Recorded(state, lookups, ops, trace)
    && KnowsCached(Partial(w), state.kvs, trace[|trace| - 1].cache)
    && (forall i :: 0 <= i < |lookups| && StoredValue(state.kvs, lookups[i]).Some? ==> Directs(w, state.kvs, lookups[i]))
    && (forall i :: 0 <= i < |ops| && IsUpdate(state.kvs, ops[i]) ==> Directs(w, state.kvs, ops[i].0))
  }

  // ---------------------------------------------------------------- replay of the inserts and deletes

  lemma {:induction false} TraceCachesGrow(ops: seq<Op>, trace: seq<Session>, i: nat)
    requires Trace(ops, trace) && i <= |ops|
    ensures trace[i].cache.Keys <= trace[|ops|].cache.Keys && SameStore(trace[i], trace[|ops|])
    decreases |ops| - i
  {
    hide OpPost, SessionOk;
    if i < |ops| {
      assert OpPost(trace[i], trace[i + 1], ops[i]);
      OpStep(trace[i], trace[i + 1], ops[i]);
      TraceCachesGrow(ops, trace, i + 1);
    }
  }

  /** As far as it gets, a replay is alike the record. */
  lemma {:induction false} ReplayAlike(ops: seq<Op>, recorded: seq<Session>, n: nat, replayed: seq<Session>, i: nat)
    requires Trace(ops, recorded) && TraceCached(ops, recorded) && n <= |ops| && i <= n
    requires Trace(ops[..n], replayed) && Alike(recorded[0], replayed[0])
    requires recorded[0].store.Full? && KnowsCached(replayed[0].store, replayed[0].truth, recorded[|ops|].cache)
    ensures Alike(recorded[i], replayed[i]) && SessionOk(replayed[i]) && SameStore(replayed[0], replayed[i]) && recorded[i].store.Full?
  {
    hide OpPost, OpCached, SessionOk, Alike, KnowsCached;
    TraceOk(ops[..n], replayed, i);
    if i > 0 {
      ReplayAlike(ops, recorded, n, replayed, i - 1);
      assert OpPost(recorded[i - 1], recorded[i], ops[i - 1]) && OpCached(recorded[i - 1], recorded[i], ops[i - 1]);
      assert ops[..n][i - 1] == ops[i - 1];
      assert OpPost(replayed[i - 1], replayed[i], ops[i - 1]);
      TraceCachesGrow(ops, recorded, i);
      KnowsMore(replayed[0].store, replayed[0].truth, recorded[i].cache, recorded[|ops|].cache);
      FullCounts(recorded[i - 1], BucketOf(ops[i - 1].0));
      OpStep(recorded[i - 1], recorded[i], ops[i - 1]);
      OpStep(replayed[i - 1], replayed[i], ops[i - 1]);
      StepAlike(recorded[i - 1], recorded[i], replayed[i - 1], replayed[i], ops[i - 1]);
    }
  }

  lemma FullCounts(s: Session, b: DataBucketId)
    requires s.store.Full?
    ensures CountsKnown(s, b)
  {
  }

  /** No operation of the replay fails: whatever it reads, the record has read. */
  lemma ReplayNeverStops(ops: seq<Op>, recorded: seq<Session>, n: nat, replayed: seq<Session>, error: SaltError)
    requires Trace(ops, recorded) && TraceCached(ops, recorded) && n < |ops|
    requires Trace(ops[..n], replayed) && Alike(recorded[0], replayed[0])
    requires recorded[0].store.Full? && KnowsCached(replayed[0].store, replayed[0].truth, recorded[|ops|].cache)
    ensures !OpFails(replayed[n], ops[n], error)
  {
    hide OpPost, OpCached, SessionOk, Alike, KnowsCached, OpFails;
    ReplayAlike(ops, recorded, n, replayed, n);
    TraceCachesGrow(ops, recorded, n + 1);
    KnowsMore(replayed[0].store, replayed[0].truth, recorded[n + 1].cache, recorded[|ops|].cache);
    assert OpPost(recorded[n], recorded[n + 1], ops[n]) && OpCached(recorded[n], recorded[n + 1], ops[n]);
    FullCounts(recorded[n], BucketOf(ops[n].0));
    RecordedOpSucceeds(recorded[n], recorded[n + 1], replayed[n], ops[n], error);
  }

  // ---------------------------------------------------------------- canonicalization of the replay

  /**
   A bucket that the replay has not rehashed was not rehashed by the record either, so its pairs
   fit the stored capacity; a bucket that it has rehashed is one whose count it knows.
   */
  lemma ReplaySettles(truth: Kvs, r: Session, v: Session, final: Session, b: DataBucketId)
    requires Alike(r, v) && AllLoaded(r) && r.store.Full? && Tracked(v) && RehashedKnown(v)
    requires SessionOk(v) && Canonicalized(v, final) && v.truth == truth && 0 < BaseMeta(truth, b).capacity
    ensures MetaOf(final, b) == BucketMeta(BaseMeta(truth, b).nonce, ResizeCapacity(BaseMeta(truth, b).capacity, |Contents(TabOf(final, b))|), None)
  {
    assert AlikeIn(r, v, b);
    FullCounts(r, b);
    AlikeCounts(r, v, b);
    assert Loaded(r, b);
    hide SessionOk, Alike, Contents, OutsideBuckets, At;
    if b !in v.rehashed {
      assert MetaOf(v, b) == BaseMeta(truth, b);
    }
  }

  /** The capacity that canonicalization gives a bucket is in range when a full store's run reaches the same pairs. */
  lemma ReplayInRange(v: Session, produced: Session, b: DataBucketId, error: SaltError)
    requires SessionOk(v) && SessionOk(produced) && v.truth == produced.truth && produced.store.Full?
    requires RehashedKnown(v) && b in v.rehashed && Settled(produced, b)
    requires forall key :: Lookup(v, key) == Lookup(produced, key)
    ensures !ReplayFails(v, b, error)
  {
    SameKeysHeld(v, produced, b);
    CapacityInRange(produced, b);
    FullCounts(produced, b);
    BaseOk(v, b);
    hide SessionOk, Contents, Lookup, CanonicalExcept;
  }

  // ---------------------------------------------------------------- the validator

  /** A block producer's run over the full store, with the log it published. */
  ghost predicate Produced(state: StateStore, ops: seq<Op>, trace: seq<Session>, final: Session, log: Log) {
    && IsRun(Full(state), state.kvs, ops, trace, final)
    && IsDiff(log, BaseView(state.kvs), ViewOf(final.truth, final.cache))
  }

  ghost predicate SamePlainResult(truth: Kvs, ops1: seq<Op>, ops2: seq<Op>) {
    forall key :: AfterOps(ops1, key, StoredValue(truth, key)) == AfterOps(ops2, key, StoredValue(truth, key))
  }

  /** The validator while it applies the updates, having seen `ops[..i]`. */
  ghost predicate Updating(w: Witness, truth: Kvs, ops: seq<Op>, i: nat, trace: seq<Session>, s: Session, log: Log)
    requires i <= |ops|
  {
    && Trace(Updates(truth, ops[..i]), trace)
    && trace[0] == NewSession(Partial(w), truth, false) && SameStore(trace[0], s)
    && OnlyReads(trace[|Updates(truth, ops[..i])|], s) && SessionOk(s)
    && Alike(trace[0], s)
    && IsDiff(log, BaseView(truth), ViewOf(s.truth, s.cache))
  }

  lemma UpdatingStarts(w: Witness, truth: Kvs, ops: seq<Op>, s0: Session, s: Session)
    requires s0 == NewSession(Partial(w), truth, false) && SessionOk(s0) && OnlyReads(s0, s)
    ensures Updating(w, truth, ops, 0, [s0], s, map[])
  {
    ReadsKeepSession(s0, s);
    ReadsAlike(s0, s0, s);
    EmptyDiff(BaseView(truth));
    ReadsKeepDiff(s0, s, map[], BaseView(truth));
    hide SessionOk, Alike, OnlyReads, IsDiff;
    ReadsFacts(s0, s);
  }

  lemma ReadsAlike(r: Session, s: Session, s1: Session)
    requires Alike(r, s) && OnlyReads(s, s1)
    ensures Alike(r, s1)
  {
    hide OnlyReads, MetaOf, TabOf, KeysOf;
    forall b: DataBucketId
      ensures AlikeIn(r, s1, b)
    {
      assert AlikeIn(r, s, b);
      ReadsKeepTable(s, s1, b);
    }
    ReadsFacts(s, s1);
  }

  lemma AlikeSelf(s: Session)
    ensures Alike(s, s)
  {
  }

  /** While only values have changed, the direct table still finds every key that it found in the stored state. */
  lemma DirectStillHits(w: Witness, truth: Kvs, s0: Session, s: Session, key: Key)
    requires s0 == NewSession(Partial(w), truth, false) && SessionOk(s0) && SessionOk(s) && SameStore(s0, s) && Alike(s0, s)
    requires Directs(w, truth, key)
    ensures DirectHit(s, key)
  {
    var b := BucketOf(key);
    assert AlikeIn(s0, s, b);
    SessionBucket(s0, b);
    SessionBucket(s, b);
    hide SessionOk, CanonicalExcept, Alike;
    CanonicalSameKeys(TabOf(s0, b), TabOf(s, b), MetaOf(s, b).nonce);
  }

  /** A key is stored now exactly when it was stored at first. */
  lemma AlikeStored(w: Witness, truth: Kvs, s0: Session, s: Session, key: Key)
    requires s0 == NewSession(Partial(w), truth, false) && Alike(s0, s)
    ensures key in Contents(TabOf(s, BucketOf(key))) <==> StoredValue(truth, key).Some?
  {
    assert AlikeIn(s0, s, BucketOf(key));
  }

  lemma UpdatingFacts(w: Witness, truth: Kvs, ops: seq<Op>, i: nat, trace: seq<Session>, s: Session, log: Log)
    requires i <= |ops| && Updating(w, truth, ops, i, trace, s, log)
    ensures SessionOk(s) && |trace| > 0 && SessionOk(trace[0]) && trace[0] == NewSession(Partial(w), truth, false)
    ensures SameStore(trace[0], s) && Alike(trace[0], s)
    ensures IsDiff(log, BaseView(truth), ViewOf(s.truth, s.cache))
  {
  }

  lemma UpdatingReads(w: Witness, truth: Kvs, ops: seq<Op>, i: nat, trace: seq<Session>, s: Session, s1: Session, log: Log)
    requires i <= |ops| && Updating(w, truth, ops, i, trace, s, log) && OnlyReads(s, s1)
    ensures Updating(w, truth, ops, i, trace, s1, log)
  {
    ReadsKeepSession(s, s1);
    ReadsAlike(trace[0], s, s1);
    ReadsKeepDiff(s, s1, log, BaseView(truth));
    ReadsFacts(s, s1);
    ReadsCompose(trace[|Updates(truth, ops[..i])|], s, s1);
    hide SessionOk, Alike, IsDiff, Trace, Updates;
  }

  lemma UpdatingSkips(w: Witness, truth: Kvs, ops: seq<Op>, i: nat, trace: seq<Session>, s: Session, log: Log)
    requires i < |ops| && Updating(w, truth, ops, i, trace, s, log) && !IsUpdate(truth, ops[i])
    ensures Updating(w, truth, ops, i + 1, trace, s, log)
    ensures InsertsOrDeletes(truth, ops[..i + 1]) == InsertsOrDeletes(truth, ops[..i]) + [ops[i]]
  {
    assert ops[..i + 1][..i] == ops[..i];
    hide SessionOk, Alike, IsDiff, Trace, IsUpdate;
  }

  lemma UpdatingApplies(w: Witness, truth: Kvs, ops: seq<Op>, i: nat, trace: seq<Session>, s: Session, log: Log, s1: Session, log1: Log)
    requires i < |ops| && Updating(w, truth, ops, i, trace, s, log) && IsUpdate(truth, ops[i])
    requires SessionOk(s1) && Upserted(s, s1, BucketOf(ops[i].0), ops[i].0, ops[i].1.value)
    requires IsDiff(log1, BaseView(truth), ViewOf(s1.truth, s1.cache))
    ensures Updating(w, truth, ops, i + 1, trace + [s1], s1, log1)
    ensures InsertsOrDeletes(truth, ops[..i + 1]) == InsertsOrDeletes(truth, ops[..i])
  {
    hide BucketInv, CanonicalExcept, TruthOk, Agrees, CacheKnown;
    var done := Updates(truth, ops[..i]);
    assert ops[..i + 1][..i] == ops[..i];
    AlikeStored(w, truth, trace[0], s, ops[i].0);
    UpdateKeepsAlike(trace[0], s, s1, ops[i].0, ops[i].1.value);
    UpsertAfterReads(trace[|done|], s, s1, BucketOf(ops[i].0), ops[i].0, ops[i].1.value);
    TraceOk(done, trace, |done|);
    assert OpPost(trace[|done|], s1, ops[i]);
    StepFacts(s, s1, BucketOf(ops[i].0));
    hide OpPost, SessionOk, Alike, IsDiff, IsUpdate, Upserted;
    TraceExtends(done, trace, ops[i], s1);
    NothingRead(s1);
  }

  lemma UpsertAfterReads(s0: Session, s: Session, s1: Session, b: DataBucketId, key: Key, val: Bytes)
    requires OnlyReads(s0, s) && Upserted(s, s1, b, key, val)
    ensures Upserted(s0, s1, b, key, val)
  {
    ReadsKeepTable(s0, s, b);
    ReadsFacts(s0, s);
    ReadsThenStep(s0, s, s1, b);
    hide Contents, StepIn;
  }

  /** Replacing a stored value moves nothing. */
  lemma UpdateKeepsAlike(r: Session, s: Session, s1: Session, key: Key, val: Bytes)
    requires Alike(r, s) && Upserted(s, s1, BucketOf(key), key, val) && key in Contents(TabOf(s, BucketOf(key)))
    ensures Alike(r, s1)
  {
    var b := BucketOf(key);
    assert AlikeIn(r, s, b);
    assert Contents(TabOf(s1, b)).Keys == Contents(TabOf(s, b)).Keys;
    assert AlikeIn(r, s1, b);
    StepFacts(s, s1, b);
    hide MetaOf, TabOf, KeysOf, Contents, UpsertCapacity;
    forall b': DataBucketId | b' != b
      ensures AlikeIn(r, s1, b')
    {
      assert AlikeIn(r, s, b');
      StepKeepsOthers(s, s1, b, b');
    }
  }

  /**
   The validator's block: it looks up `lookups`, applies the updates of `ops` in place, then the
   inserts and deletes, and canonicalizes.
   */
  method Validate(w: Witness, lookups: seq<Key>, ops: seq<Op>,
                  ghost state: StateStore, ghost recorded: seq<Session>,
                  ghost producerOps: seq<Op>, ghost producerTrace: seq<Session>, ghost produced: Session, ghost log: Log)
    returns (r: Result<StateUpdates, SaltError>, values: seq<Option<Bytes>>)
    requires TruthOk(state.kvs) && Agrees(Full(state), state.kvs) && BaseLoaded(state.kvs)
    requires Covers(w, state, lookups, ops, recorded) && DistinctOps(ops)
    requires Produced(state, producerOps, producerTrace, produced, log) && SamePlainResult(state.kvs, producerOps, ops)
    ensures r.Success? && r.value.data == log
    ensures |values| == |lookups| && forall i :: 0 <= i < |lookups| ==> values[i] == StoredValue(state.kvs, lookups[i])
  {
    hide TruthOk, SessionOk, Covers, Produced, SamePlainResult, Updating, IsDiff, Trace, BaseLoaded, StoredValue, IsUpdate, Agrees,
         InsertsOrDeletes, Updates;
    ghost var truth := state.kvs;
    CoversAgrees(w, state, lookups, ops, recorded);
    var session := new EphemeralSaltState(Partial(w), false, truth);
    ghost var s0 := session.Snap();
    values := ReplayLookups(session, lookups, w, state, ops, recorded);
    var updates := new StateUpdates();
    ghost var trace := [s0];
    UpdatingStarts(w, truth, ops, s0, session.Snap());
    var rest: seq<Op> := [];
    NoInsertsOrDeletes(truth, ops);
    for i := 0 to |ops|
      invariant fresh(session) && fresh(updates)
      invariant Updating(w, truth, ops, i, trace, session.Snap(), updates.data)
      invariant rest == InsertsOrDeletes(truth, ops[..i])
    {
      var isUpdate, s1 := UpdateInPlace(session, updates, ops, i, w, state, lookups, recorded, trace);
      if isUpdate {
        trace := trace + [session.Snap()];
      } else {
        rest := rest + [ops[i]];
      }
    }
    assert ops[..|ops|] == ops;
    r := ReplayRest(session, updates, rest, w, lookups, ops, state, recorded, trace, producerOps, producerTrace, produced, log);
  }

  /** The validator's lookups. */
  method ReplayLookups(session: EphemeralSaltState, lookups: seq<Key>, ghost w: Witness, ghost state: StateStore,
                       ghost ops: seq<Op>, ghost recorded: seq<Session>)
    returns (values: seq<Option<Bytes>>)
    requires session.Snap() == NewSession(Partial(w), state.kvs, false) && SessionOk(session.Snap())
    requires Covers(w, state, lookups, ops, recorded) && TruthOk(state.kvs) && Agrees(Full(state), state.kvs)
    modifies session
    ensures OnlyReads(old(session.Snap()), session.Snap())
    ensures |values| == |lookups| && forall i :: 0 <= i < |lookups| ==> values[i] == StoredValue(state.kvs, lookups[i])
  {
    hide TruthOk, SessionOk, Covers, OnlyReads, StoredValue, Lookup, LookupFails, DirectHit, Agrees;
    ghost var s0 := session.Snap();
    NothingRead(s0);
    values := [];
    for i := 0 to |lookups|
      invariant OnlyReads(s0, session.Snap()) && |values| == i
      invariant forall j :: 0 <= j < i ==> values[j] == StoredValue(state.kvs, lookups[j])
    {
      ghost var s := session.Snap();
      ReadsKeepSession(s0, s);
      LookupReplays(w, state, lookups, ops, recorded, s0, s, i);
      var value := session.PlainValue(lookups[i]);
      assert value.Success?;
      ReadsCompose(s0, s, session.Snap());
      values := values + [value.value];
    }
  }

  /** One operation of the validator's first pass: a stored key with a new value is updated in place. */
  method UpdateInPlace(session: EphemeralSaltState, updates: StateUpdates, ops: seq<Op>, i: nat, ghost w: Witness, ghost state: StateStore,
                       ghost lookups: seq<Key>, ghost recorded: seq<Session>, ghost trace: seq<Session>)
    returns (isUpdate: bool, ghost s1: Session)
    requires i < |ops| && Covers(w, state, lookups, ops, recorded)
    requires Updating(w, state.kvs, ops, i, trace, session.Snap(), updates.data)
    modifies session, updates
    ensures Updating(w, state.kvs, ops, i + 1, if isUpdate then trace + [session.Snap()] else trace, session.Snap(), updates.data)
    ensures InsertsOrDeletes(state.kvs, ops[..i + 1]) == InsertsOrDeletes(state.kvs, ops[..i]) + if isUpdate then [] else [ops[i]]
  {
    hide SessionOk, Covers, Updating, IsDiff, Trace, DirectHit, Alike, LookupFails, Contents, InsertsOrDeletes, Updates, Upserted, StoredValue;
    ghost var s := session.Snap();
    var key := ops[i].0;
    var b := BucketOf(key);
    UpdatingFacts(w, state.kvs, ops, i, trace, s, updates.data);
    UpdateIsFound(w, state, lookups, ops, recorded, trace[0], s, i);
    var found := session.Find(key);
    s1 := session.Snap();
    UpdatingReads(w, state.kvs, ops, i, trace, s, s1, updates.data);
    UpdatingFacts(w, state.kvs, ops, i, trace, s1, updates.data);
    AlikeStored(w, state.kvs, trace[0], s1, key);
    if found.Success? && found.value.Some? && ops[i].1.Some? {
      FoundSlot(s1, key);
      session.WriteSlot(b, found.value.value.0.slot, Some(found.value.value.1), Some(Entry(key, ops[i].1.value)), updates, BaseView(state.kvs));
      NothingRead(s1);
      DirectReplaces(s1, s1, session.Snap(), b, key, ops[i].1.value, found.value.value.0.slot);
      UpdatingApplies(w, state.kvs, ops, i, trace, s1, old(updates.data), session.Snap(), updates.data);
      isUpdate := true;
    } else {
      UpdatingSkips(w, state.kvs, ops, i, trace, s1, updates.data);
      isUpdate := false;
    }
  }

  /** The inserts and deletes, and the canonicalization. */
  method ReplayRest(session: EphemeralSaltState, updates: StateUpdates, rest: seq<Op>,
                    ghost w: Witness, ghost lookups: seq<Key>, ghost ops: seq<Op>, ghost state: StateStore, ghost recorded: seq<Session>, ghost trace: seq<Session>,
                    ghost producerOps: seq<Op>, ghost producerTrace: seq<Session>, ghost produced: Session, ghost log: Log)
    returns (r: Result<StateUpdates, SaltError>)
    requires TruthOk(state.kvs) && Agrees(Full(state), state.kvs) && BaseLoaded(state.kvs)
    requires Covers(w, state, lookups, ops, recorded) && DistinctOps(ops)
    requires Produced(state, producerOps, producerTrace, produced, log) && SamePlainResult(state.kvs, producerOps, ops)
    requires rest == InsertsOrDeletes(state.kvs, ops)
    requires Updating(w, state.kvs, ops, |ops|, trace, session.Snap(), updates.data)
    modifies session, updates
    ensures r.Success? && r.value == updates && updates.data == log
  {
    hide TruthOk, SessionOk, Covers, Produced, SamePlainResult, Updating, IsDiff, Trace, BaseLoaded, InsertsOrDeletes, Agrees, At, Canonicalized,
         OpFails, ReplayFails, IsMerge, AllChain, Alike;
    ghost var s, d1 := session.Snap(), updates.data;
    assert ops[..|ops|] == ops;
    UpdatingFacts(w, state.kvs, ops, |ops|, trace, s, d1);
    var fin, replayed := session.UpdateFin(rest);
    if fin.Failure? {
      ReplaySucceeds(w, lookups, ops, state, recorded, trace, s, d1, producerOps, producerTrace, produced, log, replayed, fin.error);
    }
    assert fin.Success?;
    ghost var final := session.Snap();
    ReplayMatches(w, lookups, ops, state, recorded, trace, s, d1, producerOps, producerTrace, produced, log, replayed, final);
    MergeComposes(d1, fin.value.data, d1, BaseView(state.kvs), ViewOf(s.truth, s.cache), ViewOf(final.truth, final.cache));
    var merged := updates.TryMerge(fin.value.data);
    MergeComposes(d1, fin.value.data, updates.data, BaseView(state.kvs), ViewOf(s.truth, s.cache), ViewOf(final.truth, final.cache));
    DiffUnique(updates.data, log, BaseView(state.kvs), ViewOf(final.truth, final.cache));
    r := Success(updates);
  }

  lemma CoversAgrees(w: Witness, state: StateStore, lookups: seq<Key>, ops: seq<Op>, recorded: seq<Session>)
    requires Covers(w, state, lookups, ops, recorded)
    ensures Agrees(Partial(w), state.kvs)
  {
  }

  lemma NoInsertsOrDeletes(truth: Kvs, ops: seq<Op>)
    ensures InsertsOrDeletes(truth, ops[..0]) == []
  {
  }

  /** Every lookup is answered, and with the stored value. */
  lemma LookupReplays(w: Witness, state: StateStore, lookups: seq<Key>, ops: seq<Op>, recorded: seq<Session>, s0: Session, s: Session, i: nat)
    requires Covers(w, state, lookups, ops, recorded) && i < |lookups| && TruthOk(state.kvs) && Agrees(Full(state), state.kvs)
    requires s0 == NewSession(Partial(w), state.kvs, false) && SessionOk(s0) && SessionOk(s) && OnlyReads(s0, s)
    ensures Lookup(s, lookups[i]) == StoredValue(state.kvs, lookups[i])
    ensures DirectHit(s, lookups[i]) || forall error :: !LookupFails(s, lookups[i], error)
  {
    var key := lookups[i];
    ReadsKeepTable(s0, s, BucketOf(key));
    AlikeSelf(s0);
    ReadsAlike(s0, s0, s);
    ReadsFacts(s0, s);
    hide SessionOk, Contents, Alike, OnlyReads, TruthOk, Agrees;
    if StoredValue(state.kvs, key).Some? {
      DirectStillHits(w, state.kvs, s0, s, key);
    } else {
      AbsentLookupKnown(w, state, lookups, ops, recorded, s0, s, i);
    }
  }

  lemma AbsentLookupKnown(w: Witness, state: StateStore, lookups: seq<Key>, ops: seq<Op>, recorded: seq<Session>, s0: Session, s: Session, i: nat)
    requires Covers(w, state, lookups, ops, recorded) && i < |lookups| && StoredValue(state.kvs, lookups[i]).None?
    requires s0 == NewSession(Partial(w), state.kvs, false) && SessionOk(s) && SameStore(s0, s)
    requires TabOf(s, BucketOf(lookups[i])) == TabOf(s0, BucketOf(lookups[i])) && MetaOf(s, BucketOf(lookups[i])) == MetaOf(s0, BucketOf(lookups[i]))
    ensures forall error :: !LookupFails(s, lookups[i], error)
  {
    var key := lookups[i];
    var b, r0, n := BucketOf(key), NewSession(Full(state), state.kvs, true), |recorded| - 1;
    TraceCachesGrow(InsertsOrDeletes(state.kvs, ops), recorded, 0);
    KnowsMore(Partial(w), state.kvs, recorded[0].cache, recorded[n].cache);
    assert LookupCached(r0, recorded[0], key);
    assert TabOf(r0, b) == TabOf(s0, b) && MetaOf(r0, b) == MetaOf(s0, b);
    hide SessionOk, KnowsCached, OnSearchPath, Covers, Trace;
    RecordedMetaKnown(s, recorded[0].cache, b);
    forall x | 0 <= x < |TabOf(s, b)| && OnSearchPath(TabOf(s, b), MetaOf(s, b).nonce, key, x)
      ensures Known(s, SaltKey(b, x))
    {
      CachedIsKnown(s, recorded[0].cache, b, x);
    }
  }

  lemma UpdateIsFound(w: Witness, state: StateStore, lookups: seq<Key>, ops: seq<Op>, recorded: seq<Session>, s0: Session, s: Session, i: nat)
    requires Covers(w, state, lookups, ops, recorded) && i < |ops|
    requires s0 == NewSession(Partial(w), state.kvs, false) && SessionOk(s0) && SessionOk(s) && SameStore(s0, s) && Alike(s0, s)
    ensures IsUpdate(state.kvs, ops[i]) ==> DirectHit(s, ops[i].0)
  {
    if IsUpdate(state.kvs, ops[i]) {
      assert Directs(w, state.kvs, ops[i].0);
      hide SessionOk, Alike, Covers;
      DirectStillHits(w, state.kvs, s0, s, ops[i].0);
    }
  }

  lemma FoundSlot(s: Session, key: Key)
    requires SessionOk(s)
    ensures BucketOpen(s, BucketOf(key))
    ensures key in Contents(TabOf(s, BucketOf(key))) ==>
      var q := SlotOf(TabOf(s, BucketOf(key)), key);
      q < |TabOf(s, BucketOf(key))| == MetaOf(s, BucketOf(key)).capacity && IsAt(TabOf(s, BucketOf(key)), key, q)
      && TabOf(s, BucketOf(key))[q] == Some(Entry(key, Contents(TabOf(s, BucketOf(key)))[key]))
  {
    SessionBucket(s, BucketOf(key));
    hide SessionOk, CanonicalExcept, BucketOpen;
  }

  // ---------------------------------------------------------------- the replay against the producer

  /** `UpdateFin` stops: at an operation, or in the canonicalization. */
  ghost predicate FinFails(rest: seq<Op>, s: Session, replayed: seq<Session>, error: SaltError) {
    && 0 < |replayed| <= |rest| + 1 && replayed[0] == s && Trace(rest[..|replayed| - 1], replayed)
    && if |replayed| <= |rest| then OpFails(replayed[|replayed| - 1], rest[|replayed| - 1], error)
       else exists b :: b in replayed[|rest|].rehashed && ReplayFails(replayed[|rest|], b, error)
  }

  lemma ReadsKeepRun(s0: Session, s1: Session)
    requires OnlyReads(s0, s1)
    ensures RunKeeps(s0, s1)
  {
    ReadsFacts(s0, s1);
    ReadsKeepOutside(s0, s1);
    hide TabOf, MetaOf, Contents, OnlyReads, OutsideBuckets, LoadOk, At;
    forall b: DataBucketId
      ensures MetaOf(s0, b) == MetaOf(s1, b) && Loaded(s0, b) == Loaded(s1, b) && CountsKnown(s0, b) == CountsKnown(s1, b)
    {
      ReadsKeepTable(s0, s1, b);
    }
    hide Loaded, CountsKnown;
  }

  lemma ReadsKeepOutside(s0: Session, s1: Session)
    requires OnlyReads(s0, s1)
    ensures forall key :: OutsideBuckets(key) ==> At(s1.truth, s1.cache, key) == At(s0.truth, s0.cache, key)
    ensures CacheGrows(s0, s1) && s1.rehashed == s0.rehashed
  {
  }

  lemma ReadsLookup(s0: Session, s1: Session, key: Key)
    requires OnlyReads(s0, s1)
    ensures Lookup(s0, key) == Lookup(s1, key)
  {
    ReadsKeepTable(s0, s1, BucketOf(key));
  }

  /** What the record offers the replay. */
  lemma RecordFacts(w: Witness, state: StateStore, lookups: seq<Key>, ops: seq<Op>, recorded: seq<Session>, trace: seq<Session>, s: Session, log: Log)
    requires Covers(w, state, lookups, ops, recorded) && BaseLoaded(state.kvs)
    requires Updating(w, state.kvs, ops, |ops|, trace, s, log)
    ensures var rest := InsertsOrDeletes(state.kvs, ops);
            && Trace(rest, recorded) && TraceCached(rest, recorded) && recorded[0].store.Full? && Alike(recorded[0], s)
            && KnowsCached(s.store, s.truth, recorded[|rest|].cache) && AllLoaded(recorded[|rest|]) && recorded[|rest|].store.Full?
  {
    var rest, r0 := InsertsOrDeletes(state.kvs, ops), NewSession(Full(state), state.kvs, true);
    ReadsKeepRun(r0, recorded[0]);
    TraceKeeps(rest, recorded);
    FreshKeeps(r0, Full(state), state.kvs);
    RunKeepsCompose(r0, recorded[0], recorded[|rest|]);
    RecordIsAlike(r0, recorded[0], trace[0], s);
    hide SessionOk, Trace, TraceCached, OnlyReads, Alike, KnowsCached, IsDiff, BaseLoaded, AllLoaded;
  }

  lemma RecordIsAlike(r0: Session, r: Session, s0: Session, s: Session)
    requires r0.truth == s0.truth && r0.cache == s0.cache && OnlyReads(r0, r) && Alike(s0, s)
    ensures Alike(r, s)
  {
    forall b: DataBucketId
      ensures AlikeIn(r, s, b)
    {
      ReadsKeepTable(r0, r, b);
      assert AlikeIn(s0, s, b);
    }
  }

  /** What the validator's session keeps up to the canonicalization. */
  lemma ReplayKeeps(w: Witness, truth: Kvs, ops: seq<Op>, trace: seq<Session>, s: Session, log: Log, replayed: seq<Session>)
    requires Updating(w, truth, ops, |ops|, trace, s, log)
    requires Trace(InsertsOrDeletes(truth, ops), replayed) && replayed[0] == s
    ensures var v := replayed[|InsertsOrDeletes(truth, ops)|];
            && SessionOk(v) && Tracked(v) && RehashedKnown(v) && v.truth == truth && v.store == Partial(w)
            && forall key :: OutsideBuckets(key) ==> At(v.truth, v.cache, key) == At(truth, map[], key)
  {
    var rest, done := InsertsOrDeletes(truth, ops), Updates(truth, ops);
    assert ops[..|ops|] == ops;
    ReadsKeepRun(trace[|done|], s);
    TraceKeeps(done, trace);
    TraceKeeps(rest, replayed);
    TraceOk(rest, replayed, |rest|);
    FreshKeeps(trace[0], Partial(w), truth);
    RunKeepsCompose(trace[0], trace[|done|], s);
    RunKeepsCompose(trace[0], s, replayed[|rest|]);
    hide SessionOk, Trace, OnlyReads, Alike, IsDiff, Tracked, RehashedKnown, OutsideBuckets, InsertsOrDeletes, Updates;
  }

  /** The plain pairs of the validator's session before the canonicalization are the producer's. */
  lemma ReplayLookup(w: Witness, truth: Kvs, ops: seq<Op>, trace: seq<Session>, s: Session, log: Log, replayed: seq<Session>, key: Key)
    requires Updating(w, truth, ops, |ops|, trace, s, log) && DistinctOps(ops)
    requires Trace(InsertsOrDeletes(truth, ops), replayed) && replayed[0] == s
    ensures Lookup(replayed[|InsertsOrDeletes(truth, ops)|], key) == AfterOps(ops, key, StoredValue(truth, key))
  {
    var rest, done := InsertsOrDeletes(truth, ops), Updates(truth, ops);
    assert ops[..|ops|] == ops;
    hide SessionOk, OnlyReads, Alike, IsDiff, InsertsOrDeletes, Updates, Lookup, StoredValue, AfterOps, OpPost;
    ReadsLookup(trace[|done|], s, key);
    TraceLookup(done, trace, key);
    TraceLookup(rest, replayed, key);
    FreshKeeps(trace[0], Partial(w), truth);
    UpdatesFirst(truth, ops, key, StoredValue(truth, key));
  }

  lemma ProducedFacts(state: StateStore, ops: seq<Op>, trace: seq<Session>, final: Session, log: Log)
    requires Produced(state, ops, trace, final, log) && BaseLoaded(state.kvs)
    ensures SessionOk(final) && final.truth == state.kvs && final.store == Full(state)
    ensures forall b: DataBucketId :: Settled(final, b)
    ensures forall key :: Lookup(final, key) == AfterOps(ops, key, StoredValue(state.kvs, key))
    ensures forall key :: OutsideBuckets(key) ==> At(final.truth, final.cache, key) == At(state.kvs, map[], key)
    ensures IsDiff(log, BaseView(state.kvs), ViewOf(final.truth, final.cache))
  {
    hide Trace, Canonicalized, BaseLoaded, SessionOk, Settled, Lookup, AfterOps, StoredValue, OutsideBuckets, IsDiff, At;
    RunSettles(Full(state), state.kvs, ops, trace, final);
  }

  /** The validator's run does not stop: every slot, metadata value and count that it needs is known. */
  lemma ReplaySucceeds(w: Witness, lookups: seq<Key>, ops: seq<Op>, state: StateStore, recorded: seq<Session>, trace: seq<Session>, s: Session, d1: Log,
                       producerOps: seq<Op>, producerTrace: seq<Session>, produced: Session, log: Log, replayed: seq<Session>, error: SaltError)
    requires BaseLoaded(state.kvs) && Covers(w, state, lookups, ops, recorded) && DistinctOps(ops)
    requires Produced(state, producerOps, producerTrace, produced, log) && SamePlainResult(state.kvs, producerOps, ops)
    requires Updating(w, state.kvs, ops, |ops|, trace, s, d1)
    ensures !FinFails(InsertsOrDeletes(state.kvs, ops), s, replayed, error)
  {
    var rest := InsertsOrDeletes(state.kvs, ops);
    hide BaseLoaded, Covers, Produced, SamePlainResult, Updating, Trace, TraceCached, Alike, KnowsCached, OpFails, ReplayFails, AllLoaded, InsertsOrDeletes, DistinctOps,
         SessionOk, OpPost, OpCached, OnlyReads, BaseMeta, At;
    RecordFacts(w, state, lookups, ops, recorded, trace, s, d1);
    if 0 < |replayed| <= |rest| + 1 && replayed[0] == s && Trace(rest[..|replayed| - 1], replayed) {
      if |replayed| <= |rest| {
        ReplayNeverStops(rest, recorded, |replayed| - 1, replayed, error);
      } else {
        assert rest[..|replayed| - 1] == rest;
        CanonicalizeNeverStops(w, ops, state, trace, s, d1, producerOps, producerTrace, produced, log, replayed, error);
      }
    }
  }

  lemma CanonicalizeNeverStops(w: Witness, ops: seq<Op>, state: StateStore, trace: seq<Session>, s: Session, d1: Log,
                               producerOps: seq<Op>, producerTrace: seq<Session>, produced: Session, log: Log, replayed: seq<Session>, error: SaltError)
    requires BaseLoaded(state.kvs) && DistinctOps(ops)
    requires Produced(state, producerOps, producerTrace, produced, log) && SamePlainResult(state.kvs, producerOps, ops)
    requires Updating(w, state.kvs, ops, |ops|, trace, s, d1)
    requires Trace(InsertsOrDeletes(state.kvs, ops), replayed) && replayed[0] == s
    ensures var v := replayed[|InsertsOrDeletes(state.kvs, ops)|]; forall b :: b in v.rehashed ==> !ReplayFails(v, b, error)
  {
    var v := replayed[|InsertsOrDeletes(state.kvs, ops)|];
    ReplayKeeps(w, state.kvs, ops, trace, s, d1, replayed);
    ProducedFacts(state, producerOps, producerTrace, produced, log);
    hide BaseLoaded, Produced, Updating, Trace, ReplayFails, InsertsOrDeletes, DistinctOps, SessionOk, Settled, RehashedKnown, Tracked, AfterOps, StoredValue, Lookup;
    forall key
      ensures Lookup(v, key) == Lookup(produced, key)
    {
      ReplayLookup(w, state.kvs, ops, trace, s, d1, replayed, key);
    }
    forall b | b in v.rehashed
      ensures !ReplayFails(v, b, error)
    {
      ReplayInRange(v, produced, b, error);
    }
  }

  lemma CanonicalizedLookup(s0: Session, s1: Session, key: Key)
    requires Canonicalized(s0, s1)
    ensures Lookup(s1, key) == Lookup(s0, key)
  {
    hide SessionOk, Contents, Settled;
  }

  /** The validator ends in the producer's state, slot by slot. */
  lemma ReplayMatches(w: Witness, lookups: seq<Key>, ops: seq<Op>, state: StateStore, recorded: seq<Session>, trace: seq<Session>, s: Session, d1: Log,
                      producerOps: seq<Op>, producerTrace: seq<Session>, produced: Session, log: Log, replayed: seq<Session>, final: Session)
    requires BaseLoaded(state.kvs) && Covers(w, state, lookups, ops, recorded) && DistinctOps(ops)
    requires Produced(state, producerOps, producerTrace, produced, log) && SamePlainResult(state.kvs, producerOps, ops)
    requires Updating(w, state.kvs, ops, |ops|, trace, s, d1)
    requires Trace(InsertsOrDeletes(state.kvs, ops), replayed) && replayed[0] == s && Canonicalized(replayed[|InsertsOrDeletes(state.kvs, ops)|], final)
    ensures SameView(ViewOf(produced.truth, produced.cache), ViewOf(final.truth, final.cache))
    ensures IsDiff(log, BaseView(state.kvs), ViewOf(final.truth, final.cache))
  {
    var rest := InsertsOrDeletes(state.kvs, ops);
    var v := replayed[|rest|];
    ReplayKeeps(w, state.kvs, ops, trace, s, d1, replayed);
    RecordFacts(w, state, lookups, ops, recorded, trace, s, d1);
    ProducedFacts(state, producerOps, producerTrace, produced, log);
    CanonicalizedOk(v, final);
    hide BaseLoaded, Covers, Produced, Updating, Trace, TraceCached, InsertsOrDeletes, DistinctOps, SessionOk, Settled, RehashedKnown, Tracked, AfterOps,
         StoredValue, Lookup, Alike, KnowsCached, AllLoaded, IsDiff, At, OutsideBuckets, MetaAt, Tab;
    forall key
      ensures Lookup(final, key) == Lookup(produced, key)
    {
      ReplayLookup(w, state.kvs, ops, trace, s, d1, replayed, key);
      CanonicalizedLookup(v, final, key);
    }
    assert rest[..|rest|] == rest;
    ReplayAlike(rest, recorded, |rest|, replayed, |rest|);
    forall b: DataBucketId
      ensures MetaOf(final, b) == MetaOf(produced, b)
    {
      ReplayMeta(state.kvs, recorded[|rest|], v, final, produced, b);
    }
    hide Canonicalized, SamePlainResult;
    SamePairsSameView(produced, final);
    DiffOfSame(log, BaseView(state.kvs), ViewOf(produced.truth, produced.cache), BaseView(state.kvs), ViewOf(final.truth, final.cache));
  }

  lemma ReplayMeta(truth: Kvs, r: Session, v: Session, final: Session, produced: Session, b: DataBucketId)
    requires Alike(r, v) && AllLoaded(r) && r.store.Full? && Tracked(v) && RehashedKnown(v) && SessionOk(v) && Canonicalized(v, final) && v.truth == truth
    requires SessionOk(final) && SessionOk(produced) && produced.store.Full? && produced.truth == truth && Settled(produced, b)
    requires forall key :: Lookup(final, key) == Lookup(produced, key)
    ensures MetaOf(final, b) == MetaOf(produced, b)
  {
    BaseOk(v, b);
    SameKeysHeld(final, produced, b);
    FullCounts(produced, b);
    hide SessionOk, Alike, AllLoaded, Tracked, RehashedKnown, Canonicalized, Contents, CanonicalExcept;
    ReplaySettles(truth, r, v, final, b);
  }
}
