/** `Witness::create` over the in-memory store, and the rebuilding of a received witness. */
module WitnessCreation {
  import opened Wrappers
  import opened ShiTable
  import opened SaltTypes
  import opened StateUpdatesModule
  import opened SessionView
  import opened SessionSteps
  import opened CacheBounds
  import opened SessionRuns
  import opened Canonicalization
  import opened EphemeralState
  import opened MemStoreModule
  import opened History
  import opened Blocks
  import opened SameLayout
  import opened WitnessReplay

  // ---------------------------------------------------------------- reading the witnessed keys

  /** Every value in the metadata buckets is metadata. */
  ghost predicate MetaDecodable(kvs: Kvs) {
    forall key :: key in kvs && key.IsInMetaBucket() ==> kvs[key].Meta?
  }

  /** What the witness holds for a key: metadata always explicitly, a slot's pair or its absence. */
  function WitnessedValue(state: StateStore, key: SaltKey): (r: Result<Option<SaltValue>, SaltError>)
    ensures r.Success? ==> r.value == At(state.kvs, map[], key)
    ensures r.Failure? ==> r.error == InvalidFormat && !MetaDecodable(state.kvs)
  {
    if key.IsInMetaBucket() then
      var meta :- if key in state.kvs then DecodeMeta(state.kvs[key]) else Success(DEFAULT_META);
      Success(Some(meta.ToValue()))
    else
      Full(state).Value(key)
  }

  method ReadWitnessed(keys: set<SaltKey>, state: StateStore) returns (r: Result<map<SaltKey, Option<SaltValue>>, SaltError>)
    ensures r.Success? ==> r.value.Keys == keys && forall key :: key in keys ==> r.value[key] == At(state.kvs, map[], key)
    ensures r.Failure? ==> r.error == InvalidFormat && !MetaDecodable(state.kvs)
  {
    hide At, MetaDecodable, WitnessedValue;
    var kvs: map<SaltKey, Option<SaltValue>> := map[];
    var rest := keys;
    while rest != {}
      invariant rest <= keys && kvs.Keys == keys - rest
      invariant forall key :: key in kvs ==> kvs[key] == At(state.kvs, map[], key)
      decreases |rest|
    {
      var key :| key in rest;
      var value :- WitnessedValue(state, key);
      kvs := kvs[key := value];
      rest := rest - {key};
    }
    r := Success(kvs);
  }

  /** The capacities of the buckets whose metadata the log changes, before the change. */
  function OldCapacities(data: Log): map<BucketId, nat> {
    map b: nat | NUM_META_BUCKETS <= b < NUM_BUCKETS && BucketMetadataKey(b) in data && data[BucketMetadataKey(b)].before.Some?
                 && DecodeMeta(data[BucketMetadataKey(b)].before.value).Success?
      :: DecodeMeta(data[BucketMetadataKey(b)].before.value).value.capacity
  }

  /** The keys of buckets that did not grow, and the keys that the others had before they grew. */
  function WithinCapacity(keys: set<SaltKey>, oldCapacities: map<BucketId, nat>): set<SaltKey> {
    set key | key in keys && (key.bucket in oldCapacities ==> key.slot < oldCapacities[key.bucket])
  }

  /** No slot of the stored buckets is filtered out, and no metadata. */
  lemma StoredKeysKept(truth: Kvs, data: Log, v1: View, keys: set<SaltKey>)
    requires TruthOk(truth) && IsDiff(data, BaseView(truth), v1)
    ensures forall b: DataBucketId, i: nat :: i < BaseMeta(truth, b).capacity && SaltKey(b, i) in keys ==> SaltKey(b, i) in WithinCapacity(keys, OldCapacities(data))
    ensures forall b: DataBucketId :: BucketMetadataKey(b) in keys ==> BucketMetadataKey(b) in WithinCapacity(keys, OldCapacities(data))
  {
    forall b: DataBucketId, i: nat | i < BaseMeta(truth, b).capacity && SaltKey(b, i) in keys
      ensures SaltKey(b, i) in WithinCapacity(keys, OldCapacities(data))
    {
      assert BucketOk(truth, map[], b);
      var key := BucketMetadataKey(b);
      assert key in data ==> data[key].before == BaseView(truth)(key);
    }
  }

  /** The keys stand for metadata, or for slots that the stored buckets have. */
  ghost predicate KeysWithin(truth: Kvs, keys: set<SaltKey>) {
    forall key :: key in keys ==> key.slot < if key.IsInMetaBucket() then MIN_BUCKET_SIZE else BaseMeta(truth, key.bucket).capacity
  }

  /** What the filter lets pass: metadata, and slots of the stored buckets. */
  lemma FilterWithin(s: Session, data: Log)
    requires TruthOk(s.truth) && IsDiff(data, BaseView(s.truth), ViewOf(s.truth, s.cache)) && CacheBelow(s)
    ensures KeysWithin(s.truth, WithinCapacity(s.cache.Keys, OldCapacities(data)))
  {
    hide CacheBelow;
    forall key | key in WithinCapacity(s.cache.Keys, OldCapacities(data))
      ensures key.slot < if key.IsInMetaBucket() then MIN_BUCKET_SIZE else BaseMeta(s.truth, key.bucket).capacity
    {
      CachedBelow(s, key);
      if !key.IsInMetaBucket() {
        FilteredBucket(s, data, key.bucket);
      }
    }
  }

  lemma CachedBelow(s: Session, key: SaltKey)
    requires CacheBelow(s) && key in s.cache
    ensures Below(s, key)
  {
  }

  /** The filter knows the stored capacity of every bucket that has another one now. */
  lemma FilteredBucket(s: Session, data: Log, b: DataBucketId)
    requires TruthOk(s.truth) && IsDiff(data, BaseView(s.truth), ViewOf(s.truth, s.cache))
    ensures if b in OldCapacities(data) then OldCapacities(data)[b] == BaseMeta(s.truth, b).capacity else MetaOf(s, b) == BaseMeta(s.truth, b)
  {
    assert BucketOk(s.truth, map[], b);
    var key := BucketMetadataKey(b);
    assert key in data ==> data[key].before == BaseView(s.truth)(key);
    assert key !in data ==> BaseView(s.truth)(key) == ViewOf(s.truth, s.cache)(key);
  }

  lemma KeyAdded(truth: Kvs, keys: set<SaltKey>, key: Key, at: SaltKey)
    requires KeysWithin(truth, keys) && at.bucket == BucketOf(key) && IsAt(BaseTab(truth, BucketOf(key)), key, at.slot)
    ensures KeysWithin(truth, keys + {at})
  {
  }

  lemma MetadataWithin(truth: Kvs, bucketIds: set<DataBucketId>)
    ensures KeysWithin(truth, set b | b in bucketIds :: BucketMetadataKey(b))
  {
  }

  lemma UnionWithin(truth: Kvs, a: set<SaltKey>, b: set<SaltKey>)
    requires KeysWithin(truth, a) && KeysWithin(truth, b)
    ensures KeysWithin(truth, a + b)
  {
  }

  // ---------------------------------------------------------------- the two passes

  /** The slot of a stored key; the read-only state caches nothing. */
  method FindStored(session: EphemeralSaltState, key: Key, state: StateStore) returns (r: Option<SaltKey>)
    requires TruthOk(state.kvs) && Agrees(Full(state), state.kvs)
    requires SessionOk(session.Snap()) && OnlyReads(NewSession(Full(state), state.kvs, false), session.Snap())
    modifies session
    ensures SessionOk(session.Snap()) && OnlyReads(NewSession(Full(state), state.kvs, false), session.Snap())
    ensures r.Some? <==> StoredValue(state.kvs, key).Some?
    ensures r.Some? ==> r.value.bucket == BucketOf(key) && IsAt(BaseTab(state.kvs, BucketOf(key)), key, r.value.slot)
  {
    var b := BucketOf(key);
    ghost var s0, s := NewSession(Full(state), state.kvs, false), session.Snap();
    ReadsFacts(s0, s);
    ReadsKeepTable(s0, s, b);
    SessionBucket(s, b);
    OpenReads(s, b);
    MetadataSound(Full(state), state.kvs, b);
    BaseOk(s, b);
    hide CanonicalExcept, OnlyReads, OnSearchPath, SessionOk, TruthOk, Agrees, BucketOpen, BucketInv;
    var metadata := session.store.Metadata(b);
    var found := session.ShiFind(b, metadata.value.nonce, metadata.value.capacity, key);
    assert found.Success?;
    ReadsCompose(s0, s, session.Snap());
    ReadsKeepSession(s, session.Snap());
    ReadsKeepTable(s0, session.Snap(), b);
    r := if found.value.Some? then Some(SaltKey(b, found.value.value.0)) else None;
  }

  /** Every entry of the direct table leads to the stored slot of its key, and that slot is witnessed. */
  ghost predicate TableOk(truth: Kvs, tbl: map<Key, SaltKey>, keys: set<SaltKey>) {
    forall k :: k in tbl ==> tbl[k] in keys && tbl[k].bucket == BucketOf(k) && IsAt(BaseTab(truth, BucketOf(k)), k, tbl[k].slot)
  }

  ghost predicate LookupsDone(state: StateStore, lookups: seq<Key>, i: nat, tbl: map<Key, SaltKey>, recorder: Session)
    requires i <= |lookups|
  {
    var r0 := NewSession(Full(state), state.kvs, true);
    && SessionOk(recorder) && OnlyReads(r0, recorder)
    && forall j :: 0 <= j < i ==>
        if StoredValue(state.kvs, lookups[j]).Some? then lookups[j] in tbl else LookupCached(r0, recorder, lookups[j])
  }

  ghost predicate OpsDone(truth: Kvs, ops: seq<Op>, i: nat, tbl: map<Key, SaltKey>, rest: seq<Op>)
    requires i <= |ops|
  {
    rest == InsertsOrDeletes(truth, ops[..i]) && forall j :: 0 <= j < i && IsUpdate(truth, ops[j]) ==> ops[j].0 in tbl
  }

  lemma TableGrows(truth: Kvs, tbl: map<Key, SaltKey>, keys: set<SaltKey>, key: Key, at: SaltKey)
    requires TableOk(truth, tbl, keys) && at.bucket == BucketOf(key) && IsAt(BaseTab(truth, BucketOf(key)), key, at.slot)
    ensures TableOk(truth, tbl[key := at], keys + {at})
  {
    hide IsAt;
  }

  lemma LookupFound(state: StateStore, lookups: seq<Key>, i: nat, tbl: map<Key, SaltKey>, tbl1: map<Key, SaltKey>, recorder: Session)
    requires i < |lookups| && LookupsDone(state, lookups, i, tbl, recorder) && tbl.Keys <= tbl1.Keys && lookups[i] in tbl1
    requires StoredValue(state.kvs, lookups[i]).Some?
    ensures LookupsDone(state, lookups, i + 1, tbl1, recorder)
  {
    hide SessionOk, OnlyReads, LookupCached, StoredValue;
  }

  lemma LookupAbsent(state: StateStore, lookups: seq<Key>, i: nat, tbl: map<Key, SaltKey>, recorder: Session, recorder1: Session)
    requires i < |lookups| && LookupsDone(state, lookups, i, tbl, recorder) && StoredValue(state.kvs, lookups[i]).None?
    requires SessionOk(recorder1) && OnlyReads(recorder, recorder1) && LookupCached(recorder, recorder1, lookups[i])
    ensures LookupsDone(state, lookups, i + 1, tbl, recorder1)
  {
    var r0 := NewSession(Full(state), state.kvs, true);
    ReadsCompose(r0, recorder, recorder1);
    ReadsKeepTable(r0, recorder, BucketOf(lookups[i]));
    ReadsFacts(recorder, recorder1);
    hide SessionOk, OnlyReads, StoredValue, OnSearchPath;
    forall j | 0 <= j <= i
      ensures if StoredValue(state.kvs, lookups[j]).Some? then lookups[j] in tbl else LookupCached(r0, recorder1, lookups[j])
    {
    }
  }

  lemma OpSeen(truth: Kvs, ops: seq<Op>, i: nat, tbl: map<Key, SaltKey>, rest: seq<Op>, tbl1: map<Key, SaltKey>)
    requires i < |ops| && OpsDone(truth, ops, i, tbl, rest) && tbl.Keys <= tbl1.Keys && (IsUpdate(truth, ops[i]) ==> ops[i].0 in tbl1)
    ensures OpsDone(truth, ops, i + 1, tbl1, if IsUpdate(truth, ops[i]) then rest else rest + [ops[i]])
  {
    hide IsUpdate;
    assert ops[..i + 1][..i] == ops[..i];
  }

  lemma LookupsStart(state: StateStore, lookups: seq<Key>, recorder: Session)
    requires SessionOk(recorder) && recorder == NewSession(Full(state), state.kvs, true)
    ensures LookupsDone(state, lookups, 0, map[], recorder)
  {
  }

  /** Over the in-memory store a lookup never fails. */
  lemma FullLookup(s: Session, key: Key, error: SaltError)
    requires s.store.Full? && SessionOk(s)
    ensures !LookupFails(s, key, error)
  {
    MetadataSound(s.store, s.truth, BucketOf(key));
    hide SessionOk;
  }

  lemma LookupsFacts(state: StateStore, lookups: seq<Key>, i: nat, tbl: map<Key, SaltKey>, recorder: Session)
    requires i <= |lookups| && LookupsDone(state, lookups, i, tbl, recorder)
    ensures SessionOk(recorder) && recorder.store == Full(state) && recorder.truth == state.kvs && recorder.cacheRead
    ensures SameView(ViewOf(recorder.truth, recorder.cache), BaseView(state.kvs))
  {
  }

  /** The first pass: stored keys go into the direct table, the searches for absent keys are recorded. */
  method WitnessLookups(session: EphemeralSaltState, recorder: EphemeralSaltState, lookups: seq<Key>, state: StateStore, keys0: set<SaltKey>)
    returns (tbl: map<Key, SaltKey>, keys: set<SaltKey>)
    requires TruthOk(state.kvs) && Agrees(Full(state), state.kvs) && session != recorder
    requires SessionOk(session.Snap()) && session.Snap() == NewSession(Full(state), state.kvs, false)
    requires SessionOk(recorder.Snap()) && recorder.Snap() == NewSession(Full(state), state.kvs, true)
    requires KeysWithin(state.kvs, keys0)
    modifies session, recorder
    ensures SessionOk(session.Snap()) && OnlyReads(NewSession(Full(state), state.kvs, false), session.Snap())
    ensures LookupsDone(state, lookups, |lookups|, tbl, recorder.Snap()) && TableOk(state.kvs, tbl, keys) && keys0 <= keys
    ensures CacheBelow(recorder.Snap()) && KeysWithin(state.kvs, keys)
  {
    hide CacheBelow, KeysWithin;
    hide SessionOk, LookupsDone, OnlyReads, TableOk, StoredValue, LookupCached, LookupFails, TruthOk, Agrees, IsAt, Lookup;
    tbl, keys := map[], keys0;
    NothingRead(session.Snap());
    LookupsStart(state, lookups, recorder.Snap());
    NoTable(state.kvs, keys);
    EmptyBelow(recorder.Snap());
    for i := 0 to |lookups|
      invariant SessionOk(session.Snap()) && OnlyReads(NewSession(Full(state), state.kvs, false), session.Snap())
      invariant LookupsDone(state, lookups, i, tbl, recorder.Snap()) && TableOk(state.kvs, tbl, keys) && keys0 <= keys
      invariant CacheBelow(recorder.Snap()) && KeysWithin(state.kvs, keys)
    {
      var found := FindStored(session, lookups[i], state);
      if found.Some? {
        TableGrows(state.kvs, tbl, keys, lookups[i], found.value);
        LookupFound(state, lookups, i, tbl, tbl[lookups[i] := found.value], recorder.Snap());
        KeyAdded(state.kvs, keys, lookups[i], found.value);
        tbl := tbl[lookups[i] := found.value];
        keys := keys + {found.value};
      } else {
        ghost var s := recorder.Snap();
        LookupsFacts(state, lookups, i, tbl, s);
        FullLookup(s, lookups[i], NotInWitness);
        LookupErrors(s, lookups[i]);
        var value := recorder.PlainValue(lookups[i]);
        assert value.Success?;
        LookupAbsent(state, lookups, i, tbl, s, recorder.Snap());
      }
    }
  }

  lemma NoTable(truth: Kvs, keys: set<SaltKey>)
    ensures TableOk(truth, map[], keys)
  {
  }

  lemma LookupErrors(s: Session, key: Key)
    ensures forall error :: LookupFails(s, key, error) ==> error == NotInWitness
  {
  }

  /** The second pass: updated keys go into the direct table, the rest is left for the recorder. */
  method WitnessUpdates(session: EphemeralSaltState, ops: seq<Op>, state: StateStore, tbl0: map<Key, SaltKey>, keys0: set<SaltKey>)
    returns (tbl: map<Key, SaltKey>, keys: set<SaltKey>, rest: seq<Op>)
    requires TruthOk(state.kvs) && Agrees(Full(state), state.kvs) && TableOk(state.kvs, tbl0, keys0)
    requires SessionOk(session.Snap()) && OnlyReads(NewSession(Full(state), state.kvs, false), session.Snap())
    requires KeysWithin(state.kvs, keys0)
    modifies session
    ensures TableOk(state.kvs, tbl, keys) && keys0 <= keys && tbl0.Keys <= tbl.Keys
    ensures OpsDone(state.kvs, ops, |ops|, tbl, rest) && KeysWithin(state.kvs, keys)
  {
    hide KeysWithin;
    hide SessionOk, OnlyReads, TableOk, StoredValue, TruthOk, Agrees, IsAt, OpsDone;
    tbl, keys, rest := tbl0, keys0, [];
    NoOpsDone(state.kvs, ops, tbl);
    for i := 0 to |ops|
      invariant SessionOk(session.Snap()) && OnlyReads(NewSession(Full(state), state.kvs, false), session.Snap())
      invariant TableOk(state.kvs, tbl, keys) && keys0 <= keys && tbl0.Keys <= tbl.Keys
      invariant OpsDone(state.kvs, ops, i, tbl, rest) && KeysWithin(state.kvs, keys)
    {
      var found := FindStored(session, ops[i].0, state);
      if found.Some? && ops[i].1.Some? {
        TableGrows(state.kvs, tbl, keys, ops[i].0, found.value);
        OpSeen(state.kvs, ops, i, tbl, rest, tbl[ops[i].0 := found.value]);
        KeyAdded(state.kvs, keys, ops[i].0, found.value);
        tbl := tbl[ops[i].0 := found.value];
        keys := keys + {found.value};
      } else {
        OpSeen(state.kvs, ops, i, tbl, rest, tbl);
        rest := rest + [ops[i]];
      }
    }
  }

  lemma NoOpsDone(truth: Kvs, ops: seq<Op>, tbl: map<Key, SaltKey>)
    ensures OpsDone(truth, ops, 0, tbl, [])
  {
  }

  lemma AllOpsDone(truth: Kvs, ops: seq<Op>, tbl: map<Key, SaltKey>, rest: seq<Op>)
    requires OpsDone(truth, ops, |ops|, tbl, rest)
    ensures rest == InsertsOrDeletes(truth, ops)
  {
    assert ops[..|ops|] == ops;
  }

  lemma LookupsKeep(state: StateStore, lookups: seq<Key>, tbl: map<Key, SaltKey>, tbl1: map<Key, SaltKey>, recorder: Session)
    requires LookupsDone(state, lookups, |lookups|, tbl, recorder) && tbl.Keys <= tbl1.Keys
    ensures LookupsDone(state, lookups, |lookups|, tbl1, recorder)
  {
    hide SessionOk, OnlyReads, LookupCached, StoredValue;
  }

  /**
   A witness for a block: `bucketIds` are the buckets whose metadata is read, `lookups` the keys
   that are read, `ops` the final change of every modified key.
   */
  method CreateWitness(bucketIds: set<DataBucketId>, lookups: seq<Key>, ops: seq<Op>, state: StateStore)
    returns (r: Result<Witness, SaltError>, ghost recorded: seq<Session>)
    requires TruthOk(state.kvs) && Agrees(Full(state), state.kvs)
    ensures r.Success? ==> Covers(r.value, state, lookups, ops, recorded)
    ensures r.Success? ==> forall b :: b in bucketIds ==> BucketMetadataKey(b) in r.value.kvs
    ensures r.Success? ==>
      forall key :: key in r.value.kvs ==> key.slot < if key.IsInMetaBucket() then MIN_BUCKET_SIZE else BaseMeta(state.kvs, key.bucket).capacity
    ensures r.Success? ==> forall k :: k in r.value.directLookupTbl ==> SlotHolds(r.value.kvs, r.value.directLookupTbl[k], k)
    ensures r.Failure? ==> r.error == CapacityPanic || (r.error == InvalidFormat && !MetaDecodable(state.kvs))
  {
    hide CacheBelow, SlotHolds;
    hide TruthOk, Agrees, SessionOk, LookupsDone, OnlyReads, TableOk, OpsDone, Trace, TraceCached, OpFails, IsDiff, MetaDecodable, Covers, OldCapacities, WithinCapacity, SameView;
    var metaKeys := set b | b in bucketIds :: BucketMetadataKey(b);
    MetadataWithin(state.kvs, bucketIds);
    var session := new EphemeralSaltState(Full(state), false, state.kvs);
    var recorder := new EphemeralSaltState(Full(state), true, state.kvs);
    var tbl0, keys0 := WitnessLookups(session, recorder, lookups, state, metaKeys);
    var tbl, keys, rest := WitnessUpdates(session, ops, state, tbl0, keys0);
    ghost var s := recorder.Snap();
    LookupsKeep(state, lookups, tbl0, tbl, s);
    AllOpsDone(state.kvs, ops, tbl, rest);
    LookupsFacts(state, lookups, |lookups|, tbl, s);
    var stateUpdates;
    stateUpdates, recorded := recorder.Update(rest);
    if stateUpdates.Failure? {
      BatchFails(rest, recorded, stateUpdates.error);
      return Failure(stateUpdates.error), recorded;
    }
    TraceEnds(rest, recorded);
    DiffOfSame(stateUpdates.value.data, ViewOf(s.truth, s.cache), ViewOf(state.kvs, recorder.cache), BaseView(state.kvs), ViewOf(state.kvs, recorder.cache));
    var cached := WithinCapacity(recorder.cache.Keys, OldCapacities(stateUpdates.value.data));
    StoredKeysKept(state.kvs, stateUpdates.value.data, ViewOf(state.kvs, recorder.cache), recorder.cache.Keys);
    FilterWithin(recorder.Snap(), stateUpdates.value.data);
    UnionWithin(state.kvs, keys, cached);
    var kvs := ReadWitnessed(keys + cached, state);
    if kvs.Failure? {
      return Failure(kvs.error), recorded;
    }
    r := Success(Witness(tbl, kvs.value));
    WitnessCovers(r.value, state, lookups, ops, recorded, keys + cached, keys, cached, recorder.cache);
    TableHolds(r.value, state.kvs, keys);
  }

  /** The slots that the direct table leads to hold its keys. */
  lemma TableHolds(w: Witness, truth: Kvs, keys: set<SaltKey>)
    requires TableOk(truth, w.directLookupTbl, keys) && keys <= w.kvs.Keys && forall key :: key in w.kvs ==> w.kvs[key] == At(truth, map[], key)
    ensures forall k :: k in w.directLookupTbl ==> SlotHolds(w.kvs, w.directLookupTbl[k], k)
  {
    forall k | k in w.directLookupTbl
      ensures SlotHolds(w.kvs, w.directLookupTbl[k], k)
    {
      var at := w.directLookupTbl[k];
      assert BaseTab(truth, BucketOf(k))[at.slot] == EntryAt(truth, map[], BucketOf(k), at.slot);
      assert at == SaltKey(BucketOf(k), at.slot);
    }
  }

  lemma WitnessCovers(w: Witness, state: StateStore, lookups: seq<Key>, ops: seq<Op>, recorded: seq<Session>,
                      all: set<SaltKey>, keys: set<SaltKey>, cached: set<SaltKey>, cache: Cache)
    requires TruthOk(state.kvs) && |recorded| > 0
    requires LookupsDone(state, lookups, |lookups|, w.directLookupTbl, recorded[0]) && TableOk(state.kvs, w.directLookupTbl, keys)
    requires OpsDone(state.kvs, ops, |ops|, w.directLookupTbl, InsertsOrDeletes(state.kvs, ops))
    requires var rest := InsertsOrDeletes(state.kvs, ops);
             Trace(rest, recorded) && TraceCached(rest, recorded) && recorded[|rest|].cache == cache
    requires all == keys + cached && w.kvs.Keys == all && forall key :: key in all ==> w.kvs[key] == At(state.kvs, map[], key)
    requires forall b: DataBucketId, i: nat :: i < BaseMeta(state.kvs, b).capacity && SaltKey(b, i) in cache ==> SaltKey(b, i) in cached
    requires forall b: DataBucketId :: BucketMetadataKey(b) in cache ==> BucketMetadataKey(b) in cached
    ensures Covers(w, state, lookups, ops, recorded)
  {
    TraceEnds(InsertsOrDeletes(state.kvs, ops), recorded);
    WitnessAgrees(w, state.kvs, keys);
    WitnessRecorded(state, lookups, ops, w.directLookupTbl, recorded);
    hide SessionOk, OnlyReads, StoredValue, LookupCached, Trace, TraceCached, IsAt, InsertsOrDeletes, At, BaseMeta, Agrees, Recorded, TableOk, Directs, IsUpdate, TruthOk;
    forall b: DataBucketId | BucketMetadataKey(b) in cache
      ensures Partial(w).Metadata(b).Success?
    {
      WitnessMetadata(w, state.kvs, b);
    }
    assert KnowsCached(Partial(w), state.kvs, cache);
    forall i | 0 <= i < |lookups| && StoredValue(state.kvs, lookups[i]).Some?
      ensures Directs(w, state.kvs, lookups[i])
    {
      WitnessDirects(w, state.kvs, keys, lookups[i]);
    }
    forall i | 0 <= i < |ops| && IsUpdate(state.kvs, ops[i])
      ensures Directs(w, state.kvs, ops[i].0)
    {
      WitnessDirects(w, state.kvs, keys, ops[i].0);
    }
  }

  lemma WitnessRecorded(state: StateStore, lookups: seq<Key>, ops: seq<Op>, tbl: map<Key, SaltKey>, recorded: seq<Session>)
    requires |recorded| > 0 && LookupsDone(state, lookups, |lookups|, tbl, recorded[0])
    requires Trace(InsertsOrDeletes(state.kvs, ops), recorded) && TraceCached(InsertsOrDeletes(state.kvs, ops), recorded)
    ensures Recorded(state, lookups, ops, recorded)
  {
    hide SessionOk, OnlyReads, StoredValue, LookupCached, Trace, TraceCached, InsertsOrDeletes;
  }

  lemma WitnessDirects(w: Witness, truth: Kvs, keys: set<SaltKey>, key: Key)
    requires TableOk(truth, w.directLookupTbl, keys) && keys <= w.kvs.Keys && key in w.directLookupTbl
    ensures Directs(w, truth, key)
  {
    hide IsAt;
  }

  lemma WitnessAgrees(w: Witness, truth: Kvs, keys: set<SaltKey>)
    requires TableOk(truth, w.directLookupTbl, keys) && forall key :: key in w.kvs ==> w.kvs[key] == At(truth, map[], key)
    ensures Agrees(Partial(w), truth)
  {
    hide IsAt, At;
  }

  lemma WitnessMetadata(w: Witness, truth: Kvs, b: DataBucketId)
    requires TruthOk(truth) && Agrees(Partial(w), truth) && BucketMetadataKey(b) in w.kvs
    ensures Partial(w).Metadata(b).Success?
  {
    MetadataSound(Partial(w), truth, b);
  }

  // ---------------------------------------------------------------- a witness received over the network

  /** The table that `kvs` alone determines: every witnessed pair is found at a slot that holds it. */
  ghost predicate RebuiltFrom(tbl: map<Key, SaltKey>, kvs: map<SaltKey, Option<SaltValue>>) {
    && (forall k :: k in tbl ==> SlotHolds(kvs, tbl[k], k))
    && (forall at :: at in kvs && !at.IsInMetaBucket() && kvs[at].Some? && kvs[at].value.Plain? ==> kvs[at].value.entry.key in tbl)
  }

  ghost predicate SlotHolds(kvs: map<SaltKey, Option<SaltValue>>, at: SaltKey, k: Key) {
    at in kvs && !at.IsInMetaBucket() && kvs[at].Some? && kvs[at].value.Plain? && kvs[at].value.entry.key == k
  }

  /** Rebuilds the direct table from the pairs. */
  method FromSaltWitness(kvs: map<SaltKey, Option<SaltValue>>) returns (w: Witness)
    ensures w.kvs == kvs && RebuiltFrom(w.directLookupTbl, kvs)
  {
    var tbl: map<Key, SaltKey> := map[];
    var rest := kvs.Keys;
    while rest != {}
      invariant rest <= kvs.Keys
      invariant forall k :: k in tbl ==> SlotHolds(kvs, tbl[k], k)
      invariant forall at :: at in kvs.Keys - rest && !at.IsInMetaBucket() && kvs[at].Some? && kvs[at].value.Plain? ==> kvs[at].value.entry.key in tbl
      decreases |rest|
    {
      var at :| at in rest;
      if !at.IsInMetaBucket() && kvs[at].Some? && kvs[at].value.Plain? {
        tbl := tbl[kvs[at].value.entry.key := at];
      }
      rest := rest - {at};
    }
    w := Witness(tbl, kvs);
  }

  /** Over a sound state the rebuilt table finds every key whose slot is witnessed, so sending the pairs alone loses nothing. */
  lemma RebuiltCovers(w: Witness, state: StateStore, lookups: seq<Key>, ops: seq<Op>, recorded: seq<Session>, tbl: map<Key, SaltKey>)
    requires TruthOk(state.kvs) && Covers(w, state, lookups, ops, recorded) && RebuiltFrom(tbl, w.kvs)
    ensures Covers(Witness(tbl, w.kvs), state, lookups, ops, recorded)
  {
    var w1 := Witness(tbl, w.kvs);
    hide Recorded, TruthOk, Trace, StoredValue;
    forall key | Directs(w, state.kvs, key)
      ensures Directs(w1, state.kvs, key)
    {
      RebuiltDirects(w, state.kvs, tbl, key);
    }
    hide Directs, RebuiltFrom;
    assert Agrees(Partial(w1), state.kvs);
    SameKnowledge(w, w1);
  }

  lemma SameKnowledge(w: Witness, w1: Witness)
    requires w1.kvs == w.kvs
    ensures forall key :: Partial(w1).Value(key) == Partial(w).Value(key)
    ensures forall b: DataBucketId :: Partial(w1).Metadata(b) == Partial(w).Metadata(b)
  {
  }

  lemma RebuiltDirects(w: Witness, truth: Kvs, tbl: map<Key, SaltKey>, key: Key)
    requires TruthOk(truth) && Agrees(Partial(w), truth) && Directs(w, truth, key) && RebuiltFrom(tbl, w.kvs)
    ensures Directs(Witness(tbl, w.kvs), truth, key)
  {
    var b := BucketOf(key);
    assert BucketOk(truth, map[], b);
    var at0 := w.directLookupTbl[key];
    assert BaseTab(truth, b)[at0.slot] == EntryAt(truth, map[], b, at0.slot);
    assert key in tbl;
    assert SlotHolds(w.kvs, tbl[key], key);
    assert BucketOk(truth, map[], tbl[key].bucket);
    assert At(truth, map[], SaltKey(tbl[key].bucket, tbl[key].slot)) == w.kvs[tbl[key]];
  }

  /**
   One block end to end: the producer runs its batches over the full store and publishes its log,
   the witness is created for the net changes `ops`, sent without its direct table, and the
   validator, who has nothing else, arrives at the same log and the same lookups.
   */
  method StatelessBlock(state: StateStore, batches: seq<seq<Op>>, lookups: seq<Key>, ops: seq<Op>)
    returns (r: Result<(StateUpdates, StateUpdates, seq<Option<Bytes>>), SaltError>)
    requires TruthOk(state.kvs) && Agrees(Full(state), state.kvs) && BaseLoaded(state.kvs)
    requires DistinctOps(ops) && SamePlainResult(state.kvs, Flatten(batches), ops)
    ensures r.Success? ==> r.value.0.data == r.value.1.data
    ensures r.Success? ==> |r.value.2| == |lookups| && forall i :: 0 <= i < |lookups| ==> r.value.2[i] == StoredValue(state.kvs, lookups[i])
    ensures r.Failure? ==> r.error == CapacityPanic || (r.error == InvalidFormat && !MetaDecodable(state.kvs))
  {
    hide TruthOk, Agrees, BaseLoaded, Covers, IsRun, IsDiff, RebuiltFrom, SamePlainResult, StoredValue, MetaDecodable, DistinctOps;
    var published, trace, final := ProduceBlock(Full(state), state.kvs, batches);
    if published.Failure? {
      return Failure(published.error);
    }
    var created, recorded := CreateWitness({}, lookups, ops, state);
    if created.Failure? {
      return Failure(created.error);
    }
    var received := FromSaltWitness(created.value.kvs);
    RebuiltCovers(created.value, state, lookups, ops, recorded, received.directLookupTbl);
    var log := published.value.data;
    var computed, values := Validate(received, lookups, ops, state, recorded, Flatten(batches), trace, final, log);
    r := Success((published.value, computed.value, values));
  }
}
