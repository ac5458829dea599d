/** The in-memory store: applying a change log, with the cached slot counts. */
module MemStoreModule {
  import opened Wrappers
  import opened ShiTable
  import opened Rehash
  import opened SaltTypes
  import opened StateUpdatesModule
  import opened SessionView
  import opened SessionSteps

  /** The pairs after a log is applied. */
  ghost function ApplyKvs(kvs: Kvs, data: Log): Kvs {
    map key | key in kvs.Keys + data.Keys && (key in data ==> data[key].after.Some?) ::
      if key in data then data[key].after.value else kvs[key]
  }

  ghost function BaseView(kvs: Kvs): View {
    ViewOf(kvs, map[])
  }

  /** A view in which no metadata is absent. */
  ghost predicate NormalView(v: View) {
    forall key :: v(key) == Normal(key, v(key))
  }

  lemma ViewsAreNormal(truth: Kvs, cache: Cache)
    ensures NormalView(ViewOf(truth, cache))
  {
  }

  /** Applying the exact difference makes the store show what the session showed. */
  lemma ApplyShows(kvs: Kvs, data: Log, v1: View)
    requires IsDiff(data, BaseView(kvs), v1) && NormalView(v1)
    ensures SameView(BaseView(ApplyKvs(kvs, data)), v1)
  {
    forall key
      ensures BaseView(ApplyKvs(kvs, data))(key) == v1(key)
    {
    }
  }

  // ---------------------------------------------------------------- slot counts

  ghost function DataKeys(kvs: Kvs, b: BucketId): set<SaltKey> {
    set key | key in kvs && key.bucket == b
  }

  function UsedAt(used: map<BucketId, nat>, b: BucketId): nat {
    if b in used then used[b] else 0
  }

  /** The cached counts are the numbers of stored data keys. */
  ghost predicate CountsOk(state: StateStore) {
    forall b: DataBucketId :: UsedAt(state.usedSlots, b) == |DataKeys(state.kvs, b)|
  }

  /** One entry of the log. */
  function ApplyEntry(state: StateStore, key: SaltKey, t: Transition): StateStore {
    var used := if key.IsInMetaBucket() then state.usedSlots
                else if t.before.None? && t.after.Some? then state.usedSlots[key.bucket := UsedAt(state.usedSlots, key.bucket) + 1]
                else if t.before.Some? && t.after.None? && key.bucket in state.usedSlots
                then state.usedSlots[key.bucket := if state.usedSlots[key.bucket] > 0 then state.usedSlots[key.bucket] - 1 else 0]
                else state.usedSlots;
    StateStore(if t.after.Some? then state.kvs[key := t.after.value] else state.kvs - {key}, used)
  }

  lemma ApplyEntryCounts(state: StateStore, key: SaltKey, t: Transition)
    requires CountsOk(state) && (!key.IsInMetaBucket() ==> (t.before.Some? <==> key in state.kvs))
    ensures CountsOk(ApplyEntry(state, key, t))
  {
    forall b: DataBucketId
      ensures UsedAt(ApplyEntry(state, key, t).usedSlots, b) == |DataKeys(ApplyEntry(state, key, t).kvs, b)|
    {
      assert UsedAt(state.usedSlots, b) == |DataKeys(state.kvs, b)|;
      ApplyEntryDataKeys(state, key, t, b);
      hide DataKeys;
    }
  }

  lemma ApplyEntryDataKeys(state: StateStore, key: SaltKey, t: Transition, b: DataBucketId)
    ensures var keys := DataKeys(state.kvs, b);
            DataKeys(ApplyEntry(state, key, t).kvs, b) == if key.bucket != b then keys else if t.after.Some? then keys + {key} else keys - {key}
    ensures key.bucket == b ==> (key in DataKeys(state.kvs, b) <==> key in state.kvs)
  {
  }

  /** The stored keys of bucket `b` with a slot below `n`. */
  ghost function KeysBelow(kvs: Kvs, b: DataBucketId, n: nat): set<SaltKey> {
    set key | key in kvs && key.bucket == b && key.slot < n
  }

  lemma KeysBelowNext(kvs: Kvs, b: DataBucketId, n: nat)
    ensures KeysBelow(kvs, b, 0) == {}
    ensures KeysBelow(kvs, b, n + 1) == KeysBelow(kvs, b, n) + if SaltKey(b, n) in kvs then {SaltKey(b, n)} else {}
    ensures SaltKey(b, n) !in KeysBelow(kvs, b, n)
  {
  }

  /** In a well-formed bucket the stored keys are the occupied slots. */
  lemma {:induction false} KeysBelowCount(kvs: Kvs, b: DataBucketId, n: nat)
    requires Shape(kvs, map[], b) && n <= BaseMeta(kvs, b).capacity
    ensures |KeysBelow(kvs, b, n)| == Count(BaseTab(kvs, b)[..n])
  {
    if n == 0 {
      KeysBelowNext(kvs, b, 0);
    } else {
      KeysBelowCount(kvs, b, n - 1);
      KeysBelowNext(kvs, b, n - 1);
      SlotStored(kvs, b, n - 1);
      hide KeysBelow, Shape, BaseTab, BaseMeta;
      assert BaseTab(kvs, b)[..n][..n - 1] == BaseTab(kvs, b)[..n - 1];
    }
  }

  lemma SlotStored(kvs: Kvs, b: DataBucketId, i: nat)
    requires Shape(kvs, map[], b) && i < BaseMeta(kvs, b).capacity
    ensures i < |BaseTab(kvs, b)| && (BaseTab(kvs, b)[i].Some? <==> SaltKey(b, i) in kvs)
  {
    assert At(kvs, map[], SaltKey(b, i)) == if SaltKey(b, i) in kvs then Some(kvs[SaltKey(b, i)]) else None;
    assert BaseTab(kvs, b)[i] == EntryAt(kvs, map[], b, i);
  }

  lemma DataKeysAreSlots(kvs: Kvs, b: DataBucketId)
    requires Shape(kvs, map[], b)
    ensures |DataKeys(kvs, b)| == Count(BaseTab(kvs, b))
  {
    var n := BaseMeta(kvs, b).capacity;
    KeysBelowCount(kvs, b, n);
    assert BaseTab(kvs, b)[..n] == BaseTab(kvs, b);
    forall key | key in kvs && key.bucket == b
      ensures key.slot < n
    {
      assert At(kvs, map[], SaltKey(b, key.slot)).Some?;
    }
    assert DataKeys(kvs, b) == KeysBelow(kvs, b, n);
  }

  lemma AgreesIsCounts(state: StateStore)
    requires TruthOk(state.kvs)
    ensures Agrees(Full(state), state.kvs) <==> CountsOk(state)
  {
    forall b: DataBucketId
      ensures |DataKeys(state.kvs, b)| == Count(BaseTab(state.kvs, b))
    {
      assert BucketOk(state.kvs, map[], b);
      DataKeysAreSlots(state.kvs, b);
    }
  }

  lemma SameViewTruthOk(s: Session, kvs: Kvs)
    requires SessionOk(s) && SameView(BaseView(kvs), ViewOf(s.truth, s.cache))
    ensures TruthOk(kvs)
    ensures forall b: DataBucketId :: BaseTab(kvs, b) == TabOf(s, b) && BaseMeta(kvs, b) == MetaOf(s, b)
  {
    forall key
      ensures At(kvs, map[], key) == At(s.truth, s.cache, key)
    {
      assert BaseView(kvs)(key) == ViewOf(s.truth, s.cache)(key);
    }
    forall b: DataBucketId
      ensures BucketOk(kvs, map[], b) && BaseTab(kvs, b) == TabOf(s, b) && BaseMeta(kvs, b) == MetaOf(s, b)
    {
      assert BucketInv(s, b);
      SameViewBucket(s, kvs, b);
    }
    hide SessionOk, At, SameView;
  }

  lemma SameViewBucket(s: Session, kvs: Kvs, b: DataBucketId)
    requires forall key :: At(kvs, map[], key) == At(s.truth, s.cache, key)
    requires BucketOk(s.truth, s.cache, b)
    ensures BucketOk(kvs, map[], b) && BaseTab(kvs, b) == TabOf(s, b) && BaseMeta(kvs, b) == MetaOf(s, b)
  {
    hide CanonicalExcept;
    assert BaseTab(kvs, b) == TabOf(s, b);
  }

  // ---------------------------------------------------------------- rollback

  /** No logged metadata was stored implicitly, as the absent default. */
  ghost predicate MetadataStored(kvs: Kvs, data: Log) {
    forall key :: key in data && key.IsInMetaBucket() ==> key in kvs
  }

  /** Applying a log and then its inverse always shows the old state again. */
  lemma RollbackShows(kvs: Kvs, data: Log, v1: View)
    requires IsDiff(data, BaseView(kvs), v1) && NormalView(v1)
    ensures SameView(BaseView(ApplyKvs(ApplyKvs(kvs, data), Inverted(data))), BaseView(kvs))
  {
    var kvs1 := ApplyKvs(kvs, data);
    ApplyShows(kvs, data, v1);
    InverseSwaps(data, BaseView(kvs), v1);
    ViewsAreNormal(kvs, map[]);
    DiffOfSame(Inverted(data), v1, BaseView(kvs), BaseView(kvs1), BaseView(kvs));
    ApplyShows(kvs1, Inverted(data), BaseView(kvs));
  }

  /**
   The stored map itself comes back exactly when no logged metadata was an absent default:
   the inverse writes such a default out.
   */
  lemma RollbackRestores(kvs: Kvs, data: Log, v1: View)
    requires IsDiff(data, BaseView(kvs), v1) && NormalView(v1)
    ensures ApplyKvs(ApplyKvs(kvs, data), Inverted(data)) == kvs <==> MetadataStored(kvs, data)
  {
    var back := ApplyKvs(ApplyKvs(kvs, data), Inverted(data));
    forall key
      ensures if key in data && key.IsInMetaBucket() then key in back
              else (key in back <==> key in kvs)
      ensures key in back && key in kvs ==> back[key] == kvs[key]
    {
      if key in data {
        assert data[key] == Transition(At(kvs, map[], key), v1(key));
        assert Inverted(data)[key] == Transition(v1(key), At(kvs, map[], key));
      }
    }
    if MetadataStored(kvs, data) {
      assert back.Keys == kvs.Keys;
      assert back == kvs;
    }
  }

  // ---------------------------------------------------------------- a rollback that leaves something behind

  /** The log of a new nonce for bucket `b` of an empty store. */
  ghost function NewNonceLog(b: DataBucketId): Log {
    map[BucketMetadataKey(b) := Transition(Some(Meta(0, MIN_BUCKET_SIZE)), Some(Meta(1, MIN_BUCKET_SIZE)))]
  }

  /**
   Where the inverse does not restore the map: `set_nonce` on an empty store logs the change of
   metadata that was an absent default, and rolling back leaves that default written out.
   */
  lemma RollbackLeavesDefault(b: DataBucketId, s0: Session, s1: Session)
    requires s0 == Session(Full(StateStore(map[], map[])), map[], s0.cacheRead, map[], map[], {})
    requires SessionOk(s1) && Rehashed(s0, s1, b, 1, MetaOf(s0, b).capacity)
    ensures IsDiff(NewNonceLog(b), BaseView(map[]), ViewOf(s1.truth, s1.cache))
    ensures ApplyKvs(ApplyKvs(map[], NewNonceLog(b)), Inverted(NewNonceLog(b))) == map[BucketMetadataKey(b) := Meta(0, MIN_BUCKET_SIZE)]
    ensures ApplyKvs(ApplyKvs(map[], NewNonceLog(b)), Inverted(NewNonceLog(b))) != map[]
  {
    NewNonceView(b, s0, s1);
    hide At, IsDiff, SessionOk, Rehashed;
  }

  lemma NewNonceView(b: DataBucketId, s0: Session, s1: Session)
    requires s0 == Session(Full(StateStore(map[], map[])), map[], s0.cacheRead, map[], map[], {})
    requires SessionOk(s1) && Rehashed(s0, s1, b, 1, MetaOf(s0, b).capacity)
    ensures IsDiff(NewNonceLog(b), BaseView(map[]), ViewOf(s1.truth, s1.cache))
  {
    hide SessionOk, CanonicalExcept, Contents, BucketInv;
    SessionBucket(s1, b);
    EmptyTable(s0, b);
    assert Contents(TabOf(s1, b)) == map[] by { hide At; }
    forall key
      ensures At(s1.truth, s1.cache, key) == if key == BucketMetadataKey(b) then Some(Meta(1, MIN_BUCKET_SIZE)) else At(map[], map[], key)
    {
      if key.bucket == b {
        SlotShown(s1, b, key.slot);
        NoEntry(TabOf(s1, b), key.slot);
      }
    }
  }

  lemma EmptyTable(s: Session, b: DataBucketId)
    requires s.truth == map[] && s.cache == map[]
    ensures MetaOf(s, b) == BucketMeta(0, MIN_BUCKET_SIZE, None) && Contents(TabOf(s, b)) == map[]
  {
  }

  lemma NoEntry(t: Table, i: nat)
    requires Contents(t) == map[]
    ensures SlotIn(t, i) == None
  {
    StoredKey(t, i);
  }

  lemma StoredKey(t: Table, i: nat)
    ensures i < |t| && t[i].Some? ==> t[i].value.key in Contents(t).Keys
  {
  }

  /** The in-memory store as an object. */
  class MemStore {
    var state: StateStore

    ghost predicate Valid()
      reads this
    {
      TruthOk(state.kvs) && Agrees(Full(state), state.kvs)
    }

    constructor ()
      ensures state == StateStore(map[], map[]) && Valid()
    {
      state := StateStore(map[], map[]);
      new;
      EmptyStoreOk();
    }

    /**
     Applies the log of a session over this store: the store then shows what the session
     showed, and its slot counts are right.
     */
    method UpdateState(data: Log, ghost s: Session)
      requires Valid() && SessionOk(s) && s.truth == state.kvs
      requires IsDiff(data, BaseView(state.kvs), ViewOf(s.truth, s.cache))
      modifies this
      ensures Valid() && state.kvs == ApplyKvs(old(state.kvs), data)
      ensures SameView(BaseView(state.kvs), ViewOf(s.truth, s.cache))
    {
      ghost var kvs := state.kvs;
      AgreesIsCounts(state);
      ApplyNothing(kvs);
      hide TruthOk, IsDiff, SessionOk, Agrees, CountsOk;
      LogMatches(kvs, data, ViewOf(s.truth, s.cache));
      var rest := data.Keys;
      while rest != {}
        invariant rest <= data.Keys
        invariant state.kvs == ApplyKvs(kvs, map key | key in data && key !in rest :: data[key])
        invariant CountsOk(state)
        decreases |rest|
      {
        var key :| key in rest;
        ApplyEntryCounts(state, key, data[key]);
        ApplyKvsNext(kvs, data, rest, key);
        state := ApplyEntry(state, key, data[key]);
        rest := rest - {key};
      }
      assert (map key | key in data && key !in rest :: data[key]) == data;
      ViewsAreNormal(s.truth, s.cache);
      ApplyShows(kvs, data, ViewOf(s.truth, s.cache));
      SameViewTruthOk(s, state.kvs);
      AgreesIsCounts(state);
    }
  }

  lemma EmptyStoreOk()
    ensures TruthOk(map[]) && Agrees(Full(StateStore(map[], map[])), map[])
  {
    forall b: DataBucketId
      ensures BucketOk(map[], map[], b)
    {
      MetadataKeyRoundTrip(b);
    }
    AgreesIsCounts(StateStore(map[], map[]));
  }

  lemma ApplyNothing(kvs: Kvs)
    ensures ApplyKvs(kvs, map[]) == kvs
  {
  }

  /** Before its entry is applied, a data key is stored exactly when the entry says so. */
  lemma LogMatches(kvs: Kvs, data: Log, v1: View)
    requires IsDiff(data, BaseView(kvs), v1)
    ensures forall key :: key in data && !key.IsInMetaBucket() ==> (data[key].before.Some? <==> key in kvs)
  {
  }

  lemma ApplyKvsNext(kvs: Kvs, data: Log, rest: set<SaltKey>, key: SaltKey)
    requires key in rest && rest <= data.Keys
    ensures var d0 := map k | k in data && k !in rest :: data[k];
            var d1 := map k | k in data && k !in rest - {key} :: data[k];
            && ApplyKvs(kvs, d1) == (if data[key].after.Some? then ApplyKvs(kvs, d0)[key := data[key].after.value] else ApplyKvs(kvs, d0) - {key})
            && (key in ApplyKvs(kvs, d0) <==> key in kvs)
  {
  }
}
