/**
 Addresses, values and errors of the SALT state, and the read interface of its two
 storage backends: the full in-memory store and the block witness.
 */
module SaltTypes {
  import opened Wrappers
  import opened ShiTable

  const NUM_META_BUCKETS := 65536
  const NUM_BUCKETS := 16777216
  const MIN_BUCKET_SIZE := 256
  const BUCKET_SLOT_ID_MASK := 0x100_0000_0000 - 1

  type BucketId = b: nat | b < NUM_BUCKETS

  type DataBucketId = b: nat | NUM_META_BUCKETS <= b < NUM_BUCKETS witness NUM_META_BUCKETS

  /** The bucket a plain key belongs to: an arbitrary function into the data buckets. */
  const BucketOf: Key -> DataBucketId

  datatype SaltKey = SaltKey(bucket: BucketId, slot: nat) {
    predicate IsInMetaBucket() {
      bucket < NUM_META_BUCKETS
    }
  }

  /** A stored value: a plain pair, or the serialized metadata of a bucket. */
  datatype SaltValue = Plain(entry: Entry) | Meta(nonce: nat, capacity: nat)

  datatype BucketMeta = BucketMeta(nonce: nat, capacity: nat, used: Option<nat>) {
    function ToValue(): SaltValue {
      Meta(nonce, capacity)
    }

    predicate IsDefault() {
      nonce == 0 && capacity == MIN_BUCKET_SIZE
    }
  }

  const DEFAULT_META := BucketMeta(0, MIN_BUCKET_SIZE, None)

  datatype SaltError =
    | InvalidFormat
    | NotInWitness
    | UnsupportedOperation
    | UnchainedTransition(key: SaltKey, expected: Option<SaltValue>, actual: Option<SaltValue>)
    | CapacityPanic

  /** Where the metadata of a data bucket is stored. */
  function BucketMetadataKey(b: DataBucketId): (key: SaltKey)
    ensures key.IsInMetaBucket()
  {
    SaltKey(b / MIN_BUCKET_SIZE, b % MIN_BUCKET_SIZE)
  }

  function BucketIdFromMetadataKey(key: SaltKey): nat {
    key.bucket * MIN_BUCKET_SIZE + key.slot
  }

  lemma MetadataKeyRoundTrip(b: DataBucketId)
    ensures BucketIdFromMetadataKey(BucketMetadataKey(b)) == b
  {
  }

  /** The keys that hold bucket `b`: its slots and its metadata. */
  predicate InBucket(key: SaltKey, b: DataBucketId) {
    key.bucket == b || key == BucketMetadataKey(b)
  }

  function DecodeMeta(v: SaltValue): Result<BucketMeta, SaltError> {
    if v.Meta? then Success(BucketMeta(v.nonce, v.capacity, None)) else Failure(InvalidFormat)
  }

  // ---------------------------------------------------------------- stores

  type Kvs = map<SaltKey, SaltValue>

  /** The data of a `MemStore`: key-value pairs and the cached slot counts. */
  datatype StateStore = StateStore(kvs: Kvs, usedSlots: map<BucketId, nat>)

  /** A witness knows some keys to exist, knows others to be absent, and knows nothing of the rest. */
  datatype Witness = Witness(directLookupTbl: map<Key, SaltKey>, kvs: map<SaltKey, Option<SaltValue>>) {

    /** The number of occupied slots below `n`, if the witness knows every one of them. */
    function CountWitnessed(b: BucketId, n: nat): Result<nat, SaltError> {
      if n == 0 then Success(0)
      else
        var below :- CountWitnessed(b, n - 1);
        if SaltKey(b, n - 1) !in kvs then Failure(NotInWitness)
        else Success(below + (if kvs[SaltKey(b, n - 1)].Some? then 1 else 0))
    }

    /** The slot-by-slot scan behind `bucket_used_slots`. */
    method CountSlots(b: BucketId, capacity: nat) returns (r: Result<nat, SaltError>)
      ensures r.Success? <==> forall slot :: 0 <= slot < capacity ==> SaltKey(b, slot) in kvs
      ensures r == CountWitnessed(b, capacity)
    {
      var used := 0;
      for slot := 0 to capacity
        invariant forall i :: 0 <= i < slot ==> SaltKey(b, i) in kvs
        invariant CountWitnessed(b, slot) == Success(used)
      {
        if SaltKey(b, slot) !in kvs {
          CountWitnessedFails(b, slot, capacity);
          return Failure(NotInWitness);
        }
        if kvs[SaltKey(b, slot)].Some? {
          used := used + 1;
        }
      }
      r := Success(used);
    }

    lemma {:induction false} CountWitnessedFails(b: BucketId, slot: nat, n: nat)
      requires slot < n && SaltKey(b, slot) !in kvs
      ensures CountWitnessed(b, n).Failure?
      ensures CountWitnessed(b, slot).Success? ==> CountWitnessed(b, n) == Failure(NotInWitness)
    {
      if slot < n - 1 {
        CountWitnessedFails(b, slot, n - 1);
      }
    }
  }

  datatype Store = Full(state: StateStore) | Partial(known: Witness) {

    function Value(key: SaltKey): Result<Option<SaltValue>, SaltError> {
      match this
      case Full(state) => Success(if key in state.kvs then Some(state.kvs[key]) else None)
      case Partial(w) => if key in w.kvs then Success(w.kvs[key]) else Failure(NotInWitness)
    }

    function Metadata(b: DataBucketId): Result<BucketMeta, SaltError> {
      var key := BucketMetadataKey(b);
      match this
      case Full(state) =>
        var meta :- if key in state.kvs then DecodeMeta(state.kvs[key]) else Success(DEFAULT_META);
        Success(meta.(used := Some(if b in state.usedSlots then state.usedSlots[b] else 0)))
      case Partial(w) =>
        if key !in w.kvs then Failure(NotInWitness)
        else if w.kvs[key].None? then Failure(InvalidFormat)
        else DecodeMeta(w.kvs[key].value)
    }

    function BucketUsedSlots(b: DataBucketId): Result<nat, SaltError> {
      match this
      case Full(state) => Success(if b in state.usedSlots then state.usedSlots[b] else 0)
      case Partial(w) =>
        var meta :- Metadata(b);
        w.CountWitnessed(b, meta.capacity)
    }

    function PlainValueFast(key: Key): Result<SaltKey, SaltError> {
      match this
      case Full(_) => Failure(UnsupportedOperation)
      case Partial(w) => if key in w.directLookupTbl then Success(w.directLookupTbl[key]) else Failure(NotInWitness)
    }
  }
}
