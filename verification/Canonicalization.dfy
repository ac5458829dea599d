/** The steps of `canonicalize`, on values: a bucket is emptied, takes its stored metadata back, and is refilled. */
module Canonicalization {
  import opened Wrappers
  import opened ShiTable
  import opened LoadFactor
  import opened Insertion
  import opened Rehash
  import opened SaltTypes
  import opened StateUpdatesModule
  import opened SessionView
  import opened SessionSteps
  import opened SessionRuns

  lemma {:induction false} VacantCount(n: nat)
    ensures Count(Vacant(n)) == 0
  {
    if n > 0 {
      VacantCount(n - 1);
      assert Vacant(n)[..n - 1] == Vacant(n - 1);
    }
  }

  // ---------------------------------------------------------------- collecting the pairs

  /** `pairs` are the pairs of `t`, each once. */
  ghost predicate Collected(pairs: seq<Entry>, t: Table) {
    && PairMap(pairs) == Contents(t) && |pairs| == Count(t)
    && (forall i, j :: 0 <= i < j < |pairs| ==> pairs[i].key != pairs[j].key)
    && (forall i :: 0 <= i < |pairs| ==> pairs[i].key in KeysOf(t))
  }

  lemma CollectNext(pairs: seq<Entry>, t: Table, n: nat)
    requires Distinct(t) && n < |t| && Collected(pairs, t[..n])
    ensures Collected(if t[n].Some? then pairs + [t[n].value] else pairs, t[..n + 1])
  {
    ContentsOfPrefix(t, n);
    var s, u := t[..n], t[..n + 1];
    assert u[..|u| - 1] == s && u[|u| - 1] == t[n];
    KeysOfLast(u);
    CountLast(u);
    hide Contents, KeysOf, Distinct, Count, PairMap;
    if t[n].Some? {
      PairMapSnoc(pairs, t[n].value);
      hide Collected;
      CollectedSnoc(pairs, s, t[n].value, u);
    }
  }

  lemma CollectedSnoc(pairs: seq<Entry>, s: Table, e: Entry, u: Table)
    requires Collected(pairs, s) && e.key !in KeysOf(s) && KeysOf(u) == KeysOf(s) + {e.key}
    requires Count(u) == Count(s) + 1 && PairMap(pairs + [e]) == Contents(u)
    ensures Collected(pairs + [e], u)
  {
    hide Contents, KeysOf, Count, PairMap;
  }

  lemma CountLast(t: Table)
    requires t != []
    ensures Count(t) == Count(t[..|t| - 1]) + if t[|t| - 1].Some? then 1 else 0
  {
  }

  lemma PairMapSnoc(pairs: seq<Entry>, e: Entry)
    ensures PairMap(pairs + [e]) == PairMap(pairs)[e.key := e.val]
  {
    assert (pairs + [e])[..|pairs|] == pairs;
  }

  lemma {:induction false} PairMapKeys(pairs: seq<Entry>, n: nat)
    requires n <= |pairs|
    requires forall i, j :: 0 <= i < j < |pairs| ==> pairs[i].key != pairs[j].key
    ensures |PairMap(pairs[..n])| == n
    ensures forall i :: n <= i < |pairs| ==> pairs[i].key !in PairMap(pairs[..n])
    ensures n < |pairs| ==> PairMap(pairs[..n + 1]) == PairMap(pairs[..n])[pairs[n].key := pairs[n].val]
  {
    if n > 0 {
      PairMapKeys(pairs, n - 1);
      assert pairs[..n][..n - 1] == pairs[..n - 1];
    }
    if n < |pairs| {
      assert pairs[..n + 1][..n] == pairs[..n];
    }
  }

  // ---------------------------------------------------------------- emptying

  lemma LaidOutReads(s0: Session, s: Session, s1: Session, b: DataBucketId, before: Table, after: Table, n: nat)
    requires LaidOut(s0, s, b, before, after, n) && OnlyReads(s, s1)
    ensures LaidOut(s0, s1, b, before, after, n)
  {
    hide SlotIn;
    assert forall i: nat :: At(s1.truth, s1.cache, SaltKey(b, i)) == At(s.truth, s.cache, SaltKey(b, i));
  }

  lemma LaidOutShape(s0: Session, s: Session, b: DataBucketId, before: Table, n: nat)
    requires Shape(s0.truth, s0.cache, b) && before == TabOf(s0, b) && n <= |before|
    requires LaidOut(s0, s, b, before, Vacant(|before|), n)
    ensures Shape(s.truth, s.cache, b) && MetaOf(s, b) == MetaOf(s0, b)
    ensures forall i :: n <= i < |before| ==> TabOf(s, b)[i] == before[i]
  {
    forall i: nat
      ensures At(s.truth, s.cache, SaltKey(b, i)) == if i < n then None else At(s0.truth, s0.cache, SaltKey(b, i))
    {
      assert At(s.truth, s.cache, SaltKey(b, i)) == Lift(SlotIn(if i < n then Vacant(|before|) else before, i));
      assert i < |before| ==> before[i] == EntryAt(s0.truth, s0.cache, b, i);
    }
  }

  /** The cached metadata is dropped. */
  ghost function DropMeta(s: Session, b: DataBucketId): Session {
    s.(cache := s.cache - {BucketMetadataKey(b)})
  }

  lemma DropMetaView(s: Session, b: DataBucketId)
    ensures var s1 := DropMeta(s, b); var key := BucketMetadataKey(b);
            && At(s1.truth, s1.cache, key) == At(s.truth, map[], key)
            && SameView(Write(ViewOf(s.truth, s.cache), key, At(s.truth, map[], key)), ViewOf(s1.truth, s1.cache))
            && (forall k :: k != key ==> At(s1.truth, s1.cache, k) == At(s.truth, s.cache, k))
  {
  }

  /** An emptied bucket that shows its stored metadata again. */
  ghost predicate Emptied(s0: Session, s1: Session, b: DataBucketId) {
    && StepIn(s0, s1, b) && s1.delta == s0.delta && s1.rehashed == s0.rehashed
    && Shape(s1.truth, s1.cache, b) && MetaOf(s1, b) == BaseMeta(s0.truth, b)
    && TabOf(s1, b) == Vacant(BaseMeta(s0.truth, b).capacity)
    && (forall b': DataBucketId, i: nat :: SaltKey(b', i) in s0.cache ==> SaltKey(b', i) in s1.cache)
  }

  lemma DropMetaEmpties(s0: Session, s: Session, b: DataBucketId)
    requires SessionOk(s0) && LaidOut(s0, s, b, TabOf(s0, b), Vacant(|TabOf(s0, b)|), |TabOf(s0, b)|)
    ensures Emptied(s0, DropMeta(s, b), b)
    ensures At(s.truth, s.cache, BucketMetadataKey(b)) == Some(MetaOf(s0, b).ToValue())
  {
    SessionBucket(s0, b);
    BaseOk(s0, b);
    DropMetaInside(s0, s, b);
    DropMetaVacant(s0, s, b);
    hide SessionOk, CanonicalExcept, TruthOk, Agrees, StepIn, Counted, CacheKnown, TabOf, Vacant, BucketOk;
  }

  lemma DropMetaVacant(s0: Session, s: Session, b: DataBucketId)
    requires BucketOk(s0.truth, map[], b) && Shape(s0.truth, s0.cache, b)
    requires LaidOut(s0, s, b, TabOf(s0, b), Vacant(|TabOf(s0, b)|), |TabOf(s0, b)|)
    ensures var s1 := DropMeta(s, b);
            Shape(s1.truth, s1.cache, b) && MetaOf(s1, b) == BaseMeta(s0.truth, b) && TabOf(s1, b) == Vacant(BaseMeta(s0.truth, b).capacity)
  {
    var s1 := DropMeta(s, b);
    DropMetaView(s, b);
    StepFacts(s0, s, b);
    hide CanonicalExcept, StepIn, Counted, CacheKnown;
    forall i: nat
      ensures At(s1.truth, s1.cache, SaltKey(b, i)) == None
    {
      assert At(s.truth, s.cache, SaltKey(b, i)) == Lift(SlotIn(if i < |TabOf(s0, b)| then Vacant(|TabOf(s0, b)|) else TabOf(s0, b), i));
    }
  }

  lemma BaseOk(s: Session, b: DataBucketId)
    requires SessionOk(s)
    ensures BucketOk(s.truth, map[], b) && ReadOk(s)
  {
  }

  lemma DropMetaInside(s0: Session, s: Session, b: DataBucketId)
    requires StepIn(s0, s, b) && CacheGrows(s0, s)
    ensures StepIn(s0, DropMeta(s, b), b)
    ensures forall b': DataBucketId, i: nat :: SaltKey(b', i) in s0.cache ==> SaltKey(b', i) in DropMeta(s, b).cache
  {
    var s1 := DropMeta(s, b);
    DropMetaView(s, b);
    hide At, MetaAt;
    assert forall key :: !InBucket(key, b) ==> key != BucketMetadataKey(b);
  }

  lemma EmptiedReads(s0: Session, s1: Session, s2: Session, b: DataBucketId)
    requires Emptied(s0, s1, b) && OnlyReads(s1, s2)
    ensures Emptied(s0, s2, b)
  {
    ReadsKeepTable(s1, s2, b);
    ShapeReads(s1, s2, b);
    hide Shape, TabOf, MetaOf;
  }

  lemma ShapeReads(s1: Session, s2: Session, b: DataBucketId)
    requires OnlyReads(s1, s2) && Shape(s1.truth, s1.cache, b)
    ensures Shape(s2.truth, s2.cache, b)
  {
  }

  /** The count delta then says that the bucket is empty. */
  ghost function Uncounted(s: Session, b: DataBucketId, n: nat): Session {
    s.(delta := s.delta[b := DeltaAt(s.delta, b) - n])
  }

  ghost predicate BucketReset(s0: Session, s1: Session, b: DataBucketId) {
    && StepIn(s0, s1, b) && SessionOk(s1) && s1.rehashed == s0.rehashed
    && MetaOf(s1, b) == BaseMeta(s0.truth, b) && Contents(TabOf(s1, b)) == map[]
  }

  lemma EmptiedIsReset(s0: Session, s: Session, b: DataBucketId, n: nat)
    requires SessionOk(s0) && Emptied(s0, s, b) && n == Count(TabOf(s0, b))
    ensures BucketReset(s0, Uncounted(s, b, n), b)
  {
    var s1 := Uncounted(s, b, n);
    SessionBucket(s0, b);
    EmptiedInOrder(s0, s, b, n);
    UncountedStep(s0, s, b, n);
    hide SessionOk, Emptied, StepIn, BucketInv, Contents;
    StepKeepsSession(s0, s1, b);
  }

  lemma UncountedStep(s0: Session, s: Session, b: DataBucketId, n: nat)
    requires Emptied(s0, s, b)
    ensures StepIn(s0, Uncounted(s, b, n), b) && Uncounted(s, b, n).rehashed == s0.rehashed
    ensures forall b': DataBucketId, i: nat :: SaltKey(b', i) in s0.cache ==> SaltKey(b', i) in Uncounted(s, b, n).cache
  {
    hide Shape, TabOf, Vacant, At;
  }

  /** An emptied bucket with its count taken off is in order. */
  lemma EmptiedInOrder(s0: Session, s: Session, b: DataBucketId, n: nat)
    requires Emptied(s0, s, b) && BucketOk(s0.truth, map[], b) && Counted(s0, b) && n == Count(TabOf(s0, b))
    ensures var s1 := Uncounted(s, b, n); BucketInv(s1, b) && MetaOf(s1, b) == BaseMeta(s0.truth, b) && Contents(TabOf(s1, b)) == map[]
  {
    var s1 := Uncounted(s, b, n);
    SameInsideSameTable(s.truth, s.cache, s1.cache, b);
    VacantFacts(BaseMeta(s0.truth, b).capacity, BaseMeta(s0.truth, b).nonce);
    VacantCount(BaseMeta(s0.truth, b).capacity);
    hide CanonicalExcept, Contents, Vacant, Count, At;
  }

  // ---------------------------------------------------------------- refilling

  ghost predicate Refilling(s0: Session, s: Session, b: DataBucketId, pairs: seq<Entry>, j: nat)
    requires j <= |pairs|
  {
    && StepIn(s0, s, b) && SessionOk(s)
    && Contents(TabOf(s, b)) == PairMap(pairs[..j])
    && MetaOf(s, b) == BucketMeta(BaseMeta(s.truth, b).nonce, DueCapacity(s, b, j), None)
  }

  lemma RefillBegins(s0: Session, s: Session, b: DataBucketId, pairs: seq<Entry>)
    requires BucketReset(s0, s, b)
    ensures Refilling(s0, s, b, pairs, 0)
  {
    SessionBucket(s, b);
    hide SessionOk, CanonicalExcept, Contents;
  }

  ghost predicate PairsOk(pairs: seq<Entry>, b: DataBucketId) {
    && (forall i, j :: 0 <= i < j < |pairs| ==> pairs[i].key != pairs[j].key)
    && (forall i :: 0 <= i < |pairs| ==> BucketOf(pairs[i].key) == b)
  }

  lemma RefillGoesOn(s0: Session, s: Session, s1: Session, b: DataBucketId, pairs: seq<Entry>, j: nat)
    requires j < |pairs| && PairsOk(pairs, b) && Refilling(s0, s, b, pairs, j)
    requires SessionOk(s1) && Upserted(s, s1, b, pairs[j].key, pairs[j].val)
    ensures Refilling(s0, s1, b, pairs, j + 1)
  {
    RefillCapacity(s0, s, b, pairs, j);
    PairMapKeys(pairs, j);
    hide SessionOk, CanonicalExcept, Contents, PairMap;
    StepsCompose(s0, s, s1, b);
    StepFacts(s, s1, b);
  }

  lemma RefillCapacity(s0: Session, s: Session, b: DataBucketId, pairs: seq<Entry>, j: nat)
    requires j < |pairs| && PairsOk(pairs, b) && Refilling(s0, s, b, pairs, j)
    ensures UpsertCapacity(s, b, pairs[j].key) == DueCapacity(s, b, j + 1) <= DueCapacity(s, b, |pairs|)
  {
    SessionBucket(s, b);
    BaseOk(s, b);
    PairMapKeys(pairs, j);
    hide SessionOk, CanonicalExcept, Contents, PairMap;
    var base := BaseMeta(s.truth, b).capacity;
    ResizeInSteps(base, j, j + 1);
    ResizeInSteps(base, j + 1, |pairs|);
  }

  /** No upsert of a replay expands its bucket by force. */
  lemma RefillNeverForced(s0: Session, s: Session, s1: Session, b: DataBucketId, pairs: seq<Entry>, j: nat, key: Key, val: Bytes, e: Entry)
    requires j < |pairs| && PairsOk(pairs, b) && Refilling(s0, s, b, pairs, j)
    ensures !ForcedAt(s, s1, b, key, val, e)
  {
    PairMapKeys(pairs, j);
    BaseOk(s, b);
    hide SessionOk, PairMap, Contents, ForcedAt;
    assert CountsKnown(s, b) ==> Loaded(s, b);
    if ForcedAt(s, s1, b, key, val, e) {
      ForcedMeansOverloaded(s, s1, b, key, val, e);
    }
  }

  /** A rehashed bucket after its replay. */
  ghost predicate Replayed(s0: Session, s1: Session, b: DataBucketId) {
    && StepIn(s0, s1, b) && SessionOk(s1)
    && Settled(s1, b) && Contents(TabOf(s1, b)) == Contents(TabOf(s0, b))
  }

  lemma RefillEnds(s0: Session, s: Session, b: DataBucketId, pairs: seq<Entry>)
    requires Refilling(s0, s, b, pairs, |pairs|) && Collected(pairs, TabOf(s0, b)) && |Contents(TabOf(s0, b))| == |pairs|
    ensures Replayed(s0, s, b)
  {
    hide SessionOk, Contents, PairMap;
    assert pairs[..|pairs|] == pairs;
  }

  lemma CollectedOk(s0: Session, b: DataBucketId, pairs: seq<Entry>)
    requires SessionOk(s0) && Collected(pairs, TabOf(s0, b))
    ensures PairsOk(pairs, b) && |Contents(TabOf(s0, b))| == |pairs| == Count(TabOf(s0, b))
  {
    SessionBucket(s0, b);
    CanonicalDistinct(TabOf(s0, b), MetaOf(s0, b).nonce, -1);
    CountIsContents(TabOf(s0, b));
    hide SessionOk, CanonicalExcept;
    forall i | 0 <= i < |pairs|
      ensures BucketOf(pairs[i].key) == b
    {
      EntryBelongs(s0, b, SlotOf(TabOf(s0, b), pairs[i].key));
    }
  }

  /** The first `n` slots of a bucket have been emptied into `pairs`. */
  ghost predicate Clearing(s0: Session, s: Session, b: DataBucketId, pairs: seq<Entry>, n: nat) {
    && n <= |TabOf(s0, b)|
    && LaidOut(s0, s, b, TabOf(s0, b), Vacant(|TabOf(s0, b)|), n)
    && Collected(pairs, TabOf(s0, b)[..n])
  }

  lemma ClearingStart(s: Session, b: DataBucketId)
    requires Shape(s.truth, s.cache, b) && CacheKnown(s)
    ensures Clearing(s, s, b, [], 0)
  {
    LayoutStart(s, b, Vacant(|TabOf(s, b)|));
  }

  lemma ClearingNext(s0: Session, s: Session, s1: Session, b: DataBucketId, pairs: seq<Entry>, n: nat)
    requires SessionOk(s0) && Clearing(s0, s, b, pairs, n) && n < |TabOf(s0, b)|
    requires LaidOut(s0, s1, b, TabOf(s0, b), Vacant(|TabOf(s0, b)|), n + 1)
    ensures Clearing(s0, s1, b, if TabOf(s0, b)[n].Some? then pairs + [TabOf(s0, b)[n].value] else pairs, n + 1)
  {
    SessionBucket(s0, b);
    hide LaidOut, SessionOk;
    CanonicalDistinct(TabOf(s0, b), MetaOf(s0, b).nonce, -1);
    CollectNext(pairs, TabOf(s0, b), n);
  }

  lemma ClearingEnds(s0: Session, s: Session, b: DataBucketId, pairs: seq<Entry>)
    requires Clearing(s0, s, b, pairs, |TabOf(s0, b)|)
    ensures LaidOut(s0, s, b, TabOf(s0, b), Vacant(|TabOf(s0, b)|), |TabOf(s0, b)|) && Collected(pairs, TabOf(s0, b))
  {
    assert TabOf(s0, b)[..|TabOf(s0, b)|] == TabOf(s0, b);
  }

  lemma LaidOutFacts(s0: Session, s: Session, b: DataBucketId, before: Table, after: Table, n: nat)
    requires ReadOk(s0) && LaidOut(s0, s, b, before, after, n)
    ensures ReadOk(s) && SameStore(s0, s) && CacheGrows(s0, s)
  {
  }

  lemma EmptiedReadOk(s0: Session, s: Session, b: DataBucketId)
    requires ReadOk(s0) && Emptied(s0, s, b)
    ensures ReadOk(s) && Shape(s.truth, s.cache, b)
    ensures MetaKnown(s0, b) ==> MetaKnown(s, b)
  {
  }

  lemma CountsKnownNeeds(s: Session, b: DataBucketId)
    requires SessionOk(s)
    ensures CountsKnown(s, b) ==> MetaKnown(s, b) && SlotsKnown(s, b, MetaOf(s, b).capacity) && s.store.Metadata(b).Success?
  {
    if CountsKnown(s, b) {
      CountsKnownAllKnown(s, b);
      CountsSound(s.store, s.truth, b);
      MetadataSound(s.store, s.truth, b);
    }
  }

  lemma ResetAfterReads(s0: Session, s: Session, s1: Session, b: DataBucketId)
    requires OnlyReads(s0, s) && BucketReset(s, s1, b)
    ensures BucketReset(s0, s1, b)
  {
    hide SessionOk;
  }

  // ---------------------------------------------------------------- all rehashed buckets

  /** A replay of bucket `b` failed: its count is not known, or the capacity it is due is out of range. */
  ghost predicate ReplayFails(s: Session, b: DataBucketId, error: SaltError) {
    if error == CapacityPanic then DueCapacity(s, b, |Contents(TabOf(s, b))|) > BUCKET_SLOT_ID_MASK
    else error == NotInWitness && !CountsKnown(s, b)
  }

  lemma RefillFails(s0: Session, s: Session, b: DataBucketId, pairs: seq<Entry>, j: nat, error: SaltError)
    requires j < |pairs| && PairsOk(pairs, b) && Refilling(s0, s, b, pairs, j) && |Contents(TabOf(s0, b))| == |pairs|
    requires UpsertFails(s, b, pairs[j].key, error)
    ensures ReplayFails(s0, b, error)
  {
    RefillCapacity(s0, s, b, pairs, j);
    if CountsKnown(s, b) {
      KnownUpsertFails(s, b, pairs[j].key, error);
    }
  }

  /** A bucket whose replay is done or not due, or still to come. */
  ghost predicate BucketSoFar(s0: Session, s: Session, rest: set<DataBucketId>, b: DataBucketId) {
    if b in s0.rehashed && b !in rest then Settled(s, b) && Contents(TabOf(s, b)) == Contents(TabOf(s0, b))
    else MetaOf(s, b) == MetaOf(s0, b) && TabOf(s, b) == TabOf(s0, b)
  }

  ghost predicate Canonicalizing(s0: Session, s: Session, rest: set<DataBucketId>) {
    && SameStore(s0, s) && SessionOk(s) && rest <= s0.rehashed
    && (forall b: DataBucketId :: BucketSoFar(s0, s, rest, b))
    && (forall key :: OutsideBuckets(key) ==> At(s.truth, s.cache, key) == At(s0.truth, s0.cache, key))
  }

  lemma CanonicalizeStarts(s: Session)
    requires SessionOk(s)
    ensures Canonicalizing(s, s.(rehashed := {}), s.rehashed)
  {
    Unmarked(s);
    hide SessionOk, At;
    forall b: DataBucketId
      ensures BucketSoFar(s, s.(rehashed := {}), s.rehashed, b)
    {
    }
  }

  /** The marks are no part of the invariant. */
  lemma Unmarked(s: Session)
    requires SessionOk(s)
    ensures SessionOk(s.(rehashed := {}))
  {
    hide CanonicalExcept;
    var s1 := s.(rehashed := {});
    forall b: DataBucketId
      ensures BucketInv(s1, b)
    {
      assert BucketInv(s, b);
      assert TabOf(s1, b) == TabOf(s, b) && MetaOf(s1, b) == MetaOf(s, b);
    }
  }

  lemma CanonicalizeGoesOn(s0: Session, s: Session, s1: Session, rest: set<DataBucketId>, b: DataBucketId)
    requires Canonicalizing(s0, s, rest) && b in rest && Replayed(s, s1, b)
    ensures Canonicalizing(s0, s1, rest - {b})
  {
    OutsideUnchanged(s, s1, b);
    StepFacts(s, s1, b);
    ReplayedSoFar(s0, s, s1, rest, b);
    hide SessionOk, At, StepIn, TabOf, MetaOf, OutsideBuckets, Settled, Contents;
    forall b': DataBucketId | b' != b
      ensures BucketSoFar(s0, s1, rest - {b}, b')
    {
      StepKeepsOthers(s, s1, b, b');
      SettledSame(s, s1, b');
      assert BucketSoFar(s0, s, rest, b');
    }
  }

  lemma ReplayedSoFar(s0: Session, s: Session, s1: Session, rest: set<DataBucketId>, b: DataBucketId)
    requires Canonicalizing(s0, s, rest) && b in rest && Replayed(s, s1, b)
    ensures BucketSoFar(s0, s1, rest - {b}, b)
  {
    hide SessionOk, At, Contents, Settled;
    assert BucketSoFar(s0, s, rest, b);
  }

  lemma SettledSame(s: Session, s1: Session, b: DataBucketId)
    requires SameStore(s, s1) && MetaOf(s1, b) == MetaOf(s, b) && TabOf(s1, b) == TabOf(s, b)
    ensures Settled(s1, b) <==> Settled(s, b)
  {
    hide Contents;
  }

  lemma CanonicalizeEnds(s0: Session, s: Session)
    requires Canonicalizing(s0, s, {})
    ensures Canonicalized(s0, s.(rehashed := {}))
  {
    var s1 := s.(rehashed := {});
    Unmarked(s);
    hide SessionOk, At, Contents;
    forall b: DataBucketId
      ensures if b in s0.rehashed then Settled(s1, b) && Contents(TabOf(s1, b)) == Contents(TabOf(s0, b))
              else MetaOf(s1, b) == MetaOf(s0, b) && TabOf(s1, b) == TabOf(s0, b)
    {
      assert BucketSoFar(s0, s, {}, b);
      SettledSame(s, s1, b);
    }
  }

  lemma RefillFacts(s0: Session, s: Session, b: DataBucketId, pairs: seq<Entry>, j: nat)
    requires j < |pairs| && PairsOk(pairs, b) && Refilling(s0, s, b, pairs, j)
    ensures SessionOk(s) && BucketOf(pairs[j].key) == b
  {
  }

  lemma CanonicalizingFacts(s0: Session, s: Session, rest: set<DataBucketId>, b: DataBucketId)
    requires Canonicalizing(s0, s, rest) && b in rest
    ensures SessionOk(s) && TabOf(s, b) == TabOf(s0, b) && SameStore(s0, s) && b in s0.rehashed
  {
    assert BucketSoFar(s0, s, rest, b);
  }

  lemma ReplayFailsBefore(s0: Session, s: Session, rest: set<DataBucketId>, b: DataBucketId, error: SaltError)
    requires Canonicalizing(s0, s, rest) && b in rest && ReplayFails(s, b, error)
    ensures b in s0.rehashed && ReplayFails(s0, b, error)
  {
    hide SessionOk, Contents, Settled;
    assert BucketSoFar(s0, s, rest, b);
  }

  lemma CanonicalizedOk(s0: Session, s: Session)
    requires Canonicalized(s0, s)
    ensures SessionOk(s)
  {
  }
}
