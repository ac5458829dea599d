/** Which keys a session over the in-memory store caches: no slot past its bucket's present capacity. */
module CacheBounds {
  import opened Wrappers
  import opened ShiTable
  import opened SaltTypes
  import opened SessionView
  import opened SessionSteps

  /** The key stands for metadata, or for a slot that its bucket has at present. */
  ghost predicate Below(s: Session, key: SaltKey) {
    key.slot < if key.IsInMetaBucket() then MIN_BUCKET_SIZE else MetaOf(s, key.bucket).capacity
  }

  ghost predicate CacheBelow(s: Session) {
    s.store.Full? && forall key :: key in s.cache ==> Below(s, key)
  }

  /** While bucket `b` is being laid out anew, its slots up to `n` may be cached too. */
  ghost predicate LayoutBelow(s: Session, b: DataBucketId, n: nat) {
    s.store.Full? && forall key :: key in s.cache ==> Below(s, key) || (key.bucket == b && key.slot < n)
  }

  lemma EmptyBelow(s: Session)
    requires s.store.Full? && s.cache == map[]
    ensures CacheBelow(s)
  {
  }

  /** Caching one more key that is below its bound, where no capacity changes. */
  lemma OneMoreBelow(s: Session, s1: Session, key: SaltKey)
    requires s1.store == s.store && s1.cache.Keys <= s.cache.Keys + {key} && Below(s, key) && CacheBelow(s)
    requires forall b: DataBucketId :: MetaOf(s1, b) == MetaOf(s, b)
    ensures CacheBelow(s1)
  {
    hide MetaOf;
    forall k | k in s1.cache
      ensures Below(s1, k)
    {
      assert k in s1.cache.Keys;
      assert Below(s, k);
    }
  }

  /** Reading keeps every capacity. */
  lemma ReadBelow(s: Session, s1: Session, key: SaltKey)
    requires OnlyReads(s, s1) && s1.cache.Keys <= s.cache.Keys + {key}
    ensures CacheBelow(s) && Below(s, key) ==> CacheBelow(s1)
  {
    if CacheBelow(s) && Below(s, key) {
      forall b: DataBucketId
        ensures MetaOf(s1, b) == MetaOf(s, b)
      {
      }
      OneMoreBelow(s, s1, key);
    }
  }

  lemma MetadataKeyBelow(s: Session, b: DataBucketId)
    ensures Below(s, BucketMetadataKey(b))
  {
    MetadataKeyRoundTrip(b);
  }

  /** Writing a slot keeps every capacity. */
  lemma WriteBelow(s: Session, b: DataBucketId, slot: nat, before: Option<SaltValue>, after: Option<SaltValue>)
    requires slot < MetaOf(s, b).capacity
    ensures CacheBelow(s) ==> CacheBelow(Updated(s, SaltKey(b, slot), before, after))
  {
    if CacheBelow(s) {
      var s1 := Updated(s, SaltKey(b, slot), before, after);
      forall b': DataBucketId
        ensures MetaOf(s1, b') == MetaOf(s, b')
      {
        MetadataKeyRoundTrip(b');
      }
      OneMoreBelow(s, s1, SaltKey(b, slot));
    }
  }

  /** A bucket that does not shrink starts its new layout within bounds. */
  lemma LayoutBelowStarts(s: Session, b: DataBucketId, before: Table, n: nat)
    requires before == TabOf(s, b) && |before| <= n
    ensures CacheBelow(s) ==> LayoutBelow(s, b, n)
  {
    hide MetaOf;
  }

  lemma LayoutBelowNext(s: Session, s1: Session, b: DataBucketId, slot: nat, v: Option<SaltValue>, n: nat)
    requires slot < n && s1 == s.(cache := s.cache[SaltKey(b, slot) := v])
    ensures LayoutBelow(s, b, n) ==> LayoutBelow(s1, b, n)
  {
    if LayoutBelow(s, b, n) {
      forall b': DataBucketId
        ensures MetaOf(s1, b') == MetaOf(s, b')
      {
        MetadataKeyRoundTrip(b');
      }
      hide MetaOf;
      forall k | k in s1.cache
        ensures Below(s1, k) || (k.bucket == b && k.slot < n)
      {
        assert k == SaltKey(b, slot) || k in s.cache;
      }
    }
  }

  /** The new metadata cover the new slots. */
  lemma LayoutBelowEnds(s: Session, b: DataBucketId, nonce: nat, capacity: nat)
    requires MetaOf(s, b).capacity <= capacity
    ensures LayoutBelow(s, b, capacity) ==> CacheBelow(WithMeta(s, b, nonce, capacity))
  {
    var s1 := WithMeta(s, b, nonce, capacity);
    forall b': DataBucketId
      ensures MetaOf(s1, b').capacity == if b' == b then capacity else MetaOf(s, b').capacity
    {
      MetadataKeyRoundTrip(b);
      MetadataKeyRoundTrip(b');
    }
    MetadataKeyBelow(s1, b);
    hide MetaOf;
    if LayoutBelow(s, b, capacity) {
      forall k | k in s1.cache
        ensures Below(s1, k)
      {
        assert k == BucketMetadataKey(b) || k in s.cache;
      }
    }
  }
}
