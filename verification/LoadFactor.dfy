/** When a bucket is resized, and to what capacity. */
module LoadFactor {

  const BUCKET_RESIZE_LOAD_FACTOR_PCT := 80
  const BUCKET_RESIZE_MULTIPLIER := 2

  predicate LoadOk(capacity: nat, used: nat) {
    used * 100 <= capacity * BUCKET_RESIZE_LOAD_FACTOR_PCT
  }

  /** The first doubling of `capacity` that keeps `used` entries within the load factor. */
  function ResizeCapacity(capacity: nat, used: nat): (c: nat)
    requires capacity > 0
    ensures c >= capacity && LoadOk(c, used)
    decreases used * 100 - capacity * BUCKET_RESIZE_LOAD_FACTOR_PCT
  {
    if LoadOk(capacity, used) then capacity else ResizeCapacity(capacity * BUCKET_RESIZE_MULTIPLIER, used)
  }

  /** Doubling stops as soon as the load factor allows: half of a grown capacity is too small. */
  lemma {:induction false} ResizeIsLeast(capacity: nat, used: nat)
    requires capacity > 0
    ensures ResizeCapacity(capacity, used) != capacity ==>
      exists half :: half * BUCKET_RESIZE_MULTIPLIER == ResizeCapacity(capacity, used) && half >= capacity && !LoadOk(half, used)
    decreases used * 100 - capacity * BUCKET_RESIZE_LOAD_FACTOR_PCT
  {
    if !LoadOk(capacity, used) {
      ResizeIsLeast(capacity * BUCKET_RESIZE_MULTIPLIER, used);
      assert ResizeCapacity(capacity, used) == capacity * BUCKET_RESIZE_MULTIPLIER ==>
        capacity * BUCKET_RESIZE_MULTIPLIER == ResizeCapacity(capacity, used) && !LoadOk(capacity, used);
    }
  }

  /** Growing on the way to `n` entries ends at the capacity that growing once for `n` gives. */
  lemma {:induction false} ResizeInSteps(capacity: nat, m: nat, n: nat)
    requires capacity > 0 && m <= n
    ensures ResizeCapacity(ResizeCapacity(capacity, m), n) == ResizeCapacity(capacity, n)
    ensures ResizeCapacity(capacity, m) <= ResizeCapacity(capacity, n)
    decreases m * 100 - capacity * BUCKET_RESIZE_LOAD_FACTOR_PCT
  {
    if !LoadOk(capacity, m) {
      ResizeInSteps(capacity * BUCKET_RESIZE_MULTIPLIER, m, n);
    }
  }

  method ComputeResizeCapacity(capacity: nat, used: nat) returns (newCapacity: nat)
    requires capacity > 0
    ensures newCapacity == ResizeCapacity(capacity, used)
  {
    newCapacity := capacity;
    while used * 100 > newCapacity * BUCKET_RESIZE_LOAD_FACTOR_PCT
      invariant newCapacity > 0
      invariant ResizeCapacity(newCapacity, used) == ResizeCapacity(capacity, used)
      decreases used * 100 - newCapacity * BUCKET_RESIZE_LOAD_FACTOR_PCT
    {
      newCapacity := newCapacity * BUCKET_RESIZE_MULTIPLIER;
    }
  }

  /** The integer test made on insertion is the load factor test. */
  lemma ThresholdTest(capacity: nat, used: nat)
    ensures used > capacity * BUCKET_RESIZE_LOAD_FACTOR_PCT / 100 <==> !LoadOk(capacity, used)
  {
  }
}
