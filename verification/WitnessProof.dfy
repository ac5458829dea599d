/** A witness with its proof: every witness that is created for a block can be proved, and verifies. */
module WitnessProof {
  import opened Wrappers
  import opened ShiTable
  import opened SaltTypes
  import opened SessionView
  import opened Scalars
  import opened Elements
  import opened Transcripts
  import opened Ipa
  import opened MultiProof
  import opened ProofShape
  import opened ProofQueries
  import opened SaltProofModule
  import opened ProofCheck
  import opened SessionRuns
  import opened WitnessReplay
  import opened WitnessCreation

  /** The witnessed keys lie within the capacities of their buckets, as proof creation demands. */
  lemma WithinMeansProvable(kvs: Kvs, keys: seq<SaltKey>, data: Data)
    requires KeysWithin(kvs, data.Keys) && forall k :: k in keys <==> k in data
    ensures forall j :: 0 <= j < |keys| ==> keys[j].slot < CapacityOf(kvs, keys[j].bucket)
  {
    forall j | 0 <= j < |keys|
      ensures keys[j].slot < CapacityOf(kvs, keys[j].bucket)
    {
      assert keys[j] in data.Keys;
    }
  }

  lemma WitnessReads(w: Witness, kvs: Kvs)
    requires Agrees(Partial(w), kvs)
    ensures Reads(w.kvs, kvs)
  {
    hide At;
  }

  /** The proof of a witness over the store it was taken from, and its verification against its own root. */
  method ProveWitness(w: Witness, state: StateStore, trie: Trie, crs: Crs, threads: nat)
    returns (proved: Result<Proof, ProofError>, verified: Result<(), ProofError>, ghost vs: seq<VerifierQuery>)
    requires TruthOk(state.kvs) && Agrees(Full(state), state.kvs)
    requires GroupLaws() && IsField() && EncodingLengths() && CrsOk(crs) && threads > 0 && TrieCommits(crs, trie, state.kvs)
    requires Agrees(Partial(w), state.kvs) && KeysWithin(state.kvs, w.kvs.Keys)
    ensures w.kvs != map[] ==> proved.Success? || proved.error == Panic
    ensures proved.Success? && crs.n <= ChallengeT(TAG_ST, vs, proved.value.proof.gComm) ==> verified.Success?
  {
    WitnessReads(w, state.kvs);
    hide TruthOk, Agrees, GroupLaws, IsField, EncodingLengths, TrieCommits, Reads, KeysWithin, CapacityOf, ChallengeT;
    var keys := KeyList(w.kvs);
    WithinMeansProvable(state.kvs, keys, w.kvs);
    if keys == [] {
      NoKeys(w.kvs, keys);
    }
    proved, verified, vs := CreateAndCheck(state, trie, crs, keys, w.kvs, threads);
  }

  lemma NoKeys(data: Data, keys: seq<SaltKey>)
    requires keys == [] && forall k :: k in keys <==> k in data
    ensures data == map[]
  {
    assert forall k :: k !in data;
  }

  // ---------------------------------------------------------------- the direct table

  /** Every key of the direct table is held by the slot it leads to. */
  ghost predicate Located(w: Witness) {
    forall k :: k in w.directLookupTbl ==> HeldAt(w, k)
  }

  predicate HeldAt(w: Witness, k: Key)
    requires k in w.directLookupTbl
  {
    var at := w.directLookupTbl[k];
    at in w.kvs && w.kvs[at].Some? && w.kvs[at].value.Plain? && w.kvs[at].value.entry.key == k
  }

  /** The second phase of `Witness::verify`: a direct lookup of every key of the direct table. */
  method VerifyLocations(w: Witness) returns (r: Result<(), ProofError>)
    ensures r.Success? <==> Located(w)
    ensures r.Failure? ==> r.error == InvalidLookupTable
  {
    var rest := w.directLookupTbl.Keys;
    while rest != {}
      invariant rest <= w.directLookupTbl.Keys
      invariant forall k :: k in w.directLookupTbl.Keys - rest ==> HeldAt(w, k)
      decreases |rest|
    {
      ghost var some := SomeElement(rest);
      var k :| k in rest;
      if !HeldAt(w, k) {
        return Failure(InvalidLookupTable);
      }
      rest := rest - {k};
    }
    forall k | k in w.directLookupTbl
      ensures HeldAt(w, k)
    {
      assert k in w.directLookupTbl.Keys - rest;
    }
    r := Success(());
  }

  /** A table that was rebuilt from the pairs passes. */
  lemma RebuiltIsLocated(w: Witness)
    requires RebuiltFrom(w.directLookupTbl, w.kvs)
    ensures Located(w)
  {
    forall k | k in w.directLookupTbl
      ensures HeldAt(w, k)
    {
      assert SlotHolds(w.kvs, w.directLookupTbl[k], k);
    }
  }

  // ---------------------------------------------------------------- together

  /**
   `Witness::create` with its proof. Whatever the block reads and changes, growth of buckets
   included, the keys that are witnessed can be proved against the state before the block: proof
   creation fails only by a panic of the inner product argument, and the witness verifies.
   */
  method CreateProvenWitness(bucketIds: set<DataBucketId>, lookups: seq<Key>, ops: seq<Op>, state: StateStore, trie: Trie, crs: Crs, threads: nat)
    returns (r: Result<Witness, SaltError>, proved: Result<Proof, ProofError>, verified: Result<(), ProofError>,
             ghost recorded: seq<Session>, ghost vs: seq<VerifierQuery>)
    requires TruthOk(state.kvs) && Agrees(Full(state), state.kvs)
    requires GroupLaws() && IsField() && EncodingLengths() && CrsOk(crs) && threads > 0 && TrieCommits(crs, trie, state.kvs)
    ensures r.Success? ==> Covers(r.value, state, lookups, ops, recorded)
    ensures r.Success? && r.value.kvs != map[] ==> proved.Success? || proved.error == Panic
    ensures r.Success? && proved.Success? && crs.n <= ChallengeT(TAG_ST, vs, proved.value.proof.gComm) ==> verified.Success?
    ensures r.Failure? ==> r.error == CapacityPanic || (r.error == InvalidFormat && !MetaDecodable(state.kvs))
  {
    hide TruthOk, GroupLaws, IsField, EncodingLengths, TrieCommits, ChallengeT, MetaDecodable, BaseMeta;
    r, recorded := CreateWitness(bucketIds, lookups, ops, state);
    proved, verified, vs := Failure(StateReadError), Failure(StateReadError), [];
    if r.Success? {
      CoversAgrees(r.value, state, lookups, ops, recorded);
      assert Located(r.value) by {
        hide Covers, Agrees, KeysWithin;
      }
      hide Covers, Agrees, Located;
      proved, verified, vs := ProveWitness(r.value, state, trie, crs, threads);
      if verified.Success? {
        verified := VerifyLocations(r.value);
      }
    }
  }
}
