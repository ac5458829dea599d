# A verified model of SALT

SALT is an authenticated key-value store. This project models four of its parts and proves,
with Dafny 4.11, what each is for.

**A. Strongly history-independent buckets and the session over them.** A bucket is a
linear-probing table in which a larger key displaces a smaller one. Insertion, deletion,
rehash, search and expansion are the loops of the source, run on a buffered session
(`EphemeralSaltState`) over a store or over a witness. The main results:

- `ShiTable.CanonicalUnique`: content, nonce and capacity of a bucket determine every slot.
- `History.HistoryIndependence`: two runs of update batches over the same stored pairs that end
  in a canonicalization and reach the same plain pairs end in the same slots, nonces and
  capacities, and publish the same log; `Blocks.TwoProducers` is this about the code.
- `Rehash.RehashIsTheLayout`: a rehashed bucket is the one that inserting its pairs one by one,
  in any order, ends in.
- `SessionRuns.NeverForced`: the forced expansion of a full bucket is never reached by a run
  that starts within the load factor.
- `Blocks.RunChain`: however many blocks are applied, the store stays canonical, correctly
  counted and within the load factor, and holds what the operations say.
- `WitnessReplay.Validate` and `WitnessCreation.StatelessBlock`: a validator that holds only
  the witness never stops for missing data, and ends with exactly the producer's log.
- `WitnessProof.CreateProvenWitness`: the witness of a block, also of one that makes buckets
  grow, holds only slots that the stored buckets have, so it can be proved and verifies.
- `MemStoreModule.RollbackRestores`: a log followed by its inverse restores the stored map
  exactly if and only if no logged metadata was an absent default.

**B. Polynomial commitments.** The inner product argument and the multipoint opening over an
abstract group, with the field as the integers modulo the curve's group order. The main
results:

- `Ipa.AcceptsIsFolding` and `MultiProof.CheckIsFolding`, which `VerifyMultiexp` and `Check`
  carry in their contracts: for every proof, honest or not, the fast verifier accepts if and
  only if the textbook one does, who folds generators, vector and commitment round by round.
- Completeness: `Ipa.IpaComplete` for every power of two, and `MultiProof.MultiPointComplete`
  for every list of queries and every order of the groups. They rest on
  `Ipa.FoldKeepsCommitment`, `Lagrange.PartitionOfUnity` and `Lagrange.DivisionIsExact`.
- `Transcripts.ChallengeBinds`, `Ipa.IpaChallengeBinds`, `MultiProof.RBinds` and `TBinds`: every
  challenge depends on everything that was sent before it. They speak of a hash that tells
  the inputs of the two compared runs apart, since no hash into a finite field is one-to-one.

**C. Scalar arithmetic.** `CommitterModule.MulIndex` and `MulIndexPrefetching` both return
scalar times base from the table that `BuildTable` makes, for every window width. `Montgomery`
follows the register programs of the Montgomery product word by word, with both carry chains.

**D. Proofs over the two-tier tree.** The main results:

- `ProofShape.PathIsClosed`, `PathIsLinked` and `ProofIsClosed`: every child that a query names
  is itself one of the proof's nodes, and every node but the root is named as a child.
- `SaltProofModule.AsksForKeys`, `AsksForNodes` and `ListTellsData`: the verifier asks for every
  claimed content and every commitment; two claims about the same keys give one list exactly
  when they agree at every key that has a place of its own under the claimed levels. Keys
  within capacity all have one; `UnaskedSlot` names those that do not.
- `SaltProofModule.ProverAndVerifierAgree`: the verifier finds exactly the prover's queries.
- `ProofCheck.CreateAndCheck` joins B and D: over a trie that commits to its data, `check`
  accepts what `create` made.

## How the model is built

Operations that change state are methods of classes (`EphemeralSaltState`, `StateUpdates`,
`MemStore`, `Transcript`) or work on arrays in place. Each is proved against a predicate or
function on values (`Upserted`, `Deleted`, `Rehashed`, `Canonicalized`, `Rounds`, `Quotient`,
`ProofQueryList`, ...), and the properties are lemmas about those. A session is seen through
its *view*: what every slot and every metadata key shows, from the cache or else from the
store. A log `IsDiff` between two views when it has exactly the keys that differ, with the two
values. `ghost truth` in a session is the full state that a store answers from, also when the
store is a witness that knows a part of it; no method's result depends on it.

Stated once, for the whole project:

- The hash of a key under a nonce and the bucket of a key are arbitrary functions, and so are
  the encodings of points and scalars, the transcript's hash, the map from commitments to
  scalars, the hash of a slot's content, and the default commitments.
- Keys are numbers that compare as the byte strings do; `PlainKeys.CodeOrder` proves that such
  numbers exist for all keys that fit the one-byte length field.
- A panic is a failure: `CapacityPanic` where a capacity would pass the 40-bit slot range, `None`
  where a round challenge of the inner product argument has no inverse or lists do not pair up,
  `Panic` where a proof names more levels than there are.
- `GroupLaws` and `IsField` (the modulus is prime) are requirements of the results that need them.
- The number of threads is a parameter where the source cuts its work into chunks.

## What the code does, where its documentation says otherwise

- README.md lines 100 and 112 of the repository describe the order of keys in a bucket the
  other way round. In the code a larger key displaces a smaller one
  (salt/src/state/state.rs:529-541), and a search stops at a smaller key
  (salt/src/state/state.rs:969-970). The model follows the code.
- The inverse of a log writes out metadata that was an absent default before, so rolling back
  always restores what the store shows (`RollbackShows`) but not always the stored map:
  `RollbackRestores` gives the exact condition, and `RollbackLeavesDefault` a log that fails it,
  which `set_nonce` makes on an empty store (`Blocks.NewNonceOnEmptyStore`).
- The forced expansion of a full bucket is dead code for every session that starts on a state
  within the load factor, over a full store and over a witness alike (`History.FreshNeverForced`,
  `SessionRuns.NeverForced`), and within `canonicalize` (`Canonicalization.RefillNeverForced`).
  Exactly a full bucket that lacks the key gets there (`Insertion.InsertEntryIs`), so the session
  must start with that bucket over its load factor (`SessionRuns.ForcedMeansOverloaded`): the
  state that the comment at salt/src/state/state.rs:553-580 attributes to a sequencer who has
  put off a resize. There the branch does what is asked (`SessionSteps.ForcedUpsert`), and it
  does not fail for want of the slot count, although it is written below the case where the count
  is not available: the probe has read every slot by then, and a witness that reveals every slot
  reveals the count (`SessionSteps.InsertFindsFull`, `SessionView.AllKnownCountsKnown`).
- The documentation of `SaltWitness::verify_proof` speaks of all witnessed keys. The verifier asks
  for a key's content exactly when the levels in the proof have a place for its slot
  (`SaltProofModule.OwnSlotIs`, `ListTellsData`). Levels that fit the keys, as the prover's do,
  have one for every key; `UnaskedSlot` shows two keys and a level for which one has none.
- The negative branch for the last window of the prefetching `mul_index` is never taken
  (`CommitterModule.TopDoesNotCarry`).
- The Montgomery product needs only its first factor below the prime
  (`Montgomery.MontMulLimbs`).

## Files

| file | content |
|---|---|
| Wrappers, SaltTypes, PlainKeys | results, keys, values, metadata, the stores; the order of keys |
| ShiTable, Insertion, Rehash, LoadFactor | one bucket: order, uniqueness, insertion, deletion, search, rehash, growth |
| StateUpdates | the change log |
| SessionView, SessionSteps, SessionRuns, Canonicalization | what sessions show, and what each operation and each run does to them |
| CacheBounds, EphemeralState | which keys a session caches; the session's methods |
| MemStore, History, Blocks | the in-memory store, history independence, chains of blocks |
| SameLayout, WitnessReplay, WitnessCreation | creating a witness and replaying a block on it |
| Bits, Scalars, Elements, Transcripts | bits, the field, the group, the Fiat-Shamir transcript |
| Ipa, Lagrange, MultiProof | the arguments |
| Committer, Montgomery | windowed multiplication, limb programs |
| NodeUtils, ProofShape, ProofQueries, SaltProof, ProofCheck | tree positions, shape and queries of a proof, and proofs from end to end |
| WitnessProof | a witness with its proof |

## Model

| member | source | states |
|---|---|---|
| `ShiTable.ProbeRank` | salt/src/state/state.rs:989-1009 | `rank` inverts `probe` in both directions, around the end of the table too |
| `ShiTable.DistinctKeys` | salt/src/state/state.rs:20-36 | a table in order holds a key at most once, even while one slot is a hole |
| `ShiTable.SameSlot` | salt/src/state/state.rs:20-36 | in two tables in order with one capacity, nonce and content a key has one slot |
| `ShiTable.CanonicalUnique` | salt/src/state/state.rs:20-36 | unique layout: content, nonce and capacity determine the whole table |
| `ShiTable.CanonicalWrite` | salt/src/state/state.rs:529-545 | writing an entry where its probe has passed only larger keys keeps the order, over a vacant slot or a smaller key |
| `ShiTable.DisplacedGoesOn` | salt/src/state/state.rs:529-540 | a displaced key has passed only larger keys up to the next physical slot, wraparound included |
| `ShiTable.MeetsStoredKey` | salt/src/state/state.rs:514-542 | a stored key is reached before anything is displaced |
| `ShiTable.InsertPlace` | salt/src/state/state.rs:543-545 | filling the empty slot ends in the table in order of the map with the pair; the key was new |
| `ShiTable.InsertUpdate` | salt/src/state/state.rs:519-528 | meeting the pending key means that the key was stored and that nothing has moved yet |
| `ShiTable.InsertFull` | salt/src/state/state.rs:588-597 | a probe that finds no place means that every slot is taken and the key is absent |
| `ShiTable.InsertPathRead` | salt/src/state/state.rs:514-545 | an insertion reads on its path only, and all of it when it stops |
| `ShiTable.SearchStops` | salt/src/state/state.rs:958-979 | stopping at an empty slot or a smaller key hides nothing: the key is stored if and only if it is in that slot |
| `ShiTable.SearchExhausted` | salt/src/state/state.rs:958-979 | a search that has passed only larger keys all the way round proves the key absent |
| `ShiTable.FirstSuitableIsLargest` | salt/src/state/state.rs:828-842 | the first suitable entry behind the hole has the largest key among all entries that want the hole |
| `ShiTable.FillHole` | salt/src/state/state.rs:628-645 | moving that entry back keeps the order everywhere but at the new hole, and the content |
| `ShiTable.FillHoleLowersRanks` | salt/src/state/state.rs:628-654 | each move of a deletion lowers the sum of ranks, so the deletion ends |
| `ShiTable.CloseHole` | salt/src/state/state.rs:828-842 | stopping the scan at an empty slot, or all the way round, misses no entry: clearing the hole leaves the table in order |
| `ShiTable.DeletePathRead` | salt/src/state/state.rs:613-657 | when the scan stops, the whole deletion path has been read |
| `ShiTable.CountIsContents` | salt/src/state/state.rs:413-419 | the number of occupied slots is the number of stored keys |
| `Rehash.PairsOf` | salt/src/state/state.rs:681-702 | collects the pairs of a table and how many there are |
| `Rehash.PlaceDescending` | salt/src/state/state.rs:704-725 | placing keys in descending order at the first empty slot, without comparing keys, builds the table in order with exactly these pairs, and the one that inserting them in any order ends in |
| `Rehash.FirstEmpty` | salt/src/state/state.rs:711-724 | the first empty slot of the probe sequence is found while a pair is unplaced |
| `Insertion.InsertEntryIs` | salt/src/state/state.rs:514-587 | the probing loop as a function adds its pair and keeps the order; it ends without a place if and only if the table is full and lacks the key |
| `Insertion.InsertAllIs` | salt/src/state/state.rs:292-312 | any list of pairs that fits can be inserted one by one into an empty bucket, and ends in a table in order with these pairs |
| `Insertion.InsertionOrderIsFree` | salt/src/state/state.rs:20-36 | lists of insertions with the same result as maps end in the same table, whatever their order |
| `Rehash.RehashIsTheLayout` | salt/src/state/state.rs:704-725 | a table in order is the one that inserting its pairs one by one, in any order, into an empty bucket of its capacity ends in |
| `LoadFactor.ResizeIsLeast` | salt/src/state/state.rs:1040-1055 | a grown capacity is the least doubling within the load factor: half of it is too small |
| `LoadFactor.ComputeResizeCapacity` | salt/src/state/state.rs:1049-1055 | the doubling loop ends at the first capacity within the load factor |
| `LoadFactor.ResizeInSteps` | salt/src/state/state.rs:1049-1055 | growing on the way to n entries ends where growing once for n does |
| `LoadFactor.ThresholdTest` | salt/src/state/state.rs:547-552 | the integer test made on insertion is the load factor test |
| `SaltTypes.MetadataKeyRoundTrip` | salt/src/types.rs:536-574 | a metadata key names its bucket |
| `SaltTypes.Witness.CountSlots` | salt/src/proof/salt_witness.rs:231-253 | the scan gives a slot count exactly when every slot of the bucket is witnessed |
| `SessionView.MetadataSound` | salt/src/proof/salt_witness.rs:198-209 | what a store says of a bucket's metadata is true, and a witness says it exactly when it holds the metadata key |
| `SessionView.CountsSound` | salt/src/proof/salt_witness.rs:211-253 | a slot count that a store gives is the real one |
| `SessionView.AllKnownCountsKnown` | salt/src/state/state.rs:553-580 | a witness that reveals every slot of a bucket reveals its count |
| `SessionView.SlotWrite` | salt/src/state/state.rs:850-867 | writing a slot through the cache changes that slot's view and nothing else, and the count delta stays right |
| `PlainKeys.CodeOrder` | salt/src/types.rs:268-298 | order codes compare as the byte strings do, and tell different keys apart |
| `StateUpdatesModule.AddKeepsDiff` | salt/src/state/updates.rs:52-89 | adding the present transition of a key always chains, and keeps the log the exact difference, with no entry for a key that is back at its first value |
| `StateUpdatesModule.DiffUnique` | salt/src/state/updates.rs:10-24 | two views have one difference |
| `StateUpdatesModule.ApplyReaches` | salt/src/state/updates.rs:10-24 | applying the log leads from the first view to the second |
| `StateUpdatesModule.MergeComposes` | salt/src/state/updates.rs:99-115 | merging consecutive differences always chains and gives the difference end to end |
| `StateUpdatesModule.InverseSwaps` | salt/src/state/updates.rs:117-131 | a log is a difference if and only if its inverse is the reverse one; applying it leads back |
| `StateUpdatesModule.StateUpdates.TryAdd` | salt/src/state/updates.rs:58-89 | records a transition, or changes nothing and reports where it does not chain |
| `StateUpdatesModule.StateUpdates.TryMerge` | salt/src/state/updates.rs:110-115 | succeeds exactly when every transition chains; otherwise reports the first key in order that does not |
| `StateUpdatesModule.StateUpdates.Inverse` | salt/src/state/updates.rs:126-131 | swaps the two values of every transition |
| `EphemeralState.EphemeralSaltState.Value` | salt/src/state/state.rs:247-260 | reads from the cache, else from the store; fails exactly on what is not known; changes no view |
| `EphemeralState.EphemeralSaltState.UsageCount` | salt/src/state/state.rs:413-419 | store count plus delta is the real number of occupied slots |
| `EphemeralState.EphemeralSaltState.Metadata` | salt/src/state/state.rs:433-474 | nonce, capacity and, when asked for, the slot count; fails exactly when they are not known |
| `EphemeralState.EphemeralSaltState.UpdateValue` | salt/src/state/state.rs:850-867 | writes a key, adjusts the count delta and keeps the log the exact difference |
| `EphemeralState.EphemeralSaltState.ShiFind` | salt/src/state/state.rs:773-781 | finds a key's slot if and only if the key is stored, reading its search path and no more; fails only at an unknown slot on that path |
| `EphemeralState.EphemeralSaltState.DirectFind` | salt/src/state/state.rs:800-814 | a direct answer is used only when the slot really holds the key |
| `EphemeralState.EphemeralSaltState.Find` | salt/src/state/state.rs:206-220 | finds a stored key at its one slot, by the direct table or by search |
| `EphemeralState.EphemeralSaltState.PlainValue` | salt/src/state/state.rs:231-242 | the value of a plain key; no view changes |
| `EphemeralState.EphemeralSaltState.ShiRehash` | salt/src/state/state.rs:669-766 | the same pairs in order under the new nonce and capacity, larger or smaller, or no change at all when they would not fit; the log stays the exact difference; the reasons to fail are named |
| `EphemeralState.EphemeralSaltState.RecordLayout` | salt/src/state/state.rs:727-747 | the new layout is recorded slot by slot, caching new slots and logging only differences |
| `CacheBounds.LayoutBelowEnds` | salt/src/state/state.rs:669-766 | a layout in a bucket that does not shrink leaves no cached slot past the new capacity |
| `EphemeralState.EphemeralSaltState.ProbeStep` | salt/src/state/state.rs:514-587 | one probe: pass over a larger key, displace a smaller one, replace the same one, or fill the empty slot |
| `EphemeralState.EphemeralSaltState.ShiUpsert` | salt/src/state/state.rs:489-598 | the pair is stored, the rest of the bucket's content, all other buckets and the nonce are unchanged, the capacity is the due one; fails only on an unknown slot of its path or a capacity out of range |
| `EphemeralState.EphemeralSaltState.ForceExpansion` | salt/src/state/state.rs:588-597 | expanding a full bucket loses no key, and inserts the pending pair into the larger table |
| `EphemeralState.EphemeralSaltState.ShiNext` | salt/src/state/state.rs:821-843 | the first suitable entry behind the hole, or proof that none is left |
| `EphemeralState.EphemeralSaltState.Compact` | salt/src/state/state.rs:628-654 | the compaction loop ends in the table in order without the key; the sum of ranks bounds it |
| `EphemeralState.EphemeralSaltState.ShiDelete` | salt/src/state/state.rs:613-657 | exactly the key is gone, nonce and capacity stay; an absent key changes nothing; fails only on an unknown slot of its path |
| `EphemeralState.EphemeralSaltState.Update` | salt/src/state/state.rs:292-312 | performs the operations in order; the log is the exact difference of the session before and after |
| `EphemeralState.EphemeralSaltState.ReplayBucket` | salt/src/state/state.rs:344-376 | empties one rehashed bucket and reinserts its pairs from the stored nonce and capacity |
| `EphemeralState.EphemeralSaltState.Canonicalize` | salt/src/state/state.rs:341-381 | every rehashed bucket keeps its pairs and gets the nonce and capacity that the store and the number of pairs ask for; the others are untouched; the log is the exact difference |
| `EphemeralState.EphemeralSaltState.UpdateFin` | salt/src/state/state.rs:317-324 | updates and canonicalization under one log |
| `EphemeralState.EphemeralSaltState.SetNonce` | salt/src/state/state.rs:388-398 | the same pairs in the layout of the new nonce |
| `SessionSteps.UpsertIsInsertion` | salt/src/state/state.rs:489-598 | an upsert that does not grow its bucket is that insertion, slot by slot |
| `SessionSteps.SameRehashMovesNothing` | salt/src/state/state.rs:669-766 | a rehash under the same nonce and capacity changes no slot, no metadata and no view |
| `SessionSteps.SameRehashLogsNothing` | salt/src/state/state.rs:727-760 | such a rehash leaves the log as it was, entry by entry |
| `SessionSteps.InsertFindsFull` | salt/src/state/state.rs:588-597 | a session that finds a bucket full knows the bucket's metadata, slots and count |
| `SessionSteps.ForcedUpsert` | salt/src/state/state.rs:588-597 | rehashing without the pending pair and then inserting it is the upsert that was asked for |
| `SessionSteps.RehashEnds` | salt/src/state/state.rs:727-763 | the recorded layout and metadata make the rehash, with the slot count unchanged |
| `SessionRuns.OpLookup` | salt/src/state/state.rs:292-312 | one operation changes the plain value of its own key and of no other |
| `SessionRuns.TraceLookup` | salt/src/state/state.rs:292-312 | after any run the plain values are what the operations say |
| `SessionRuns.OpKeepsLoad` | salt/src/state/state.rs:543-552 | an operation on a bucket whose count is known keeps it within the load factor |
| `SessionRuns.TraceKeeps` | salt/src/state/state.rs:489-598 | every run keeps the load factor of all buckets with known counts, the marks of rehashed buckets, and what no bucket holds |
| `SessionRuns.ForcedMeansOverloaded` | salt/src/state/state.rs:553-597 | only an upsert that begins with its bucket over the load factor, and its slot count known, reaches the forced expansion |
| `SessionRuns.NeverForced` | salt/src/state/state.rs:547-597 | no operation of a run that starts within the load factor reaches it, over a full store and over a witness |
| `Canonicalization.RefillNeverForced` | salt/src/state/state.rs:371-375 | no insertion of a replay reaches it |
| `History.FreshNeverForced` | salt/src/state/state.rs:547-597 | no session on a stored state within the load factor reaches it |
| `MemStoreModule.ApplyShows` | salt/src/mem_store.rs:176-200 | after applying the exact difference the store shows what the session showed |
| `MemStoreModule.RollbackShows` | salt/src/state/updates.rs:117-131 | a log and then its inverse shows the old state again |
| `MemStoreModule.RollbackRestores` | salt/src/state/updates.rs:117-131 | the stored map is restored if and only if no logged metadata was an absent default |
| `MemStoreModule.RollbackLeavesDefault` | salt/src/state/updates.rs:117-131 | the input where it is not restored: a new nonce on an empty store leaves the default metadata written out after the rollback |
| `Blocks.NewNonceOnEmptyStore` | salt/src/state/state.rs:388-398 | the code makes exactly that log |
| `MemStoreModule.AgreesIsCounts` | salt/src/mem_store.rs:241-260 | the counts that the store gives are the real ones exactly when its cached counts are the numbers of stored data keys |
| `MemStoreModule.MemStore.UpdateState` | salt/src/mem_store.rs:176-200 | after the log of a session the store shows what the session showed, and its slot counts are right |
| `MemStoreModule.EmptyStoreOk` | salt/src/mem_store.rs:152-161 | an empty store is in order |
| `History.RunSettles` | salt/src/state/state.rs:326-381 | after updates and canonicalization every bucket has its due nonce and capacity, and the plain pairs are what the operations say |
| `History.SamePairsSameView` | salt/src/state/state.rs:20-36 | sessions with equal pairs, nonces and capacities show equal states, slot by slot |
| `History.HistoryIndependence` | salt/src/state/state.rs:292-381 | two runs on the same stored pairs that reach the same plain pairs give the same slots, nonces and capacities, and the same log |
| `Blocks.ProduceBlock` | salt/src/fuzz.rs:126-154 | a block of batches and its canonicalization: the merged log is the exact difference from the stored state; fails only by the range of the capacity |
| `Blocks.BlockKeepsStore` | salt/src/mem_store.rs:163-200 | the store after a block is within the load factor and holds what the block's operations say |
| `Blocks.RunChain` | salt/src/fuzz.rs:79-261 | for chains of any length the store stays canonical, counted and within the load factor, and holds what all operations say |
| `Blocks.TwoProducers` | salt/src/fuzz.rs:126-162 | two producers on equal stores whose different batches reach the same plain pairs publish the same log and end with the same stored map |
| `Blocks.FullStoreFails` | salt/src/state/state.rs:489-598 | over a full store an operation fails only by the range of the capacity |
| `SameLayout.CanonicalSameKeys` | salt/src/state/state.rs:20-36 | the keys alone fix where each of them sits, whatever their values |
| `SameLayout.RecordedOpSucceeds` | salt/src/proof/witness.rs:171-190 | an operation that was recorded succeeds on every session that is alike and knows what the record has read |
| `SameLayout.SameGrowth` | salt/src/state/state.rs:543-585 | record and replay grow a bucket alike, whether or not the replay knows slot counts elsewhere |
| `SameLayout.StepAlike` | salt/src/proof/witness.rs:171-190 | a recorded operation keeps record and replay alike |
| `WitnessReplay.UpdatesFirst` | salt/src/fuzz.rs:195-222 | doing a batch's updates first changes nothing of the plain state that it leaves |
| `WitnessReplay.ReplayNeverStops` | salt/src/proof/witness.rs:171-190 | no operation of a replay meets data that the record has not read |
| `WitnessReplay.ReplaySettles` | salt/src/state/state.rs:341-381 | a replay leaves every bucket with the due nonce and capacity, even where slot counts are unknown |
| `WitnessReplay.DirectStillHits` | salt/src/proof/witness.rs:295-300 | while only values have changed, the direct table still finds every key that it found at first |
| `WitnessReplay.LookupReplays` | salt/src/proof/witness.rs:128-146 | a lookup on the witness never fails and gives the stored value |
| `WitnessReplay.ReplaySucceeds` | salt/src/proof/witness.rs:171-190 | inserts, deletes and canonicalization on the witness never stop |
| `WitnessReplay.ReplayMatches` | salt/src/proof/witness.rs:106-202 | the validator ends in the producer's state, slot by slot, with the producer's log |
| `WitnessReplay.Validate` | salt/src/fuzz.rs:185-222 | the validator's block succeeds, answers every lookup with the stored value, and ends with exactly the published log |
| `WitnessReplay.UpdateInPlace` | salt/src/fuzz.rs:203-217 | a stored key with a new value is updated in place; other operations are left for later |
| `WitnessCreation.StoredKeysKept` | salt/src/proof/witness.rs:173-190 | the old-capacity filter drops no slot that is stored and no metadata |
| `WitnessCreation.FilteredBucket` | salt/src/proof/witness.rs:173-183 | the filter knows the stored capacity of every bucket whose capacity or nonce has changed |
| `WitnessCreation.FilterWithin` | salt/src/proof/witness.rs:185-190 | what passes the filter is metadata or a slot that its stored bucket has, however much the bucket grew |
| `WitnessCreation.WitnessLookups` | salt/src/proof/witness.rs:128-146 | looked-up keys go into the direct table, or their searches into the recorder |
| `WitnessCreation.WitnessUpdates` | salt/src/proof/witness.rs:148-169 | updated keys go into the direct table, inserts and deletes are left for the recorder, in order |
| `WitnessCreation.CreateWitness` | salt/src/proof/witness.rs:106-202 | the witness holds all that the recorder has read of the stored state, the metadata that is asked for and a right direct table, and no slot past the stored capacity of its bucket |
| `WitnessCreation.ReadWitnessed` | salt/src/proof/salt_witness.rs:82-105 | the value of every witnessed key, metadata always explicit |
| `WitnessCreation.FromSaltWitness` | salt/src/proof/witness.rs:50-67 | the direct table rebuilt from the pairs leads every witnessed key to a slot that holds it |
| `WitnessCreation.RebuiltCovers` | salt/src/proof/witness.rs:43-68 | sending the pairs alone loses nothing: the rebuilt witness still covers the block |
| `WitnessCreation.StatelessBlock` | salt/src/fuzz.rs:126-222 | end to end: producer, witness and validator agree on the log, and every lookup is right |
| `WitnessProof.VerifyLocations` | salt/src/proof/witness.rs:232-264 | succeeds exactly when every key of the direct table is held by the slot it leads to |
| `WitnessProof.RebuiltIsLocated` | salt/src/proof/witness.rs:43-68 | a rebuilt direct table passes that test |
| `WitnessProof.ProveWitness` | salt/src/proof/salt_witness.rs:82-136 | a proof of a witness within the stored capacities is made, unless a round challenge has no inverse, and verifies against its own root |
| `WitnessProof.CreateProvenWitness` | salt/src/proof/witness.rs:106-264 | whatever a block reads and changes, growth of buckets included: the created witness covers the block, its keys can be proved against the state before the block, and it verifies |
| `Bits.AndMask` | banderwagon/src/salt_committer.rs:460-466 | masking with 2^k - 1 keeps the lowest k bits |
| `Scalars.InnerProduct` | ipa-multipoint/src/math_utils.rs:7-10 | the running sum is the inner product |
| `Scalars.PowersOf` | ipa-multipoint/src/math_utils.rs:13-21 | starts with 1, and every further element is the one before times the point; at least the power zero |
| `Scalars.PowersOfPar` | ipa-multipoint/src/math_utils.rs:24-44 | the chunks, filled in place from their own starting powers, start with 1 and go on by the point, for any number of threads |
| `Scalars.PowerNonZero` | ipa-multipoint/src/math_utils.rs:13-21 | in a field no power of a non-zero point is zero |
| `Elements.TimesSame` | ipa-multipoint/src/ipa.rs:279-286 | scalars equal modulo the group order give the same multiple |
| `Elements.LinFold` | ipa-multipoint/src/ipa.rs:155-162 | combining folded points is combining both halves |
| `Elements.MultiScalarMulPar` | ipa-multipoint/src/ipa.rs:279-286 | the chunks' combinations add up to the whole one for any number of threads |
| `Transcripts.Transcript.AppendPoint` | ipa-multipoint/src/transcript.rs:61-64 | label, then encoding, are absorbed |
| `Transcripts.Transcript.ChallengeScalar` | ipa-multipoint/src/transcript.rs:43-59 | hashes state and tag; the state is emptied and absorbs the challenge. What the challenge binds is `ChallengeBinds` |
| `Transcripts.ChallengeBinds` | ipa-multipoint/src/transcript.rs:43-59 | where the hash tells the two inputs apart, two challenges are equal exactly when all bytes absorbed and the tags are |
| `Transcripts.AfterPointBinds` | ipa-multipoint/src/transcript.rs:61-64 | two states after a point are equal exactly when the states before and the points are |
| `Transcripts.AfterScalarBinds` | ipa-multipoint/src/transcript.rs:66-70 | two states after a scalar are equal exactly when the states before and the scalars are |
| `Transcripts.AfterChallengeBinds` | ipa-multipoint/src/transcript.rs:43-59 | the state after a challenge still tells all earlier states apart |
| `Ipa.Log2OfPow2` | ipa-multipoint/src/ipa.rs:186-188 | the number of rounds for 2^k entries is k |
| `Ipa.FoldKeepsCommitment` | ipa-multipoint/src/ipa.rs:117-171 | P' = P + x·L + R/x: folding the vectors folds the commitment |
| `Ipa.FoldedDot` | ipa-multipoint/src/ipa.rs:163-166 | the inner product of the folded vectors is the old one plus x and 1/x times the cross terms |
| `Ipa.RoundsComplete` | ipa-multipoint/src/ipa.rs:112-178 | over all rounds the proof's points, weighed by challenges and inverses, lead to the fully folded commitment |
| `Ipa.WeightsSplit` | ipa-multipoint/src/ipa.rs:229-238 | the bit-indexed weights of the right half are those of the left half times the first inverse challenge |
| `Ipa.WeighFold` | ipa-multipoint/src/ipa.rs:229-238 | weighing all points by the bit-indexed weights is weighing the folded points by the remaining ones |
| `Ipa.BitTellsHalf` | ipa-multipoint/src/ipa.rs:266-268 | a bit of the index tells in which half of a round the point lies |
| `Ipa.IpaComplete` | ipa-multipoint/src/ipa.rs:78-263 | completeness for every power of two: what the prover makes of an honest commitment satisfies the verifier's single equation |
| `Ipa.FoldInPlace` | ipa-multipoint/src/ipa.rs:155-166 | the three arrays are folded in place into their first halves |
| `Ipa.Round` | ipa-multipoint/src/ipa.rs:117-170 | both cross terms, the challenge and the fold of one round, and the transcript after it |
| `Ipa.Create` | ipa-multipoint/src/ipa.rs:78-178 | the prover's loop over shrinking arrays makes the proof that the recursive rounds define; a challenge without an inverse stops it |
| `Ipa.GenerateChallenges` | ipa-multipoint/src/ipa.rs:288-300 | the verifier draws the prover's challenges |
| `Ipa.OpenedBinds` | ipa-multipoint/src/ipa.rs:105-111 | w is drawn from a state that tells apart commitment, input point, output point and everything before |
| `Ipa.RoundChallengeBinds` | ipa-multipoint/src/ipa.rs:288-300 | equal challenges of round k mean the same start and the same L and R of every round up to k |
| `Ipa.IpaChallengeBinds` | ipa-multipoint/src/ipa.rs:191-300 | a round challenge binds commitment, input, output and all L and R so far |
| `Ipa.PointFactor` | ipa-multipoint/src/ipa.rs:229-238 | the loop over the bits of an index gives minus the product of the inverse challenges at its one-bits |
| `Ipa.FoldingIsWeighing` | ipa-multipoint/src/ipa.rs:229-263 | for any points and any challenges, folding the generators and the vector round by round is weighing them by the bit-indexed products |
| `Ipa.AcceptsIsFolding` | ipa-multipoint/src/ipa.rs:191-263 | for every proof, honest or not: the single multi-exponentiation is zero if and only if the verifier who folds generators, vector and commitment round by round ends in an equality |
| `Ipa.OneScalarAccepts` | ipa-multipoint/src/ipa.rs:191-263 | a proof of one entry passes exactly when it opens the commitment and the claimed output is the product |
| `Ipa.VerifyMultiexp` | ipa-multipoint/src/ipa.rs:191-263 | for every proof, honest or not: accepts if and only if the list lengths fit and the verifier who folds round by round accepts; panics exactly on unequal lists of the right size |
| `Ipa.ProveAndVerify` | ipa-multipoint/src/ipa.rs:78-263 | an honest proof passes a verifier who starts from the same transcript |
| `Lagrange.WeightNonZero` | ipa-multipoint/src/lagrange_basis.rs:160-171 | no barycentric weight is zero, so every inverse exists |
| `Lagrange.CoefficientIs` | ipa-multipoint/src/lagrange_basis.rs:244-260 | W_i · (z - i) · L_i(z) = A(z), with a factor that is not zero: this determines the coefficient |
| `Lagrange.PartitionOfUnity` | ipa-multipoint/src/lagrange_basis.rs:244-260 | the coefficients sum to one at every point outside the domain |
| `Lagrange.DivisionIsExact` | ipa-multipoint/src/lagrange_basis.rs:208-233 | the quotient's interpolant at z, times z - m, is f(z) - f(m), for every domain size, index and outside point |
| `Lagrange.NewPrecomputedWeights` | ipa-multipoint/src/lagrange_basis.rs:113-136 | both tables hold the weights, the inverse weights and the inverses of the domain points, positive then negative |
| `Lagrange.TableLookups` | ipa-multipoint/src/lagrange_basis.rs:138-158 | lookups in the tables give 1/(±i), weight ratios and weights |
| `Lagrange.LagrangeBasis.Plus` | ipa-multipoint/src/lagrange_basis.rs:17-45 | the sum of two polynomials on the domain; an empty side is neutral |
| `Lagrange.LagrangeBasis.DivideByLinearVanishing` | ipa-multipoint/src/lagrange_basis.rs:208-233 | the loop computes the quotient, its value at the divided point accumulated from the others |
| `Lagrange.EvaluateLagrangeCoefficients` | ipa-multipoint/src/lagrange_basis.rs:244-260 | L_i(point) for every point of the domain |
| `MultiProof.GroupingIsFree` | ipa-multipoint/src/multiproof.rs:87-149 | summing point by point, in any order of the points, is summing query by query |
| `MultiProof.AggregatedResult` | ipa-multipoint/src/multiproof.rs:93-109 | at its own point an aggregated polynomial has the aggregated results |
| `MultiProof.DifferenceAtT` | ipa-multipoint/src/multiproof.rs:111-158 | g_1(t) - g(t) is the sum of the results over t - z, weighed by the powers |
| `MultiProof.SameE` | ipa-multipoint/src/multiproof.rs:290-309 | the verifier's combination of the query commitments is the prover's commitment to g_1 |
| `MultiProof.SameOutput` | ipa-multipoint/src/multiproof.rs:290-320 | the value that the verifier expects at t is the value of the polynomial that the prover opens |
| `MultiProof.DifferenceCommits` | ipa-multipoint/src/multiproof.rs:155-158 | E - D is the commitment of g_1 - g |
| `MultiProof.MultiPointComplete` | ipa-multipoint/src/multiproof.rs:71-167 | completeness for every list of honest queries, every order of the groups and every t outside the domain |
| `MultiProof.AllBytesAppend` | ipa-multipoint/src/multiproof.rs:206-236 | appending query by query absorbs the concatenation of all queries' bytes |
| `MultiProof.RecordQueryTranscript` | ipa-multipoint/src/multiproof.rs:206-236 | one resize and a fill in place absorb the same bytes as appending query by query |
| `MultiProof.QueriesBind` | ipa-multipoint/src/multiproof.rs:206-236 | two lists of queries absorb the same bytes only if they are the same list |
| `MultiProof.RBinds` | ipa-multipoint/src/multiproof.rs:278-284 | r is the same exactly when the queries are |
| `MultiProof.TBinds` | ipa-multipoint/src/multiproof.rs:286-288 | t is the same exactly when the queries and D are |
| `MultiProof.EBinds` | ipa-multipoint/src/multiproof.rs:309-320 | the state that the inner product argument starts from tells apart queries, D and E |
| `MultiProof.GroupProverQueries` | ipa-multipoint/src/multiproof.rs:51-68 | for every point that occurs, exactly its queries, in order |
| `MultiProof.AggregateGroup` | ipa-multipoint/src/multiproof.rs:96-105 | the reduction of one group is the combination of its polynomials by their powers |
| `MultiProof.AggregateQueries` | ipa-multipoint/src/multiproof.rs:87-109 | every group once, in whatever order the map gives them |
| `MultiProof.CheckIsFolding` | ipa-multipoint/src/multiproof.rs:270-321 | for every proof and every list of queries: the helper scalars and sums of the code are the textbook combination, query by query, checked by the folding verifier |
| `MultiProof.SumQuotients` | ipa-multipoint/src/multiproof.rs:111-118 | g: the sum of the groups' quotients |
| `MultiProof.SumWeighed` | ipa-multipoint/src/multiproof.rs:129-149 | g_1: the sum of the groups' polynomials over t - z |
| `MultiProof.Open` | ipa-multipoint/src/multiproof.rs:71-167 | the prover's steps give a proof that the specification allows for the order visited |
| `MultiProof.Check` | ipa-multipoint/src/multiproof.rs:270-321 | for every proof: accepts if and only if the folding verifier accepts the combination of commitments and results that the queries define; panics exactly on an empty list of queries and on unequal lists of points of the right size |
| `MultiProof.OpenAndCheck` | ipa-multipoint/src/multiproof.rs:71-321 | what `open` makes of honest queries passes `check` whenever t is outside the domain |
| `CommitterModule.WindowIs` | banderwagon/src/salt_committer.rs:450-472 | extraction from one word or two gives the true digit, also past the last word |
| `CommitterModule.CalculatePrefetchIndex` | banderwagon/src/salt_committer.rs:450-472 | the list of all true base-2^w digits |
| `CommitterModule.RecodeNext` | banderwagon/src/salt_committer.rs:204-244 | signed digits so far plus the carry are the lowest bits of the scalar |
| `CommitterModule.TopDoesNotCarry` | banderwagon/src/salt_committer.rs:269-282 | for every scalar below 2^253 the top window does not carry out |
| `CommitterModule.TableAt` | banderwagon/src/salt_committer.rs:161-188 | place (i, j) of the table is j · 2^(w·i) times the base |
| `CommitterModule.BuildTable` | banderwagon/src/salt_committer.rs:161-188 | running multiples and doublings build the table |
| `CommitterModule.MulIndex` | banderwagon/src/salt_committer.rs:300-335 | scalar times base, by collecting signed entries |
| `CommitterModule.MulIndexPrefetching` | banderwagon/src/salt_committer.rs:204-285 | scalar times base, one window ahead |
| `CommitterModule.Multiply` | banderwagon/src/salt_committer.rs:161-335 | both versions agree on the table that `new` builds |
| `Montgomery.Reduce` | banderwagon/src/scalar_multi_asm.rs:498-514 | subtracts the prime once, if there is no borrow |
| `Montgomery.MulBy5` | banderwagon/src/scalar_multi_asm.rs:60-165 | 5x mod p, by two doublings and an addition |
| `Montgomery.FirstProduct` | banderwagon/src/scalar_multi_asm.rs:249-269 | the five words hold x · y |
| `Montgomery.MultiplyAccumulate` | banderwagon/src/scalar_multi_asm.rs:307-333 | on two carry chains, the five words hold t + x · y |
| `Montgomery.LowestVanishes` | banderwagon/src/scalar_multi_asm.rs:271-281 | the factor m makes the lowest word of t + m · p zero |
| `Montgomery.ReduceWord` | banderwagon/src/scalar_multi_asm.rs:271-305 | (t + m · p) / 2^64 exactly, below 2p |
| `Montgomery.NothingLost` | banderwagon/src/scalar_multi_asm.rs:302-305 | no carry leaves the top word |
| `Montgomery.MontMulLimbs` | banderwagon/src/scalar_multi_asm.rs:231-542 | four rounds and a conditional subtraction: z < p and z · 2^256 = x · y + k · p |
| `Montgomery.MontMul` | banderwagon/src/scalar_multi_asm.rs:231-542 | the same, on the arrays that the program reads and writes |
| `NodeUtils.LevelsAdjoin` | salt/src/types.rs:464-481 | the first number of a level is where the level above ends |
| `NodeUtils.GetBfsLevel` | salt/src/types.rs:493-502 | the level found is the one that the number lies on |
| `NodeUtils.NodeInjective` | salt/src/types.rs:356-407 | different places of the two tiers have different numbers |
| `NodeUtils.ChildPlace` | salt/src/trie/node_utils.rs:234-254 | a child's number is that of its place one level down |
| `NodeUtils.ParentPlace` | salt/src/trie/node_utils.rs:213-290 | a parent's number and the position in it are those of the place |
| `NodeUtils.UpUndoesDown` | salt/src/trie/node_utils.rs:213-290 | parent and position undo the step to a child |
| `NodeUtils.DownUndoesUp` | salt/src/trie/node_utils.rs:213-290 | the step to a child undoes parent and position |
| `NodeUtils.SubtreeLeafPlace` | salt/src/trie/node_utils.rs:323-328 | a key's leaf is on the lowest level, at the key's segment |
| `NodeUtils.LeafStartOfKey` | salt/src/trie/node_utils.rs:346-360 | a leaf's first key plus the position in the segment is the key |
| `NodeUtils.ComputeSubtreeRootLevel` | salt/src/trie/node_utils.rs:382-394 | the subtree that starts at this level has room for the capacity, and one level less has not |
| `NodeUtils.RootLevelBounds` | salt/src/trie/node_utils.rs:382-394 | each level up holds 256 times as many slots |
| `ProofShape.BridgeRoundTrip` | salt/src/proof/shape.rs:192-303 | a bridge keeps both the place in the main trie and the root of the subtree |
| `ProofShape.NodesAreNotEncoded` | salt/src/proof/shape.rs:216-218 | no node of either tier is taken for a bridge |
| `ProofShape.ClimbReachesRoot` | salt/src/proof/shape.rs:95-123 | climbing from a key's leaf ends at the leftmost node of the root level, which is what the bridge stands for |
| `ProofShape.PathIsClosed` | salt/src/proof/shape.rs:57-159 | every child that an edge of a key names is one of the key's needed nodes |
| `ProofShape.PathIsLinked` | salt/src/proof/shape.rs:57-159 | every needed node of a key but the root is named as a child by one of the key's edges: the path hangs together from leaf to root |
| `ProofShape.PathOfKey` | salt/src/proof/shape.rs:66-146 | the climb records exactly the edges of the key, and its slot position |
| `ProofShape.ParentsAndPoints` | salt/src/proof/shape.rs:57-159 | the maps hold exactly the edges and slot positions of all keys |
| `ProofShape.ProofIsClosed` | salt/src/proof/shape.rs:57-159 | for every set of keys within capacity, every child that a query names is among the proof's nodes |
| `ProofShape.EdgeBridgeOk` | salt/src/proof/shape.rs:192-303 | for any key and any levels up to five, every recorded parent has a logical parent |
| `ProofShape.CapacityGivesLevels` | salt/src/trie/node_utils.rs:382-394 | the levels for a capacity give every slot a place |
| `ProofQueries.PlaceDefault` | salt/src/constant.rs:215-261 | which default a node at a given place has |
| `ProofQueries.LeftIsMetadata` | salt/src/constant.rs:215-261 | in the main trie the left default is for exactly the nodes whose first bucket holds metadata |
| `ProofQueries.SiblingsShareDefault` | salt/src/constant.rs:215-261 | one default serves all siblings, except the root's first child |
| `ProofQueries.ChildCommitments` | salt/src/proof/subtrie.rs:82-131 | a default vector overwritten by the store's entries holds every child's commitment |
| `ProofQueries.InOrder` | salt/src/proof/prover.rs:309-358 | a sorted map is walked in ascending order, each key once |
| `ProofQueries.CreateProverQueries` | salt/src/proof/subtrie.rs:149-163 | one query for every listed point, in order, with the polynomial's value |
| `ProofQueries.ProveInternal` | salt/src/proof/subtrie.rs:273-307 | the prover's internal queries are those that the store's commitments define |
| `ProofQueries.ProveLeaf` | salt/src/proof/subtrie.rs:333-389 | default contents overwritten by the segment's entries are the contents of all 256 slots |
| `ProofQueries.ProveLeaves` | salt/src/proof/subtrie.rs:309-327 | the prover's leaf queries are those that the store's contents define |
| `ProofQueries.VerifyNode` | salt/src/proof/prover.rs:388-443 | succeeds exactly when no needed commitment is missing, and gives the node's queries |
| `ProofQueries.VerifyLeaf` | salt/src/proof/prover.rs:520-571 | succeeds exactly when commitment and claimed slots are there, and gives the leaf's queries |
| `ProofQueries.ListAsks` | salt/src/proof/prover.rs:350-357 | the list asks for every recorded child and every recorded slot, and for nothing else |
| `ProofQueries.ListFixes` | salt/src/proof/prover.rs:350-357 | equal lists over the same nodes have equal commitments and contents wherever they ask |
| `ProofQueries.ListTells` | salt/src/proof/prover.rs:350-357 | under the same commitments two lists are equal exactly when the contents of all recorded slots are, as scalars |
| `ProofQueries.VerifyAll` | salt/src/proof/prover.rs:350-357 | the verifier's list, exactly when nothing is missing; what it asks is `ListAsks` |
| `ProofQueries.ListsAgree` | salt/src/proof/prover.rs:309-571 | where the proof carries the store's commitments and the data are the store's, both lists are equal, element by element |
| `SaltProofModule.EdgeBranches` | salt/src/proof/shape.rs:57-159 | an edge starts from a node with 256 children and names one of them |
| `SaltProofModule.LeafKeyIs` | salt/src/proof/prover.rs:520-571 | leaf and position give the key back: leaf queries are one-to-one with keys |
| `SaltProofModule.OwnSlotIs` | salt/src/proof/prover.rs:520-571 | leaf and position stand for the key itself exactly when the claimed level has a place for its slot |
| `SaltProofModule.AsksForKeys` | salt/src/proof/prover.rs:350-357 | for every key with a place of its own the list asks for its content, under its leaf's commitment, at its position |
| `SaltProofModule.AsksForNodes` | salt/src/proof/prover.rs:350-357 | for every node of the proof but the root the list asks for its commitment under that of its parent, which the proof carries too |
| `SaltProofModule.ListTellsData` | salt/src/proof/prover.rs:309-358 | two claims about the same keys give the same list exactly when they agree, as scalars, at every key that has a place of its own |
| `SaltProofModule.UnaskedSlot` | salt/src/proof/prover.rs:309-358 | the keys without one: beside slot i, a claimed level of one leaves slot i + 256 unasked |
| `SaltProofModule.ShapeIsComplete` | salt/src/proof/prover.rs:309-358 | a proof over its own nodes with data for its keys answers every query |
| `SaltProofModule.ShapeUnique` | salt/src/proof/prover.rs:216-244 | the shape depends on the set of keys only, so sorting and dropping duplicates is free |
| `SaltProofModule.BucketLevels` | salt/src/proof/subtrie.rs:201-248 | refuses exactly the keys past the capacity of their bucket; gives the levels of all buckets |
| `SaltProofModule.ParentsCommitments` | salt/src/proof/subtrie.rs:253-271 | the proof carries the commitments of exactly its nodes |
| `SaltProofModule.CreateSubTrie` | salt/src/proof/subtrie.rs:188-330 | for every set of keys within capacity the prover's queries, which ask for every key's content and every node's commitment, with the proof's commitments and levels; any other set is refused |
| `SaltProofModule.CreateVerifierQueries` | salt/src/proof/prover.rs:309-358 | for any proof and data: succeeds exactly when buckets, levels and nodes are those that the keys ask for and nothing is missing; every claimed content whose key has a place is asked for under the proof's commitment of its leaf, and for keys within capacity so is every commitment but the root's under its parent's |
| `SaltProofModule.ProverAndVerifierAgree` | salt/src/proof/prover.rs:216-358 | for every set of keys and every store, the verifier finds exactly the prover's queries |
| `SaltProofModule.ShapeNodesOk` | salt/src/proof/shape.rs:57-159 | for any keys and any levels up to five, the recorded nodes have a logical parent or hold slots |
| `ProofCheck.QueriesAreHonest` | salt/src/proof/subtrie.rs:273-330 | over a trie that commits to its data, every query of the prover carries the commitment of its polynomial and its value at the point |
| `ProofCheck.RootRequired` | salt/src/proof/prover.rs:254-257 | the root is among the nodes of every proof |
| `ProofCheck.ChallengeBindsData` | salt/src/proof/prover.rs:247-282 | over one proof's nodes, two claims about the same keys draw the same t exactly when they agree, as scalars, at every key that has a place of its own |
| `ProofCheck.Create` | salt/src/proof/prover.rs:216-244 | makes a proof of the queries, commitments and levels read off the store, for all keys within capacity unless a round challenge has no inverse |
| `ProofCheck.CheckProof` | salt/src/proof/prover.rs:247-282 | for any proof, data and root: succeeds exactly when levels, nodes and data match, the root is right and the multipoint check accepts the list; `ChallengeBindsData` says how the data enter |
| `ProofCheck.CreateAndCheck` | salt/src/proof/prover.rs:216-282 | completeness: over a trie that commits to its data, `check` accepts what `create` made against the data and root of the store, whenever t is outside the domain |

## Left out

Abstracted, as said above:

- The hash functions, the transcript's hash, elliptic-curve formulas, point encodings, subgroup checks and the arkworks calls.
- `TwistedEdwards` arithmetic behind `add_affine_point`, huge pages, prefetch hints and raw copies; the table is a sequence of group elements.
- The default commitments: which nodes share one is proved from the level and position rules; that the constants are the commitments of empty subtrees is not.
- Machine widths of counters and nonces: capacities are bounded by the 40-bit slot range, as the code checks; usage counts, nonces and deltas are unbounded integers.

Not modelled:

- The incremental trie computation and `update_trie`, and with them the check of the root after a block; the state root of a proof is an arbitrary function of its root commitment.
- `PlainStateProvider`, iteration over ranges (`entries`, `node_entries`), serialization, `Debug` and `Display`.
- Packing of keys and values into words, except where tree arithmetic needs it, and the 94-byte limit of a value.
- Rayon's scheduling: reductions and chunks run in order; `create_sub_trie` has no chunks, since the chunks of the source only cut the list that is walked.
- Soundness of the arguments against a dishonest prover: the verifier's decision is characterized for every proof, and every challenge is shown to bind what came before, but no extractor and no probability is modelled.
- That a witness holds no more than a block needs: its keys are bounded by the stored capacities only.
- The iteration order of hash maps: buckets are replayed and groups are visited in an arbitrary order, and the results hold for every order.

Weaker than the source, or narrower:

- EphemeralState.EphemeralSaltState.ShiRehash: a new capacity of zero is covered only for a bucket that holds pairs, where nothing changes; the source writes zero for an empty bucket, and an insertion into such a bucket would double zero without end. None of its own callers passes zero.
- EphemeralState.EphemeralSaltState.Canonicalize: speaks of the first canonicalization of a session; a second one, or a `set_nonce` between updates and canonicalization, is allowed by the method's contract, but no whole-run result covers it, as the source's own documentation warns.
- WitnessReplay.Validate: the updates come first and then the inserts and deletes, as the source requires of a validator; interleaving them is not covered. The log is compared with that of any producer run on the same store that reaches the same plain pairs.
- WitnessCreation.CreateWitness: over the in-memory store; the recorder may fail by the range of a capacity although the producer's batches, in another order, did not.
- History.HistoryIndependence: one session over a full store that is canonical and within the load factor, from one canonicalization to the next; `Blocks.RunChain` carries that state from block to block.
- CommitterModule.MulIndex: window widths from 1 to 63, those that the word arithmetic of the source can shift by; scalars below 2^253.
- CommitterModule.MulIndexPrefetching: the same widths and scalars.
- SaltProofModule.CreateVerifierQueries: a proof with a level past five always counts as a panic, where the source may report unknown nodes before it panics.
- SaltProofModule.ProverAndVerifierAgree: levels that fit the keys are the prover's own; for others the verifier's list is determined, but not that its nodes lead to the root.
- SaltProofModule.AsksForNodes: for keys within the capacities that the claimed levels give; for others the nodes of a path need not hang together.
- ProofCheck.Create: the keys are taken as they come; sorting them and dropping duplicates changes nothing, by `SaltProofModule.ShapeUnique`.
- ProofCheck.CreateAndCheck: that the trie commits to the data is required, not derived from the incremental trie computation.
- SaltProofModule.CreateSubTrie: reads from the in-memory store, so failures to read from a store do not occur.
- PlainKeys.CodeOrder: the tables use the codes; the bytes themselves do not appear in them.
