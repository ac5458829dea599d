/** A proof from end to end: what `create` makes of a store, `check` accepts. */
module ProofCheck {
  import opened Wrappers
  import opened Bits
  import opened SaltTypes
  import opened SessionView
  import opened Scalars
  import opened Elements
  import opened Transcripts
  import opened Ipa
  import opened Lagrange
  import opened MultiProof
  import opened NodeUtils
  import opened ProofShape
  import opened ProofQueries
  import opened SaltProofModule

  const TAG_ST := Ascii("st")

  /** The state root of a root commitment: an arbitrary function. */
  const HashCommitment: Element -> Fr

  datatype Proof = Proof(commitments: Trie, proof: MultiPointProof, levels: Levels)

  /** Generators for vectors of 256 scalars, in a field that holds 0 to 255. */
  predicate CrsOk(crs: Crs) {
    |crs.g| == crs.n == DOMAIN_SIZE && DomainOk(DOMAIN_SIZE)
  }

  lemma DomainIsPowerOfTwo()
    ensures IsPowerOfTwo(DOMAIN_SIZE)
  {
    Log2OfPow2(8);
    assert Pow2(2) == 4 && Pow2(4) == 16 && Pow2(6) == 64 && Pow2(8) == 256;
  }

  // ---------------------------------------------------------------- tries that commit to their data

  /** The commitment at a node is the commitment of its children's commitments, as scalars. */
  ghost predicate NodeCommits(crs: Crs, trie: Trie, node: NodeId)
    requires CrsOk(crs)
  {
    BridgeOk(node) && CommitmentAt(trie, ConnectParent(node)) == Lin(ChildValues(trie, node), crs.g)
  }

  /** The commitment at a leaf is the commitment of its slots' contents. */
  ghost predicate LeafCommits(crs: Crs, trie: Trie, kvs: Kvs, leaf: NodeId)
    requires CrsOk(crs)
  {
    CommitmentAt(trie, ConnectParent(leaf)) == Lin(SlotValues(kvs, leaf), crs.g)
  }

  /** All nodes from the leaf of a key up to the root commit to what is below them. */
  ghost predicate KeyCommits(crs: Crs, trie: Trie, kvs: Kvs, key: SaltKey, level: nat)
    requires CrsOk(crs) && ValidKey(key) && level <= MAX_SUBTREE_LEVELS
  {
    && LeafCommits(crs, trie, kvs, LeafNode(key, level))
    && forall e :: e in KeyEdges(key, level) ==> NodeCommits(crs, trie, e.0)
  }

  /** The trie commits to the pairs: for every slot of every bucket, stored or not. */
  ghost predicate TrieCommits(crs: Crs, trie: Trie, kvs: Kvs)
    requires CrsOk(crs)
  {
    forall key: SaltKey, level: nat ::
      ValidKey(key) && level <= MAX_SUBTREE_LEVELS && key.slot < CapacityOf(kvs, key.bucket) && level == LevelOf(kvs, key.bucket)
      ==> KeyCommits(crs, trie, kvs, key, level)
  }

  /** What `create` reads off its store for these keys. */
  ghost predicate ReadOff(state: StateStore, trie: Trie, keys: seq<SaltKey>, qs: seq<ProverQuery>, levels: Levels, internal: Points, slots: Points) {
    && keys != [] && (forall j :: 0 <= j < |keys| ==> keys[j].slot < CapacityOf(state.kvs, keys[j].bucket))
    && KeysOk(keys, levels) && ShapeOf(keys, levels, internal, slots)
    && (forall b :: b in levels <==> exists j :: 0 <= j < |keys| && keys[j].bucket == b)
    && (forall b :: b in levels ==> levels[b] == LevelOf(state.kvs, b))
    && ToVerifiers(qs) == ProofQueryList(internal, slots, FromTrie(trie), Stored(state.kvs))
    && ReadFrom(qs, trie, state.kvs, internal, slots)
  }

  lemma ListedKeyCommits(state: StateStore, trie: Trie, keys: seq<SaltKey>, qs: seq<ProverQuery>, levels: Levels, internal: Points, slots: Points, crs: Crs, j: nat)
    requires CrsOk(crs) && TrieCommits(crs, trie, state.kvs) && ReadOff(state, trie, keys, qs, levels, internal, slots) && j < |keys|
    ensures ValidKey(keys[j]) && keys[j].bucket in levels && levels[keys[j].bucket] <= MAX_SUBTREE_LEVELS
    ensures KeyCommits(crs, trie, state.kvs, keys[j], levels[keys[j].bucket])
  {
    hide KeyCommits, CapacityOf, LevelOf, EdgeOf, SlotEdgeOf, HasEdge, ReadFrom, ProofQueryList, InCapacity, ValidKey;
    assert keys[j].slot < CapacityOf(state.kvs, keys[j].bucket);
  }

  lemma InternalCommits(state: StateStore, trie: Trie, keys: seq<SaltKey>, qs: seq<ProverQuery>, levels: Levels, internal: Points, slots: Points, crs: Crs, n: NodeId)
    requires CrsOk(crs) && TrieCommits(crs, trie, state.kvs) && ReadOff(state, trie, keys, qs, levels, internal, slots) && n in internal
    ensures NodeCommits(crs, trie, n)
  {
    hide TrieCommits, NodeCommits, LeafCommits, CapacityOf, LevelOf, ReadFrom, ProofQueryList, KeyEdges, LeafNode, InCapacity, ValidKey;
    var i :| i in internal[n];
    assert HasEdge(internal, (n, i));
    var j :| 0 <= j < |keys| && (n, i) in KeyEdges(keys[j], levels[keys[j].bucket]);
    ListedKeyCommits(state, trie, keys, qs, levels, internal, slots, crs, j);
  }

  lemma SlotsCommit(state: StateStore, trie: Trie, keys: seq<SaltKey>, qs: seq<ProverQuery>, levels: Levels, internal: Points, slots: Points, crs: Crs, n: NodeId)
    requires CrsOk(crs) && TrieCommits(crs, trie, state.kvs) && ReadOff(state, trie, keys, qs, levels, internal, slots) && n in slots
    ensures LeafCommits(crs, trie, state.kvs, n)
  {
    hide TrieCommits, NodeCommits, LeafCommits, CapacityOf, LevelOf, ReadFrom, ProofQueryList, KeyEdges, LeafNode, InCapacity, ValidKey;
    var i :| i in slots[n];
    assert HasEdge(slots, (n, i));
    var j :| 0 <= j < |keys| && (n, i) == (LeafNode(keys[j], levels[keys[j].bucket]), keys[j].slot % MIN_BUCKET_SIZE);
    ListedKeyCommits(state, trie, keys, qs, levels, internal, slots, crs, j);
  }

  /** Over a trie that commits to its data, the queries that `create` makes are honest. */
  lemma QueriesAreHonest(state: StateStore, trie: Trie, keys: seq<SaltKey>, qs: seq<ProverQuery>, levels: Levels, internal: Points, slots: Points, crs: Crs)
    requires CrsOk(crs) && TrieCommits(crs, trie, state.kvs) && ReadOff(state, trie, keys, qs, levels, internal, slots)
    ensures QueriesSized(qs, crs) && Honest(qs, crs)
  {
    SizedQueries(state, trie, keys, qs, levels, internal, slots, crs);
    forall j | 0 <= j < |qs|
      ensures qs[j].commitment == Lin(qs[j].poly.values, crs.g) && qs[j].result == qs[j].poly.values[qs[j].point]
    {
      hide TrieCommits, ReadOff, NodeQuery, LeafQuery, NodeCommits, LeafCommits, Lin;
      Provenance(state, trie, keys, qs, levels, internal, slots, j);
      if n :| n in internal && NodeQuery(trie, n, qs[j]) {
        InternalCommits(state, trie, keys, qs, levels, internal, slots, crs, n);
        NodeIsHonest(crs, trie, n, qs[j]);
      } else {
        var n :| n in slots && LeafQuery(trie, state.kvs, n, qs[j]);
        SlotsCommit(state, trie, keys, qs, levels, internal, slots, crs, n);
        LeafIsHonest(crs, trie, state.kvs, n, qs[j]);
      }
    }
  }

  lemma Provenance(state: StateStore, trie: Trie, keys: seq<SaltKey>, qs: seq<ProverQuery>, levels: Levels, internal: Points, slots: Points, j: nat)
    requires ReadOff(state, trie, keys, qs, levels, internal, slots) && j < |qs|
    ensures (exists n :: n in internal && NodeQuery(trie, n, qs[j])) || (exists n :: n in slots && LeafQuery(trie, state.kvs, n, qs[j]))
  {
    hide NodeQuery, LeafQuery, KeysOk, ShapeOf, CapacityOf, LevelOf, ProofQueryList;
    assert qs[j] in qs;
  }

  lemma NodeIsHonest(crs: Crs, trie: Trie, n: NodeId, q: ProverQuery)
    requires CrsOk(crs) && NodeCommits(crs, trie, n) && NodeQuery(trie, n, q)
    ensures |q.poly.values| == |crs.g| && q.point < |q.poly.values|
    ensures q.commitment == Lin(q.poly.values, crs.g) && q.result == q.poly.values[q.point]
  {
    hide Lin, BridgeOk, CommitmentAt;
  }

  lemma LeafIsHonest(crs: Crs, trie: Trie, kvs: Kvs, n: NodeId, q: ProverQuery)
    requires CrsOk(crs) && LeafCommits(crs, trie, kvs, n) && LeafQuery(trie, kvs, n, q)
    ensures |q.poly.values| == |crs.g| && q.point < |q.poly.values|
    ensures q.commitment == Lin(q.poly.values, crs.g) && q.result == q.poly.values[q.point]
  {
    hide Lin, CommitmentAt;
  }

  lemma SizedQueries(state: StateStore, trie: Trie, keys: seq<SaltKey>, qs: seq<ProverQuery>, levels: Levels, internal: Points, slots: Points, crs: Crs)
    requires CrsOk(crs) && ReadOff(state, trie, keys, qs, levels, internal, slots)
    ensures QueriesSized(qs, crs)
  {
    DomainIsPowerOfTwo();
    SomeQuery(state, trie, keys, qs, levels, internal, slots);
    hide ReadOff, IsPowerOfTwo, BridgeOk, CommitmentAt;
    forall j | 0 <= j < |qs|
      ensures qs[j].poly.Valid(crs.n) && qs[j].point < crs.n
    {
      Provenance(state, trie, keys, qs, levels, internal, slots, j);
    }
  }

  lemma SomeQuery(state: StateStore, trie: Trie, keys: seq<SaltKey>, qs: seq<ProverQuery>, levels: Levels, internal: Points, slots: Points)
    requires ReadOff(state, trie, keys, qs, levels, internal, slots)
    ensures qs != []
  {
    hide KeyEdges, LeafNode, CapacityOf, LevelOf, ReadFrom, InCapacity, AllQueries, Ascending;
    var e := (LeafNode(keys[0], levels[keys[0].bucket]), keys[0].slot % MIN_BUCKET_SIZE);
    assert SlotEdgeOf(keys, levels, |keys|, e);
    assert HasEdge(slots, e);
    assert e.0 in Ascending(slots.Keys);
    NotEmpty(Ascending(slots.Keys), slots, FromTrie(trie), Stored(state.kvs), e);
  }

  lemma {:induction false} NotEmpty(nodes: seq<NodeId>, m: Points, at: NodeId -> Element, value: Content, e: Edge)
    requires (forall n :: n in nodes ==> n in m) && e.0 in nodes && e.1 in m[e.0]
    ensures AllQueries(nodes, m, LeafQueries(at, value)) != []
  {
    if nodes[0] == e.0 {
      hide ConnectParent, Ascending;
      var points := Ascending(m[e.0]);
      assert e.1 in points;
      assert LeafQueries(at, value)(e.0, m[e.0]) == NodeQueries(at(ConnectParent(e.0)), points, SlotResult(e.0, value));
    } else {
      NotEmpty(nodes[1..], m, at, value, e);
    }
  }

  // ---------------------------------------------------------------- create and check

  /** `SaltProof::create`; `Panic` when the inner product argument meets a challenge without an inverse. */
  method Create(state: StateStore, trie: Trie, crs: Crs, keys: seq<SaltKey>, threads: nat)
    returns (r: Result<Proof, ProofError>, ghost qs: seq<ProverQuery>, ghost internal: Points, ghost slots: Points, ghost order: seq<nat>)
    requires TruthOk(state.kvs) && Agrees(Full(state), state.kvs)
    requires IsField() && EncodingLengths() && CrsOk(crs) && threads > 0
    ensures r.Success? ==> ReadOff(state, trie, keys, qs, r.value.levels, internal, slots) && QueriesSized(qs, crs)
    ensures r.Success? ==> Carries(r.value.commitments, trie, internal, slots) && OpenedBy(TAG_ST, crs, qs, order, r.value.proof)
    ensures keys != [] && (forall j :: 0 <= j < |keys| ==> keys[j].slot < CapacityOf(state.kvs, keys[j].bucket)) ==> r.Success? || r.error == Panic
  {
    hide TruthOk, Agrees, IsField, EncodingLengths, OpenedBy, QueriesSized, Carries, CapacityOf, LevelOf, KeysOk, ShapeOf, ReadFrom, ProofQueryList, Precomputed;
    ghost var inner, leaves;
    var subtrie;
    subtrie, inner, leaves := CreateSubTrie(state, trie, keys);
    qs, internal, slots, order := [], inner, leaves, [];
    if subtrie.Failure? {
      return Failure(subtrie.error), qs, internal, slots, order;
    }
    var queries := subtrie.value.0;
    qs := queries;
    assert ReadOff(state, trie, keys, qs, subtrie.value.2, internal, slots);
    hide ReadOff;
    SizedQueries(state, trie, keys, qs, subtrie.value.2, internal, slots, crs);
    var precomp := NewPrecomputedWeights(DOMAIN_SIZE);
    var transcript := new Transcript(TAG_ST);
    var proof;
    proof, order := Open(crs, precomp, transcript, queries, threads);
    if proof.None? {
      return Failure(Panic), qs, internal, slots, order;
    }
    r := Success(Proof(subtrie.value.1, proof.value, subtrie.value.2));
  }

  /** `SaltProof::check`, for any proof, data and root. */
  method CheckProof(proof: Proof, crs: Crs, data: Data, stateRoot: Fr, threads: nat)
    returns (r: Result<(), ProofError>, ghost keys: seq<SaltKey>, ghost internal: Points, ghost slots: Points)
    requires GroupLaws() && IsField() && EncodingLengths() && CrsOk(crs) && threads > 0
    requires forall key :: key in data ==> ValidKey(key)
    ensures (forall k :: k in keys <==> k in data) && NodesOk(internal, slots)
    ensures LevelsMatch(proof.levels, data) && LevelsInRange(proof.levels) ==> LevelsKnown(keys, proof.levels) && ShapeOf(keys, proof.levels, internal, slots)
    ensures r.Success? <==>
      && LevelsMatch(proof.levels, data) && LevelsInRange(proof.levels)
      && proof.commitments.Keys == RequiredNodes(internal, slots) && Complete(internal, slots, proof.commitments, data)
      && 0 in proof.commitments && HashCommitment(proof.commitments[0]) == stateRoot
      && |proof.proof.openProof.l| == |proof.proof.openProof.r|
      && var vs := ProofQueryList(internal, slots, FromMap(proof.commitments), Claimed(data));
         vs != [] && CheckAccepts(TAG_ST, crs, vs, proof.proof)
  {
    hide GroupLaws, IsField, EncodingLengths, CheckAccepts, ProofQueryList, LevelsMatch, LevelsInRange, LevelsKnown, ShapeOf, Complete, NodesOk, Precomputed;
    ghost var keys1, internal1, slots1;
    var queries;
    queries, keys1, internal1, slots1 := CreateVerifierQueries(proof.commitments, proof.levels, data);
    keys, internal, slots := keys1, internal1, slots1;
    if queries.Failure? {
      return Failure(queries.error), keys, internal, slots;
    }
    if 0 !in proof.commitments {
      return Failure(MissingRootCommitment), keys, internal, slots;
    }
    if HashCommitment(proof.commitments[0]) != stateRoot {
      return Failure(RootMismatch), keys, internal, slots;
    }
    var precomp := NewPrecomputedWeights(DOMAIN_SIZE);
    var transcript := new Transcript(TAG_ST);
    var ok := Check(proof.proof, crs, precomp, queries.value, transcript, threads);
    r := if ok.None? then Failure(Panic) else if ok.value then Success(()) else Failure(MultiPointProofFailed);
  }

  /** The verifier's list for these nodes, commitments and data. */
  ghost function ListFor(internal: Points, slots: Points, commitments: Trie, data: Data): seq<VerifierQuery> {
    ProofQueryList(internal, slots, FromMap(commitments), Claimed(data))
  }

  /**
   What a challenge says about the data: over one proof's nodes, two claims about the same keys
   draw the same challenge t exactly when they agree, as scalars, at every key that has a place of
   its own. Keys within the capacities that the levels give all have one.
   */
  lemma ChallengeBindsData(keys: seq<SaltKey>, levels: Levels, internal: Points, slots: Points, commitments: Trie, data1: Data, data2: Data, d: Element)
    requires LevelsKnown(keys, levels) && ShapeOf(keys, levels, internal, slots)
    requires (forall k :: k in keys <==> k in data1) && data1.Keys == data2.Keys
    requires NodesOk(internal, slots) && Complete(internal, slots, commitments, data1)
    requires EncodingsDistinguish()
    requires HashDistinguishes(HashedForT(TAG_ST, ListFor(internal, slots, commitments, data1), d) + HashedForT(TAG_ST, ListFor(internal, slots, commitments, data2), d))
    ensures ChallengeT(TAG_ST, ListFor(internal, slots, commitments, data1), d) == ChallengeT(TAG_ST, ListFor(internal, slots, commitments, data2), d)
       <==> forall key :: key in data1 && OwnSlot(key, levels[key.bucket]) ==> SlotScalar(data1[key]) == SlotScalar(data2[key])
  {
    hide ShapeOf, ProofQueryList, OwnSlot, EncodingsDistinguish, HashDistinguishes, HashedForT, ChallengeT, NodesOk, Complete, PlacesListed, ValidKey;
    TBinds(TAG_ST, ListFor(internal, slots, commitments, data1), d, ListFor(internal, slots, commitments, data2), d);
    CompleteListsPlaces(keys, levels, internal, slots, commitments, data1);
    ListTellsData(keys, levels, internal, slots, FromMap(commitments), Claimed(data1), Claimed(data2));
    forall j | 0 <= j < |keys|
      ensures keys[j] in data1
    {
    }
    forall key | key in data1
      ensures key in keys
    {
    }
  }

  lemma RootPlain()
    ensures ConnectParent(0) == 0
  {
    StartingNodeIds();
    NodesAreNotEncoded(0, 0, 0);
  }

  /** The root is among the nodes of every proof. */
  lemma RootRequired(keys: seq<SaltKey>, levels: Levels, internal: Points, slots: Points)
    requires keys != [] && LevelsKnown(keys, levels) && ShapeOf(keys, levels, internal, slots)
    ensures 0 in RequiredNodes(internal, slots)
  {
    hide MainEdges, SubtreeEdges, Bridge, EdgeUp, MainNode, LeafNode, Leftmost, ConnectParent, BridgeOk, LogicParent, IsEncoded, Width, SlotEdgeOf;
    var key := keys[0];
    RootPlain();
    MainEdgeIn(key.bucket, 3, 2);
    MainPlace(key.bucket, 2);
    MainPathEnds(key.bucket, 3);
    var e := EdgeUp(MainNode(key.bucket, 2));
    assert e in KeyEdges(key, levels[key.bucket]);
    assert EdgeOf(keys, levels, |keys|, e);
    assert HasEdge(internal, e);
  }

  /**
   Completeness of proofs: over a store whose trie commits to its data, for every set of keys
   within the capacities of their buckets, `check` accepts what `create` made, against the
   store's data and its root, whenever the challenge t lies outside the domain.
   */
  method CreateAndCheck(state: StateStore, trie: Trie, crs: Crs, keys: seq<SaltKey>, data: Data, threads: nat)
    returns (created: Result<Proof, ProofError>, checked: Result<(), ProofError>, ghost vs: seq<VerifierQuery>)
    requires TruthOk(state.kvs) && Agrees(Full(state), state.kvs)
    requires GroupLaws() && IsField() && EncodingLengths() && CrsOk(crs) && threads > 0
    requires TrieCommits(crs, trie, state.kvs)
    requires (forall k :: k in keys <==> k in data) && Reads(data, state.kvs)
    ensures keys != [] && (forall j :: 0 <= j < |keys| ==> keys[j].slot < CapacityOf(state.kvs, keys[j].bucket)) ==>
      created.Success? || created.error == Panic
    ensures created.Success? && crs.n <= ChallengeT(TAG_ST, vs, created.value.proof.gComm) ==> checked.Success?
  {
    hide TruthOk, Agrees, GroupLaws, IsField, EncodingLengths, TrieCommits, Reads, CapacityOf, ReadOff, Carries, OpenedBy, QueriesSized, Honest,
         CheckAccepts, ProofQueryList, LevelsMatch, LevelsInRange, LevelsKnown, ShapeOf, Complete, NodesOk, RequiredNodes, ChallengeT, KeysOk, ValidKey;
    ghost var qs, internal, slots, order;
    created, qs, internal, slots, order := Create(state, trie, crs, keys, threads);
    checked := Failure(StateReadError);
    vs := ToVerifiers(qs);
    if created.Success? {
      var proof := created.value;
      ReadOffFacts(state, trie, keys, qs, proof.levels, internal, slots);
      ProverKeysServe(keys, proof.levels, data);
      ghost var keys1, internal1, slots1;
      checked, keys1, internal1, slots1 := CheckProof(proof, crs, data, HashCommitment(CommitmentAt(trie, 0)), threads);
      SameQueries(state, trie, keys, qs, proof.levels, internal, slots, proof.commitments, data, keys1, internal1, slots1);
      QueriesAreHonest(state, trie, keys, qs, proof.levels, internal, slots, crs);
      OpenedShape(TAG_ST, crs, qs, order, proof.proof);
      if crs.n <= ChallengeT(TAG_ST, vs, proof.proof.gComm) {
        MultiPointComplete(TAG_ST, crs, qs, order, proof.proof);
      }
    }
  }

  lemma ReadOffFacts(state: StateStore, trie: Trie, keys: seq<SaltKey>, qs: seq<ProverQuery>, levels: Levels, internal: Points, slots: Points)
    requires ReadOff(state, trie, keys, qs, levels, internal, slots)
    ensures keys != [] && KeysOk(keys, levels) && LevelsKnown(keys, levels) && ShapeOf(keys, levels, internal, slots)
    ensures forall b :: b in levels <==> exists j :: 0 <= j < |keys| && keys[j].bucket == b
    ensures ToVerifiers(qs) == ProofQueryList(internal, slots, FromTrie(trie), Stored(state.kvs))
  {
    hide CapacityOf, LevelOf, ReadFrom, ProofQueryList, ShapeOf, KeysInCapacity, ToVerifiers;
  }

  lemma CarriedRoot(commitments: Trie, trie: Trie, internal: Points, slots: Points)
    requires Carries(commitments, trie, internal, slots)
    ensures 0 in RequiredNodes(internal, slots) ==> 0 in commitments && commitments[0] == CommitmentAt(trie, 0)
  {
    hide CommitmentAt, RequiredNodes;
  }

  lemma ProverNodesOk(internal: Points, slots: Points)
    requires PointsOk(internal, slots)
    ensures NodesOk(internal, slots)
  {
    hide BridgeOk, Branches, LogicParent, IsLeaf;
  }

  /** The verifier's checks before the argument itself pass, and its queries are the prover's. */
  lemma SameQueries(state: StateStore, trie: Trie, keys: seq<SaltKey>, qs: seq<ProverQuery>, levels: Levels, internal: Points, slots: Points,
                    commitments: Trie, data: Data, keys1: seq<SaltKey>, internal1: Points, slots1: Points)
    requires ReadOff(state, trie, keys, qs, levels, internal, slots) && Carries(commitments, trie, internal, slots)
    requires (forall k :: k in keys <==> k in data) && Reads(data, state.kvs) && (forall k :: k in keys1 <==> k in data)
    requires LevelsMatch(levels, data) && LevelsInRange(levels) ==> LevelsKnown(keys1, levels) && ShapeOf(keys1, levels, internal1, slots1)
    ensures LevelsMatch(levels, data) && LevelsInRange(levels)
    ensures internal1 == internal && slots1 == slots && NodesOk(internal, slots)
    ensures commitments.Keys == RequiredNodes(internal, slots) && Complete(internal, slots, commitments, data)
    ensures 0 in commitments && commitments[0] == CommitmentAt(trie, 0)
    ensures ProofQueryList(internal, slots, FromMap(commitments), Claimed(data)) == ToVerifiers(qs) != []
  {
    hide CapacityOf, LevelOf, ReadFrom, ProofQueryList, ShapeOf, KeysOk, LevelsMatch, LevelsInRange, Reads, Complete, PointsOk, NodesOk, CommitmentAt, ToVerifiers, Carries,
         RequiredNodes, ConnectParent, BucketsOf, KeysInCapacity;
    SomeQuery(state, trie, keys, qs, levels, internal, slots);
    ReadOffFacts(state, trie, keys, qs, levels, internal, slots);
    CarriedRoot(commitments, trie, internal, slots);
    ProverKeysServe(keys, levels, data);
    CarriesRequired(commitments, trie, internal, slots);
    ShapeIsOk(keys, levels, internal, slots);
    ProverNodesOk(internal, slots);
    KeysIn(keys, data);
    ShapeIsComplete(keys, levels, internal, slots, commitments, data);
    ShapeUnique(keys, keys1, levels, internal, slots, internal1, slots1);
    RootRequired(keys, levels, internal, slots);
    ListsAgree(internal, slots, trie, state.kvs, commitments, data);
  }
}
