/** The prover's subtrie and the verifier's queries for one set of keys. */
module SaltProofModule {
  import opened Wrappers
  import opened SaltTypes
  import opened SessionView
  import opened Scalars
  import opened Elements
  import opened MultiProof
  import opened NodeUtils
  import opened ProofShape
  import opened ProofQueries

  type Levels = map<BucketId, nat>

  type Data = map<SaltKey, Option<SaltValue>>

  /** Keys within the capacities of their buckets; metadata buckets never expand. */
  ghost predicate KeysOk(keys: seq<SaltKey>, levels: Levels) {
    && LevelsKnown(keys, levels) && KeysInCapacity(keys, levels)
    && forall j :: 0 <= j < |keys| && keys[j].bucket < NUM_META_BUCKETS ==> levels[keys[j].bucket] == 1
  }

  /** The nodes and positions of a set of keys. */
  ghost predicate ShapeOf(keys: seq<SaltKey>, levels: Levels, internal: Points, slots: Points)
    requires LevelsKnown(keys, levels)
  {
    && NoneEmpty(internal) && (forall e :: HasEdge(internal, e) <==> EdgeOf(keys, levels, |keys|, e))
    && NoneEmpty(slots) && (forall e :: HasEdge(slots, e) <==> SlotEdgeOf(keys, levels, |keys|, e))
  }

  // ---------------------------------------------------------------- the shape is as the query builders need it

  /** A node that an edge starts from has 256 children, and the edge names one of them. */
  lemma EdgeBranches(key: SaltKey, level: nat, e: Edge)
    requires InCapacity(key, level) && e in KeyEdges(key, level) && (key.bucket < NUM_META_BUCKETS ==> level == 1)
    ensures BridgeOk(e.0) && Branches(LogicParent(e.0)) && e.1 < DOMAIN_SIZE
  {
    hide Leftmost, EdgeUp, MainNode, Above, BridgeOk, MainEdges, SubtreeEdges, Bridge, Width, LogicParent, Branches;
    if e in MainEdges(key.bucket, 3) {
      OfMainEdges(key.bucket, 3, e);
      var k :| 0 <= k < 3 && 0 < Local(MainNode(key.bucket, k)) < Leftmost(MAX_SUBTREE_LEVELS) && e == EdgeUp(MainNode(key.bucket, k));
      MainBranches(key.bucket, k);
    } else if e == Bridge(key, level) {
      BridgeBranches(key, level);
    } else {
      OfSubtreeEdges(key, level - 2, e);
      var k :| 0 <= k < level - 2 && 0 < Local(Above(key, k)) < Leftmost(MAX_SUBTREE_LEVELS) && e == EdgeUp(Above(key, k));
      SubtreeBranches(key, k);
    }
  }

  lemma MainBranches(bucket: nat, k: nat)
    requires bucket < NUM_BUCKETS && k < 3
    ensures 0 < Local(MainNode(bucket, k)) < Leftmost(MAX_SUBTREE_LEVELS)
    ensures var e := EdgeUp(MainNode(bucket, k)); BridgeOk(e.0) && Branches(LogicParent(e.0)) && e.1 < DOMAIN_SIZE
  {
    MainPlace(bucket, k);
    MainPlace(bucket, k + 1);
    NodesAreNotEncoded(0, 3 - (k + 1), Up(bucket, k + 1));
    assert BranchAt(MainNode(bucket, k + 1), 0, 3 - (k + 1), Up(bucket, k + 1)) by { hide EdgeUp, Leftmost, Width, Up; }
  }

  lemma SubtreeBranches(key: SaltKey, k: nat)
    requires ValidKey(key) && k < 4 && key.bucket > 0
    ensures 0 < Local(Above(key, k)) < Leftmost(MAX_SUBTREE_LEVELS)
    ensures var e := EdgeUp(Above(key, k)); BridgeOk(e.0) && Branches(LogicParent(e.0)) && e.1 < DOMAIN_SIZE
  {
    AbovePlace(key, k);
    AbovePlace(key, k + 1);
    var p := Up(key.slot / MIN_BUCKET_SIZE, k + 1);
    NodesAreNotEncoded(key.bucket, 4 - (k + 1), p);
    assert BranchAt(Above(key, k + 1), key.bucket, 4 - (k + 1), p) by { hide EdgeUp, Leftmost, Width, Up; }
  }

  lemma BridgeBranches(key: SaltKey, level: nat)
    requires InCapacity(key, level) && 2 <= level && key.bucket > 0
    ensures var e := Bridge(key, level); BridgeOk(e.0) && Branches(LogicParent(e.0)) && e.1 < DOMAIN_SIZE
  {
    BridgeRoundTrip(key.bucket, level);
    BridgeIs(key, level);
    AbovePlace(key, level - 2);
    hide EdgeUp, Leftmost, LogicParent, BridgeOk, Above;
    assert BranchAt(Node(key.bucket, MAX_SUBTREE_LEVELS - level, 0), key.bucket, MAX_SUBTREE_LEVELS - level, 0);
  }

  /** A leaf and a position are the key again: leaf queries are one-to-one with keys. */
  lemma LeafKeyIs(key: SaltKey, level: nat)
    requires InCapacity(key, level) && (key.bucket < NUM_META_BUCKETS ==> level == 1)
    ensures IsLeaf(LeafNode(key, level)) && LeafKey(LeafNode(key, level), key.slot % MIN_BUCKET_SIZE) == key
  {
    StartingNodeIds();
    SubtreeLeafPlace(key);
    NodeParts(key.bucket, 4, key.slot / MIN_BUCKET_SIZE);
    hide Leftmost, Width, OnLevel;
  }

  lemma ShapeIsOk(keys: seq<SaltKey>, levels: Levels, internal: Points, slots: Points)
    requires KeysOk(keys, levels) && ShapeOf(keys, levels, internal, slots)
    ensures PointsOk(internal, slots)
  {
    hide KeyEdges, LeafNode, BridgeOk, Branches, LogicParent, IsLeaf, InCapacity;
    forall n, i | n in internal && i in internal[n]
      ensures BridgeOk(n) && Branches(LogicParent(n)) && i < DOMAIN_SIZE
    {
      assert HasEdge(internal, (n, i));
      var j :| 0 <= j < |keys| && (n, i) in KeyEdges(keys[j], levels[keys[j].bucket]);
      EdgeBranches(keys[j], levels[keys[j].bucket], (n, i));
    }
    forall n, i | n in slots && i in slots[n]
      ensures IsLeaf(n) && i < DOMAIN_SIZE
    {
      assert HasEdge(slots, (n, i));
      var j :| 0 <= j < |keys| && (n, i) == (LeafNode(keys[j], levels[keys[j].bucket]), keys[j].slot % MIN_BUCKET_SIZE);
      LeafKeyIs(keys[j], levels[keys[j].bucket]);
    }
    forall n | n in internal
      ensures BridgeOk(n) && Branches(LogicParent(n))
    {
      var i :| i in internal[n];
    }
    forall n | n in slots
      ensures IsLeaf(n)
    {
      var i :| i in slots[n];
    }
  }

  /** A proof over its own nodes, with data for its own keys, answers every query. */
  lemma ShapeIsComplete(keys: seq<SaltKey>, levels: Levels, internal: Points, slots: Points, commitments: Trie, data: Data)
    requires KeysOk(keys, levels) && ShapeOf(keys, levels, internal, slots) && PointsOk(internal, slots)
    requires commitments.Keys == RequiredNodes(internal, slots) && forall j :: 0 <= j < |keys| ==> keys[j] in data
    ensures Complete(internal, slots, commitments, data)
  {
    hide KeyEdges, LeafNode, BridgeOk, Branches, LogicParent, IsLeaf, InCapacity, EdgeChild, ConnectParent, LeafKey, KeysInCapacity, LevelsKnown, EdgeOf;
    forall n | n in internal
      ensures NodeComplete(n, internal[n], commitments)
    {
      forall i | i in internal[n]
        ensures EdgeChild((n, i)) in commitments
      {
        assert HasEdge(internal, (n, i));
        ProofIsClosed(keys, levels, internal, slots, (n, i));
      }
    }
    forall n | n in slots
      ensures LeafComplete(n, slots[n], commitments, data)
    {
      forall i | i in slots[n]
        ensures LeafKey(n, i) in data
      {
        assert HasEdge(slots, (n, i));
        SlotIsKey(keys, levels, n, i, data);
      }
    }
  }

  lemma SlotIsKey(keys: seq<SaltKey>, levels: Levels, n: NodeId, i: nat, data: Data)
    requires KeysOk(keys, levels) && SlotEdgeOf(keys, levels, |keys|, (n, i)) && forall j :: 0 <= j < |keys| ==> keys[j] in data
    ensures IsLeaf(n) && LeafKey(n, i) in data
  {
    hide LeafNode, IsLeaf, InCapacity, LeafKey;
    var j :| 0 <= j < |keys| && (n, i) == (LeafNode(keys[j], levels[keys[j].bucket]), keys[j].slot % MIN_BUCKET_SIZE);
    LeafKeyIs(keys[j], levels[keys[j].bucket]);
  }

  /** The shape depends on the set of keys only. */
  lemma ShapeUnique(keys1: seq<SaltKey>, keys2: seq<SaltKey>, levels: Levels, i1: Points, s1: Points, i2: Points, s2: Points)
    requires LevelsKnown(keys1, levels) && LevelsKnown(keys2, levels) && (forall k :: k in keys1 <==> k in keys2)
    requires ShapeOf(keys1, levels, i1, s1) && ShapeOf(keys2, levels, i2, s2)
    ensures i1 == i2 && s1 == s2
  {
    hide KeyEdges, LeafNode;
    forall e
      ensures EdgeOf(keys1, levels, |keys1|, e) <==> EdgeOf(keys2, levels, |keys2|, e)
      ensures SlotEdgeOf(keys1, levels, |keys1|, e) <==> SlotEdgeOf(keys2, levels, |keys2|, e)
    {
      EdgeMoves(keys1, keys2, levels, e);
      EdgeMoves(keys2, keys1, levels, e);
    }
    hide EdgeOf, SlotEdgeOf;
    PointsEqual(i1, i2);
    PointsEqual(s1, s2);
  }

  lemma EdgeMoves(keys1: seq<SaltKey>, keys2: seq<SaltKey>, levels: Levels, e: Edge)
    requires LevelsKnown(keys1, levels) && LevelsKnown(keys2, levels) && (forall k :: k in keys1 ==> k in keys2)
    ensures EdgeOf(keys1, levels, |keys1|, e) ==> EdgeOf(keys2, levels, |keys2|, e)
    ensures SlotEdgeOf(keys1, levels, |keys1|, e) ==> SlotEdgeOf(keys2, levels, |keys2|, e)
  {
    hide KeyEdges, LeafNode;
    if EdgeOf(keys1, levels, |keys1|, e) {
      var j :| 0 <= j < |keys1| && e in KeyEdges(keys1[j], levels[keys1[j].bucket]);
      assert keys1[j] in keys2;
    }
    if SlotEdgeOf(keys1, levels, |keys1|, e) {
      var j :| 0 <= j < |keys1| && e == (LeafNode(keys1[j], levels[keys1[j].bucket]), keys1[j].slot % MIN_BUCKET_SIZE);
      assert keys1[j] in keys2;
    }
  }

  lemma PointsEqual(a: Points, b: Points)
    requires NoneEmpty(a) && NoneEmpty(b) && forall e :: HasEdge(a, e) <==> HasEdge(b, e)
    ensures a == b
  {
    forall n
      ensures n in a ==> n in b && a[n] <= b[n]
      ensures n in b ==> n in a && b[n] <= a[n]
    {
      PointsWithin(a, b, n);
      PointsWithin(b, a, n);
    }
    assert a.Keys == b.Keys;
    assert forall n :: n in a ==> a[n] == b[n];
  }

  lemma PointsWithin(a: Points, b: Points, n: NodeId)
    requires NoneEmpty(a) && forall e :: HasEdge(a, e) ==> HasEdge(b, e)
    ensures n in a ==> n in b && a[n] <= b[n]
  {
    if n in a {
      forall i | i in a[n]
        ensures n in b && i in b[n]
      {
        assert HasEdge(a, (n, i));
        assert HasEdge(b, (n, i));
      }
      var i :| i in a[n];
    }
  }

  // ---------------------------------------------------------------- what the queries ask

  /** The query for a slot's content: under the commitment of the key's leaf, at the key's position. */
  ghost function KeyQuery(key: SaltKey, level: nat, at: NodeId -> Element, content: Option<SaltValue>): VerifierQuery {
    VerifierQuery(at(LeafNode(key, level)), Red(key.slot % MIN_BUCKET_SIZE), SlotScalar(content))
  }

  /** Whether a key's leaf has a place for it: one level stands for 256 slots, and bucket 0 is read at its root only. */
  predicate OwnSlot(key: SaltKey, level: nat) {
    key.slot < MIN_BUCKET_SIZE || (level != 1 && key.bucket > 0)
  }

  /** The place of a key is its own exactly then; otherwise it is the place of another key. */
  lemma OwnSlotIs(key: SaltKey, level: nat)
    requires ValidKey(key)
    ensures IsLeaf(LeafNode(key, level)) && (LeafKey(LeafNode(key, level), key.slot % MIN_BUCKET_SIZE) == key <==> OwnSlot(key, level))
    ensures OwnSlot(key, level) || LeafKey(LeafNode(key, level), key.slot % MIN_BUCKET_SIZE).slot < MIN_BUCKET_SIZE
  {
    StartingNodeIds();
    SubtreeLeafPlace(key);
    NodeParts(key.bucket, 4, key.slot / MIN_BUCKET_SIZE);
    hide Leftmost, Width, OnLevel;
  }

  lemma InCapacityOwns(key: SaltKey, level: nat)
    requires InCapacity(key, level) && (key.bucket < NUM_META_BUCKETS ==> level == 1)
    ensures OwnSlot(key, level)
  {
    StartingNodeIds();
  }

  /** A list asks for the content of every key that has a place. */
  lemma AsksForKeys(keys: seq<SaltKey>, levels: Levels, internal: Points, slots: Points, at: NodeId -> Element, value: Content, j: nat)
    requires LevelsKnown(keys, levels) && ShapeOf(keys, levels, internal, slots) && j < |keys| && OwnSlot(keys[j], levels[keys[j].bucket])
    ensures KeyQuery(keys[j], levels[keys[j].bucket], at, value(keys[j])) in ProofQueryList(internal, slots, at, value)
  {
    hide LeafNode, IsLeaf, LeafKey, ConnectParent, ProofQueryList, NodesOk, KeyEdges, OwnSlot, Red, NoneEmpty;
    var key, level := keys[j], levels[keys[j].bucket];
    var e := (LeafNode(key, level), key.slot % MIN_BUCKET_SIZE);
    OwnSlotIs(key, level);
    LeafIsPlain(key, level);
    ShapeNodesOk(keys, levels, internal, slots);
    ListAsks(internal, slots, at, value, SlotQuery(e, at, value));
    assert SlotEdgeOf(keys, levels, |keys|, e);
    assert HasEdge(slots, e);
  }

  /** The child's commitment, as a scalar, under its parent's, which the proof carries too. */
  ghost predicate AskedAsChild(node: NodeId, nodes: set<NodeId>, at: NodeId -> Element, qs: seq<VerifierQuery>) {
    exists e: Edge ::
      && BridgeOk(e.0) && EdgeChild(e) == node && ConnectParent(e.0) in nodes
      && VerifierQuery(at(ConnectParent(e.0)), Red(e.1), ToScalar(at(node))) in qs
  }

  /** A list asks for the commitment of every node but the root: its nodes hang together up to the root. */
  lemma AsksForNodes(keys: seq<SaltKey>, levels: Levels, internal: Points, slots: Points, at: NodeId -> Element, value: Content, node: NodeId)
    requires LevelsKnown(keys, levels) && KeysInCapacity(keys, levels) && ShapeOf(keys, levels, internal, slots)
    requires node in RequiredNodes(internal, slots) && node != 0
    ensures AskedAsChild(node, RequiredNodes(internal, slots), at, ProofQueryList(internal, slots, at, value))
  {
    hide LeafNode, IsLeaf, ConnectParent, ProofQueryList, NodesOk, KeyEdges, BridgeOk, EdgeChild, InCapacity, SlotQuery, ShapeOf, Red;
    var j, e := NodeIsNamed(keys, levels, internal, slots, node);
    ShapeNodesOk(keys, levels, internal, slots);
    EdgeIsRecorded(keys, levels, internal, slots, j, e);
    ListAsks(internal, slots, at, value, EdgeQuery(e, at));
  }

  lemma EdgeIsRecorded(keys: seq<SaltKey>, levels: Levels, internal: Points, slots: Points, j: nat, e: Edge)
    requires LevelsKnown(keys, levels) && ShapeOf(keys, levels, internal, slots) && j < |keys| && e in KeyEdges(keys[j], levels[keys[j].bucket])
    ensures HasEdge(internal, e) && ConnectParent(e.0) in RequiredNodes(internal, slots)
  {
    hide KeyEdges, ConnectParent, NoneEmpty, SlotEdgeOf;
    assert EdgeOf(keys, levels, |keys|, e);
    assert HasEdge(internal, e);
  }

  lemma NodeIsNamed(keys: seq<SaltKey>, levels: Levels, internal: Points, slots: Points, node: NodeId) returns (j: nat, e: Edge)
    requires LevelsKnown(keys, levels) && KeysInCapacity(keys, levels) && ShapeOf(keys, levels, internal, slots)
    requires node in RequiredNodes(internal, slots) && node != 0
    ensures j < |keys| && e in KeyEdges(keys[j], levels[keys[j].bucket]) && BridgeOk(e.0) && EdgeChild(e) == node
  {
    hide KeyEdges, ConnectParent, EdgeChild, BridgeOk, LeafNode, InCapacity;
    var n :| n in internal.Keys + slots.Keys && ConnectParent(n) == node;
    if n in internal {
      var i :| i in internal[n];
      assert HasEdge(internal, (n, i));
      j :| 0 <= j < |keys| && (n, i) in KeyEdges(keys[j], levels[keys[j].bucket]);
    } else {
      var i :| i in slots[n];
      assert HasEdge(slots, (n, i));
      j :| 0 <= j < |keys| && (n, i) == (LeafNode(keys[j], levels[keys[j].bucket]), keys[j].slot % MIN_BUCKET_SIZE);
      LeafIsPlain(keys[j], levels[keys[j].bucket]);
    }
    PathIsLinked(keys[j], levels[keys[j].bucket], node);
    e :| e in KeyEdges(keys[j], levels[keys[j].bucket]) && BridgeOk(e.0) && EdgeChild(e) == node;
  }

  /** A list holds the content of this key. */
  ghost predicate Answers(key: SaltKey, levels: Levels, at: NodeId -> Element, value: Content, qs: seq<VerifierQuery>) {
    key.bucket in levels && KeyQuery(key, levels[key.bucket], at, value(key)) in qs
  }

  /** For keys within capacity, a list asks for every key's content and for every node but the root. */
  lemma ListAnswers(keys: seq<SaltKey>, levels: Levels, internal: Points, slots: Points, at: NodeId -> Element, value: Content)
    requires KeysOk(keys, levels) && ShapeOf(keys, levels, internal, slots)
    ensures forall j :: 0 <= j < |keys| ==> Answers(keys[j], levels, at, value, ProofQueryList(internal, slots, at, value))
    ensures forall n :: n in RequiredNodes(internal, slots) && n != 0
                        ==> AskedAsChild(n, RequiredNodes(internal, slots), at, ProofQueryList(internal, slots, at, value))
  {
    hide ShapeOf, ProofQueryList, LeafNode, AskedAsChild, InCapacity, OwnSlot, KeyQuery, RequiredNodes;
    forall j | 0 <= j < |keys|
      ensures Answers(keys[j], levels, at, value, ProofQueryList(internal, slots, at, value))
    {
      InCapacityOwns(keys[j], levels[keys[j].bucket]);
      AsksForKeys(keys, levels, internal, slots, at, value, j);
    }
    forall n | n in RequiredNodes(internal, slots) && n != 0
      ensures AskedAsChild(n, RequiredNodes(internal, slots), at, ProofQueryList(internal, slots, at, value))
    {
      AsksForNodes(keys, levels, internal, slots, at, value, n);
    }
  }

  /** Every place that a list asks about belongs to a listed key, when the data answer every query. */
  ghost predicate PlacesListed(keys: seq<SaltKey>, levels: Levels)
    requires LevelsKnown(keys, levels)
  {
    forall j :: 0 <= j < |keys| ==> IsLeaf(LeafNode(keys[j], levels[keys[j].bucket]))
                                    && LeafKey(LeafNode(keys[j], levels[keys[j].bucket]), keys[j].slot % MIN_BUCKET_SIZE) in keys
  }

  /**
   What a list says about the data: two contents of the same keys give the same list exactly when
   they agree, as scalars, at every key that has a place of its own.
   */
  lemma ListTellsData(keys: seq<SaltKey>, levels: Levels, internal: Points, slots: Points, at: NodeId -> Element, value1: Content, value2: Content)
    requires LevelsKnown(keys, levels) && ShapeOf(keys, levels, internal, slots) && PlacesListed(keys, levels)
    ensures ProofQueryList(internal, slots, at, value1) == ProofQueryList(internal, slots, at, value2)
       <==> forall j :: 0 <= j < |keys| && OwnSlot(keys[j], levels[keys[j].bucket]) ==> SlotScalar(value1(keys[j])) == SlotScalar(value2(keys[j]))
  {
    hide LeafNode, IsLeaf, LeafKey, ProofQueryList, NodesOk, KeyEdges, OwnSlot;
    ShapeNodesOk(keys, levels, internal, slots);
    ListTells(internal, slots, at, value1, value2);
    if ProofQueryList(internal, slots, at, value1) == ProofQueryList(internal, slots, at, value2) {
      forall j | 0 <= j < |keys| && OwnSlot(keys[j], levels[keys[j].bucket])
        ensures SlotScalar(value1(keys[j])) == SlotScalar(value2(keys[j]))
      {
        var e := (LeafNode(keys[j], levels[keys[j].bucket]), keys[j].slot % MIN_BUCKET_SIZE);
        OwnSlotIs(keys[j], levels[keys[j].bucket]);
        assert SlotEdgeOf(keys, levels, |keys|, e);
        assert HasEdge(slots, e);
      }
    } else if forall j :: 0 <= j < |keys| && OwnSlot(keys[j], levels[keys[j].bucket]) ==> SlotScalar(value1(keys[j])) == SlotScalar(value2(keys[j])) {
      forall e | HasEdge(slots, e)
        ensures IsLeaf(e.0) && SlotScalar(value1(LeafKey(e.0, e.1))) == SlotScalar(value2(LeafKey(e.0, e.1)))
      {
        assert SlotEdgeOf(keys, levels, |keys|, e);
        var j :| 0 <= j < |keys| && e == (LeafNode(keys[j], levels[keys[j].bucket]), keys[j].slot % MIN_BUCKET_SIZE);
        var i := PlaceOwner(keys, levels, j);
        assert SlotScalar(value1(keys[i])) == SlotScalar(value2(keys[i]));
      }
    }
  }

  /** A listed place is the own place of a listed key. */
  lemma PlaceOwner(keys: seq<SaltKey>, levels: Levels, j: nat) returns (i: nat)
    requires LevelsKnown(keys, levels) && PlacesListed(keys, levels) && j < |keys|
    ensures i < |keys| && OwnSlot(keys[i], levels[keys[i].bucket]) && IsLeaf(LeafNode(keys[j], levels[keys[j].bucket]))
    ensures keys[i] == LeafKey(LeafNode(keys[j], levels[keys[j].bucket]), keys[j].slot % MIN_BUCKET_SIZE)
  {
    OwnSlotIs(keys[j], levels[keys[j].bucket]);
    hide LeafNode, IsLeaf, LeafKey;
    i :| 0 <= i < |keys| && keys[i] == LeafKey(LeafNode(keys[j], levels[keys[j].bucket]), keys[j].slot % MIN_BUCKET_SIZE);
  }

  /** Two slots 256 apart, in a bucket that is said to have one level. */
  predicate SharePlace(keys: seq<SaltKey>, levels: Levels) {
    && LevelsKnown(keys, levels) && |keys| == 2 && levels[keys[0].bucket] == 1
    && keys[1].bucket == keys[0].bucket && keys[0].slot == keys[1].slot - MIN_BUCKET_SIZE < MIN_BUCKET_SIZE
  }

  lemma OnePlace(keys: seq<SaltKey>, levels: Levels)
    requires SharePlace(keys, levels)
    ensures LevelsKnown(keys, levels) && PlacesListed(keys, levels) && |keys| == 2 && keys[1].bucket in levels
    ensures !OwnSlot(keys[1], levels[keys[1].bucket])
  {
    hide LeafKey, IsLeaf, BucketRoot;
    OwnSlotIs(keys[0], 1);
    assert keys[0] in keys;
  }

  /**
   One claimed level leaves the slots from 256 on without a place: beside the slot that has
   theirs, their content may be anything.
   */
  lemma UnaskedSlot(keys: seq<SaltKey>, levels: Levels, internal: Points, slots: Points, at: NodeId -> Element, value1: Content, value2: Content)
    requires SharePlace(keys, levels) && ShapeOf(keys, levels, internal, slots) && SlotScalar(value1(keys[0])) == SlotScalar(value2(keys[0]))
    ensures ProofQueryList(internal, slots, at, value1) == ProofQueryList(internal, slots, at, value2)
  {
    hide *;
    OnePlace(keys, levels);
    ListTellsData(keys, levels, internal, slots, at, value1, value2);
  }

  // ---------------------------------------------------------------- create_sub_trie

  /** The capacity of a key's bucket. */
  ghost function CapacityOf(kvs: Kvs, bucket: BucketId): nat {
    if bucket < NUM_META_BUCKETS then MIN_BUCKET_SIZE else BaseMeta(kvs, bucket).capacity
  }

  ghost function LevelOf(kvs: Kvs, bucket: BucketId): int {
    if bucket < NUM_META_BUCKETS then 1 else MAX_SUBTREE_LEVELS - SubtreeRootLevel(BaseMeta(kvs, bucket).capacity)
  }

  lemma StoredCapacity(kvs: Kvs, b: DataBucketId)
    requires TruthOk(kvs)
    ensures 0 < BaseMeta(kvs, b).capacity <= BUCKET_SPAN
  {
    assert BucketOk(kvs, map[], b);
  }

  lemma LevelFits(kvs: Kvs, key: SaltKey)
    requires TruthOk(kvs) && key.slot < CapacityOf(kvs, key.bucket)
    ensures ValidKey(key) && 1 <= LevelOf(kvs, key.bucket) <= MAX_SUBTREE_LEVELS && InCapacity(key, LevelOf(kvs, key.bucket))
  {
    if key.bucket >= NUM_META_BUCKETS {
      StoredCapacity(kvs, key.bucket);
      CapacityGivesLevels(key, BaseMeta(kvs, key.bucket).capacity);
    } else {
      StartingNodeIds();
    }
  }

  /** Refuses keys past the capacity of their bucket, and finds the levels of all buckets. */
  method BucketLevels(state: StateStore, keys: seq<SaltKey>) returns (r: Result<Levels, ProofError>)
    requires TruthOk(state.kvs) && Agrees(Full(state), state.kvs)
    ensures r.Success? <==> forall j :: 0 <= j < |keys| ==> keys[j].slot < CapacityOf(state.kvs, keys[j].bucket)
    ensures r.Success? ==> KeysOk(keys, r.value) && forall b :: b in r.value <==> exists j :: 0 <= j < |keys| && keys[j].bucket == b
    ensures r.Success? ==> forall b :: b in r.value ==> r.value[b] == LevelOf(state.kvs, b)
    ensures r.Failure? ==> exists j :: 0 <= j < |keys| && r.error == InvalidSaltKey(keys[j], CapacityOf(state.kvs, keys[j].bucket))
                             && keys[j].slot >= CapacityOf(state.kvs, keys[j].bucket)
  {
    hide TruthOk, Agrees, InCapacity, SubtreeRootLevel;
    var levels: Levels := map[];
    for j := 0 to |keys|
      invariant forall i :: 0 <= i < j ==> keys[i].slot < CapacityOf(state.kvs, keys[i].bucket) && keys[i].bucket in levels
      invariant forall b :: b in levels ==> levels[b] == LevelOf(state.kvs, b) && exists i :: 0 <= i < j && keys[i].bucket == b
    {
      var bucket := keys[j].bucket;
      var capacity, level := ReadLevel(state, bucket);
      if keys[j].slot >= capacity {
        return Failure(InvalidSaltKey(keys[j], capacity));
      }
      levels := levels[bucket := level];
    }
    forall j | 0 <= j < |keys|
      ensures ValidKey(keys[j]) && 1 <= levels[keys[j].bucket] <= MAX_SUBTREE_LEVELS && InCapacity(keys[j], levels[keys[j].bucket])
    {
      LevelFits(state.kvs, keys[j]);
    }
    r := Success(levels);
  }

  /** Capacity and subtree levels of one bucket. */
  method ReadLevel(state: StateStore, bucket: BucketId) returns (capacity: nat, level: nat)
    requires TruthOk(state.kvs) && Agrees(Full(state), state.kvs)
    ensures capacity == CapacityOf(state.kvs, bucket) && level == LevelOf(state.kvs, bucket)
  {
    if bucket < NUM_META_BUCKETS {
      return MIN_BUCKET_SIZE, 1;
    }
    MetadataSound(Full(state), state.kvs, bucket);
    StoredCapacity(state.kvs, bucket);
    hide TruthOk, Agrees;
    var meta := Full(state).Metadata(bucket);
    capacity := meta.value.capacity;
    var rootLevel := ComputeSubtreeRootLevel(capacity);
    level := MAX_SUBTREE_LEVELS - rootLevel;
  }

  /** The commitments of the proof's nodes. */
  method ParentsCommitments(trie: Trie, internal: Points, slots: Points) returns (commitments: Trie)
    ensures Carries(commitments, trie, internal, slots)
  {
    hide CommitmentAt, ConnectParent;
    commitments := map[];
    var rest := internal.Keys + slots.Keys;
    while rest != {}
      invariant rest <= internal.Keys + slots.Keys
      invariant forall n :: n in commitments ==> commitments[n] == CommitmentAt(trie, n)
      invariant commitments.Keys == set n | n in internal.Keys + slots.Keys - rest :: ConnectParent(n)
      decreases |rest|
    {
      var n := TakeNode(rest);
      var physical := ConnectParent(n);
      commitments := commitments[physical := CommitmentAt(trie, physical)];
      rest := rest - {n};
    }
    assert internal.Keys + slots.Keys - {} == internal.Keys + slots.Keys;
  }

  method TakeNode(s: set<nat>) returns (n: nat)
    requires s != {}
    ensures n in s
  {
    ghost var x := SomeElement(s);
    hide *;
    n :| n in s;
  }

  /** Every query asks for a value of a node's polynomial, under the node's commitment in the store. */
  ghost predicate ReadFrom(qs: seq<ProverQuery>, trie: Trie, kvs: Kvs, internal: Points, slots: Points) {
    forall q :: q in qs ==> (exists n :: n in internal && NodeQuery(trie, n, q)) || (exists n :: n in slots && LeafQuery(trie, kvs, n, q))
  }

  /** `create_sub_trie`. */
  method CreateSubTrie(state: StateStore, trie: Trie, keys: seq<SaltKey>)
    returns (r: Result<(seq<ProverQuery>, Trie, Levels), ProofError>, ghost internal: Points, ghost slots: Points)
    requires TruthOk(state.kvs) && Agrees(Full(state), state.kvs)
    ensures r.Success? <==> keys != [] && forall j :: 0 <= j < |keys| ==> keys[j].slot < CapacityOf(state.kvs, keys[j].bucket)
    ensures r.Success? ==> KeysOk(keys, r.value.2) && ShapeOf(keys, r.value.2, internal, slots)
    ensures r.Success? ==> forall b :: b in r.value.2 <==> exists j :: 0 <= j < |keys| && keys[j].bucket == b
    ensures r.Success? ==> forall b :: b in r.value.2 ==> r.value.2[b] == LevelOf(state.kvs, b)
    ensures r.Success? ==> Carries(r.value.1, trie, internal, slots)
    ensures r.Success? ==> ToVerifiers(r.value.0) == ProofQueryList(internal, slots, FromTrie(trie), Stored(state.kvs))
    ensures r.Success? ==> ReadFrom(r.value.0, trie, state.kvs, internal, slots)
    ensures r.Success? ==> forall j :: 0 <= j < |keys| ==> Answers(keys[j], r.value.2, FromTrie(trie), Stored(state.kvs), ToVerifiers(r.value.0))
    ensures r.Success? ==> forall n :: n in r.value.1 && n != 0 ==> AskedAsChild(n, r.value.1.Keys, FromTrie(trie), ToVerifiers(r.value.0))
  {
    hide Answers, AskedAsChild;
    hide NodeQuery, LeafQuery, LevelOf, TruthOk, Agrees, KeysInCapacity, EdgeOf, SlotEdgeOf, MapQueries, PointsOk, NoneEmpty, HasEdge, CapacityOf;
    internal, slots := map[], map[];
    if keys == [] {
      return Failure(StateReadError), internal, slots;
    }
    var levels := BucketLevels(state, keys);
    if levels.Failure? {
      return Failure(levels.error), internal, slots;
    }
    var inner, leaves := ParentsAndPoints(keys, levels.value);
    internal, slots := inner, leaves;
    ShapeIsOk(keys, levels.value, inner, leaves);
    PointsApart(inner, leaves);
    var commitments := ParentsCommitments(trie, inner, leaves);
    var queries := ProveInternal(trie, inner);
    var leafQueries := ProveLeaves(trie, state.kvs, leaves);
    VerifiersJoin(queries, leafQueries);
    ListAnswers(keys, levels.value, inner, leaves, FromTrie(trie), Stored(state.kvs));
    r := Success((queries + leafQueries, commitments, levels.value));
  }

  lemma PointsApart(internal: Points, slots: Points)
    requires PointsOk(internal, slots)
    ensures PointsOk(internal, map[]) && PointsOk(map[], slots)
  {
    hide BridgeOk, Branches, LogicParent, IsLeaf;
  }

  // ---------------------------------------------------------------- create_verifier_queries

  /** The keys of a map, as a list. */
  method KeyList(data: Data) returns (keys: seq<SaltKey>)
    ensures forall k :: k in keys <==> k in data
  {
    keys := [];
    var rest := data.Keys;
    while rest != {}
      invariant rest <= data.Keys && forall k :: k in keys <==> k in data.Keys - rest
      decreases |rest|
    {
      var k :| k in rest;
      keys := keys + [k];
      rest := rest - {k};
    }
  }

  /** What `create_verifier_queries` asks of a proof before it builds queries. */
  predicate LevelsMatch(levels: Levels, data: Data) {
    data.Keys != {} && levels.Keys == BucketsOf(data)
  }

  predicate LevelsInRange(levels: Levels) {
    forall b :: b in levels ==> levels[b] <= MAX_SUBTREE_LEVELS
  }

  /**
   `create_verifier_queries`, for any proof and any data: it succeeds exactly when the proof's
   buckets and nodes are those that the keys ask for and no commitment or value is missing.
   A level past the highest never gives queries: where the source does not report an error
   before, it indexes its table of levels out of range.
   */
  method CreateVerifierQueries(commitments: Trie, levels: Levels, data: Data)
    returns (r: Result<seq<VerifierQuery>, ProofError>, ghost keys: seq<SaltKey>, ghost internal: Points, ghost slots: Points)
    requires forall key :: key in data ==> ValidKey(key)
    ensures (forall k :: k in keys <==> k in data)
    ensures NodesOk(internal, slots)
    ensures LevelsMatch(levels, data) && LevelsInRange(levels) ==> LevelsKnown(keys, levels) && ShapeOf(keys, levels, internal, slots)
    ensures r.Success? <==> LevelsMatch(levels, data) && LevelsInRange(levels)
                            && commitments.Keys == RequiredNodes(internal, slots) && Complete(internal, slots, commitments, data)
    ensures r.Success? ==> r.value == ProofQueryList(internal, slots, FromMap(commitments), Claimed(data))
    ensures r.Success? ==> data != map[] && (forall b :: b in levels <==> exists key :: key in data && key.bucket == b) && forall b :: b in levels ==> levels[b] <= 5
    ensures r.Success? ==> NothingMissing(internal, slots, commitments, data)
    ensures r.Success? ==> forall key :: key in data && OwnSlot(key, levels[key.bucket]) ==> AnsweredBy(key, commitments, levels, data, r.value)
    ensures r.Success? && KeysInCapacity(keys, levels) ==>
      forall n :: n in commitments && n != 0 ==> AskedAsChild(n, commitments.Keys, FromMap(commitments), r.value)
    ensures r.Failure? ==> r.error == if LevelsMatch(levels, data) && !LevelsInRange(levels) then Panic else StateReadError
  {
    hide InCapacity, EdgeOf, SlotEdgeOf, ProofQueryList, NoneEmpty, HasEdge, ConnectParent, Complete, KeyEdges, LeafNode, BridgeOk, IsLeaf, NothingMissing, AskedAsChild;
    var list := KeyList(data);
    keys, internal, slots := list, map[], map[];
    if data.Keys == {} || levels.Keys != BucketsOf(data) {
      return Failure(StateReadError), keys, internal, slots;
    }
    if b :| b in levels && levels[b] > MAX_SUBTREE_LEVELS {
      return Failure(Panic), keys, internal, slots;
    }
    ListedLevels(list, levels, data);
    var inner, leaves := ParentsAndPoints(list, levels);
    internal, slots := inner, leaves;
    ShapeNodesOk(list, levels, inner, leaves);
    var required := set n | n in inner.Keys + leaves.Keys :: ConnectParent(n);
    if commitments.Keys != required {
      return Failure(StateReadError), keys, internal, slots;
    }
    r := VerifyAll(inner, leaves, commitments, data);
    if r.Success? {
      CompleteMeans(inner, leaves, commitments, data);
      DataAnswered(list, levels, inner, leaves, commitments, data);
    }
  }

  /** Every commitment and every content that is asked about is there. */
  ghost predicate NothingMissing(internal: Points, slots: Points, commitments: Trie, data: Data) {
    && (forall e :: HasEdge(internal, e) ==> BridgeOk(e.0) && ConnectParent(e.0) in commitments && EdgeChild(e) in commitments)
    && (forall e :: HasEdge(slots, e) ==> IsLeaf(e.0) && ConnectParent(e.0) in commitments && LeafKey(e.0, e.1) in data)
  }

  lemma CompleteMeans(internal: Points, slots: Points, commitments: Trie, data: Data)
    requires NodesOk(internal, slots) && Complete(internal, slots, commitments, data)
    ensures NothingMissing(internal, slots, commitments, data)
  {
    hide BridgeOk, IsLeaf, ConnectParent, EdgeChild, LeafKey;
    forall e | HasEdge(internal, e)
      ensures BridgeOk(e.0) && ConnectParent(e.0) in commitments && EdgeChild(e) in commitments
    {
      assert NodeComplete(e.0, internal[e.0], commitments);
      assert e == (e.0, e.1);
    }
    forall e | HasEdge(slots, e)
      ensures IsLeaf(e.0) && ConnectParent(e.0) in commitments && LeafKey(e.0, e.1) in data
    {
      assert LeafComplete(e.0, slots[e.0], commitments, data);
    }
  }

  /** The list holds the content that the data claim for this key, under the proof's commitment of the key's leaf. */
  ghost predicate AnsweredBy(key: SaltKey, commitments: Trie, levels: Levels, data: Data, qs: seq<VerifierQuery>)
    requires key in data
  {
    && key.bucket in levels && LeafNode(key, levels[key.bucket]) in commitments
    && VerifierQuery(commitments[LeafNode(key, levels[key.bucket])], Red(key.slot % MIN_BUCKET_SIZE), SlotScalar(data[key])) in qs
  }

  lemma DataAnswered(keys: seq<SaltKey>, levels: Levels, internal: Points, slots: Points, commitments: Trie, data: Data)
    requires LevelsKnown(keys, levels) && ShapeOf(keys, levels, internal, slots) && (forall k :: k in keys <==> k in data)
    requires commitments.Keys == RequiredNodes(internal, slots)
    ensures var qs := ProofQueryList(internal, slots, FromMap(commitments), Claimed(data));
            && (forall key :: key in data ==> key.bucket in levels && (OwnSlot(key, levels[key.bucket]) ==> AnsweredBy(key, commitments, levels, data, qs)))
            && (KeysInCapacity(keys, levels) ==> forall n :: n in commitments && n != 0 ==> AskedAsChild(n, commitments.Keys, FromMap(commitments), qs))
  {
    hide ShapeOf, ProofQueryList, OwnSlot, LeafNode, KeysInCapacity, AskedAsChild, ValidKey, ConnectParent;
    forall key | key in data
      ensures key.bucket in levels
      ensures OwnSlot(key, levels[key.bucket]) ==>
        AnsweredBy(key, commitments, levels, data, ProofQueryList(internal, slots, FromMap(commitments), Claimed(data)))
    {
      assert key in keys;
      var j :| 0 <= j < |keys| && keys[j] == key;
      if OwnSlot(key, levels[key.bucket]) {
        AsksForKeys(keys, levels, internal, slots, FromMap(commitments), Claimed(data), j);
        LeafIsRequired(keys, levels, internal, slots, j);
      }
    }
    if KeysInCapacity(keys, levels) {
      forall n | n in commitments && n != 0
        ensures AskedAsChild(n, commitments.Keys, FromMap(commitments), ProofQueryList(internal, slots, FromMap(commitments), Claimed(data)))
      {
        AsksForNodes(keys, levels, internal, slots, FromMap(commitments), Claimed(data), n);
      }
    }
  }

  lemma LeafIsRequired(keys: seq<SaltKey>, levels: Levels, internal: Points, slots: Points, j: nat)
    requires LevelsKnown(keys, levels) && ShapeOf(keys, levels, internal, slots) && j < |keys|
    ensures LeafNode(keys[j], levels[keys[j].bucket]) in RequiredNodes(internal, slots)
  {
    LeafIsPlain(keys[j], levels[keys[j].bucket]);
    hide LeafNode, KeyEdges, ConnectParent;
    var e := (LeafNode(keys[j], levels[keys[j].bucket]), keys[j].slot % MIN_BUCKET_SIZE);
    assert SlotEdgeOf(keys, levels, |keys|, e);
    assert HasEdge(slots, e);
  }

  function BucketsOf(data: Data): set<BucketId> {
    set k | k in data :: k.bucket
  }

  lemma ListedLevels(keys: seq<SaltKey>, levels: Levels, data: Data)
    requires (forall k :: k in keys <==> k in data) && levels.Keys == BucketsOf(data) && LevelsInRange(levels)
    requires forall key :: key in data ==> ValidKey(key)
    ensures LevelsKnown(keys, levels)
  {
    forall j | 0 <= j < |keys|
      ensures ValidKey(keys[j]) && keys[j].bucket in levels
    {
      assert keys[j] in data;
      assert keys[j].bucket in BucketsOf(data);
    }
  }

  /** Whatever the levels of a proof, its nodes have a logical parent or hold slots. */
  lemma ShapeNodesOk(keys: seq<SaltKey>, levels: Levels, internal: Points, slots: Points)
    requires LevelsKnown(keys, levels) && ShapeOf(keys, levels, internal, slots)
    ensures NodesOk(internal, slots)
  {
    hide KeyEdges, LeafNode, BridgeOk, IsLeaf;
    forall n | n in internal
      ensures BridgeOk(n)
    {
      var i :| i in internal[n];
      assert HasEdge(internal, (n, i));
      var j :| 0 <= j < |keys| && (n, i) in KeyEdges(keys[j], levels[keys[j].bucket]);
      EdgeBridgeOk(keys[j], levels[keys[j].bucket], (n, i));
    }
    forall n | n in slots
      ensures IsLeaf(n)
    {
      var i :| i in slots[n];
      assert HasEdge(slots, (n, i));
      var j :| 0 <= j < |keys| && (n, i) == (LeafNode(keys[j], levels[keys[j].bucket]), keys[j].slot % MIN_BUCKET_SIZE);
      LeafHoldsSlots(keys[j], levels[keys[j].bucket]);
    }
  }

  /** Data that answer every query hold every place that is asked about. */
  lemma CompleteListsPlaces(keys: seq<SaltKey>, levels: Levels, internal: Points, slots: Points, commitments: Trie, data: Data)
    requires LevelsKnown(keys, levels) && ShapeOf(keys, levels, internal, slots) && (forall k :: k in keys <==> k in data)
    requires NodesOk(internal, slots) && Complete(internal, slots, commitments, data)
    ensures PlacesListed(keys, levels)
  {
    hide LeafNode, IsLeaf, LeafKey, KeyEdges, BridgeOk, NodeComplete, ConnectParent;
    forall j | 0 <= j < |keys|
      ensures IsLeaf(LeafNode(keys[j], levels[keys[j].bucket]))
      ensures LeafKey(LeafNode(keys[j], levels[keys[j].bucket]), keys[j].slot % MIN_BUCKET_SIZE) in keys
    {
      var e := (LeafNode(keys[j], levels[keys[j].bucket]), keys[j].slot % MIN_BUCKET_SIZE);
      assert SlotEdgeOf(keys, levels, |keys|, e);
      assert HasEdge(slots, e);
      assert LeafComplete(e.0, slots[e.0], commitments, data);
    }
  }

  lemma LeafHoldsSlots(key: SaltKey, level: nat)
    requires ValidKey(key)
    ensures IsLeaf(LeafNode(key, level))
  {
    StartingNodeIds();
    SubtreeLeafPlace(key);
    NodeParts(key.bucket, 4, key.slot / MIN_BUCKET_SIZE);
    hide Leftmost, Width, OnLevel;
  }

  // ---------------------------------------------------------------- both together

  /**
   For every set of keys within the capacities of their buckets, and every store whose missing
   commitments stand for the defaults, the verifier who is given the proof's commitments and
   levels and the data of the store builds the prover's list, query by query.
   */
  method ProverAndVerifierAgree(state: StateStore, trie: Trie, keys: seq<SaltKey>, data: Data)
    returns (proved: Result<(seq<ProverQuery>, Trie, Levels), ProofError>, checked: Result<seq<VerifierQuery>, ProofError>)
    requires TruthOk(state.kvs) && Agrees(Full(state), state.kvs)
    requires (forall k :: k in keys <==> k in data) && Reads(data, state.kvs)
    ensures proved.Success? <==> keys != [] && forall j :: 0 <= j < |keys| ==> keys[j].slot < CapacityOf(state.kvs, keys[j].bucket)
    ensures proved.Success? ==> checked.Success? && checked.value == ToVerifiers(proved.value.0)
  {
    hide TruthOk, Agrees, Reads, InCapacity, EdgeOf, SlotEdgeOf, ProofQueryList, PointsOk, NoneEmpty, HasEdge, Carries, CapacityOf;
    ghost var internal, slots;
    proved, internal, slots := CreateSubTrie(state, trie, keys);
    checked := Failure(StateReadError);
    if proved.Success? {
      var commitments, levels := proved.value.1, proved.value.2;
      ProverKeysServe(keys, levels, data);
      CarriesRequired(commitments, trie, internal, slots);
      ShapeIsOk(keys, levels, internal, slots);
      KeysIn(keys, data);
      ShapeIsComplete(keys, levels, internal, slots, commitments, data);
      ghost var keys1, internal1, slots1;
      checked, keys1, internal1, slots1 := CreateVerifierQueries(commitments, levels, data);
      ShapeUnique(keys, keys1, levels, internal, slots, internal1, slots1);
      ListsAgree(internal, slots, trie, state.kvs, commitments, data);
    }
  }

  lemma KeysIn(keys: seq<SaltKey>, data: Data)
    requires forall k :: k in keys <==> k in data
    ensures forall j :: 0 <= j < |keys| ==> keys[j] in data
  {
  }

  lemma CarriesRequired(commitments: Trie, trie: Trie, internal: Points, slots: Points)
    requires Carries(commitments, trie, internal, slots)
    ensures commitments.Keys == RequiredNodes(internal, slots)
  {
  }

  lemma ProverKeysServe(keys: seq<SaltKey>, levels: Levels, data: Data)
    requires KeysOk(keys, levels) && keys != [] && (forall k :: k in keys <==> k in data)
    requires forall b :: b in levels <==> exists j :: 0 <= j < |keys| && keys[j].bucket == b
    ensures LevelsMatch(levels, data) && LevelsInRange(levels) && forall key :: key in data ==> ValidKey(key)
  {
    hide InCapacity;
    assert keys[0] in data;
    forall b
      ensures b in levels <==> b in BucketsOf(data)
    {
      if b in levels {
        var j :| 0 <= j < |keys| && keys[j].bucket == b;
        assert keys[j] in data;
      }
      if b in BucketsOf(data) {
        var k :| k in data && k.bucket == b;
        assert k in keys;
      }
    }
    forall key | key in data
      ensures ValidKey(key)
    {
      assert key in keys;
    }
  }
}
