/**
 The shape of a proof: the parent-child edges from every key to the root, with a bridge where
 a bucket's subtree hangs under its place in the main trie.
 */
module ProofShape {
  import opened Bits
  import opened NodeUtils
  import opened SaltTypes

  // ---------------------------------------------------------------- bridge nodes

  /** The place of a bucket in the main trie, marked in bits 33 to 35 with the number of levels of its subtree. */
  function EncodeParent(parent: NodeId, level: nat): NodeId {
    Or(parent, level * Pow2(33))
  }

  predicate IsEncoded(node: NodeId) {
    Low(Shr(node, 33), 3) != 0
  }

  function ConnectParent(node: NodeId): NodeId {
    if IsEncoded(node) then Low(node, 33) else node
  }

  /** A bridge node that `EncodeParent` can make. */
  predicate BridgeOk(node: NodeId) {
    IsEncoded(node) ==> Low(Shr(node, 33), 8) <= MAX_SUBTREE_LEVELS && Low(node, 33) >= Leftmost(3)
  }

  function LogicParent(node: NodeId): NodeId
    requires BridgeOk(node)
  {
    if IsEncoded(node) then
      var connectParent, levels := Low(node, 33), Low(Shr(node, 33), 8);
      Or(Leftmost(MAX_SUBTREE_LEVELS - levels), (connectParent - Leftmost(3)) * Pow2(40))
    else
      node
  }

  lemma Powers()
    ensures Pow2(3) == 8 && Pow2(8) == 256 && Pow2(33) == 0x2_0000_0000 && Pow2(40) == BUCKET_SPAN
  {
    assert Pow2(1) == 2 && Pow2(3) == 8 && Pow2(8) == 256;
    hide Pow2;
    Pow2Add(8, 8);
    Pow2Add(16, 16);
    Pow2Add(32, 1);
    Pow2Add(32, 8);
  }

  /** The two fields of a bridge node. */
  lemma BridgeFields(root: nat, level: nat)
    requires root < Pow2(33) && level < Pow2(3)
    ensures var e := EncodeParent(root, level);
            Low(e, 33) == root && Low(Shr(e, 33), 3) == level && Low(Shr(e, 33), 8) == level
  {
    Powers();
    hide Pow2, Or, Low, Shr;
    OrAbove(root, level, 33);
    LowShift(root, level, 33);
    LowBound(root, 33);
    LowBound(level, 3);
    LowBound(level, 8);
  }

  /** The bridge of a bucket keeps both the place in the main trie and the root of the subtree. */
  lemma BridgeRoundTrip(bucket: nat, level: nat)
    requires bucket < NUM_BUCKETS && 1 <= level <= MAX_SUBTREE_LEVELS
    ensures var e := EncodeParent(BucketRoot(bucket), level);
            BridgeOk(e) && IsEncoded(e) && ConnectParent(e) == BucketRoot(bucket) && LogicParent(e) == Node(bucket, MAX_SUBTREE_LEVELS - level, 0)
  {
    StartingNodeIds();
    Powers();
    LeftmostIncreases(MAX_SUBTREE_LEVELS - level, 4);
    hide Pow2, Or, Leftmost, Low, Shr, EncodeParent;
    BridgeFields(BucketRoot(bucket), level);
    OrAbove(Leftmost(MAX_SUBTREE_LEVELS - level), bucket, 40);
  }

  /** No node of either tier is taken for a bridge. */
  lemma NodesAreNotEncoded(bucket: nat, level: nat, p: nat)
    requires bucket < NUM_BUCKETS && OnLevel(level, p)
    ensures var node := Node(bucket, level, p);
            !IsEncoded(node) && BridgeOk(node) && ConnectParent(node) == node && LogicParent(node) == node
  {
    NodeParts(bucket, level, p);
    StartingNodeIds();
    Powers();
    var local := Leftmost(level) + p;
    hide Pow2, Leftmost, Low, Shr;
    assert Node(bucket, level, p) == local + (bucket * 128) * Pow2(33);
    LowShift(local, bucket * 128, 33);
    LowBound(local, 33);
    assert bucket * 128 == 0 + (bucket * 16) * Pow2(3);
    LowShift(0, bucket * 16, 3);
    LowBound(0, 3);
  }

  // ---------------------------------------------------------------- the edges of a key

  /** A node and the position of one of its children. */
  type Edge = (NodeId, nat)

  function EdgeUp(node: NodeId): Edge
    requires 0 < Local(node) < Leftmost(MAX_SUBTREE_LEVELS)
  {
    (ParentNode(node), VcPosition(node))
  }

  /** The position `k` levels up. */
  function Up(p: nat, k: nat): nat {
    p / Width(k)
  }

  lemma UpPlace(p: nat, top: nat, k: nat)
    requires k <= top <= 4 && p < Width(top)
    ensures Up(p, k) < Width(top - k) && Up(p, 0) == p
    ensures k < top ==> Up(p, k) / TRIE_WIDTH == Up(p, k + 1)
  {
    StartingNodeIds();
  }

  /** `k` levels up from the leaf of a key. */
  function Above(key: SaltKey, k: nat): NodeId
    requires k <= 4
  {
    Node(key.bucket, 4 - k, Up(key.slot / MIN_BUCKET_SIZE, k))
  }

  lemma AbovePlace(key: SaltKey, k: nat)
    requires ValidKey(key) && k <= 4
    ensures OnLevel(4 - k, Up(key.slot / MIN_BUCKET_SIZE, k)) && Above(key, 0) == SubtreeLeaf(key)
    ensures k < 4 ==> 0 < Local(Above(key, k)) < Leftmost(MAX_SUBTREE_LEVELS)
                      && EdgeUp(Above(key, k)) == (Above(key, k + 1), Up(key.slot / MIN_BUCKET_SIZE, k) % TRIE_WIDTH)
  {
    SubtreeLeafPlace(key);
    var p := key.slot / MIN_BUCKET_SIZE;
    hide Leftmost, Node, ParentNode, VcPosition, Up, Width;
    UpPlace(p, 4, k);
    UpPlace(p, 4, 0);
    if k < 4 {
      ParentPlace(key.bucket, 4 - k, Up(p, k));
    }
  }

  /** The path of a bucket's place in the main trie. */
  function MainNode(bucket: nat, k: nat): NodeId
    requires k <= 3
  {
    Node(0, 3 - k, Up(bucket, k))
  }

  lemma MainPlace(bucket: nat, k: nat)
    requires bucket < NUM_BUCKETS && k <= 3
    ensures OnLevel(3 - k, Up(bucket, k)) && MainNode(bucket, 0) == BucketRoot(bucket)
    ensures k < 3 ==> 0 < Local(MainNode(bucket, k)) < Leftmost(MAX_SUBTREE_LEVELS)
                      && EdgeUp(MainNode(bucket, k)) == (MainNode(bucket, k + 1), Up(bucket, k) % TRIE_WIDTH)
  {
    BucketRootPlace(bucket);
    hide Leftmost, Node, ParentNode, VcPosition, Up, Width;
    UpPlace(bucket, 3, k);
    UpPlace(bucket, 3, 0);
    if k < 3 {
      ParentPlace(0, 3 - k, Up(bucket, k));
    }
  }

  lemma MainPathEnds(bucket: nat, k: nat)
    requires bucket < NUM_BUCKETS && k <= 3
    ensures MainNode(bucket, k) == 0 <==> k == 3
  {
    StartingNodeIds();
  }

  /** The three edges in the main trie. */
  ghost function MainEdges(bucket: nat, n: nat): set<Edge>
    requires bucket < NUM_BUCKETS && n <= 3
  {
    if n == 0 then {}
    else
      MainPlace(bucket, n - 1);
      MainEdges(bucket, n - 1) + {EdgeUp(MainNode(bucket, n - 1))}
  }

  /** The first `n` edges in the subtree. */
  ghost function SubtreeEdges(key: SaltKey, n: nat): set<Edge>
    requires ValidKey(key) && n <= 4
  {
    if n == 0 then {}
    else
      AbovePlace(key, n - 1);
      SubtreeEdges(key, n - 1) + {EdgeUp(Above(key, n - 1))}
  }

  /** The edge across the bridge, from the mark to the topmost node below the root of the subtree. */
  ghost function Bridge(key: SaltKey, level: nat): Edge
    requires ValidKey(key) && 2 <= level <= MAX_SUBTREE_LEVELS
  {
    AbovePlace(key, level - 2);
    (EncodeParent(BucketRoot(key.bucket), level), VcPosition(Above(key, level - 2)))
  }

  /** All edges between nodes that a key needs, when its bucket's subtree has `level` levels. */
  ghost function KeyEdges(key: SaltKey, level: nat): set<Edge>
    requires ValidKey(key) && level <= MAX_SUBTREE_LEVELS
  {
    MainEdges(key.bucket, 3) + if level < 2 then {} else SubtreeEdges(key, level - 2) + {Bridge(key, level)}
  }

  /** The node whose slots include the key's. */
  function LeafNode(key: SaltKey, level: nat): NodeId {
    if level == 1 then BucketRoot(key.bucket) else SubtreeLeaf(key)
  }

  // ---------------------------------------------------------------- closure

  /** The slot lies within the capacity that `level` levels give. */
  predicate InCapacity(key: SaltKey, level: nat) {
    ValidKey(key) && 1 <= level <= MAX_SUBTREE_LEVELS && key.slot < Width(level)
  }

  /** The nodes whose commitments a key needs: the parents of its edges, bridges at their place in the main trie, and its leaf. */
  ghost predicate Needed(key: SaltKey, level: nat, node: NodeId)
    requires ValidKey(key) && 1 <= level <= MAX_SUBTREE_LEVELS
  {
    node == LeafNode(key, level) || exists e :: e in KeyEdges(key, level) && node == ConnectParent(e.0)
  }

  /** Climbing from the leaf ends at the leftmost node of the level where the subtree starts, and that is what the bridge stands for. */
  lemma ClimbReachesRoot(key: SaltKey, level: nat)
    requires InCapacity(key, level)
    ensures Above(key, level - 1) == Node(key.bucket, MAX_SUBTREE_LEVELS - level, 0)
    ensures BridgeOk(EncodeParent(BucketRoot(key.bucket), level))
    ensures Above(key, level - 1) == LogicParent(EncodeParent(BucketRoot(key.bucket), level))
  {
    BridgeRoundTrip(key.bucket, level);
    TopPosition(key.slot, level);
    hide Leftmost, LogicParent, EncodeParent, BridgeOk, Width, Up;
  }

  lemma TopPosition(slot: nat, level: nat)
    requires 1 <= level <= 5 && slot < Width(level)
    ensures Up(slot / MIN_BUCKET_SIZE, level - 1) == 0
  {
    StartingNodeIds();
    assert Width(5) == 256 * Width(4);
  }

  /** The child that an edge names. */
  function EdgeChild(e: Edge): NodeId
    requires BridgeOk(e.0)
  {
    ChildNode(LogicParent(e.0), e.1)
  }

  lemma {:induction false} MainEdgeIn(bucket: nat, n: nat, k: nat)
    requires bucket < NUM_BUCKETS && k < n <= 3
    ensures 0 < Local(MainNode(bucket, k)) < Leftmost(MAX_SUBTREE_LEVELS) && EdgeUp(MainNode(bucket, k)) in MainEdges(bucket, n)
  {
    MainPlace(bucket, k);
    hide EdgeUp, MainNode, Leftmost;
    if k < n - 1 {
      MainEdgeIn(bucket, n - 1, k);
    }
  }

  lemma {:induction false} SubtreeEdgeIn(key: SaltKey, n: nat, k: nat)
    requires ValidKey(key) && k < n <= 4
    ensures 0 < Local(Above(key, k)) < Leftmost(MAX_SUBTREE_LEVELS) && EdgeUp(Above(key, k)) in SubtreeEdges(key, n)
  {
    AbovePlace(key, k);
    hide EdgeUp, Above, Leftmost;
    if k < n - 1 {
      SubtreeEdgeIn(key, n - 1, k);
    }
  }

  lemma {:induction false} OfMainEdges(bucket: nat, n: nat, e: Edge)
    requires bucket < NUM_BUCKETS && n <= 3 && e in MainEdges(bucket, n)
    ensures exists k :: 0 <= k < n && 0 < Local(MainNode(bucket, k)) < Leftmost(MAX_SUBTREE_LEVELS) && e == EdgeUp(MainNode(bucket, k))
  {
    MainPlace(bucket, n - 1);
    hide EdgeUp, MainNode, Leftmost;
    if e != EdgeUp(MainNode(bucket, n - 1)) {
      OfMainEdges(bucket, n - 1, e);
    }
  }

  lemma {:induction false} OfSubtreeEdges(key: SaltKey, n: nat, e: Edge)
    requires ValidKey(key) && n <= 4 && e in SubtreeEdges(key, n)
    ensures exists k :: 0 <= k < n && 0 < Local(Above(key, k)) < Leftmost(MAX_SUBTREE_LEVELS) && e == EdgeUp(Above(key, k))
  {
    AbovePlace(key, n - 1);
    hide EdgeUp, Above, Leftmost;
    if e != EdgeUp(Above(key, n - 1)) {
      OfSubtreeEdges(key, n - 1, e);
    }
  }

  /** An edge of the main trie names the node it came up from. */
  lemma MainChild(bucket: nat, k: nat)
    requires bucket < NUM_BUCKETS && k < 3
    ensures 0 < Local(MainNode(bucket, k)) < Leftmost(MAX_SUBTREE_LEVELS)
    ensures var e := EdgeUp(MainNode(bucket, k));
            BridgeOk(e.0) && ConnectParent(e.0) == e.0 == MainNode(bucket, k + 1) && EdgeChild(e) == MainNode(bucket, k)
  {
    hide Leftmost, Width, Up, ParentNode, VcPosition, ChildNode, LogicParent, BridgeOk, ConnectParent, OnLevel, Node;
    MainPlace(bucket, k);
    MainPlace(bucket, k + 1);
    DownUndoesUp(0, 3 - k, Up(bucket, k));
    NodesAreNotEncoded(0, 3 - (k + 1), Up(bucket, k + 1));
  }

  lemma SubtreeChild(key: SaltKey, k: nat)
    requires ValidKey(key) && k < 4
    ensures 0 < Local(Above(key, k)) < Leftmost(MAX_SUBTREE_LEVELS)
    ensures var e := EdgeUp(Above(key, k));
            BridgeOk(e.0) && ConnectParent(e.0) == e.0 == Above(key, k + 1) && EdgeChild(e) == Above(key, k)
  {
    hide Leftmost, Width, Up, ParentNode, VcPosition, ChildNode, LogicParent, BridgeOk, ConnectParent, OnLevel, Node;
    AbovePlace(key, k);
    AbovePlace(key, k + 1);
    DownUndoesUp(key.bucket, 4 - k, Up(key.slot / MIN_BUCKET_SIZE, k));
    NodesAreNotEncoded(key.bucket, 4 - (k + 1), Up(key.slot / MIN_BUCKET_SIZE, k + 1));
  }

  /** The bridge names the topmost node below the root of the subtree. */
  lemma BridgeChild(key: SaltKey, level: nat)
    requires InCapacity(key, level) && 2 <= level
    ensures var e := Bridge(key, level);
            BridgeOk(e.0) && ConnectParent(e.0) == BucketRoot(key.bucket) && EdgeChild(e) == Above(key, level - 2)
  {
    ClimbReachesRoot(key, level);
    BridgeRoundTrip(key.bucket, level);
    SubtreeChild(key, level - 2);
    NodesAreNotEncoded(key.bucket, 5 - level, 0);
    AbovePlace(key, level - 1);
    hide Leftmost, Width, ParentNode, VcPosition, ChildNode, LogicParent, BridgeOk, ConnectParent, OnLevel, EncodeParent, Above;
  }

  /** Every node on the subtree path, up to the one below the root, is needed. */
  lemma SubtreeNodeNeeded(key: SaltKey, level: nat, k: nat)
    requires InCapacity(key, level) && 2 <= level && k <= level - 2
    ensures Needed(key, level, Above(key, k))
  {
    hide Leftmost, EdgeUp, Above, ConnectParent, Width, MainEdges, Bridge, SubtreeEdges, Local, BridgeOk, EdgeChild;
    if k == 0 {
      AbovePlace(key, 0);
    } else {
      SubtreeChild(key, k - 1);
      SubtreeEdgeIn(key, level - 2, k - 1);
      ParentNeeded(key, level, EdgeUp(Above(key, k - 1)));
    }
  }

  lemma ParentNeeded(key: SaltKey, level: nat, e: Edge)
    requires InCapacity(key, level) && (e in KeyEdges(key, level) || (level > 1 && e in SubtreeEdges(key, level - 2)))
    ensures Needed(key, level, ConnectParent(e.0))
  {
    hide ConnectParent, MainEdges, Bridge, SubtreeEdges;
    assert e in KeyEdges(key, level);
  }

  lemma MainNodeNeeded(key: SaltKey, level: nat, k: nat)
    requires InCapacity(key, level) && k <= 3
    ensures Needed(key, level, MainNode(key.bucket, k))
  {
    MainPlace(key.bucket, k);
    hide Leftmost, EdgeUp, MainNode, ConnectParent;
    if k > 0 {
      MainChild(key.bucket, k - 1);
      MainEdgeIn(key.bucket, 3, k - 1);
      assert EdgeUp(MainNode(key.bucket, k - 1)) in KeyEdges(key, level);
    } else if level > 1 {
      BridgeChild(key, level);
      assert Bridge(key, level) in KeyEdges(key, level);
    }
  }

  /** Every child that an edge of a key names is itself one of the key's needed nodes. */
  lemma PathIsClosed(key: SaltKey, level: nat, e: Edge)
    requires InCapacity(key, level) && e in KeyEdges(key, level)
    ensures BridgeOk(e.0) && Needed(key, level, EdgeChild(e))
  {
    hide Leftmost, EdgeUp, MainNode, Above, ConnectParent, EdgeChild, BridgeOk, Needed, MainEdges, SubtreeEdges, Bridge, Width;
    if e in MainEdges(key.bucket, 3) {
      OfMainEdges(key.bucket, 3, e);
      var k :| 0 <= k < 3 && 0 < Local(MainNode(key.bucket, k)) < Leftmost(MAX_SUBTREE_LEVELS) && e == EdgeUp(MainNode(key.bucket, k));
      MainChild(key.bucket, k);
      MainNodeNeeded(key, level, k);
    } else if e == Bridge(key, level) {
      BridgeChild(key, level);
      SubtreeNodeNeeded(key, level, level - 2);
    } else {
      OfSubtreeEdges(key, level - 2, e);
      var k :| 0 <= k < level - 2 && 0 < Local(Above(key, k)) < Leftmost(MAX_SUBTREE_LEVELS) && e == EdgeUp(Above(key, k));
      SubtreeChild(key, k);
      SubtreeNodeNeeded(key, level, k);
    }
  }

  /** Some edge of the key names this node as a child. */
  ghost predicate Named(key: SaltKey, level: nat, node: NodeId)
    requires ValidKey(key) && level <= MAX_SUBTREE_LEVELS
  {
    exists e :: e in KeyEdges(key, level) && BridgeOk(e.0) && EdgeChild(e) == node
  }

  lemma EdgeNames(key: SaltKey, level: nat, e: Edge)
    requires ValidKey(key) && level <= MAX_SUBTREE_LEVELS && e in KeyEdges(key, level) && BridgeOk(e.0)
    ensures Named(key, level, EdgeChild(e))
  {
    hide KeyEdges, BridgeOk, EdgeChild;
  }

  lemma MainNodeNamed(key: SaltKey, level: nat, k: nat)
    requires InCapacity(key, level) && k < 3
    ensures Named(key, level, MainNode(key.bucket, k))
  {
    hide EdgeUp, MainNode, Leftmost, Width, MainEdges, SubtreeEdges, Bridge, BridgeOk, EdgeChild, ConnectParent, Named;
    MainChild(key.bucket, k);
    MainEdgeIn(key.bucket, 3, k);
    EdgeNames(key, level, EdgeUp(MainNode(key.bucket, k)));
  }

  lemma SubtreeNodeNamed(key: SaltKey, level: nat, k: nat)
    requires InCapacity(key, level) && 2 <= level && k <= level - 2
    ensures Named(key, level, Above(key, k))
  {
    hide EdgeUp, Above, Leftmost, Width, MainEdges, SubtreeEdges, Bridge, BridgeOk, EdgeChild, ConnectParent, Named;
    if k == level - 2 {
      BridgeChild(key, level);
      EdgeNames(key, level, Bridge(key, level));
    } else {
      SubtreeChild(key, k);
      SubtreeEdgeIn(key, level - 2, k);
      EdgeNames(key, level, EdgeUp(Above(key, k)));
    }
  }

  /** The nodes of a key hang together: every one but the root is named as a child by an edge of the key. */
  lemma PathIsLinked(key: SaltKey, level: nat, node: NodeId)
    requires InCapacity(key, level) && Needed(key, level, node) && node != 0
    ensures Named(key, level, node)
  {
    hide Leftmost, EdgeUp, MainNode, Above, ConnectParent, EdgeChild, BridgeOk, Named, MainEdges, SubtreeEdges, Bridge, Width, Up;
    MainPlace(key.bucket, 0);
    AbovePlace(key, 0);
    if node == LeafNode(key, level) {
      if level == 1 {
        MainNodeNamed(key, level, 0);
      } else {
        SubtreeNodeNamed(key, level, 0);
      }
    } else {
      var e :| e in KeyEdges(key, level) && node == ConnectParent(e.0);
      ParentIsNamed(key, level, e);
    }
  }

  lemma ParentIsNamed(key: SaltKey, level: nat, e: Edge)
    requires InCapacity(key, level) && e in KeyEdges(key, level) && ConnectParent(e.0) != 0
    ensures Named(key, level, ConnectParent(e.0))
  {
    hide Leftmost, EdgeUp, MainNode, Above, ConnectParent, EdgeChild, BridgeOk, Named, MainEdges, SubtreeEdges, Bridge, Width, Up;
    MainPlace(key.bucket, 0);
    if e in MainEdges(key.bucket, 3) {
      OfMainEdges(key.bucket, 3, e);
      var k :| 0 <= k < 3 && 0 < Local(MainNode(key.bucket, k)) < Leftmost(MAX_SUBTREE_LEVELS) && e == EdgeUp(MainNode(key.bucket, k));
      MainChild(key.bucket, k);
      MainPathEnds(key.bucket, k + 1);
      MainNodeNamed(key, level, k + 1);
    } else if e == Bridge(key, level) {
      BridgeChild(key, level);
      MainNodeNamed(key, level, 0);
    } else {
      OfSubtreeEdges(key, level - 2, e);
      var k :| 0 <= k < level - 2 && 0 < Local(Above(key, k)) < Leftmost(MAX_SUBTREE_LEVELS) && e == EdgeUp(Above(key, k));
      SubtreeChild(key, k);
      SubtreeNodeNamed(key, level, k + 1);
    }
  }

  /** No edge of a key starts from a mark that `EncodeParent` cannot make, whether or not the key fits its bucket's levels. */
  lemma EdgeBridgeOk(key: SaltKey, level: nat, e: Edge)
    requires ValidKey(key) && level <= MAX_SUBTREE_LEVELS && e in KeyEdges(key, level)
    ensures BridgeOk(e.0)
  {
    hide Leftmost, EdgeUp, MainNode, Above, BridgeOk, MainEdges, SubtreeEdges, Bridge, Width;
    if e in MainEdges(key.bucket, 3) {
      OfMainEdges(key.bucket, 3, e);
      var k :| 0 <= k < 3 && 0 < Local(MainNode(key.bucket, k)) < Leftmost(MAX_SUBTREE_LEVELS) && e == EdgeUp(MainNode(key.bucket, k));
      MainParentPlain(key.bucket, k);
    } else if e == Bridge(key, level) {
      BridgeIs(key, level);
      BridgeRoundTrip(key.bucket, level);
    } else {
      OfSubtreeEdges(key, level - 2, e);
      var k :| 0 <= k < level - 2 && 0 < Local(Above(key, k)) < Leftmost(MAX_SUBTREE_LEVELS) && e == EdgeUp(Above(key, k));
      SubtreeParentPlain(key, k);
    }
  }

  lemma MainParentPlain(bucket: nat, k: nat)
    requires bucket < NUM_BUCKETS && k < 3
    ensures 0 < Local(MainNode(bucket, k)) < Leftmost(MAX_SUBTREE_LEVELS) && BridgeOk(EdgeUp(MainNode(bucket, k)).0)
  {
    MainPlace(bucket, k);
    MainPlace(bucket, k + 1);
    NodesAreNotEncoded(0, 3 - (k + 1), Up(bucket, k + 1));
  }

  lemma SubtreeParentPlain(key: SaltKey, k: nat)
    requires ValidKey(key) && k < 4
    ensures 0 < Local(Above(key, k)) < Leftmost(MAX_SUBTREE_LEVELS) && BridgeOk(EdgeUp(Above(key, k)).0)
  {
    AbovePlace(key, k);
    AbovePlace(key, k + 1);
    NodesAreNotEncoded(key.bucket, 4 - (k + 1), Up(key.slot / MIN_BUCKET_SIZE, k + 1));
  }

  // ---------------------------------------------------------------- collecting the edges

  /** For every parent, the positions of the children to prove. */
  type Points = map<NodeId, set<nat>>

  predicate HasEdge(m: Points, e: Edge) {
    e.0 in m && e.1 in m[e.0]
  }

  /** No parent is listed without a child. */
  predicate NoneEmpty(m: Points) {
    forall n :: n in m ==> m[n] != {}
  }

  function Insert(m: Points, e: Edge): (r: Points)
    ensures forall f :: HasEdge(r, f) <==> HasEdge(m, f) || f == e
    ensures NoneEmpty(m) ==> NoneEmpty(r)
  {
    m[e.0 := (if e.0 in m then m[e.0] else {}) + {e.1}]
  }

  function Merged(a: Points, b: Points): (r: Points)
    ensures forall e :: HasEdge(r, e) <==> HasEdge(a, e) || HasEdge(b, e)
    ensures NoneEmpty(a) && NoneEmpty(b) ==> NoneEmpty(r)
  {
    map n | n in a.Keys + b.Keys :: (if n in a then a[n] else {}) + (if n in b then b[n] else {})
  }

  /** The edges and the slot position of one key. */
  method PathOfKey(key: SaltKey, level: nat) returns (internal: Points, slots: Points)
    requires ValidKey(key) && level <= MAX_SUBTREE_LEVELS
    ensures NoneEmpty(internal) && forall e :: HasEdge(internal, e) <==> e in KeyEdges(key, level)
    ensures slots == map[LeafNode(key, level) := {key.slot % MIN_BUCKET_SIZE}]
  {
    hide Leftmost, Local, EdgeUp, MainNode, Above, EncodeParent, Width, HasEdge, Insert, NoneEmpty, BucketRoot, SubtreeLeaf;
    internal := map[];
    NoEdges();
    var node := BucketRoot(key.bucket);
    MainPlace(key.bucket, 0);
    MainPathEnds(key.bucket, 0);
    ghost var k := 0;
    while node != 0
      invariant k <= 3 && node == MainNode(key.bucket, k) && (node == 0 <==> k == 3) && NoneEmpty(internal)
      invariant forall e :: HasEdge(internal, e) <==> e in MainEdges(key.bucket, k)
      decreases 3 - k
    {
      MainPlace(key.bucket, k);
      MainPathEnds(key.bucket, k + 1);
      internal := Insert(internal, EdgeUp(node));
      node := EdgeUp(node).0;
      k := k + 1;
    }
    node := SubtreeLeaf(key);
    AbovePlace(key, 0);
    var count := level;
    k := 0;
    while count > 2
      invariant k <= 3 && count + k == level && node == Above(key, k) && NoneEmpty(internal) && (if level > 1 then count >= 2 else k == 0)
      invariant forall e :: HasEdge(internal, e) <==> e in MainEdges(key.bucket, 3) + SubtreeEdges(key, k)
    {
      AbovePlace(key, k);
      internal := Insert(internal, EdgeUp(node));
      node := EdgeUp(node).0;
      k := k + 1;
      count := count - 1;
    }
    if count == 2 {
      AbovePlace(key, k);
      internal := Insert(internal, (EncodeParent(BucketRoot(key.bucket), level), EdgeUp(node).1));
      BridgeIs(key, level);
    }
    slots := map[LeafNode(key, level) := {key.slot % MIN_BUCKET_SIZE}];
  }

  lemma NoEdges()
    ensures NoneEmpty(map[]) && forall e :: !HasEdge(map[], e)
  {
  }

  lemma BridgeIs(key: SaltKey, level: nat)
    requires ValidKey(key) && 2 <= level <= MAX_SUBTREE_LEVELS
    ensures 0 < Local(Above(key, level - 2)) < Leftmost(MAX_SUBTREE_LEVELS)
    ensures Bridge(key, level) == (EncodeParent(BucketRoot(key.bucket), level), EdgeUp(Above(key, level - 2)).1)
  {
    AbovePlace(key, level - 2);
  }

  predicate LevelsKnown(keys: seq<SaltKey>, levels: map<BucketId, nat>) {
    forall j :: 0 <= j < |keys| ==> ValidKey(keys[j]) && keys[j].bucket in levels && levels[keys[j].bucket] <= MAX_SUBTREE_LEVELS
  }

  ghost predicate EdgeOf(keys: seq<SaltKey>, levels: map<BucketId, nat>, m: nat, e: Edge)
    requires LevelsKnown(keys, levels) && m <= |keys|
  {
    exists j :: 0 <= j < m && e in KeyEdges(keys[j], levels[keys[j].bucket])
  }

  ghost predicate SlotEdgeOf(keys: seq<SaltKey>, levels: map<BucketId, nat>, m: nat, e: Edge)
    requires LevelsKnown(keys, levels) && m <= |keys|
  {
    exists j :: 0 <= j < m && e == (LeafNode(keys[j], levels[keys[j].bucket]), keys[j].slot % MIN_BUCKET_SIZE)
  }

  /** `parents_and_points`: the union over all keys. */
  method ParentsAndPoints(keys: seq<SaltKey>, levels: map<BucketId, nat>) returns (internal: Points, slots: Points)
    requires LevelsKnown(keys, levels)
    ensures NoneEmpty(internal) && forall e :: HasEdge(internal, e) <==> EdgeOf(keys, levels, |keys|, e)
    ensures NoneEmpty(slots) && forall e :: HasEdge(slots, e) <==> SlotEdgeOf(keys, levels, |keys|, e)
  {
    hide KeyEdges, LeafNode, Merged;
    internal, slots := map[], map[];
    for m := 0 to |keys|
      invariant NoneEmpty(internal) && forall e :: HasEdge(internal, e) <==> EdgeOf(keys, levels, m, e)
      invariant NoneEmpty(slots) && forall e :: HasEdge(slots, e) <==> SlotEdgeOf(keys, levels, m, e)
    {
      var internal1, slots1 := PathOfKey(keys[m], levels[keys[m].bucket]);
      internal := Merged(internal, internal1);
      slots := Merged(slots, slots1);
    }
  }

  // ---------------------------------------------------------------- the proof's nodes

  /** The nodes whose commitments the proof carries. */
  ghost function RequiredNodes(internal: Points, slots: Points): set<NodeId> {
    set n | n in internal.Keys + slots.Keys :: ConnectParent(n)
  }

  ghost predicate KeysInCapacity(keys: seq<SaltKey>, levels: map<BucketId, nat>)
    requires LevelsKnown(keys, levels)
  {
    forall j :: 0 <= j < |keys| ==> InCapacity(keys[j], levels[keys[j].bucket])
  }

  /**
   For every set of keys within the capacities of their buckets, every child that a query names
   is itself one of the proof's nodes.
   */
  lemma ProofIsClosed(keys: seq<SaltKey>, levels: map<BucketId, nat>, internal: Points, slots: Points, e: Edge)
    requires LevelsKnown(keys, levels) && KeysInCapacity(keys, levels) && NoneEmpty(internal) && NoneEmpty(slots)
    requires forall e :: HasEdge(internal, e) <==> EdgeOf(keys, levels, |keys|, e)
    requires forall e :: HasEdge(slots, e) <==> SlotEdgeOf(keys, levels, |keys|, e)
    requires HasEdge(internal, e)
    ensures BridgeOk(e.0) && EdgeChild(e) in RequiredNodes(internal, slots)
  {
    hide KeyEdges, ConnectParent, EdgeChild, BridgeOk, LeafNode, InCapacity;
    var j :| 0 <= j < |keys| && e in KeyEdges(keys[j], levels[keys[j].bucket]);
    var key, level := keys[j], levels[keys[j].bucket];
    PathIsClosed(key, level, e);
    if EdgeChild(e) == LeafNode(key, level) {
      assert HasEdge(slots, (LeafNode(key, level), key.slot % MIN_BUCKET_SIZE));
      LeafIsPlain(key, level);
    } else {
      var f :| f in KeyEdges(key, level) && EdgeChild(e) == ConnectParent(f.0);
      assert HasEdge(internal, f);
    }
  }

  lemma LeafIsPlain(key: SaltKey, level: nat)
    requires ValidKey(key)
    ensures ConnectParent(LeafNode(key, level)) == LeafNode(key, level)
  {
    if level == 1 {
      BucketRootPlace(key.bucket);
      NodesAreNotEncoded(0, 3, key.bucket);
    } else {
      SubtreeLeafPlace(key);
      NodesAreNotEncoded(key.bucket, 4, key.slot / MIN_BUCKET_SIZE);
    }
  }

  /** The number of levels that a capacity asks for gives every slot a place. */
  lemma CapacityGivesLevels(key: SaltKey, capacity: nat)
    requires key.slot < capacity <= BUCKET_SPAN
    ensures 0 <= SubtreeRootLevel(capacity) <= 4 && InCapacity(key, MAX_SUBTREE_LEVELS - SubtreeRootLevel(capacity))
  {
    RootLevelInRange(capacity);
  }
}
