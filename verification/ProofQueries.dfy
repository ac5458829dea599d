/**
 The lists of queries of a proof: the prover reads them off its store, the verifier off the
 proof's commitments and the claimed data, and the two lists are the same.
 */
module ProofQueries {
  import opened Wrappers
  import opened SaltTypes
  import opened SessionView
  import opened Scalars
  import opened Elements
  import opened Lagrange
  import opened MultiProof
  import opened NodeUtils
  import opened ProofShape

  const DOMAIN_SIZE: nat := 256

  /** The map from commitments to scalars, and the hash of a slot's content: arbitrary functions. */
  const ToScalar: Element -> Fr
  const SlotScalar: Option<SaltValue> -> Fr

  // ---------------------------------------------------------------- default commitments

  const MAIN_LEFT_DEFAULT: nat -> Element
  const MAIN_RIGHT_DEFAULT: nat -> Element
  const SUBTREE_DEFAULT: nat -> Element

  /** How many nodes of a level of the main trie have the left default. */
  function LeftCount(level: nat): nat {
    if level <= 1 then 1 else Width(level - 1)
  }

  /** The commitment of a node that nothing was written under. */
  function DefaultCommitment(node: NodeId): Element {
    var level := BfsLevel(Local(node));
    if node >= BUCKET_SPAN then SUBTREE_DEFAULT(level)
    else if node < Leftmost(level) + LeftCount(level) then MAIN_LEFT_DEFAULT(level)
    else MAIN_RIGHT_DEFAULT(level)
  }

  type Trie = map<NodeId, Element>

  ghost function FromTrie(trie: Trie): NodeId -> Element {
    (n: NodeId) => CommitmentAt(trie, n)
  }

  function CommitmentAt(trie: Trie, node: NodeId): Element {
    if node in trie then trie[node] else DefaultCommitment(node)
  }

  /** A node with 256 children: in the main trie above the buckets, in a subtree above the leaves. */
  ghost predicate Branches(node: NodeId) {
    exists b, l, p :: BranchAt(node, b, l, p)
  }

  ghost predicate BranchAt(node: NodeId, b: nat, l: nat, p: nat) {
    OnLevel(l, p) && node == Node(b, l, p) && l + 1 < (if b == 0 then MAIN_TRIE_LEVELS else MAX_SUBTREE_LEVELS)
  }

  /** The children of one node are consecutive. */
  lemma ChildrenInARow(node: NodeId, index: nat)
    ensures ChildNode(node, index) == ChildNode(node, 0) + index
  {
  }

  /** All children but the root's first share one default. */
  lemma SiblingsShareDefault(node: NodeId, index: nat)
    requires Branches(node) && index < DOMAIN_SIZE
    ensures ChildNode(node, 0) == 1 && index > 0 ==> DefaultCommitment(ChildNode(node, index)) == DefaultCommitment(ChildNode(node, 1))
    ensures ChildNode(node, 0) != 1 ==> DefaultCommitment(ChildNode(node, index)) == DefaultCommitment(ChildNode(node, 0))
  {
    var b, l, p :| BranchAt(node, b, l, p);
    ChildDefault(b, l, p, 0);
    ChildDefault(b, l, p, 1);
    ChildDefault(b, l, p, index);
    hide DefaultCommitment, ChildNode, Width, Leftmost, Node, OnLevel;
    RootChild(b, l, p);
  }

  /** Which default a child has. */
  lemma ChildDefault(b: nat, l: nat, p: nat, index: nat)
    requires BranchAt(Node(b, l, p), b, l, p) && index < DOMAIN_SIZE
    ensures DefaultCommitment(ChildNode(Node(b, l, p), index)) ==
      if b > 0 then SUBTREE_DEFAULT(l + 1)
      else if (if l == 0 then index == 0 else p < LeftCount(l + 1) / TRIE_WIDTH) then MAIN_LEFT_DEFAULT(l + 1) else MAIN_RIGHT_DEFAULT(l + 1)
  {
    hide Leftmost, Width, BfsLevel, ChildNode, DefaultCommitment, LeftCount, Node;
    ChildPlace(b, l, p, index);
    PlaceDefault(b, l + 1, p * TRIE_WIDTH + index);
    LeftBlock(l, p, index);
  }

  lemma PlaceDefault(b: nat, l: nat, q: nat)
    requires OnLevel(l, q)
    ensures DefaultCommitment(Node(b, l, q)) == if b > 0 then SUBTREE_DEFAULT(l) else if q < LeftCount(l) then MAIN_LEFT_DEFAULT(l) else MAIN_RIGHT_DEFAULT(l)
  {
    NodeParts(b, l, q);
    hide Leftmost, Width, BfsLevel, LeftCount;
  }

  /** In the main trie, the left default is for the nodes whose first bucket holds metadata. */
  lemma LeftIsMetadata(l: nat, q: nat)
    requires l < MAIN_TRIE_LEVELS && q < Width(l)
    ensures DefaultCommitment(Node(0, l, q)) == if q * Width(MAIN_TRIE_LEVELS - 1 - l) < NUM_META_BUCKETS then MAIN_LEFT_DEFAULT(l) else MAIN_RIGHT_DEFAULT(l)
  {
    StartingNodeIds();
    PlaceDefault(0, l, q);
    hide DefaultCommitment, Node;
    LeftWidths(l, q);
  }

  lemma LeftWidths(l: nat, q: nat)
    requires l < MAIN_TRIE_LEVELS
    ensures q < LeftCount(l) <==> q * Width(MAIN_TRIE_LEVELS - 1 - l) < NUM_META_BUCKETS
  {
    StartingNodeIds();
    assert l == 0 || l == 1 || l == 2 || l == 3;
  }

  /** The nodes with the left default come in whole blocks of siblings, except under the root. */
  lemma LeftBlock(l: nat, p: nat, index: nat)
    requires OnLevel(l, p) && index < DOMAIN_SIZE
    ensures p * TRIE_WIDTH + index < LeftCount(l + 1) <==> if l == 0 then index == 0 else p < LeftCount(l + 1) / TRIE_WIDTH
  {
    StartingNodeIds();
    if l > 0 {
      assert Width(l) == 256 * Width(l - 1);
    }
  }

  lemma RootChild(b: nat, l: nat, p: nat)
    requires BranchAt(Node(b, l, p), b, l, p)
    ensures ChildNode(Node(b, l, p), 0) == 1 <==> b == 0 && l == 0
  {
    hide ChildNode, Leftmost, Width, BfsLevel;
    ChildPlace(b, l, p, 0);
    StartingNodeIds();
    if l > 0 {
      LeftmostIncreases(2, l + 1);
    }
  }

  /** The commitments of a node's 256 children: a default for all, overwritten where the trie has an entry. */
  method ChildCommitments(trie: Trie, node: NodeId) returns (children: array<Element>)
    requires Branches(node)
    ensures fresh(children) && children.Length == DOMAIN_SIZE
    ensures forall i :: 0 <= i < DOMAIN_SIZE ==> children[i] == CommitmentAt(trie, ChildNode(node, i))
  {
    hide Branches, DefaultCommitment, ChildNode, BUCKET_SPAN;
    var first := ChildNode(node, 0);
    forall i: nat | i < DOMAIN_SIZE
      ensures ChildNode(node, i) == first + i
    {
      ChildrenInARow(node, i);
    }
    var defaultIndex := if first == 1 then first + 1 else first;
    children := new Element[DOMAIN_SIZE](_ => DefaultCommitment(defaultIndex));
    if first == 1 {
      children[0] := DefaultCommitment(first);
    }
    forall i: nat | i < DOMAIN_SIZE
      ensures children[i] == DefaultCommitment(first + i)
    {
      SiblingsShareDefault(node, i);
      ChildrenInARow(node, 1);
    }
    for i := 0 to DOMAIN_SIZE
      invariant forall j :: 0 <= j < i ==> children[j] == CommitmentAt(trie, first + j)
      invariant forall j :: i <= j < DOMAIN_SIZE ==> children[j] == DefaultCommitment(first + j)
    {
      if first + i in trie {
        children[i] := trie[first + i];
      }
    }
  }

  // ---------------------------------------------------------------- lists in ascending order

  lemma LeastExists(s: set<nat>)
    requires s != {}
    ensures exists m :: IsLeast(s, m)
  {
    hide IsLeast;
    var x := SomeElement(s);
    LeastBelow(s, x);
  }

  lemma {:induction false} LeastBelow(s: set<nat>, x: nat)
    requires x in s
    ensures exists m :: IsLeast(s, m)
    decreases x
  {
    if y :| y in s && y < x {
      LeastBelow(s, y);
    } else {
      assert IsLeast(s, x);
    }
  }

  predicate IsLeast(s: set<nat>, m: nat) {
    m in s && forall x :: x in s ==> m <= x
  }

  ghost function Ascending(s: set<nat>): (l: seq<nat>)
    ensures forall x :: x in l <==> x in s
  {
    if s == {} then []
    else
      LeastExists(s);
      var m :| IsLeast(s, m);
      [m] + Ascending(s - {m})
  }

  /** The order in which a sorted map or set is walked. */
  method InOrder(s: set<nat>) returns (l: seq<nat>)
    ensures l == Ascending(s)
  {
    l := [];
    var rest := s;
    NothingLeft();
    hide Ascending, IsLeast;
    while rest != {}
      invariant rest <= s && l + Ascending(rest) == Ascending(s)
      decreases |rest|
    {
      LeastExists(rest);
      var m :| IsLeast(rest, m);
      OnlyOneLeast(rest, m);
      Regroup(l, m, Ascending(rest - {m}));
      l := l + [m];
      rest := rest - {m};
    }
  }

  lemma NothingLeft()
    ensures Ascending({}) == []
  {
  }

  lemma Regroup(l: seq<nat>, m: nat, rest: seq<nat>)
    ensures l + ([m] + rest) == l + [m] + rest
  {
  }

  lemma OnlyOneLeast(s: set<nat>, m: nat)
    requires IsLeast(s, m)
    ensures m in s && Ascending(s) == [m] + Ascending(s - {m})
  {
  }

  // ---------------------------------------------------------------- the lists

  /** The queries of one node. */
  ghost function NodeQueries(c: Element, points: seq<nat>, result: nat -> Fr): (qs: seq<VerifierQuery>)
    ensures |qs| == |points|
  {
    seq(|points|, k requires 0 <= k < |points| => VerifierQuery(c, Red(points[k]), result(points[k])))
  }

  /** How the queries of a node follow from the positions to prove. */
  type QueriesOf = (NodeId, set<nat>) -> seq<VerifierQuery>

  /** The queries of several nodes, one after another. */
  ghost function AllQueries(nodes: seq<NodeId>, m: Points, queries: QueriesOf): seq<VerifierQuery>
    requires forall n :: n in nodes ==> n in m
  {
    if nodes == [] then [] else queries(nodes[0], m[nodes[0]]) + AllQueries(nodes[1..], m, queries)
  }

  /** Every entry of a sorted map, in order. */
  ghost function MapQueries(m: Points, queries: QueriesOf): seq<VerifierQuery> {
    AllQueries(Ascending(m.Keys), m, queries)
  }

  /** The queries of an internal node, when `at` gives the commitments: every child's commitment as a scalar. */
  ghost function InternalQueries(at: NodeId -> Element): QueriesOf {
    (n: NodeId, points: set<nat>) => NodeQueries(at(ConnectParent(n)), Ascending(points), ChildResult(n, at))
  }

  ghost function ChildResult(node: NodeId, at: NodeId -> Element): nat -> Fr {
    (i: nat) => ChildScalar(node, at, i)
  }

  ghost function ChildScalar(node: NodeId, at: NodeId -> Element, i: nat): Fr {
    if BridgeOk(node) then ToScalar(at(ChildNode(LogicParent(node), i))) else 0
  }

  /** A node that holds 256 slots of a bucket. */
  predicate IsLeaf(node: NodeId) {
    if node < BUCKET_SLOT_ID_MASK then Leftmost(3) <= node
    else node / BUCKET_SPAN < NUM_BUCKETS && Leftmost(4) <= Local(node)
  }

  /** The key at a position of a leaf's 256 slots. Bucket numbers have 24 bits; higher bits are shifted out. */
  function LeafKey(leaf: NodeId, i: nat): SaltKey
    requires IsLeaf(leaf)
  {
    if leaf < BUCKET_SLOT_ID_MASK then SaltKey((leaf - Leftmost(3)) % NUM_BUCKETS, i)
    else SaltKey(leaf / BUCKET_SPAN, (Local(leaf) - Leftmost(4)) * MIN_BUCKET_SIZE + i)
  }

  type Content = SaltKey -> Option<SaltValue>

  /** The queries of a leaf, when `value` gives the content of the slots. */
  ghost function LeafQueries(at: NodeId -> Element, value: Content): QueriesOf {
    (n: NodeId, points: set<nat>) => NodeQueries(at(ConnectParent(n)), Ascending(points), SlotResult(n, value))
  }

  ghost function SlotResult(leaf: NodeId, value: Content): nat -> Fr {
    (i: nat) => SlotContent(leaf, value, i)
  }

  ghost function SlotContent(leaf: NodeId, value: Content, i: nat): Fr {
    if IsLeaf(leaf) then SlotScalar(value(LeafKey(leaf, i))) else 0
  }

  lemma InternalIs(at: NodeId -> Element, n: NodeId, points: set<nat>)
    ensures InternalQueries(at)(n, points) == NodeQueries(at(ConnectParent(n)), Ascending(points), ChildResult(n, at))
  {
  }

  lemma LeafIs(at: NodeId -> Element, value: Content, n: NodeId, points: set<nat>)
    ensures LeafQueries(at, value)(n, points) == NodeQueries(at(ConnectParent(n)), Ascending(points), SlotResult(n, value))
  {
  }

  /** The list of a proof. */
  ghost function ProofQueryList(internal: Points, slots: Points, at: NodeId -> Element, value: Content): seq<VerifierQuery> {
    MapQueries(internal, InternalQueries(at)) + MapQueries(slots, LeafQueries(at, value))
  }

  /** The walk through a sorted map, one node further. */
  lemma WalkNext(done: seq<VerifierQuery>, nodes: seq<NodeId>, k: nat, m: Points, queries: QueriesOf, total: seq<VerifierQuery>)
    requires (forall n :: n in nodes ==> n in m) && k < |nodes| && done + AllQueries(nodes[k..], m, queries) == total
    ensures done + queries(nodes[k], m[nodes[k]]) + AllQueries(nodes[k + 1..], m, queries) == total
  {
    assert nodes[k..][1..] == nodes[k + 1..] && nodes[k..][0] == nodes[k];
    assert done + (queries(nodes[k], m[nodes[k]]) + AllQueries(nodes[k + 1..], m, queries))
        == done + queries(nodes[k], m[nodes[k]]) + AllQueries(nodes[k + 1..], m, queries);
  }

  lemma WalkStarts(nodes: seq<NodeId>, m: Points, queries: QueriesOf)
    requires nodes == Ascending(m.Keys)
    ensures (forall n :: n in nodes ==> n in m) && [] + AllQueries(nodes[0..], m, queries) == MapQueries(m, queries)
  {
    assert nodes[0..] == nodes;
  }

  lemma WalkEnds(done: seq<VerifierQuery>, nodes: seq<NodeId>, m: Points, queries: QueriesOf, total: seq<VerifierQuery>)
    requires (forall n :: n in nodes ==> n in m) && done + AllQueries(nodes[|nodes|..], m, queries) == total
    ensures done == total
  {
  }

  /** Which nodes and positions `parents_and_points` can produce for keys that fit their buckets. */
  ghost predicate PointsOk(internal: Points, slots: Points) {
    && (forall n :: n in internal ==> BridgeOk(n) && Branches(LogicParent(n)) && forall i :: i in internal[n] ==> i < DOMAIN_SIZE)
    && (forall n :: n in slots ==> IsLeaf(n) && forall i :: i in slots[n] ==> i < DOMAIN_SIZE)
  }

  /** What it produces for any keys. */
  ghost predicate NodesOk(internal: Points, slots: Points) {
    (forall n :: n in internal ==> BridgeOk(n)) && (forall n :: n in slots ==> IsLeaf(n))
  }

  // ---------------------------------------------------------------- what a list asks

  /** The commitment of the child at this position, under the parent's commitment. */
  ghost function EdgeQuery(e: Edge, at: NodeId -> Element): VerifierQuery
    requires BridgeOk(e.0)
  {
    VerifierQuery(at(ConnectParent(e.0)), Red(e.1), ToScalar(at(EdgeChild(e))))
  }

  /** The content of the slot at this position, under the leaf's commitment. */
  ghost function SlotQuery(e: Edge, at: NodeId -> Element, value: Content): VerifierQuery
    requires IsLeaf(e.0)
  {
    VerifierQuery(at(ConnectParent(e.0)), Red(e.1), SlotScalar(value(LeafKey(e.0, e.1))))
  }

  lemma {:induction false} InAllQueries(nodes: seq<NodeId>, m: Points, queries: QueriesOf, q: VerifierQuery)
    requires forall n :: n in nodes ==> n in m
    ensures q in AllQueries(nodes, m, queries) <==> exists n :: n in nodes && q in queries(n, m[n])
  {
    if nodes != [] {
      InAllQueries(nodes[1..], m, queries, q);
      assert forall n :: n in nodes <==> n == nodes[0] || n in nodes[1..];
    }
  }

  lemma InNodeQueries(c: Element, points: set<nat>, result: nat -> Fr, q: VerifierQuery)
    ensures q in NodeQueries(c, Ascending(points), result) <==> exists i :: i in points && q == VerifierQuery(c, Red(i), result(i))
  {
    hide Red;
    var l := Ascending(points);
    if i :| i in points && q == VerifierQuery(c, Red(i), result(i)) {
      var k :| 0 <= k < |l| && l[k] == i;
      assert NodeQueries(c, l, result)[k] == q;
    }
    if q in NodeQueries(c, l, result) {
      var k :| 0 <= k < |l| && NodeQueries(c, l, result)[k] == q;
      assert l[k] in points;
    }
  }

  lemma InInternal(internal: Points, at: NodeId -> Element, q: VerifierQuery)
    requires forall n :: n in internal ==> BridgeOk(n)
    ensures q in MapQueries(internal, InternalQueries(at)) <==> exists e :: HasEdge(internal, e) && BridgeOk(e.0) && q == EdgeQuery(e, at)
  {
    hide BridgeOk, ConnectParent, LogicParent, ChildNode, Ascending, Red, AllQueries;
    InAllQueries(Ascending(internal.Keys), internal, InternalQueries(at), q);
    forall n | n in internal
      ensures q in InternalQueries(at)(n, internal[n]) <==> exists i :: i in internal[n] && q == EdgeQuery((n, i), at)
    {
      InNodeQueries(at(ConnectParent(n)), internal[n], ChildResult(n, at), q);
      forall i: nat
        ensures VerifierQuery(at(ConnectParent(n)), Red(i), ChildResult(n, at)(i)) == EdgeQuery((n, i), at)
      {
      }
    }
    if q in MapQueries(internal, InternalQueries(at)) {
      var n :| n in Ascending(internal.Keys) && q in InternalQueries(at)(n, internal[n]);
      var i :| i in internal[n] && q == EdgeQuery((n, i), at);
      assert HasEdge(internal, (n, i));
    }
    if e :| HasEdge(internal, e) && BridgeOk(e.0) && q == EdgeQuery(e, at) {
      assert e.0 in internal && e == (e.0, e.1);
    }
  }

  lemma InSlots(slots: Points, at: NodeId -> Element, value: Content, q: VerifierQuery)
    requires forall n :: n in slots ==> IsLeaf(n)
    ensures q in MapQueries(slots, LeafQueries(at, value)) <==> exists e :: HasEdge(slots, e) && IsLeaf(e.0) && q == SlotQuery(e, at, value)
  {
    hide IsLeaf, ConnectParent, LeafKey, Ascending, Red, AllQueries;
    InAllQueries(Ascending(slots.Keys), slots, LeafQueries(at, value), q);
    forall n | n in slots
      ensures q in LeafQueries(at, value)(n, slots[n]) <==> exists i :: i in slots[n] && q == SlotQuery((n, i), at, value)
    {
      InNodeQueries(at(ConnectParent(n)), slots[n], SlotResult(n, value), q);
      forall i: nat
        ensures VerifierQuery(at(ConnectParent(n)), Red(i), SlotResult(n, value)(i)) == SlotQuery((n, i), at, value)
      {
      }
    }
    if q in MapQueries(slots, LeafQueries(at, value)) {
      var n :| n in Ascending(slots.Keys) && q in LeafQueries(at, value)(n, slots[n]);
      var i :| i in slots[n] && q == SlotQuery((n, i), at, value);
      assert HasEdge(slots, (n, i));
    }
    if e :| HasEdge(slots, e) && IsLeaf(e.0) && q == SlotQuery(e, at, value) {
      assert e.0 in slots && e == (e.0, e.1);
    }
  }

  /** The list of a proof asks for every recorded child and every recorded slot, and for nothing else. */
  lemma ListAsks(internal: Points, slots: Points, at: NodeId -> Element, value: Content, q: VerifierQuery)
    requires NodesOk(internal, slots)
    ensures q in ProofQueryList(internal, slots, at, value) <==>
      || (exists e :: HasEdge(internal, e) && BridgeOk(e.0) && q == EdgeQuery(e, at))
      || (exists e :: HasEdge(slots, e) && IsLeaf(e.0) && q == SlotQuery(e, at, value))
  {
    hide BridgeOk, IsLeaf, HasEdge, EdgeQuery, SlotQuery, MapQueries;
    InInternal(internal, at, q);
    InSlots(slots, at, value, q);
  }

  // ---------------------------------------------------------------- what a list fixes

  lemma {:induction false} SameLists(nodes: seq<NodeId>, m: Points, f: QueriesOf, g: QueriesOf, n: NodeId)
    requires (forall n :: n in nodes ==> n in m && |f(n, m[n])| == |g(n, m[n])|) && n in nodes
    requires AllQueries(nodes, m, f) == AllQueries(nodes, m, g)
    ensures f(n, m[n]) == g(n, m[n])
  {
    var a, b := f(nodes[0], m[nodes[0]]), g(nodes[0], m[nodes[0]]);
    var x, y := AllQueries(nodes[1..], m, f), AllQueries(nodes[1..], m, g);
    assert a == (a + x)[..|a|] && b == (b + y)[..|b|];
    if n != nodes[0] {
      assert x == (a + x)[|a|..] && y == (b + y)[|b|..];
      SameLists(nodes[1..], m, f, g, n);
    }
  }

  lemma {:induction false} SameLength(nodes: seq<NodeId>, m: Points, f: QueriesOf, g: QueriesOf)
    requires forall n :: n in nodes ==> n in m && |f(n, m[n])| == |g(n, m[n])|
    ensures |AllQueries(nodes, m, f)| == |AllQueries(nodes, m, g)|
  {
    if nodes != [] {
      SameLength(nodes[1..], m, f, g);
    }
  }

  lemma SameNodeQueries(c1: Element, c2: Element, points: set<nat>, f: nat -> Fr, g: nat -> Fr, i: nat)
    requires NodeQueries(c1, Ascending(points), f) == NodeQueries(c2, Ascending(points), g) && i in points
    ensures c1 == c2 && f(i) == g(i)
  {
    hide Red;
    var l := Ascending(points);
    var k :| 0 <= k < |l| && l[k] == i;
    assert NodeQueries(c1, l, f)[k] == NodeQueries(c2, l, g)[k];
  }

  lemma InternalLengths(internal: Points, at1: NodeId -> Element, at2: NodeId -> Element)
    ensures forall n :: n in internal ==> |InternalQueries(at1)(n, internal[n])| == |InternalQueries(at2)(n, internal[n])|
  {
    forall n | n in internal
      ensures |InternalQueries(at1)(n, internal[n])| == |InternalQueries(at2)(n, internal[n])|
    {
      hide BridgeOk, ConnectParent, LogicParent, ChildNode, Ascending, Red;
      assert InternalQueries(at1)(n, internal[n]) == NodeQueries(at1(ConnectParent(n)), Ascending(internal[n]), ChildResult(n, at1));
      assert InternalQueries(at2)(n, internal[n]) == NodeQueries(at2(ConnectParent(n)), Ascending(internal[n]), ChildResult(n, at2));
    }
  }

  lemma LeafLengths(slots: Points, at1: NodeId -> Element, value1: Content, at2: NodeId -> Element, value2: Content)
    ensures forall n :: n in slots ==> |LeafQueries(at1, value1)(n, slots[n])| == |LeafQueries(at2, value2)(n, slots[n])|
  {
    forall n | n in slots
      ensures |LeafQueries(at1, value1)(n, slots[n])| == |LeafQueries(at2, value2)(n, slots[n])|
    {
      hide IsLeaf, ConnectParent, LeafKey, Ascending, Red;
      assert LeafQueries(at1, value1)(n, slots[n]) == NodeQueries(at1(ConnectParent(n)), Ascending(slots[n]), SlotResult(n, value1));
      assert LeafQueries(at2, value2)(n, slots[n]) == NodeQueries(at2(ConnectParent(n)), Ascending(slots[n]), SlotResult(n, value2));
    }
  }

  lemma SameInternal(internal: Points, at1: NodeId -> Element, at2: NodeId -> Element, e: Edge)
    requires MapQueries(internal, InternalQueries(at1)) == MapQueries(internal, InternalQueries(at2))
    requires HasEdge(internal, e) && BridgeOk(e.0)
    ensures EdgeQuery(e, at1) == EdgeQuery(e, at2)
  {
    hide BridgeOk, ConnectParent, LogicParent, ChildNode, Ascending, Red, AllQueries;
    var f1, f2 := InternalQueries(at1), InternalQueries(at2);
    InternalLengths(internal, at1, at2);
    SameLists(Ascending(internal.Keys), internal, f1, f2, e.0);
    SameNodeQueries(at1(ConnectParent(e.0)), at2(ConnectParent(e.0)), internal[e.0], ChildResult(e.0, at1), ChildResult(e.0, at2), e.1);
  }

  lemma SameSlots(slots: Points, at1: NodeId -> Element, value1: Content, at2: NodeId -> Element, value2: Content, e: Edge)
    requires MapQueries(slots, LeafQueries(at1, value1)) == MapQueries(slots, LeafQueries(at2, value2))
    requires HasEdge(slots, e) && IsLeaf(e.0)
    ensures SlotQuery(e, at1, value1) == SlotQuery(e, at2, value2)
  {
    hide IsLeaf, ConnectParent, LeafKey, Ascending, Red, AllQueries;
    var g1, g2 := LeafQueries(at1, value1), LeafQueries(at2, value2);
    LeafLengths(slots, at1, value1, at2, value2);
    SameLists(Ascending(slots.Keys), slots, g1, g2, e.0);
    SameNodeQueries(at1(ConnectParent(e.0)), at2(ConnectParent(e.0)), slots[e.0], SlotResult(e.0, value1), SlotResult(e.0, value2), e.1);
  }

  /** Two lists over the same nodes and positions are equal only if every commitment and every content that they ask about is. */
  lemma ListFixes(internal: Points, slots: Points, at1: NodeId -> Element, value1: Content, at2: NodeId -> Element, value2: Content)
    requires NodesOk(internal, slots)
    requires ProofQueryList(internal, slots, at1, value1) == ProofQueryList(internal, slots, at2, value2)
    ensures forall e :: HasEdge(internal, e) ==> BridgeOk(e.0) && EdgeQuery(e, at1) == EdgeQuery(e, at2)
    ensures forall e :: HasEdge(slots, e) ==> IsLeaf(e.0) && SlotQuery(e, at1, value1) == SlotQuery(e, at2, value2)
  {
    hide BridgeOk, IsLeaf, ConnectParent, Ascending, Red, AllQueries, EdgeQuery, SlotQuery, HasEdge;
    var f1, f2, g1, g2 := InternalQueries(at1), InternalQueries(at2), LeafQueries(at1, value1), LeafQueries(at2, value2);
    InternalLengths(internal, at1, at2);
    SameLength(Ascending(internal.Keys), internal, f1, f2);
    hide InternalQueries, LeafQueries;
    var a, b := MapQueries(internal, f1), MapQueries(internal, f2);
    var x, y := MapQueries(slots, g1), MapQueries(slots, g2);
    assert a == (a + x)[..|a|] && b == (b + y)[..|b|] && x == (a + x)[|a|..] && y == (b + y)[|b|..];
    forall e | HasEdge(internal, e)
      ensures BridgeOk(e.0) && EdgeQuery(e, at1) == EdgeQuery(e, at2)
    {
      EdgeFrom(internal, e);
      SameInternal(internal, at1, at2, e);
    }
    forall e | HasEdge(slots, e)
      ensures IsLeaf(e.0) && SlotQuery(e, at1, value1) == SlotQuery(e, at2, value2)
    {
      EdgeFrom(slots, e);
      SameSlots(slots, at1, value1, at2, value2, e);
    }
  }

  /** Under the same commitments, two lists are equal exactly when the contents of all recorded slots are, as scalars. */
  lemma ListTells(internal: Points, slots: Points, at: NodeId -> Element, value1: Content, value2: Content)
    requires NodesOk(internal, slots)
    ensures ProofQueryList(internal, slots, at, value1) == ProofQueryList(internal, slots, at, value2)
       <==> forall e :: HasEdge(slots, e) ==> IsLeaf(e.0) && SlotScalar(value1(LeafKey(e.0, e.1))) == SlotScalar(value2(LeafKey(e.0, e.1)))
  {
    hide BridgeOk, IsLeaf, ConnectParent, Ascending, Red, AllQueries, LeafKey, InternalQueries;
    if ProofQueryList(internal, slots, at, value1) == ProofQueryList(internal, slots, at, value2) {
      ListFixes(internal, slots, at, value1, at, value2);
    } else if forall e :: HasEdge(slots, e) ==> IsLeaf(e.0) && SlotScalar(value1(LeafKey(e.0, e.1))) == SlotScalar(value2(LeafKey(e.0, e.1))) {
      forall n | n in slots
        ensures LeafQueries(at, value1)(n, slots[n]) == LeafQueries(at, value2)(n, slots[n])
      {
        forall i | i in slots[n]
          ensures SlotResult(n, value1)(i) == SlotResult(n, value2)(i)
        {
          assert HasEdge(slots, (n, i));
        }
        SameResults(at(ConnectParent(n)), slots[n], SlotResult(n, value1), SlotResult(n, value2));
      }
      hide LeafQueries;
      SameMapQueries(Ascending(slots.Keys), slots, LeafQueries(at, value1), LeafQueries(at, value2));
    }
  }

  lemma EdgeFrom(m: Points, e: Edge)
    requires HasEdge(m, e)
    ensures e.0 in m
  {
  }

  lemma VerifiersJoin(a: seq<ProverQuery>, b: seq<ProverQuery>)
    ensures ToVerifiers(a + b) == ToVerifiers(a) + ToVerifiers(b)
  {
  }

  // ---------------------------------------------------------------- the prover

  /** A query of the polynomial with these values, at one of its points. */
  ghost predicate QueryOf(q: ProverQuery, c: Element, values: seq<Fr>) {
    && |values| == DOMAIN_SIZE && q.point < DOMAIN_SIZE
    && q == ProverQuery(c, LagrangeBasis(DOMAIN_SIZE, values), q.point, values[q.point])
  }

  /** The values of an internal node's polynomial: its children's commitments as scalars. */
  ghost function ChildValues(trie: Trie, node: NodeId): (v: seq<Fr>)
    requires BridgeOk(node)
    ensures |v| == DOMAIN_SIZE
  {
    seq(DOMAIN_SIZE, i requires 0 <= i < DOMAIN_SIZE => ChildScalar(node, FromTrie(trie), i))
  }

  /** The values of a leaf's polynomial: the contents of its slots. */
  ghost function SlotValues(kvs: Kvs, leaf: NodeId): (v: seq<Fr>)
    ensures |v| == DOMAIN_SIZE
  {
    seq(DOMAIN_SIZE, i requires 0 <= i < DOMAIN_SIZE => SlotContent(leaf, Stored(kvs), i))
  }

  ghost predicate NodeQuery(trie: Trie, node: NodeId, q: ProverQuery) {
    BridgeOk(node) && QueryOf(q, CommitmentAt(trie, ConnectParent(node)), ChildValues(trie, node))
  }

  ghost predicate LeafQuery(trie: Trie, kvs: Kvs, leaf: NodeId, q: ProverQuery) {
    QueryOf(q, CommitmentAt(trie, ConnectParent(leaf)), SlotValues(kvs, leaf))
  }

  /** `create_prover_queries`. */
  method CreateProverQueries(commitment: Element, poly: LagrangeBasis, points: set<nat>) returns (qs: seq<ProverQuery>)
    requires poly.Valid(DOMAIN_SIZE) && forall i :: i in points ==> i < DOMAIN_SIZE
    ensures ToVerifiers(qs) == NodeQueries(commitment, Ascending(points), PolyResult(poly))
    ensures forall q :: q in qs ==> QueryOf(q, commitment, poly.values)
  {
    hide Red;
    var order := InOrder(points);
    qs := [];
    for k := 0 to |order|
      invariant |qs| == k && forall j :: 0 <= j < k ==> ToVerifier(qs[j]) == VerifierQuery(commitment, Red(order[j]), PolyResult(poly)(order[j]))
      invariant forall q :: q in qs ==> QueryOf(q, commitment, poly.values)
    {
      var i := order[k];
      assert i in points;
      qs := qs + [ProverQuery(commitment, poly, i, poly.values[i])];
    }
  }

  ghost function PolyResult(poly: LagrangeBasis): nat -> Fr {
    (i: nat) => if i < |poly.values| then poly.values[i] else 0
  }

  /** The prover's queries for one internal node. */
  method ProveNode(trie: Trie, node: NodeId, points: set<nat>) returns (qs: seq<ProverQuery>)
    requires BridgeOk(node) && Branches(LogicParent(node)) && forall i :: i in points ==> i < DOMAIN_SIZE
    ensures ToVerifiers(qs) == InternalQueries(FromTrie(trie))(node, points)
    ensures forall q :: q in qs ==> NodeQuery(trie, node, q)
  {
    hide Branches, CommitmentAt, ChildNode, ConnectParent, LogicParent, BridgeOk, Ascending;
    var children := ChildCommitments(trie, LogicParent(node));
    var poly := LagrangeBasis(DOMAIN_SIZE, seq(DOMAIN_SIZE, i requires 0 <= i < DOMAIN_SIZE reads children => ToScalar(children[i])));
    assert poly.values == ChildValues(trie, node);
    qs := CreateProverQueries(CommitmentAt(trie, ConnectParent(node)), poly, points);
    SameResults(CommitmentAt(trie, ConnectParent(node)), points, PolyResult(poly), ChildResult(node, FromTrie(trie)));
  }

  /** Only the results at the listed points matter. */
  lemma SameResults(c: Element, points: set<nat>, f: nat -> Fr, g: nat -> Fr)
    requires forall i :: i in points ==> f(i) == g(i)
    ensures NodeQueries(c, Ascending(points), f) == NodeQueries(c, Ascending(points), g)
  {
    hide Red;
    var l := Ascending(points);
    forall k | 0 <= k < |l|
      ensures f(l[k]) == g(l[k])
    {
      assert l[k] in points;
    }
  }

  /** The prover's internal queries. */
  method ProveInternal(trie: Trie, internal: Points) returns (qs: seq<ProverQuery>)
    requires PointsOk(internal, map[])
    ensures ToVerifiers(qs) == MapQueries(internal, InternalQueries(FromTrie(trie)))
    ensures forall q :: q in qs ==> exists n :: n in internal && NodeQuery(trie, n, q)
  {
    hide NodeQuery, Branches, LogicParent, BridgeOk, Ascending, InternalQueries, AllQueries, MapQueries;
    var nodes := InOrder(internal.Keys);
    ghost var queries := InternalQueries(FromTrie(trie));
    ghost var total := MapQueries(internal, queries);
    WalkStarts(nodes, internal, queries);
    qs := [];
    for k := 0 to |nodes|
      invariant ToVerifiers(qs) + AllQueries(nodes[k..], internal, queries) == total
      invariant forall q :: q in qs ==> exists n :: n in internal && NodeQuery(trie, n, q)
    {
      WalkNext(ToVerifiers(qs), nodes, k, internal, queries, total);
      assert nodes[k] in nodes;
      var q := ProveNode(trie, nodes[k], internal[nodes[k]]);
      VerifiersJoin(qs, q);
      qs := qs + q;
    }
    WalkEnds(ToVerifiers(qs), nodes, internal, queries, total);
  }

  /** What a store holds at a slot; metadata is never absent. */
  ghost function Stored(kvs: Kvs): Content {
    (key: SaltKey) => At(kvs, map[], key)
  }

  /** What an empty slot counts as. */
  function DefaultContent(bucket: nat): Option<SaltValue> {
    if bucket < NUM_META_BUCKETS then Some(DEFAULT_META.ToValue()) else None
  }

  /** `process_leaf_node`: default contents, overwritten by the entries of the segment. */
  method ProveLeaf(trie: Trie, kvs: Kvs, leaf: NodeId, points: set<nat>) returns (qs: seq<ProverQuery>)
    requires IsLeaf(leaf) && forall i :: i in points ==> i < DOMAIN_SIZE
    ensures ToVerifiers(qs) == LeafQueries(FromTrie(trie), Stored(kvs))(leaf, points)
    ensures forall q :: q in qs ==> LeafQuery(trie, kvs, leaf, q)
  {
    hide CommitmentAt, ConnectParent, Ascending, Leftmost, BUCKET_SPAN;
    var coefficients := new Fr[DOMAIN_SIZE](_ =>
      SlotScalar(DefaultContent(LeafKey(leaf, 0).bucket)));
    for i := 0 to DOMAIN_SIZE
      invariant forall j :: 0 <= j < i ==> coefficients[j] == SlotScalar(At(kvs, map[], LeafKey(leaf, j)))
      invariant forall j :: i <= j < DOMAIN_SIZE ==> coefficients[j] == SlotScalar(DefaultContent(LeafKey(leaf, 0).bucket))
    {
      SegmentKey(leaf, i);
      var key := LeafKey(leaf, i);
      if key in kvs {
        coefficients[key.slot % DOMAIN_SIZE] := SlotScalar(Some(kvs[key]));
      }
    }
    var poly := LagrangeBasis(DOMAIN_SIZE, coefficients[..]);
    assert poly.values == SlotValues(kvs, leaf);
    qs := CreateProverQueries(CommitmentAt(trie, ConnectParent(leaf)), poly, points);
    SameResults(CommitmentAt(trie, ConnectParent(leaf)), points, PolyResult(poly), SlotResult(leaf, Stored(kvs)));
  }

  /** Position `i` of a leaf is the slot's last eight bits. */
  lemma SegmentKey(leaf: NodeId, i: nat)
    requires IsLeaf(leaf) && i < DOMAIN_SIZE
    ensures LeafKey(leaf, i).slot % DOMAIN_SIZE == i && LeafKey(leaf, i).bucket == LeafKey(leaf, 0).bucket
  {
    hide Leftmost, BUCKET_SPAN;
  }

  /** The prover's queries for the slots. */
  method ProveLeaves(trie: Trie, kvs: Kvs, slots: Points) returns (qs: seq<ProverQuery>)
    requires PointsOk(map[], slots)
    ensures ToVerifiers(qs) == MapQueries(slots, LeafQueries(FromTrie(trie), Stored(kvs)))
    ensures forall q :: q in qs ==> exists n :: n in slots && LeafQuery(trie, kvs, n, q)
  {
    hide LeafQuery, IsLeaf, Ascending, LeafQueries, AllQueries, MapQueries;
    var nodes := InOrder(slots.Keys);
    ghost var queries := LeafQueries(FromTrie(trie), Stored(kvs));
    ghost var total := MapQueries(slots, queries);
    WalkStarts(nodes, slots, queries);
    qs := [];
    for k := 0 to |nodes|
      invariant ToVerifiers(qs) + AllQueries(nodes[k..], slots, queries) == total
      invariant forall q :: q in qs ==> exists n :: n in slots && LeafQuery(trie, kvs, n, q)
    {
      WalkNext(ToVerifiers(qs), nodes, k, slots, queries, total);
      assert nodes[k] in nodes;
      var q := ProveLeaf(trie, kvs, nodes[k], slots[nodes[k]]);
      VerifiersJoin(qs, q);
      qs := qs + q;
    }
    WalkEnds(ToVerifiers(qs), nodes, slots, queries, total);
  }

  // ---------------------------------------------------------------- the verifier

  datatype ProofError =
    | StateReadError
    | InvalidSaltKey(key: SaltKey, capacity: nat)
    | MissingRootCommitment
    | RootMismatch
    | MultiPointProofFailed
    | InvalidLookupTable
    | Panic

  ghost function FromMap(commitments: Trie): NodeId -> Element {
    (n: NodeId) => if n in commitments then commitments[n] else Zero
  }

  ghost function Claimed(data: map<SaltKey, Option<SaltValue>>): Content {
    (key: SaltKey) => if key in data then data[key] else None
  }

  /** The commitments that one internal node's queries need. */
  predicate NodeComplete(node: NodeId, points: set<nat>, commitments: Trie)
    requires BridgeOk(node)
  {
    ConnectParent(node) in commitments && forall i :: i in points ==> EdgeChild((node, i)) in commitments
  }

  predicate LeafComplete(leaf: NodeId, points: set<nat>, commitments: Trie, data: map<SaltKey, Option<SaltValue>>)
    requires IsLeaf(leaf)
  {
    ConnectParent(leaf) in commitments && forall i :: i in points ==> LeafKey(leaf, i) in data
  }

  /** The verifier's queries for one internal node; a missing commitment is an error. */
  method VerifyNode(node: NodeId, points: set<nat>, commitments: Trie) returns (r: Result<seq<VerifierQuery>, ProofError>)
    requires BridgeOk(node)
    ensures r.Success? <==> NodeComplete(node, points, commitments)
    ensures r.Failure? ==> r.error == StateReadError
    ensures r.Success? ==> r.value == InternalQueries(FromMap(commitments))(node, points)
  {
    hide ConnectParent, ChildNode, LogicParent, BridgeOk, Red, Ascending, InternalQueries;
    var commitment;
    if ConnectParent(node) in commitments {
      commitment := commitments[ConnectParent(node)];
    } else {
      return Failure(StateReadError);
    }
    var order := InOrder(points);
    var qs: seq<VerifierQuery> := [];
    for k := 0 to |order|
      invariant |qs| == k && forall j :: 0 <= j < k ==> EdgeChild((node, order[j])) in commitments
      invariant forall j :: 0 <= j < k ==> qs[j] == VerifierQuery(commitment, Red(order[j]), ChildScalar(node, FromMap(commitments), order[j]))
    {
      assert order[k] in points;
      var child := EdgeChild((node, order[k]));
      if child !in commitments {
        return Failure(StateReadError);
      }
      qs := qs + [VerifierQuery(commitment, Red(order[k]), ToScalar(commitments[child]))];
    }
    forall i | i in points
      ensures EdgeChild((node, i)) in commitments
    {
      assert i in order;
    }
    InternalIs(FromMap(commitments), node, points);
    assert qs == NodeQueries(FromMap(commitments)(ConnectParent(node)), order, ChildResult(node, FromMap(commitments)));
    r := Success(qs);
  }

  method VerifyLeaf(leaf: NodeId, points: set<nat>, commitments: Trie, data: map<SaltKey, Option<SaltValue>>)
    returns (r: Result<seq<VerifierQuery>, ProofError>)
    requires IsLeaf(leaf)
    ensures r.Success? <==> LeafComplete(leaf, points, commitments, data)
    ensures r.Failure? ==> r.error == StateReadError
    ensures r.Success? ==> r.value == LeafQueries(FromMap(commitments), Claimed(data))(leaf, points)
  {
    hide ConnectParent, LeafKey, IsLeaf, Red, Ascending, LeafQueries;
    var commitment;
    if ConnectParent(leaf) in commitments {
      commitment := commitments[ConnectParent(leaf)];
    } else {
      return Failure(StateReadError);
    }
    var order := InOrder(points);
    var qs: seq<VerifierQuery> := [];
    for k := 0 to |order|
      invariant |qs| == k && forall j :: 0 <= j < k ==> LeafKey(leaf, order[j]) in data
      invariant forall j :: 0 <= j < k ==> qs[j] == VerifierQuery(commitment, Red(order[j]), SlotContent(leaf, Claimed(data), order[j]))
    {
      assert order[k] in points;
      var key := LeafKey(leaf, order[k]);
      if key !in data {
        return Failure(StateReadError);
      }
      qs := qs + [VerifierQuery(commitment, Red(order[k]), SlotScalar(data[key]))];
    }
    forall i | i in points
      ensures LeafKey(leaf, i) in data
    {
      assert i in order;
    }
    LeafIs(FromMap(commitments), Claimed(data), leaf, points);
    assert qs == NodeQueries(FromMap(commitments)(ConnectParent(leaf)), order, SlotResult(leaf, Claimed(data)));
    r := Success(qs);
  }

  /** What the proof and the data must hold for the verifier to find every query. */
  ghost predicate Complete(internal: Points, slots: Points, commitments: Trie, data: map<SaltKey, Option<SaltValue>>)
    requires NodesOk(internal, slots)
  {
    && (forall n :: n in internal ==> NodeComplete(n, internal[n], commitments))
    && (forall n :: n in slots ==> LeafComplete(n, slots[n], commitments, data))
  }

  method VerifyAll(internal: Points, slots: Points, commitments: Trie, data: map<SaltKey, Option<SaltValue>>)
    returns (r: Result<seq<VerifierQuery>, ProofError>)
    requires NodesOk(internal, slots)
    ensures r.Success? <==> Complete(internal, slots, commitments, data)
    ensures r.Failure? ==> r.error == StateReadError
    ensures r.Success? ==> r.value == ProofQueryList(internal, slots, FromMap(commitments), Claimed(data))
  {
    hide BridgeOk, Branches, IsLeaf, Ascending, InternalQueries, LeafQueries, AllQueries, MapQueries, NodeComplete, LeafComplete;
    var nodes := InOrder(internal.Keys);
    ghost var queries := InternalQueries(FromMap(commitments));
    ghost var total := MapQueries(internal, queries);
    WalkStarts(nodes, internal, queries);
    var qs: seq<VerifierQuery> := [];
    for k := 0 to |nodes|
      invariant qs + AllQueries(nodes[k..], internal, queries) == total
      invariant forall j :: 0 <= j < k ==> nodes[j] in internal && NodeComplete(nodes[j], internal[nodes[j]], commitments)
    {
      WalkNext(qs, nodes, k, internal, queries, total);
      assert nodes[k] in nodes;
      var q :- VerifyNode(nodes[k], internal[nodes[k]], commitments);
      qs := qs + q;
    }
    WalkEnds(qs, nodes, internal, queries, total);
    var leaves := InOrder(slots.Keys);
    ghost var leafQueries := LeafQueries(FromMap(commitments), Claimed(data));
    ghost var leafTotal := MapQueries(slots, leafQueries);
    WalkStarts(leaves, slots, leafQueries);
    var ls: seq<VerifierQuery> := [];
    for k := 0 to |leaves|
      invariant ls + AllQueries(leaves[k..], slots, leafQueries) == leafTotal
      invariant forall j :: 0 <= j < k ==> leaves[j] in slots && LeafComplete(leaves[j], slots[leaves[j]], commitments, data)
    {
      WalkNext(ls, leaves, k, slots, leafQueries, leafTotal);
      assert leaves[k] in leaves;
      var l :- VerifyLeaf(leaves[k], slots[leaves[k]], commitments, data);
      ls := ls + l;
    }
    WalkEnds(ls, leaves, slots, leafQueries, leafTotal);
    AllVisited(nodes, internal.Keys);
    AllVisited(leaves, slots.Keys);
    r := Success(qs + ls);
  }

  lemma AllVisited(nodes: seq<nat>, s: set<nat>)
    requires nodes == Ascending(s)
    ensures forall n :: n in s ==> exists j :: 0 <= j < |nodes| && nodes[j] == n
  {
    forall n | n in s
      ensures exists j :: 0 <= j < |nodes| && nodes[j] == n
    {
      assert n in nodes;
    }
  }

  // ---------------------------------------------------------------- the two lists agree

  /** Where both sides give the same commitments and the same contents, they make the same list. */
  lemma {:induction false} SameMapQueries(nodes: seq<NodeId>, m: Points, f: QueriesOf, g: QueriesOf)
    requires forall n :: n in nodes ==> n in m && f(n, m[n]) == g(n, m[n])
    ensures AllQueries(nodes, m, f) == AllQueries(nodes, m, g)
  {
    if nodes != [] {
      SameMapQueries(nodes[1..], m, f, g);
    }
  }

  /** The commitments that the prover puts into the proof. */
  ghost predicate Carries(commitments: Trie, trie: Trie, internal: Points, slots: Points) {
    && commitments.Keys == RequiredNodes(internal, slots)
    && forall n :: n in commitments ==> commitments[n] == CommitmentAt(trie, n)
  }

  /** The data that the verifier is given: what the store holds, metadata made explicit. */
  ghost predicate Reads(data: map<SaltKey, Option<SaltValue>>, kvs: Kvs) {
    forall key :: key in data ==> data[key] == At(kvs, map[], key)
  }

  lemma ListsAgree(internal: Points, slots: Points, trie: Trie, kvs: Kvs, commitments: Trie, data: map<SaltKey, Option<SaltValue>>)
    requires PointsOk(internal, slots) && Complete(internal, slots, commitments, data)
    requires Carries(commitments, trie, internal, slots) && Reads(data, kvs)
    ensures ProofQueryList(internal, slots, FromMap(commitments), Claimed(data)) == ProofQueryList(internal, slots, FromTrie(trie), Stored(kvs))
  {
    hide BridgeOk, Branches, Ascending, AllQueries, CommitmentAt, ConnectParent, EdgeChild, At, RequiredNodes;
    forall n | n in internal
      ensures InternalQueries(FromMap(commitments))(n, internal[n]) == InternalQueries(FromTrie(trie))(n, internal[n])
    {
      NodeAgrees(n, internal[n], trie, commitments);
    }
    forall n | n in slots
      ensures LeafQueries(FromMap(commitments), Claimed(data))(n, slots[n]) == LeafQueries(FromTrie(trie), Stored(kvs))(n, slots[n])
    {
      LeafAgrees(n, slots[n], trie, kvs, commitments, data);
    }
    hide InternalQueries, LeafQueries;
    SameMapQueries(Ascending(internal.Keys), internal, InternalQueries(FromMap(commitments)), InternalQueries(FromTrie(trie)));
    SameMapQueries(Ascending(slots.Keys), slots, LeafQueries(FromMap(commitments), Claimed(data)), LeafQueries(FromTrie(trie), Stored(kvs)));
  }

  lemma NodeAgrees(node: NodeId, points: set<nat>, trie: Trie, commitments: Trie)
    requires BridgeOk(node) && NodeComplete(node, points, commitments)
    requires forall n :: n in commitments ==> commitments[n] == CommitmentAt(trie, n)
    ensures InternalQueries(FromMap(commitments))(node, points) == InternalQueries(FromTrie(trie))(node, points)
  {
    hide BridgeOk, CommitmentAt, ConnectParent, ChildNode, LogicParent, Ascending;
    forall i | i in points
      ensures ChildResult(node, FromMap(commitments))(i) == ChildResult(node, FromTrie(trie))(i)
    {
      assert EdgeChild((node, i)) in commitments;
    }
    SameResults(FromTrie(trie)(ConnectParent(node)), points, ChildResult(node, FromMap(commitments)), ChildResult(node, FromTrie(trie)));
  }

  lemma LeafAgrees(leaf: NodeId, points: set<nat>, trie: Trie, kvs: Kvs, commitments: Trie, data: map<SaltKey, Option<SaltValue>>)
    requires IsLeaf(leaf) && LeafComplete(leaf, points, commitments, data)
    requires (forall n :: n in commitments ==> commitments[n] == CommitmentAt(trie, n)) && Reads(data, kvs)
    ensures LeafQueries(FromMap(commitments), Claimed(data))(leaf, points) == LeafQueries(FromTrie(trie), Stored(kvs))(leaf, points)
  {
    hide CommitmentAt, ConnectParent, Ascending, IsLeaf, LeafKey, At;
    forall i | i in points
      ensures SlotResult(leaf, Claimed(data))(i) == SlotResult(leaf, Stored(kvs))(i)
    {
      assert LeafKey(leaf, i) in data;
    }
    SameResults(FromTrie(trie)(ConnectParent(leaf)), points, SlotResult(leaf, Claimed(data)), SlotResult(leaf, Stored(kvs)));
  }
}
