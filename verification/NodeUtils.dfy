/** Node numbers of the two-tier tree: breadth-first arithmetic, and where a bucket's subtree starts. */
module NodeUtils {
  import opened SaltTypes

  const TRIE_WIDTH: nat := 256
  const MAIN_TRIE_LEVELS: nat := 4
  const MAX_SUBTREE_LEVELS: nat := 5
  const BUCKET_SPAN: nat := BUCKET_SLOT_ID_MASK + 1 // local numbers, and slots, of one bucket

  type NodeId = nat

  predicate ValidKey(key: SaltKey) {
    key.slot < BUCKET_SPAN
  }

  /** A key as the source packs it into a word. */
  function Packed(key: SaltKey): nat {
    key.bucket * BUCKET_SPAN + key.slot
  }

  /** The number of nodes at a level. */
  function Width(level: nat): (w: nat)
    ensures w > 0
  {
    if level == 0 then 1 else TRIE_WIDTH * Width(level - 1)
  }

  /** The first number of a level: (256^level - 1) / 255. */
  function Leftmost(level: nat): nat {
    (Width(level) - 1) / (TRIE_WIDTH - 1)
  }

  /** The levels follow one another without a gap. */
  lemma {:induction false} LevelsAdjoin(level: nat)
    ensures Leftmost(level + 1) == Leftmost(level) + Width(level)
    ensures Width(level) == 255 * Leftmost(level) + 1
  {
    if level > 0 {
      LevelsAdjoin(level - 1);
    }
  }

  lemma StartingNodeIds()
    ensures Leftmost(0) == 0 && Leftmost(1) == 1 && Leftmost(2) == 257 && Leftmost(3) == 65793 && Leftmost(4) == 16843009
    ensures Width(0) == 1 && Width(1) == 256 && Width(2) == 65536 && Width(3) == 16777216 && Width(4) == 4294967296
    ensures Leftmost(5) == 4311810305 && Leftmost(9) > 0xffff_ffff_ffff_ffff
  {
    assert Width(4) == 4294967296 && Width(5) == 256 * Width(4);
    assert Width(9) == 256 * Width(8) && Width(8) == 256 * Width(7) && Width(7) == 256 * Width(6) && Width(6) == 256 * Width(5);
  }

  // ---------------------------------------------------------------- breadth-first numbers

  function LevelUpTo(n: nat, level: nat): nat {
    if level == 0 || n >= Leftmost(level) then level else LevelUpTo(n, level - 1)
  }

  /** The highest level, up to 8, that starts at or before `n`. */
  function BfsLevel(n: nat): nat {
    LevelUpTo(n, 8)
  }

  /** `get_bfs_level`. */
  method GetBfsLevel(n: nat) returns (level: nat)
    ensures level == BfsLevel(n)
    ensures Leftmost(level) <= n && (level < 8 ==> n < Leftmost(level + 1))
  {
    hide Leftmost;
    level := 8;
    while level > 0 && n < Leftmost(level)
      invariant level <= 8 && LevelUpTo(n, level) == BfsLevel(n)
      invariant level < 8 ==> n < Leftmost(level + 1)
    {
      level := level - 1;
    }
    StartingNodeIds();
  }

  lemma {:induction false} LevelFound(n: nat, level: nat, top: nat)
    requires level <= top && Leftmost(level) <= n < Leftmost(level + 1)
    ensures LevelUpTo(n, top) == level
  {
    hide Leftmost;
    if level < top {
      LeftmostIncreases(level + 1, top);
      LevelFound(n, level, top - 1);
    }
  }

  lemma {:induction false} LeftmostIncreases(a: nat, b: nat)
    requires a <= b
    ensures Leftmost(a) <= Leftmost(b)
  {
    if a < b {
      LeftmostIncreases(a, b - 1);
      LevelsAdjoin(b - 1);
    }
  }

  function Local(node: NodeId): nat {
    node % BUCKET_SPAN
  }

  /** The node at position `p` of a level, of the main trie (bucket 0) or of a bucket's subtree. */
  function Node(bucket: nat, level: nat, p: nat): NodeId {
    bucket * BUCKET_SPAN + Leftmost(level) + p
  }

  predicate OnLevel(level: nat, p: nat) {
    level < MAX_SUBTREE_LEVELS && p < Width(level)
  }

  lemma NodeParts(bucket: nat, level: nat, p: nat)
    requires OnLevel(level, p)
    ensures Local(Node(bucket, level, p)) == Leftmost(level) + p < Leftmost(MAX_SUBTREE_LEVELS) < BUCKET_SPAN
    ensures BfsLevel(Leftmost(level) + p) == level
  {
    LevelsAdjoin(level);
    StartingNodeIds();
    LeftmostIncreases(level + 1, 5);
    hide Leftmost, Width;
    LevelFound(Leftmost(level) + p, level, 8);
  }

  /** Different places have different numbers, whatever the bucket. */
  lemma NodeInjective(b: nat, l: nat, p: nat, b': nat, l': nat, p': nat)
    requires OnLevel(l, p) && OnLevel(l', p') && Node(b, l, p) == Node(b', l', p')
    ensures b == b' && l == l' && p == p'
  {
    NodeParts(b, l, p);
    NodeParts(b', l', p');
    hide Leftmost, BfsLevel, OnLevel;
  }

  function VcPosition(node: NodeId): nat
    requires Local(node) < Leftmost(MAX_SUBTREE_LEVELS)
  {
    var local := Local(node);
    LevelStarts(local);
    (local - Leftmost(BfsLevel(local))) % TRIE_WIDTH
  }

  lemma LevelStarts(n: nat)
    ensures Leftmost(BfsLevel(n)) <= n
  {
    hide Leftmost;
    LevelStartsUpTo(n, 8);
  }

  lemma {:induction false} LevelStartsUpTo(n: nat, top: nat)
    ensures Leftmost(LevelUpTo(n, top)) <= n
  {
    StartingNodeIds();
    hide Leftmost;
    if top > 0 && n < Leftmost(top) {
      LevelStartsUpTo(n, top - 1);
    }
  }

  function ChildNode(parent: NodeId, index: nat): NodeId {
    var local := Local(parent);
    var level := BfsLevel(local);
    LevelStarts(local);
    (parent - local) + Leftmost(level + 1) + (local - Leftmost(level)) * TRIE_WIDTH + index
  }

  function ParentNode(node: NodeId): NodeId
    requires Local(node) > 0
  {
    var local := Local(node);
    var level := BfsLevel(local);
    LevelStarts(local);
    PastRoot(local);
    (node - local) + ((local - Leftmost(level)) / TRIE_WIDTH + Leftmost(level - 1))
  }

  lemma PastRoot(n: nat)
    requires n > 0
    ensures BfsLevel(n) > 0
  {
    StartingNodeIds();
    hide Leftmost, Width;
    PastRootUpTo(n, 8);
  }

  lemma {:induction false} PastRootUpTo(n: nat, top: nat)
    requires n > 0 && top > 0 && Leftmost(1) == 1
    ensures LevelUpTo(n, top) > 0
  {
    hide Leftmost;
    if top > 1 {
      PastRootUpTo(n, top - 1);
    }
  }

  /** Going down to a child, in places. */
  lemma ChildPlace(bucket: nat, level: nat, p: nat, index: nat)
    requires OnLevel(level, p) && level + 1 < MAX_SUBTREE_LEVELS && index < TRIE_WIDTH
    ensures ChildNode(Node(bucket, level, p), index) == Node(bucket, level + 1, p * TRIE_WIDTH + index)
    ensures OnLevel(level + 1, p * TRIE_WIDTH + index)
  {
    NodeParts(bucket, level, p);
    assert Width(level + 1) == 256 * Width(level);
    hide Leftmost, BfsLevel, Width;
  }

  /** Going up to the parent, in places. */
  lemma ParentPlace(bucket: nat, level: nat, p: nat)
    requires OnLevel(level, p) && level > 0
    ensures 0 < Local(Node(bucket, level, p)) < Leftmost(MAX_SUBTREE_LEVELS)
    ensures ParentNode(Node(bucket, level, p)) == Node(bucket, level - 1, p / TRIE_WIDTH) && OnLevel(level - 1, p / TRIE_WIDTH)
    ensures VcPosition(Node(bucket, level, p)) == p % TRIE_WIDTH
  {
    NodeParts(bucket, level, p);
    StartingNodeIds();
    LeftmostIncreases(1, level);
    assert Width(level) == 256 * Width(level - 1);
    hide Leftmost, BfsLevel, Width;
  }

  /** Parent and position undo the step to a child, and the step to a child undoes them. */
  lemma UpUndoesDown(bucket: nat, level: nat, p: nat, index: nat)
    requires OnLevel(level, p) && level + 1 < MAX_SUBTREE_LEVELS && index < TRIE_WIDTH
    ensures var child := ChildNode(Node(bucket, level, p), index);
            0 < Local(child) < Leftmost(MAX_SUBTREE_LEVELS) && ParentNode(child) == Node(bucket, level, p) && VcPosition(child) == index
  {
    ChildPlace(bucket, level, p, index);
    ParentPlace(bucket, level + 1, p * TRIE_WIDTH + index);
    NodeParts(bucket, level + 1, p * TRIE_WIDTH + index);
    hide Leftmost, OnLevel, ChildNode, ParentNode, VcPosition;
  }

  lemma DownUndoesUp(bucket: nat, level: nat, p: nat)
    requires OnLevel(level, p) && level > 0
    ensures var node := Node(bucket, level, p);
            0 < Local(node) < Leftmost(MAX_SUBTREE_LEVELS) && ChildNode(ParentNode(node), VcPosition(node)) == node
  {
    NodeParts(bucket, level, p);
    ParentPlace(bucket, level, p);
    ChildPlace(bucket, level - 1, p / TRIE_WIDTH, p % TRIE_WIDTH);
    hide Leftmost, OnLevel, ChildNode, ParentNode, VcPosition;
  }

  // ---------------------------------------------------------------- buckets

  function BucketRoot(bucket: nat): NodeId {
    bucket + Leftmost(MAIN_TRIE_LEVELS - 1)
  }

  function SubtreeLeaf(key: SaltKey): NodeId {
    key.bucket * BUCKET_SPAN + key.slot / MIN_BUCKET_SIZE + Leftmost(MAX_SUBTREE_LEVELS - 1)
  }

  lemma SubtreeLeafPlace(key: SaltKey)
    requires ValidKey(key)
    ensures SubtreeLeaf(key) == Node(key.bucket, 4, key.slot / MIN_BUCKET_SIZE) && OnLevel(4, key.slot / MIN_BUCKET_SIZE)
  {
    StartingNodeIds();
  }

  lemma BucketRootPlace(bucket: nat)
    requires bucket < NUM_BUCKETS
    ensures BucketRoot(bucket) == Node(0, 3, bucket) && OnLevel(3, bucket)
  {
    StartingNodeIds();
  }

  /** The packed key of a leaf's first slot. */
  function SubtreeLeafStart(node: NodeId): nat
    requires Local(node) >= Leftmost(MAX_SUBTREE_LEVELS - 1)
  {
    (node - Local(node)) + (Local(node) - Leftmost(MAX_SUBTREE_LEVELS - 1)) * MIN_BUCKET_SIZE
  }

  /** The leaf of a key starts at the key's segment of 256 slots. */
  lemma LeafStartOfKey(key: SaltKey)
    requires ValidKey(key)
    ensures Local(SubtreeLeaf(key)) >= Leftmost(MAX_SUBTREE_LEVELS - 1)
    ensures SubtreeLeafStart(SubtreeLeaf(key)) + key.slot % MIN_BUCKET_SIZE == Packed(key)
  {
    SubtreeLeafPlace(key);
    NodeParts(key.bucket, 4, key.slot / MIN_BUCKET_SIZE);
    hide Leftmost, Width;
  }

  // ---------------------------------------------------------------- the root of a subtree

  function RootLevelFrom(capacity: nat, level: int): int
    decreases capacity
  {
    if capacity <= MIN_BUCKET_SIZE then level else RootLevelFrom((capacity + MIN_BUCKET_SIZE - 1) / MIN_BUCKET_SIZE, level - 1)
  }

  /** The level of the root of a bucket with this capacity. */
  function SubtreeRootLevel(capacity: nat): int {
    RootLevelFrom(capacity, MAX_SUBTREE_LEVELS - 1)
  }

  /** Each level up holds 256 times as many slots. */
  lemma {:induction false} RootLevelBounds(capacity: nat, level: int)
    ensures var up := level - RootLevelFrom(capacity, level);
            up >= 0 && capacity <= Width(up + 1) && (up > 0 ==> capacity > Width(up))
    decreases capacity
  {
    if capacity > MIN_BUCKET_SIZE {
      var c := (capacity + MIN_BUCKET_SIZE - 1) / MIN_BUCKET_SIZE;
      RootLevelBounds(c, level - 1);
      var up := level - 1 - RootLevelFrom(c, level - 1);
      assert Width(up + 2) == 256 * Width(up + 1) && Width(up + 1) == 256 * Width(up);
      hide Width, RootLevelFrom;
    }
  }

  /** `subtree_root_level`: for every capacity that a bucket can have, the subtree fits, and none of its levels is wasted. */
  method ComputeSubtreeRootLevel(capacity: nat) returns (level: nat)
    requires capacity <= BUCKET_SPAN
    ensures level == SubtreeRootLevel(capacity) <= 4
    ensures capacity <= Width(MAX_SUBTREE_LEVELS - level)
    ensures level < 4 ==> capacity > Width(MAX_SUBTREE_LEVELS - 1 - level)
  {
    RootLevelInRange(capacity);
    var l: int := MAX_SUBTREE_LEVELS - 1;
    var c: nat := capacity;
    while c > MIN_BUCKET_SIZE
      invariant RootLevelFrom(c, l) == SubtreeRootLevel(capacity)
      decreases c
    {
      l := l - 1;
      c := (c + MIN_BUCKET_SIZE - 1) / MIN_BUCKET_SIZE;
    }
    level := l;
  }

  lemma RootLevelInRange(capacity: nat)
    requires capacity <= BUCKET_SPAN
    ensures 0 <= SubtreeRootLevel(capacity) <= 4
    ensures capacity <= Width(MAX_SUBTREE_LEVELS - SubtreeRootLevel(capacity))
    ensures SubtreeRootLevel(capacity) < 4 ==> capacity > Width(MAX_SUBTREE_LEVELS - 1 - SubtreeRootLevel(capacity))
  {
    RootLevelBounds(capacity, 4);
    var up := 4 - RootLevelFrom(capacity, 4);
    StartingNodeIds();
    assert Width(5) == 256 * Width(4) == BUCKET_SPAN;
    if up >= 5 {
      WidthGrows(5, up);
    }
  }

  lemma {:induction false} WidthGrows(a: nat, b: nat)
    requires a <= b
    ensures Width(a) <= Width(b)
  {
    if a < b {
      WidthGrows(a, b - 1);
    }
  }
}
