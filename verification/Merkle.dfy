/**
 * The Merkle tree of a block's transaction hashes (pkg/btc/merkle.go).
 *
 * The double hash of a concatenation is a parameter `pair`; nothing is assumed about it.
 * The reference is a top-down recursion over (height, position); the code works bottom-up.
 */
module MerkleTree {
  import opened Basics

  /** Number of nodes at height `h` over `n` leaves: an odd level shares its last node with itself. */
  function Width(n: nat, h: nat): nat {
    if h == 0 then n else (Width(n, h - 1) + 1) / 2
  }

  /** The node at (height, position), defined from the leaves down the tree. */
  function Node<H>(pair: (H, H) -> H, leaves: seq<H>, h: nat, pos: nat): H
    requires pos < Width(|leaves|, h)
    decreases h
  {
    if h == 0 then
      leaves[pos]
    else
      var left := Node(pair, leaves, h - 1, 2 * pos);
      var right := if 2 * pos + 1 < Width(|leaves|, h - 1) then Node(pair, leaves, h - 1, 2 * pos + 1) else left;
      pair(left, right)
  }

  /** The least `d` for which 2^d leaves are enough. */
  function Depth(n: nat): (d: nat)
    requires n >= 1
    ensures n <= Pow2(d)
    ensures d > 0 ==> Pow2(d - 1) < n
  {
    if n == 1 then 0 else
      var below := Depth((n + 1) / 2);
      assert below > 0 ==> Pow2(below) == 2 * Pow2(below - 1);
      below + 1
  }

  lemma {:induction false} MoveFactor(k: nat, half: nat)
    ensures (2 * k) * half == k * (2 * half)
  {
  }

  /** Width is division by 2^h rounded up. */
  lemma {:induction false} WidthIsCeiling(n: nat, h: nat, k: nat)
    ensures Width(n, h) <= k <==> n <= k * Pow2(h)
  {
    if h == 0 {
    } else {
      WidthIsCeiling(n, h - 1, 2 * k);
      MoveFactor(k, Pow2(h - 1));
    }
  }

  /** A level is the top one exactly when 2^h leaves are enough. */
  lemma {:induction false} SingleNode(n: nat, h: nat)
    requires n >= 1
    ensures Width(n, h) >= 1
    ensures Width(n, h) == 1 <==> n <= Pow2(h)
  {
    WidthIsCeiling(n, h, 1);
    WidthIsCeiling(n, h, 0);
  }

  lemma {:induction false} DepthIsTop(n: nat)
    requires n >= 1
    ensures Width(n, Depth(n)) == 1
  {
    SingleNode(n, Depth(n));
  }

  lemma {:induction false} TopIsDepth(n: nat, h: nat)
    requires n >= 1 && Width(n, h) <= 1
    requires h > 0 ==> Width(n, h - 1) > 1
    ensures h == Depth(n) && Width(n, h) == 1
  {
    SingleNode(n, h);
    if h > 0 {
      SingleNode(n, h - 1);
    }
    if h < Depth(n) {
      Pow2Monotone(h, Depth(n) - 1);
    } else if Depth(n) < h {
      Pow2Monotone(Depth(n), h - 1);
    }
  }

  lemma {:induction false} Pow2Monotone(a: nat, b: nat)
    requires a <= b
    ensures Pow2(a) <= Pow2(b)
    decreases b
  {
    if a >= b {
    } else {
      Pow2Monotone(a, b - 1);
    }
  }

  function Root<H>(pair: (H, H) -> H, leaves: seq<H>): H
    requires |leaves| >= 1
  {
    DepthIsTop(|leaves|);
    Node(pair, leaves, Depth(|leaves|), 0)
  }

  /** Go's `p >> k` on a signed integer: halving towards minus infinity, k times. */
  function Shift(p: int, k: nat): int {
    if k == 0 then p else Shift(p, k - 1) / 2
  }

  lemma {:induction false} ShiftInLevel(n: nat, p: int, h: nat)
    requires 0 <= p < n
    ensures 0 <= Shift(p, h) < Width(n, h)
  {
    if h == 0 {
    } else {
      ShiftInLevel(n, p, h - 1);
    }
  }

  /** The child of (h, pos) that bit h-1 of position `p` selects; a missing right child is its left sibling. */
  function ChildAt(n: nat, h: nat, pos: nat, p: int): (c: nat)
    requires h >= 1 && pos < Width(n, h)
    ensures c < Width(n, h - 1)
  {
    if Shift(p, h - 1) % 2 == 1 && 2 * pos + 1 < Width(n, h - 1) then 2 * pos + 1 else 2 * pos
  }

  /** The other child of (h, pos), again clamped to the level. */
  function OtherChildAt(n: nat, h: nat, pos: nat, p: int): (c: nat)
    requires h >= 1 && pos < Width(n, h)
    ensures c < Width(n, h - 1)
  {
    if Shift(p, h - 1) % 2 == 0 && 2 * pos + 1 < Width(n, h - 1) then 2 * pos + 1 else 2 * pos
  }

  /** The leaf reached from (h, pos) by following the low h bits of any position `p`. */
  function LeafAt(n: nat, h: nat, pos: nat, p: int): (leaf: nat)
    requires pos < Width(n, h)
    ensures leaf < n
    decreases h
  {
    if h == 0 then pos else LeafAt(n, h - 1, ChildAt(n, h, pos, p), p)
  }

  /** The siblings met on that descent, lowest first. */
  function PathAt<H>(pair: (H, H) -> H, leaves: seq<H>, h: nat, pos: nat, p: int): (path: seq<H>)
    requires pos < Width(|leaves|, h)
    ensures |path| == h
    decreases h
  {
    if h == 0 then [] else
      PathAt(pair, leaves, h - 1, ChildAt(|leaves|, h, pos, p), p)
      + [Node(pair, leaves, h - 1, OtherChildAt(|leaves|, h, pos, p))]
  }

  /** The proof path of `index`: for every height the sibling of the ancestor of leaf `index`. */
  function Branch<H>(pair: (H, H) -> H, leaves: seq<H>, index: int): (path: seq<H>)
    requires 0 <= index < |leaves|
    ensures |path| == Depth(|leaves|)
  {
    DepthIsTop(|leaves|);
    PathAt(pair, leaves, Depth(|leaves|), 0, index)
  }

  /** The ordered pair hashed when `current` meets `sibling` at a node whose position is `pos`. */
  function Ordered<H>(current: H, sibling: H, pos: int): (H, H) {
    if pos % 2 == 0 then (current, sibling) else (sibling, current)
  }

  /** Replays a path: step i hashes the current value with path[i], on the side bit i of `p` says. */
  function Climb<H>(pair: (H, H) -> H, leaf: H, path: seq<H>, p: int): H
    decreases |path|, 0
  {
    if path == [] then leaf else
      var (x, y) := StepInput(pair, leaf, path, p, |path| - 1);
      pair(x, y)
  }

  /** What step `k` of the replay hashes. */
  function StepInput<H>(pair: (H, H) -> H, leaf: H, path: seq<H>, p: int, k: nat): (H, H)
    requires k < |path|
    decreases k, 1
  {
    Ordered(Climb(pair, leaf, path[..k], p), path[k], Shift(p, k))
  }

  // ---------------------------------------------------------------------------------------------
  // Completeness

  /** Every position, in range or not, has a path that replays to the node above it. */
  lemma {:induction false} PathClimbs<H>(pair: (H, H) -> H, leaves: seq<H>, h: nat, pos: nat, p: int)
    requires pos < Width(|leaves|, h)
    ensures Climb(pair, leaves[LeafAt(|leaves|, h, pos, p)], PathAt(pair, leaves, h, pos, p), p)
         == Node(pair, leaves, h, pos)
    decreases h
  {
    if h == 0 {
    } else {
      var child := ChildAt(|leaves|, h, pos, p);
      var path := PathAt(pair, leaves, h, pos, p);
      PathClimbs(pair, leaves, h - 1, child, p);
      assert path[..h - 1] == PathAt(pair, leaves, h - 1, child, p);
    }
  }

  /** For a position in the list, the descent from its own ancestor comes back to it. */
  lemma {:induction false} LeafAtOwnAncestor(n: nat, h: nat, p: int)
    requires 0 <= p < n
    ensures 0 <= Shift(p, h) < Width(n, h)
    ensures LeafAt(n, h, Shift(p, h), p) == p
  {
    ShiftInLevel(n, p, h);
    if h == 0 {
    } else {
      LeafAtOwnAncestor(n, h - 1, p);
      assert ChildAt(n, h, Shift(p, h), p) == Shift(p, h - 1);
    }
  }

  /** Leaf `p` of the tree is leaf `p` of the list, for every position of the list. */
  lemma {:induction false} RootReachesLeaf(n: nat, p: int)
    requires 0 <= p < n
    ensures Width(n, Depth(n)) == 1
    ensures LeafAt(n, Depth(n), 0, p) == p
    ensures Shift(p, Depth(n)) == 0
  {
    DepthIsTop(n);
    LeafAtOwnAncestor(n, Depth(n), p);
  }

  /** Completeness: the built path of every position replays to the root. */
  lemma {:induction false} BranchVerifies<H>(pair: (H, H) -> H, leaves: seq<H>, index: int)
    requires 0 <= index < |leaves|
    ensures Climb(pair, leaves[index], Branch(pair, leaves, index), index) == Root(pair, leaves)
  {
    RootReachesLeaf(|leaves|, index);
    PathClimbs(pair, leaves, Depth(|leaves|), 0, index);
  }

  // ---------------------------------------------------------------------------------------------
  // Binding

  /** Step `k` of the two replays hashes different inputs to the same output. */
  predicate CollisionAt<H(==)>(pair: (H, H) -> H, l1: H, p1: seq<H>, l2: H, p2: seq<H>, p: int, k: nat) {
    && k < |p1| && k < |p2|
    && var i1 := StepInput(pair, l1, p1, p, k);
       var i2 := StepInput(pair, l2, p2, p, k);
       i1 != i2 && pair(i1.0, i1.1) == pair(i2.0, i2.1)
  }

  /** Two proofs of the same length and position with the same result are the same proof, or exhibit a collision. */
  lemma {:induction false} ClimbBinds<H>(pair: (H, H) -> H, l1: H, p1: seq<H>, l2: H, p2: seq<H>, p: int)
    requires |p1| == |p2|
    requires Climb(pair, l1, p1, p) == Climb(pair, l2, p2, p)
    ensures (l1 == l2 && p1 == p2) || exists k: nat :: CollisionAt(pair, l1, p1, l2, p2, p, k)
    decreases |p1|
  {
    if p1 == [] {
    } else {
      var last := |p1| - 1;
      if !CollisionAt(pair, l1, p1, l2, p2, p, last) {
        var a, b := p1[..last], p2[..last];
        assert Climb(pair, l1, a, p) == Climb(pair, l2, b, p);
        ClimbBinds(pair, l1, a, l2, b, p);
        if l1 == l2 && a == b {
          assert p1 == a + [p1[last]] && p2 == b + [p2[last]];
        } else {
          var k: nat :| CollisionAt(pair, l1, a, l2, b, p, k);
          assert a[..k] == p1[..k] && b[..k] == p2[..k];
          assert CollisionAt(pair, l1, p1, l2, p2, p, k);
        }
      }
    }
  }

  /** The reference proof for any integer position, in the list or not. */
  function ReferenceProof<H>(pair: (H, H) -> H, leaves: seq<H>, p: int): (proof: (H, seq<H>))
    requires |leaves| >= 1
    ensures proof.0 in leaves && |proof.1| == Depth(|leaves|)
  {
    DepthIsTop(|leaves|);
    var d := Depth(|leaves|);
    (leaves[LeafAt(|leaves|, d, 0, p)], PathAt(pair, leaves, d, 0, p))
  }

  /**
   * Binding: whatever verifies at any position with a path of the built length is the one reference
   * proof for that position -- so its leaf is one of the hashes, and hashes[p] with the built path when
   * p is in range -- unless the replay itself hashed two different inputs to one value.
   */
  lemma {:induction false} ProofBinds<H>(pair: (H, H) -> H, leaves: seq<H>, p: int, leaf: H, path: seq<H>)
    requires |leaves| >= 1 && |path| == Depth(|leaves|)
    requires Climb(pair, leaf, path, p) == Root(pair, leaves)
    ensures var reference := ReferenceProof(pair, leaves, p);
      || (exists k: nat :: CollisionAt(pair, leaf, path, reference.0, reference.1, p, k))
      || ((leaf, path) == reference && leaf in leaves)
    ensures 0 <= p < |leaves| ==> ReferenceProof(pair, leaves, p) == (leaves[p], Branch(pair, leaves, p))
  {
    var reference := ReferenceProof(pair, leaves, p);
    DepthIsTop(|leaves|);
    PathClimbs(pair, leaves, Depth(|leaves|), 0, p);
    ClimbBinds(pair, leaf, path, reference.0, reference.1, p);
    if 0 <= p < |leaves| {
      RootReachesLeaf(|leaves|, p);
    }
  }

  ghost predicate Injective<H(!new)>(pair: (H, H) -> H) {
    forall a, b, c, d {:trigger pair(a, b), pair(c, d)} :: pair(a, b) == pair(c, d) ==> a == c && b == d
  }

  /** The same for a collision-free pair hash: verifying is equivalent to being the reference proof. */
  lemma {:induction false} InjectiveProofBinds<H(!new)>(pair: (H, H) -> H, leaves: seq<H>, index: int, leaf: H, path: seq<H>)
    requires Injective(pair)
    requires 0 <= index < |leaves| && |path| == Depth(|leaves|)
    ensures Climb(pair, leaf, path, index) == Root(pair, leaves)
       <==> leaf == leaves[index] && path == Branch(pair, leaves, index)
  {
    BranchVerifies(pair, leaves, index);
    if Climb(pair, leaf, path, index) == Root(pair, leaves) {
      ProofBinds(pair, leaves, index, leaf, path);
    }
  }

  // ---------------------------------------------------------------------------------------------
  // What the root binds

  /** `p` with bit `k` replaced. */
  function WithBit(p: int, k: nat, bit: nat): int
    requires bit < 2
    decreases k
  {
    if k == 0 then 2 * (p / 2) + bit else 2 * WithBit(p / 2, k - 1, bit) + p % 2
  }

  lemma {:induction false} ShiftFront(p: int, k: nat)
    ensures Shift(p, k + 1) == Shift(p / 2, k)
  {
    if k == 0 {
    } else {
      ShiftFront(p, k - 1);
    }
  }

  lemma {:induction false} LowBit(x: int, r: nat)
    requires r < 2
    ensures (2 * x + r) / 2 == x && (2 * x + r) % 2 == r
  {
  }

  lemma {:induction false} ShiftWithBit(p: int, k: nat, bit: nat, i: nat)
    requires bit < 2 && i <= k
    ensures Shift(WithBit(p, k, bit), i) % 2 == if i == k then bit else Shift(p, i) % 2
    decreases k
  {
    if k == 0 {
      LowBit(p / 2, bit);
    } else {
      LowBit(WithBit(p / 2, k - 1, bit), p % 2);
    }
    if i == 0 {
    } else {
      var q := WithBit(p, k, bit);
      ShiftFront(q, i - 1);
      ShiftFront(p, i - 1);
      ShiftWithBit(p / 2, k - 1, bit, i - 1);
    }
  }

  ghost predicate SameLowBits(p: int, q: int, h: nat) {
    forall i: nat :: i < h ==> Shift(p, i) % 2 == Shift(q, i) % 2
  }

  /** The descent from height h reads only the low h bits of the position. */
  lemma {:induction false} LeafReadsLowBits(n: nat, h: nat, pos: nat, p: int, q: int)
    requires pos < Width(n, h) && SameLowBits(p, q, h)
    ensures LeafAt(n, h, pos, p) == LeafAt(n, h, pos, q)
    decreases h
  {
    if h == 0 {
    } else {
      assert Shift(p, h - 1) % 2 == Shift(q, h - 1) % 2;
      LeafReadsLowBits(n, h - 1, ChildAt(n, h, pos, p), p, q);
    }
  }

  /** The right child, or the left one where the right one is missing. */
  function RightChild(n: nat, h: nat, pos: nat): (c: nat)
    requires h >= 1 && pos < Width(n, h)
    ensures c < Width(n, h - 1)
  {
    if 2 * pos + 1 < Width(n, h - 1) then 2 * pos + 1 else 2 * pos
  }

  predicate SameLeaf<H(==)>(a: seq<H>, b: seq<H>, h: nat, i: nat, j: nat, p: int)
    requires i < Width(|a|, h) && j < Width(|b|, h)
  {
    a[LeafAt(|a|, h, i, p)] == b[LeafAt(|b|, h, j, p)]
  }

  /** Nodes (h, i) of one tree and (h, j) of another have the same leaf below every position. */
  ghost predicate SameLeaves<H(!new)>(a: seq<H>, b: seq<H>, h: nat, i: nat, j: nat)
    requires i < Width(|a|, h) && j < Width(|b|, h)
  {
    forall p: int :: SameLeaf(a, b, h, i, j, p)
  }

  lemma {:induction false} LeavesBelowChildren<H(!new)>(a: seq<H>, b: seq<H>, h: nat, i: nat, j: nat)
    requires h >= 1 && i < Width(|a|, h) && j < Width(|b|, h)
    ensures SameLeaves(a, b, h, i, j) <==>
      && SameLeaves(a, b, h - 1, 2 * i, 2 * j)
      && SameLeaves(a, b, h - 1, RightChild(|a|, h, i), RightChild(|b|, h, j))
  {
    var g, la, lb, ra, rb := h - 1, 2 * i, 2 * j, RightChild(|a|, h, i), RightChild(|b|, h, j);
    if SameLeaves(a, b, h, i, j) {
      forall p: int
        ensures SameLeaf(a, b, g, la, lb, p) && SameLeaf(a, b, g, ra, rb, p)
      {
        assert SameLeaf(a, b, h, i, j, WithBit(p, h - 1, 0)) && SameLeaf(a, b, h, i, j, WithBit(p, h - 1, 1));
        BelowChild(a, h, i, p, 0);
        BelowChild(b, h, j, p, 0);
        BelowChild(a, h, i, p, 1);
        BelowChild(b, h, j, p, 1);
      }
    }
    if SameLeaves(a, b, g, la, lb) && SameLeaves(a, b, g, ra, rb) {
      forall p: int
        ensures SameLeaf(a, b, h, i, j, p)
      {
        assert SameLeaf(a, b, g, la, lb, p) && SameLeaf(a, b, g, ra, rb, p);
      }
    }
  }

  /** The leaves below a child are leaves below its parent, at the position with that child's bit. */
  lemma {:induction false} BelowChild<H>(a: seq<H>, h: nat, i: nat, p: int, bit: nat)
    requires h >= 1 && i < Width(|a|, h) && bit < 2
    ensures LeafAt(|a|, h, i, WithBit(p, h - 1, bit))
         == LeafAt(|a|, h - 1, if bit == 0 then 2 * i else RightChild(|a|, h, i), p)
  {
    var q := WithBit(p, h - 1, bit);
    forall k: nat | k < h
      ensures Shift(q, k) % 2 == if k == h - 1 then bit else Shift(p, k) % 2
    {
      ShiftWithBit(p, h - 1, bit, k);
    }
    LeafReadsLowBits(|a|, h - 1, ChildAt(|a|, h, i, q), q, p);
  }

  /** What is hashed into node (h, pos). */
  function NodeInput<H>(pair: (H, H) -> H, leaves: seq<H>, h: nat, pos: nat): (H, H)
    requires h >= 1 && pos < Width(|leaves|, h)
  {
    (Node(pair, leaves, h - 1, 2 * pos), Node(pair, leaves, h - 1, RightChild(|leaves|, h, pos)))
  }

  /** Building the two trees hashes different inputs to one value at nodes (h, i) and (h, j). */
  predicate NodeCollision<H(==)>(pair: (H, H) -> H, a: seq<H>, b: seq<H>, h: nat, i: nat, j: nat) {
    && h >= 1 && i < Width(|a|, h) && j < Width(|b|, h)
    && NodeInput(pair, a, h, i) != NodeInput(pair, b, h, j)
    && Node(pair, a, h, i) == Node(pair, b, h, j)
  }

  ghost predicate TreesCollide<H(!new)>(pair: (H, H) -> H, a: seq<H>, b: seq<H>) {
    exists h: nat, i: nat, j: nat :: NodeCollision(pair, a, b, h, i, j)
  }

  lemma {:induction false} LeavesDetermineNode<H(!new)>(pair: (H, H) -> H, a: seq<H>, b: seq<H>, h: nat, i: nat, j: nat)
    requires i < Width(|a|, h) && j < Width(|b|, h) && SameLeaves(a, b, h, i, j)
    ensures Node(pair, a, h, i) == Node(pair, b, h, j)
    decreases h
  {
    if h == 0 {
      assert SameLeaf(a, b, 0, i, j, 0);
    } else {
      LeavesBelowChildren(a, b, h, i, j);
      LeavesDetermineNode(pair, a, b, h - 1, 2 * i, 2 * j);
      LeavesDetermineNode(pair, a, b, h - 1, RightChild(|a|, h, i), RightChild(|b|, h, j));
    }
  }

  lemma {:induction false} NodeDeterminesLeaves<H(!new)>(pair: (H, H) -> H, a: seq<H>, b: seq<H>, h: nat, i: nat, j: nat)
    requires i < Width(|a|, h) && j < Width(|b|, h) && Node(pair, a, h, i) == Node(pair, b, h, j)
    ensures SameLeaves(a, b, h, i, j) || TreesCollide(pair, a, b)
    decreases h
  {
    if h == 0 {
    } else {
      if NodeCollision(pair, a, b, h, i, j) {
      } else {
        assert NodeInput(pair, a, h, i) == NodeInput(pair, b, h, j);
        NodeDeterminesLeaves(pair, a, b, h - 1, 2 * i, 2 * j);
        NodeDeterminesLeaves(pair, a, b, h - 1, RightChild(|a|, h, i), RightChild(|b|, h, j));
        LeavesBelowChildren(a, b, h, i, j);
      }
    }
  }

  /** The two lists put the same hash under every position of a tree of depth d. */
  ghost predicate SamePositions<H(!new)>(a: seq<H>, b: seq<H>)
    requires |a| >= 1 && |b| >= 1 && Depth(|a|) == Depth(|b|)
  {
    DepthIsTop(|a|);
    DepthIsTop(|b|);
    SameLeaves(a, b, Depth(|a|), 0, 0)
  }

  /**
   * What a root says about its list: lists of one depth that agree under every position have the same root, and
   * lists with the same root agree under every position, unless building the two trees exhibits a collision.
   */
  lemma {:induction false} RootBindsPositions<H(!new)>(pair: (H, H) -> H, a: seq<H>, b: seq<H>)
    requires |a| >= 1 && |b| >= 1 && Depth(|a|) == Depth(|b|)
    ensures SamePositions(a, b) ==> Root(pair, a) == Root(pair, b)
    ensures Root(pair, a) == Root(pair, b) ==> SamePositions(a, b) || TreesCollide(pair, a, b)
    ensures Injective(pair) ==> (Root(pair, a) == Root(pair, b) <==> SamePositions(a, b))
  {
    DepthIsTop(|a|);
    DepthIsTop(|b|);
    if SamePositions(a, b) {
      LeavesDetermineNode(pair, a, b, Depth(|a|), 0, 0);
    }
    if Root(pair, a) == Root(pair, b) {
      NodeDeterminesLeaves(pair, a, b, Depth(|a|), 0, 0);
    }
  }

  /** For lists of one length that is the whole list. */
  lemma {:induction false} RootBindsList<H(!new)>(pair: (H, H) -> H, a: seq<H>, b: seq<H>)
    requires |a| == |b| >= 1
    ensures Root(pair, a) == Root(pair, b) ==> a == b || TreesCollide(pair, a, b)
    ensures Injective(pair) ==> (Root(pair, a) == Root(pair, b) <==> a == b)
  {
    RootBindsPositions(pair, a, b);
    if SamePositions(a, b) {
      DepthIsTop(|a|);
      forall p | 0 <= p < |a|
        ensures a[p] == b[p]
      {
        RootReachesLeaf(|a|, p);
        assert SameLeaf(a, b, Depth(|a|), 0, 0, p);
      }
    }
  }

  /** The nodes at height k, as a list of hashes of their own. */
  function Level<H>(pair: (H, H) -> H, leaves: seq<H>, k: nat): (level: seq<H>)
    ensures |level| == Width(|leaves|, k)
  {
    seq(Width(|leaves|, k), i requires 0 <= i < Width(|leaves|, k) => Node(pair, leaves, k, i))
  }

  lemma {:induction false} WidthOfLevel(n: nat, k: nat, h: nat)
    ensures Width(Width(n, k), h) == Width(n, h + k)
  {
    if h == 0 {
    } else {
      WidthOfLevel(n, k, h - 1);
    }
  }

  lemma {:induction false} NodeOverLevel<H>(pair: (H, H) -> H, leaves: seq<H>, k: nat, h: nat, pos: nat)
    requires pos < Width(|leaves|, h + k)
    ensures Width(Width(|leaves|, k), h) == Width(|leaves|, h + k)
    ensures Node(pair, Level(pair, leaves, k), h, pos) == Node(pair, leaves, h + k, pos)
    decreases h
  {
    WidthOfLevel(|leaves|, k, h);
    if h == 0 {
    } else {
      WidthOfLevel(|leaves|, k, h - 1);
      NodeOverLevel(pair, leaves, k, h - 1, 2 * pos);
      if 2 * pos + 1 < Width(|leaves|, h - 1 + k) {
        NodeOverLevel(pair, leaves, k, h - 1, 2 * pos + 1);
      }
    }
  }

  /** A level of a tree has the tree's root and what is left of its depth. */
  lemma {:induction false} LevelKeepsRoot<H>(pair: (H, H) -> H, leaves: seq<H>, k: nat)
    requires |leaves| >= 1 && k <= Depth(|leaves|)
    ensures |Level(pair, leaves, k)| >= 1
    ensures Depth(|Level(pair, leaves, k)|) == Depth(|leaves|) - k
    ensures Root(pair, Level(pair, leaves, k)) == Root(pair, leaves)
  {
    var n, d := |leaves|, Depth(|leaves|);
    SingleNode(n, k);
    DepthIsTop(n);
    WidthOfLevel(n, k, d - k);
    if k < d {
      WidthOfLevel(n, k, d - k - 1);
      SingleNode(n, d - 1);
    }
    TopIsDepth(Width(n, k), d - k);
    NodeOverLevel(pair, leaves, k, d - k, 0);
  }

  /** The level of the deeper tree that has the depth of the shallower one. */
  function MatchingLevel<H>(pair: (H, H) -> H, a: seq<H>, b: seq<H>): (level: seq<H>)
    requires |a| >= 1 && |b| >= 1 && Depth(|a|) <= Depth(|b|)
    ensures |level| >= 1 && Depth(|level|) == Depth(|a|) && Root(pair, level) == Root(pair, b)
  {
    var k := Depth(|b|) - Depth(|a|);
    LevelKeepsRoot(pair, b, k);
    Level(pair, b, k)
  }

  /**
   * Trees of different depth: the shallower list has the root of the deeper one if it agrees with the level of the
   * deeper tree at the same distance from the root, and only then unless the two trees exhibit a collision.
   */
  lemma {:induction false} RootBindsAcrossDepths<H(!new)>(pair: (H, H) -> H, a: seq<H>, b: seq<H>)
    requires |a| >= 1 && |b| >= 1 && Depth(|a|) <= Depth(|b|)
    ensures var level := MatchingLevel(pair, a, b);
      && (SamePositions(a, level) ==> Root(pair, a) == Root(pair, b))
      && (Root(pair, a) == Root(pair, b) ==> SamePositions(a, level) || TreesCollide(pair, a, level))
      && (Injective(pair) ==> (Root(pair, a) == Root(pair, b) <==> SamePositions(a, level)))
  {
    RootBindsPositions(pair, a, MatchingLevel(pair, a, b));
  }

  // ---------------------------------------------------------------------------------------------
  // One level at a time: the tree by its lowest pairs

  /** Above the lowest level the descent is that of the tree over the pairs. */
  lemma {:induction false} ChildOverPairs(n: nat, h: nat, pos: nat, p: int)
    requires h >= 1 && pos < Width(n, h + 1)
    ensures Width(Width(n, 1), h) == Width(n, h + 1) && Width(Width(n, 1), h - 1) == Width(n, h)
    ensures ChildAt(Width(n, 1), h, pos, p / 2) == ChildAt(n, h + 1, pos, p)
    ensures OtherChildAt(Width(n, 1), h, pos, p / 2) == OtherChildAt(n, h + 1, pos, p)
  {
    WidthOfLevel(n, 1, h);
    WidthOfLevel(n, 1, h - 1);
    ShiftFront(p, h - 1);
  }

  /** Two paths that differ by a first sibling still do one level up. */
  lemma {:induction false} PathsExtend<H>(pair: (H, H) -> H, leaves: seq<H>, pairs: seq<H>, h: nat, pos: nat, p: int, first: H)
    requires h >= 1 && pos < Width(|leaves|, h + 1) && pos < Width(|pairs|, h)
    requires ChildAt(|pairs|, h, pos, p / 2) == ChildAt(|leaves|, h + 1, pos, p)
    requires OtherChildAt(|pairs|, h, pos, p / 2) == OtherChildAt(|leaves|, h + 1, pos, p)
    requires Node(pair, pairs, h - 1, OtherChildAt(|pairs|, h, pos, p / 2))
          == Node(pair, leaves, h, OtherChildAt(|leaves|, h + 1, pos, p))
    requires PathAt(pair, leaves, h, ChildAt(|leaves|, h + 1, pos, p), p)
          == [first] + PathAt(pair, pairs, h - 1, ChildAt(|pairs|, h, pos, p / 2), p / 2)
    ensures PathAt(pair, leaves, h + 1, pos, p) == [first] + PathAt(pair, pairs, h, pos, p / 2)
  {
  }

  lemma {:induction false} PathOfPair<H>(pair: (H, H) -> H, leaves: seq<H>, pos: nat, p: int)
    requires pos < Width(|leaves|, 1)
    ensures PathAt(pair, leaves, 1, pos, p) == [leaves[OtherChildAt(|leaves|, 1, pos, p)]]
    ensures LeafAt(Width(|leaves|, 1), 0, pos, p / 2) == pos && PathAt(pair, Level(pair, leaves, 1), 0, pos, p / 2) == []
  {
    assert PathAt(pair, leaves, 0, ChildAt(|leaves|, 1, pos, p), p) == [];
  }

  /** The siblings of a path, lowest first: the one next to the leaf, then a path over the pairs. */
  lemma {:induction false} PathFront<H>(pair: (H, H) -> H, leaves: seq<H>, h: nat, pos: nat, p: int)
    requires pos < Width(|leaves|, h + 1)
    ensures Width(Width(|leaves|, 1), h) == Width(|leaves|, h + 1)
    ensures PathAt(pair, leaves, h + 1, pos, p)
         == [leaves[OtherChildAt(|leaves|, 1, LeafAt(Width(|leaves|, 1), h, pos, p / 2), p)]]
            + PathAt(pair, Level(pair, leaves, 1), h, pos, p / 2)
    decreases h
  {
    var n := |leaves|;
    if h == 0 {
      PathOfPair(pair, leaves, pos, p);
    } else {
      ChildOverPairs(n, h, pos, p);
      PathFront(pair, leaves, h - 1, ChildAt(n, h + 1, pos, p), p);
      NodeOverLevel(pair, leaves, 1, h - 1, OtherChildAt(n, h + 1, pos, p));
      PathsExtend(pair, leaves, Level(pair, leaves, 1), h, pos, p,
                  leaves[OtherChildAt(n, 1, LeafAt(Width(n, 1), h, pos, p / 2), p)]);
    }
  }

  /** The lowest level evened out, and its pairs hashed, is the level above it. */
  lemma {:induction false} PairsAreLevel<H>(pair: (H, H) -> H, leaves: seq<H>, evened: seq<H>, pairs: seq<H>)
    requires |leaves| >= 2
    requires evened == leaves + if |leaves| % 2 == 0 then [] else [leaves[|leaves| - 1]]
    requires |pairs| == |evened| / 2 && forall k :: 0 <= k < |pairs| ==> pairs[k] == pair(evened[2 * k], evened[2 * k + 1])
    ensures pairs == Level(pair, leaves, 1)
  {
    assert Width(|leaves|, 1) == |pairs|;
    forall k | 0 <= k < |pairs|
      ensures pairs[k] == Node(pair, leaves, 1, k)
    {
      assert Node(pair, leaves, 0, 2 * k) == evened[2 * k];
    }
  }

  /** The path of a leaf: its partner, then the path of their pair. */
  lemma {:induction false} BranchFront<H>(pair: (H, H) -> H, leaves: seq<H>, p: int)
    requires 0 <= p < |leaves| && |leaves| >= 2
    ensures p / 2 < Width(|leaves|, 1)
    ensures Branch(pair, leaves, p)
         == [leaves[OtherChildAt(|leaves|, 1, p / 2, p)]] + Branch(pair, Level(pair, leaves, 1), p / 2)
  {
    var n := |leaves|;
    assert Width(n, 1) == (n + 1) / 2;
    LevelKeepsRoot(pair, leaves, 1);
    DepthIsTop(n);
    RootReachesLeaf(Width(n, 1), p / 2);
    PathFront(pair, leaves, Depth(n) - 1, 0, p);
  }

  /**
   * Root and proof path follow one law per level: of two hashes or more, evened out by repeating the last one, the pairs
   * hash to a list with the same root, and the path is the leaf's partner followed by the path over the pairs. With
   * OneLeaf this determines both.
   */
  lemma {:induction false} PairsKeepRoot<H>(pair: (H, H) -> H, leaves: seq<H>, evened: seq<H>, pairs: seq<H>, p: int)
    requires |leaves| >= 2 && 0 <= p < |leaves|
    requires evened == leaves + if |leaves| % 2 == 0 then [] else [leaves[|leaves| - 1]]
    requires |pairs| == |evened| / 2 && forall k :: 0 <= k < |pairs| ==> pairs[k] == pair(evened[2 * k], evened[2 * k + 1])
    ensures Root(pair, leaves) == Root(pair, pairs)
    ensures Branch(pair, leaves, p) == [evened[if p % 2 == 0 then p + 1 else p - 1]] + Branch(pair, pairs, p / 2)
  {
    PairsAreLevel(pair, leaves, evened, pairs);
    LevelKeepsRoot(pair, leaves, 1);
    BranchFront(pair, leaves, p);
    PartnerInPair(|leaves|, p);
  }

  /** The other of the pair of leaf `p`, which is `p` itself if it is the last of an odd list. */
  lemma {:induction false} PartnerInPair(n: nat, p: int)
    requires n >= 2 && 0 <= p < n
    ensures p / 2 < Width(n, 1)
    ensures OtherChildAt(n, 1, p / 2, p) == if p % 2 == 1 then p - 1 else if p + 1 < n then p + 1 else p
  {
    assert Width(n, 1) == (n + 1) / 2 && Shift(p, 0) == p;
  }

  lemma {:induction false} OneLeaf<H>(pair: (H, H) -> H, leaf: H)
    ensures Root(pair, [leaf]) == leaf && Branch(pair, [leaf], 0) == []
  {
    assert Depth(1) == 0;
  }

  /** Replay likewise: the lowest sibling is hashed on the side the lowest bit says, and the rest is replayed one level up. */
  lemma {:induction false} ClimbFront<H>(pair: (H, H) -> H, leaf: H, sibling: H, path: seq<H>, p: int)
    ensures Climb(pair, leaf, [], p) == leaf
    ensures Climb(pair, leaf, [sibling] + path, p)
         == Climb(pair, if p % 2 == 0 then pair(leaf, sibling) else pair(sibling, leaf), path, p / 2)
    decreases |path|
  {
    var whole := [sibling] + path;
    if path == [] {
      assert whole[..0] == [] && Shift(p, 0) == p;
    } else {
      var k := |path| - 1;
      assert whole[..k + 1] == [sibling] + path[..k];
      ClimbFront(pair, leaf, sibling, path[..k], p);
      ShiftFront(p, k);
    }
  }

  // ---------------------------------------------------------------------------------------------
  // What the root does not bind: how often the last hash was repeated

  lemma {:induction false} DuplicateKeepsNode<H>(pair: (H, H) -> H, leaves: seq<H>, h: nat, pos: nat)
    requires |leaves| % 2 == 1 && h >= 1
    ensures var longer := leaves + [leaves[|leaves| - 1]];
      && Width(|longer|, h) == Width(|leaves|, h)
      && (pos < Width(|leaves|, h) ==> Node(pair, longer, h, pos) == Node(pair, leaves, h, pos))
    decreases h
  {
    if h == 1 {
    } else {
      DuplicateKeepsNode(pair, leaves, h - 1, 2 * pos);
      DuplicateKeepsNode(pair, leaves, h - 1, 2 * pos + 1);
    }
  }

  /** Repeating the last hash of an odd list of two or more gives a different list with the same root. */
  lemma {:induction false} DuplicateKeepsRoot<H>(pair: (H, H) -> H, leaves: seq<H>)
    requires |leaves| % 2 == 1 && |leaves| > 1
    ensures Root(pair, leaves + [leaves[|leaves| - 1]]) == Root(pair, leaves)
  {
    DuplicateKeepsNode(pair, leaves, Depth(|leaves|), 0);
    assert Depth(|leaves| + 1) == Depth(|leaves|);
    DepthIsTop(|leaves|);
  }
}

/** The builder, the verifier and the stored byte form, as loops. */
module MerkleProofs {
  import opened Basics
  import opened MerkleTree

  type Hash = Hash32

  datatype MerkleProof<H> = MerkleProof(position: int, path: seq<H>, root: H)

  ghost predicate IsLevel<H>(pair: (H, H) -> H, leaves: seq<H>, h: nat, level: seq<H>) {
    && |level| == Width(|leaves|, h)
    && forall pos {:trigger level[pos]} :: 0 <= pos < |level| ==> level[pos] == Node(pair, leaves, h, pos)
  }

  method NextLevel<H>(pair: (H, H) -> H, working: seq<H>) returns (next: seq<H>)
    requires |working| % 2 == 0
    ensures |next| == |working| / 2
    ensures forall k :: 0 <= k < |next| ==> next[k] == pair(working[2 * k], working[2 * k + 1])
  {
    next := [];
    var i := 0;
    while i < |working|
      invariant i % 2 == 0 && 0 <= i <= |working|
      invariant |next| == i / 2
      invariant forall k :: 0 <= k < |next| ==> next[k] == pair(working[2 * k], working[2 * k + 1])
    {
      next := next + [pair(working[i], working[i + 1])];
      i := i + 2;
    }
  }

  /** Extending the path of the ancestor at height h by one sibling gives the path of the one above it. */
  lemma {:induction false} PathGrows<H>(pair: (H, H) -> H, leaves: seq<H>, h: nat, p: int, sibling: H)
    requires 0 <= p < |leaves|
    requires 0 <= Shift(p, h) < Width(|leaves|, h)
    requires
      var at := Shift(p, h);
      var s := if at % 2 == 1 then at - 1 else if at + 1 < Width(|leaves|, h) then at + 1 else at;
      sibling == Node(pair, leaves, h, s)
    ensures 0 <= Shift(p, h + 1) < Width(|leaves|, h + 1)
    ensures PathAt(pair, leaves, h + 1, Shift(p, h + 1), p) == PathAt(pair, leaves, h, Shift(p, h), p) + [sibling]
  {
    ShiftInLevel(|leaves|, p, h + 1);
    assert ChildAt(|leaves|, h + 1, Shift(p, h + 1), p) == Shift(p, h);
  }

  /** The level in memory after the odd case has been evened out. */
  ghost predicate IsEvenedLevel<H>(pair: (H, H) -> H, leaves: seq<H>, h: nat, level: seq<H>) {
    var width := Width(|leaves|, h);
    && width >= 2 && |level| == width + width % 2
    && forall pos {:trigger level[pos]} :: 0 <= pos < |level| ==>
         level[pos] == Node(pair, leaves, h, if pos < width then pos else pos - 1)
  }

  lemma {:induction false} PairingGoesUp<H>(pair: (H, H) -> H, leaves: seq<H>, h: nat, level: seq<H>, next: seq<H>)
    requires IsEvenedLevel(pair, leaves, h, level)
    requires |next| == |level| / 2
    requires forall k :: 0 <= k < |next| ==> next[k] == pair(level[2 * k], level[2 * k + 1])
    ensures IsLevel(pair, leaves, h + 1, next)
  {
  }

  method EvenOut<H>(pair: (H, H) -> H, ghost leaves: seq<H>, ghost h: nat, level: seq<H>) returns (evened: seq<H>)
    requires IsLevel(pair, leaves, h, level) && |level| > 1
    ensures IsEvenedLevel(pair, leaves, h, evened)
  {
    evened := level;
    if |evened| % 2 != 0 {
      evened := evened + [evened[|evened| - 1]];
    }
  }

  /** The other index of the pair that `at` belongs to. */
  function SiblingIndex(at: int): int {
    if at % 2 == 0 then at + 1 else at - 1
  }

  /** It is in bounds in an evened level, holds the sibling clamped to the level, and has the same parent. */
  lemma {:induction false} SiblingInBounds<H>(pair: (H, H) -> H, leaves: seq<H>, h: nat, level: seq<H>, at: int)
    requires IsEvenedLevel(pair, leaves, h, level) && 0 <= at < Width(|leaves|, h)
    ensures 0 <= SiblingIndex(at) < |level| && SiblingIndex(at) / 2 == at / 2
    ensures var s := if at % 2 == 1 then at - 1 else if at + 1 < Width(|leaves|, h) then at + 1 else at;
      level[SiblingIndex(at)] == Node(pair, leaves, h, s)
  {
  }

  /** What the sibling index means for the path and the parent. */
  lemma {:induction false} SiblingExtendsPath<H>(pair: (H, H) -> H, leaves: seq<H>, h: nat, index: int, level: seq<H>, at: int)
    requires 0 <= index < |leaves| && at == Shift(index, h)
    requires IsEvenedLevel(pair, leaves, h, level) && 0 <= at < Width(|leaves|, h)
    ensures 0 <= SiblingIndex(at) < |level|
    ensures SiblingIndex(at) / 2 == Shift(index, h + 1) && 0 <= Shift(index, h + 1) < Width(|leaves|, h + 1)
    ensures PathAt(pair, leaves, h + 1, Shift(index, h + 1), index)
         == PathAt(pair, leaves, h, at, index) + [level[SiblingIndex(at)]]
  {
    SiblingInBounds(pair, leaves, h, level, at);
    PathGrows(pair, leaves, h, index, level[SiblingIndex(at)]);
  }

  /** What pairing up an evened level and halving an index come to. */
  lemma {:induction false} RoundMeaning<H>(pair: (H, H) -> H, leaves: seq<H>, h: nat, index: int, level: seq<H>, at: int, next: seq<H>)
    requires 0 <= index < |leaves| && at == Shift(index, h)
    requires IsEvenedLevel(pair, leaves, h, level) && 0 <= at < Width(|leaves|, h)
    requires |next| == |level| / 2
    requires forall k :: 0 <= k < |next| ==> next[k] == pair(level[2 * k], level[2 * k + 1])
    ensures IsLevel(pair, leaves, h + 1, next)
    ensures 0 <= SiblingIndex(at) < |level|
    ensures SiblingIndex(at) / 2 == Shift(index, h + 1) && 0 <= Shift(index, h + 1) < |next|
    ensures PathAt(pair, leaves, h + 1, Shift(index, h + 1), index)
         == PathAt(pair, leaves, h, at, index) + [level[SiblingIndex(at)]]
  {
    PairingGoesUp(pair, leaves, h, level, next);
    SiblingExtendsPath(pair, leaves, h, index, level, at);
  }

  /** One round of the loop: even out the level, pick the sibling, halve the index, pair up. */
  method ClimbLevel<H>(pair: (H, H) -> H, ghost leaves: seq<H>, ghost h: nat, ghost index: int,
                       level: seq<H>, at: int)
    returns (sibling: H, next: seq<H>, parent: int)
    requires 0 <= index < |leaves| && at == Shift(index, h)
    requires IsLevel(pair, leaves, h, level) && 0 <= at < |level| && |level| > 1
    ensures parent == Shift(index, h + 1) && 0 <= parent < |next|
    ensures IsLevel(pair, leaves, h + 1, next)
    ensures PathAt(pair, leaves, h + 1, parent, index) == PathAt(pair, leaves, h, at, index) + [sibling]
  {
    var workingHashes := EvenOut(pair, leaves, h, level);
    var workingIndex := at;
    if workingIndex % 2 == 0 {
      workingIndex := workingIndex + 1;
    } else {
      workingIndex := workingIndex - 1;
    }
    assert workingIndex == SiblingIndex(at);
    next := NextLevel(pair, workingHashes);
    RoundMeaning(pair, leaves, h, index, workingHashes, at, next);
    sibling := workingHashes[workingIndex];
    parent := workingIndex / 2;
  }

  /** The bottom-up loop computes the root and the branch of the top-down tree. */
  method CreateMerkleBranchAndRoot<H>(pair: (H, H) -> H, hashes: seq<H>, index: int)
    returns (merkle: seq<H>, root: H)
    requires 0 <= index < |hashes|
    ensures root == Root(pair, hashes)
    ensures merkle == Branch(pair, hashes, index)
  {
    var workingHashes := hashes;
    var workingIndex := index;
    merkle := [];
    ghost var h := 0;
    while |workingHashes| > 1
      invariant IsLevel(pair, hashes, h, workingHashes)
      invariant workingIndex == Shift(index, h) && 0 <= workingIndex < |workingHashes|
      invariant merkle == PathAt(pair, hashes, h, workingIndex, index)
      invariant h > 0 ==> Width(|hashes|, h - 1) > 1
      decreases |workingHashes|
    {
      var sibling, nextLevel, parent := ClimbLevel(pair, hashes, h, index, workingHashes, workingIndex);
      merkle := merkle + [sibling];
      workingHashes, workingIndex := nextLevel, parent;
      h := h + 1;
    }
    TopIsDepth(|hashes|, h);
    root := workingHashes[0];
  }

  method VerifyMerkleProof<H(==)>(pair: (H, H) -> H, txHash: H, proof: MerkleProof<H>) returns (ok: bool)
    ensures ok <==> Climb(pair, txHash, proof.path, proof.position) == proof.root
  {
    if |proof.path| == 0 {
      return txHash == proof.root;
    }
    var currentHash := txHash;
    var shifted := proof.position;
    for i := 0 to |proof.path|
      invariant shifted == Shift(proof.position, i)
      invariant currentHash == Climb(pair, txHash, proof.path[..i], proof.position)
    {
      assert proof.path[..i + 1][..i] == proof.path[..i];
      var isLeft := shifted % 2 == 0;
      if isLeft {
        currentHash := pair(currentHash, proof.path[i]);
      } else {
        currentHash := pair(proof.path[i], currentHash);
      }
      shifted := shifted / 2;
    }
    assert proof.path[..|proof.path|] == proof.path;
    return currentHash == proof.root;
  }

  datatype ProofError = InvalidPosition | BadTxid(at: nat)

  lemma {:induction false} DecodesOnce(parseTxid: string -> Option<Hash>, txids: seq<string>, a: seq<Hash>, b: seq<Hash>)
    requires |a| == |txids| && forall j :: 0 <= j < |txids| ==> parseTxid(txids[j]) == Some(a[j])
    requires |b| == |txids| && forall j :: 0 <= j < |txids| ==> parseTxid(txids[j]) == Some(b[j])
    ensures a == b
  {
    assert forall j :: 0 <= j < |txids| ==> Some(a[j]) == Some(b[j]);
  }

  /** All ids decoded in order, or the place of the first that is not a hash. */
  method DecodeTxids(parseTxid: string -> Option<Hash>, txids: seq<string>) returns (r: Result<seq<Hash>, nat>)
    ensures r.Ok? ==> |r.value| == |txids| && forall j :: 0 <= j < |txids| ==> parseTxid(txids[j]) == Some(r.value[j])
    ensures r.Err? ==>
      r.error < |txids| && parseTxid(txids[r.error]).None? && forall j :: 0 <= j < r.error ==> parseTxid(txids[j]).Some?
  {
    var hashes: seq<Hash> := [];
    for i := 0 to |txids|
      invariant |hashes| == i
      invariant forall j :: 0 <= j < i ==> parseTxid(txids[j]) == Some(hashes[j])
    {
      var parsed := parseTxid(txids[i]);
      if parsed.None? {
        return Err(i);
      }
      hashes := hashes + [parsed.value];
    }
    return Ok(hashes);
  }

  /** The transaction ids are decoded in order; the first one that is not a hash stops the build. An empty list has no
      valid position, so the program's second check never fires. */
  method CalculateMerkleProofPath(digest: Bytes -> Hash, parseTxid: string -> Option<Hash>,
                                  txids: seq<string>, txPosition: int)
    returns (r: Result<MerkleProof<Hash>, ProofError>)
    ensures r == Err(InvalidPosition) <==> !(0 <= txPosition < |txids|)
    ensures forall at: nat :: r == Err(BadTxid(at)) <==>
      && 0 <= txPosition < |txids| && at < |txids| && parseTxid(txids[at]).None?
      && forall j :: 0 <= j < at ==> parseTxid(txids[j]).Some?
    ensures r.Ok? ==>
      && (forall j :: 0 <= j < |txids| ==> parseTxid(txids[j]).Some?)
      && r.value.position == txPosition
      && Climb(HashPair(digest), parseTxid(txids[txPosition]).value, r.value.path, txPosition) == r.value.root
    ensures forall hashes: seq<Hash> ::
      r.Ok? && |hashes| == |txids| && (forall j :: 0 <= j < |txids| ==> parseTxid(txids[j]) == Some(hashes[j])) ==>
        && r.value.path == Branch(HashPair(digest), hashes, txPosition)
        && r.value.root == Root(HashPair(digest), hashes)
  {
    if txPosition < 0 || txPosition >= |txids| {
      return Err(InvalidPosition);
    }
    var decoded := DecodeTxids(parseTxid, txids);
    if decoded.Err? {
      return Err(BadTxid(decoded.error));
    }
    var hashes := decoded.value;
    BranchVerifies(HashPair(digest), hashes, txPosition);
    var path, root := CreateMerkleBranchAndRoot(HashPair(digest), hashes, txPosition);
    forall other: seq<Hash> | |other| == |txids| && forall j :: 0 <= j < |txids| ==> parseTxid(txids[j]) == Some(other[j])
      ensures other == hashes
    {
      DecodesOnce(parseTxid, txids, other, hashes);
    }
    return Ok(MerkleProof(txPosition, path, root));
  }

  /** Hashing the 64 bytes of two hashes. */
  function HashPair(digest: Bytes -> Hash): (Hash, Hash) -> Hash {
    (left: Hash, right: Hash) => digest(left + right)
  }

  /** The flat byte form of a path, as stored with a vault transaction. */
  function Flatten(path: seq<Hash>): (bytes: Bytes)
    ensures |bytes| == HASH_SIZE * |path|
  {
    if path == [] then [] else Flatten(path[..|path| - 1]) + path[|path| - 1]
  }

  method ConcatProofPath(proof: MerkleProof<Hash>) returns (path: Bytes)
    ensures path == Flatten(proof.path)
    ensures |path| == 32 * |proof.path| && forall i :: 0 <= i < |proof.path| ==> path[32 * i..32 * i + 32] == proof.path[i]
  {
    path := [];
    for i := 0 to |proof.path|
      invariant path == Flatten(proof.path[..i])
    {
      assert proof.path[..i + 1][..i] == proof.path[..i];
      path := path + proof.path[i];
    }
    assert proof.path[..|proof.path|] == proof.path;
    forall i | 0 <= i < |proof.path|
      ensures path[32 * i..32 * i + 32] == proof.path[i]
    {
      FlattenAt(proof.path, i);
    }
  }

  lemma {:induction false} FlattenAt(path: seq<Hash>, i: nat)
    requires i < |path|
    ensures Flatten(path)[32 * i..32 * i + 32] == path[i]
    decreases |path|
  {
    if i == |path| - 1 {
    } else {
      var init := path[..|path| - 1];
      FlattenAt(init, i);
      assert Flatten(path)[..32 * |init|] == Flatten(init);
      assert Flatten(path)[32 * i..32 * i + 32] == Flatten(init)[32 * i..32 * i + 32];
    }
  }

  /** Cutting a byte string into consecutive 32-byte pieces, from the front. */
  function Pieces(bytes: Bytes): (path: seq<Hash>) {
    if |bytes| < HASH_SIZE then [] else [bytes[..HASH_SIZE]] + Pieces(bytes[HASH_SIZE..])
  }

  lemma {:induction false} PiecesAppend(bytes: Bytes, last: Hash)
    requires |bytes| % HASH_SIZE == 0
    ensures Pieces(bytes + last) == Pieces(bytes) + [last]
  {
    if |bytes| < HASH_SIZE {
      assert bytes == [];
      assert bytes + last == last && last[..HASH_SIZE] == last;
      assert Pieces(last[HASH_SIZE..]) == [];
    } else {
      PiecesAppend(bytes[HASH_SIZE..], last);
      assert (bytes + last)[HASH_SIZE..] == bytes[HASH_SIZE..] + last;
      assert (bytes + last)[..HASH_SIZE] == bytes[..HASH_SIZE];
    }
  }

  /** Flattening loses nothing. */
  lemma {:induction false} FlattenRoundTrip(path: seq<Hash>)
    ensures Pieces(Flatten(path)) == path
    decreases |path|
  {
    if path == [] {
    } else {
      var init := path[..|path| - 1];
      FlattenRoundTrip(init);
      PiecesAppend(Flatten(init), path[|path| - 1]);
      assert path == init + [path[|path| - 1]];
    }
  }

  /** A proof that is flattened, stored and cut apart again still verifies. */
  lemma {:induction false} StoredProofVerifies(digest: Bytes -> Hash, hashes: seq<Hash>, index: int)
    requires 0 <= index < |hashes|
    ensures var pair := HashPair(digest);
      Climb(pair, hashes[index], Pieces(Flatten(Branch(pair, hashes, index))), index) == Root(pair, hashes)
  {
    var pair := HashPair(digest);
    FlattenRoundTrip(Branch(pair, hashes, index));
    BranchVerifies(pair, hashes, index);
  }

  lemma {:induction false} HalvesDetermined(a: Hash, b: Hash, c: Hash, d: Hash)
    requires a + b == c + d
    ensures a == c && b == d
  {
    assert a == (a + b)[..HASH_SIZE] && c == (c + d)[..HASH_SIZE];
    assert b == (a + b)[HASH_SIZE..] && d == (c + d)[HASH_SIZE..];
  }

  /** Two different pairs of hashes are two different 64-byte inputs: a collision of the pair is one of the digest. */
  lemma {:induction false} PairCollisionIsDigestCollision(digest: Bytes -> Hash, a: (Hash, Hash), b: (Hash, Hash))
    requires a != b && HashPair(digest)(a.0, a.1) == HashPair(digest)(b.0, b.1)
    ensures a.0 + a.1 != b.0 + b.1 && digest(a.0 + a.1) == digest(b.0 + b.1)
  {
    if a.0 + a.1 == b.0 + b.1 {
      HalvesDetermined(a.0, a.1, b.0, b.1);
    }
  }
}
