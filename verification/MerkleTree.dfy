/** Binary hash trees over zero-padded leaf vectors with a committed leaf count. */
module MerkleTree {
  import opened Modular
  import opened Bytes

  const ZERO_WORD: B256 := Zeros(32)

  function Node(t: B256, left: B256, right: B256): Bytes
  {
    t + left + right
  }

  /** The root of the full subtree over the 2^depth leaves from `lo` on, top down. */
  function Merkle(h: Hash, t: B256, leaves: seq<B256>, lo: nat, depth: nat): B256
    requires lo + Exp2(depth) <= |leaves|
    decreases depth
  {
    if depth == 0 then leaves[lo]
    else h(Node(t, Merkle(h, t, leaves, lo, depth - 1), Merkle(h, t, leaves, lo + Exp2(depth - 1), depth - 1)))
  }

  /** Every string hashed inside the subtree. */
  ghost function Nodes(h: Hash, t: B256, leaves: seq<B256>, lo: nat, depth: nat): set<Bytes>
    requires lo + Exp2(depth) <= |leaves|
    decreases depth
  {
    if depth == 0 then {}
    else
      var mid := lo + Exp2(depth - 1);
      {Node(t, Merkle(h, t, leaves, lo, depth - 1), Merkle(h, t, leaves, mid, depth - 1))}
      + Nodes(h, t, leaves, lo, depth - 1) + Nodes(h, t, leaves, mid, depth - 1)
  }

  ghost predicate SameLeaves(a: seq<B256>, b: seq<B256>, lo: nat, hi: nat)
    requires hi <= |a| && hi <= |b|
  {
    forall i :: lo <= i < hi ==> a[i] == b[i]
  }

  lemma SameLeavesJoin(a: seq<B256>, b: seq<B256>, lo: nat, mid: nat, hi: nat)
    requires lo <= mid <= hi <= |a| && hi <= |b| && SameLeaves(a, b, lo, mid) && SameLeaves(a, b, mid, hi)
    ensures SameLeaves(a, b, lo, hi)
  {
  }

  /** Every string hashed inside the subtree is in p. */
  ghost predicate NodesIn(h: Hash, t: B256, leaves: seq<B256>, lo: nat, depth: nat, p: set<Bytes>)
    requires lo + Exp2(depth) <= |leaves|
    decreases depth
  {
    depth > 0 ==>
      var mid := lo + Exp2(depth - 1);
      && Node(t, Merkle(h, t, leaves, lo, depth - 1), Merkle(h, t, leaves, mid, depth - 1)) in p
      && NodesIn(h, t, leaves, lo, depth - 1, p) && NodesIn(h, t, leaves, mid, depth - 1, p)
  }

  lemma {:induction false} NodesAreIn(h: Hash, t: B256, leaves: seq<B256>, lo: nat, depth: nat, p: set<Bytes>)
    requires lo + Exp2(depth) <= |leaves| && Nodes(h, t, leaves, lo, depth) <= p
    ensures NodesIn(h, t, leaves, lo, depth, p)
    decreases depth
  {
    if depth > 0 {
      NodesAreIn(h, t, leaves, lo, depth - 1, p);
      NodesAreIn(h, t, leaves, lo + Exp2(depth - 1), depth - 1, p);
    }
  }

  lemma ChildRoots(h: Hash, t: B256, a: seq<B256>, b: seq<B256>, lo: nat, depth: nat, p: set<Bytes>, q: set<Bytes>)
    requires depth > 0 && lo + Exp2(depth) <= |a| && lo + Exp2(depth) <= |b|
    requires Merkle(h, t, a, lo, depth) == Merkle(h, t, b, lo, depth)
    requires NodesIn(h, t, a, lo, depth, p) && NodesIn(h, t, b, lo, depth, q) && !Collide(h, p, q)
    ensures Merkle(h, t, a, lo, depth - 1) == Merkle(h, t, b, lo, depth - 1)
    ensures var mid := lo + Exp2(depth - 1); Merkle(h, t, a, mid, depth - 1) == Merkle(h, t, b, mid, depth - 1)
  {
    var mid := lo + Exp2(depth - 1);
    var al, ar := Merkle(h, t, a, lo, depth - 1), Merkle(h, t, a, mid, depth - 1);
    var bl, br := Merkle(h, t, b, lo, depth - 1), Merkle(h, t, b, mid, depth - 1);
    EqualOrCollide(h, Node(t, al, ar), Node(t, bl, br), p, q);
    NodeInjective(t, al, ar, bl, br);
  }

  /** Equal roots over equally many leaves come from equal leaves, when no hashed strings collide. */
  lemma {:induction false} MerkleBinding(h: Hash, t: B256, a: seq<B256>, b: seq<B256>, lo: nat, depth: nat,
                                         p: set<Bytes>, q: set<Bytes>)
    requires lo + Exp2(depth) <= |a| && lo + Exp2(depth) <= |b|
    requires Merkle(h, t, a, lo, depth) == Merkle(h, t, b, lo, depth)
    requires NodesIn(h, t, a, lo, depth, p) && NodesIn(h, t, b, lo, depth, q) && !Collide(h, p, q)
    ensures SameLeaves(a, b, lo, lo + Exp2(depth))
    decreases depth
  {
    if depth == 0 {
      assert Exp2(0) == 1;
    } else {
      var mid := lo + Exp2(depth - 1);
      ChildRoots(h, t, a, b, lo, depth, p, q);
      MerkleBinding(h, t, a, b, lo, depth - 1, p, q);
      MerkleBinding(h, t, a, b, mid, depth - 1, p, q);
      SameLeavesJoin(a, b, lo, mid, lo + Exp2(depth));
    }
  }

  lemma NodeInjective(t: B256, a: B256, b: B256, c: B256, d: B256)
    requires Node(t, a, b) == Node(t, c, d)
    ensures a == c && b == d
  {
    SplitEqual(t + a, b, t + c, d);
    SplitEqual(t, a, t, c);
  }

  /** One round of pairwise hashing. */
  function Level(h: Hash, t: B256, leaves: seq<B256>): (r: seq<B256>)
    ensures |r| == |leaves| / 2
  {
    seq<B256>(|leaves| / 2, i requires 0 <= i < |leaves| / 2 => h(Node(t, leaves[i + i], leaves[i + i + 1])))
  }

  /** A round of pairwise hashing keeps every subtree root. */
  lemma {:induction false} LevelKeepsRoot(h: Hash, t: B256, leaves: seq<B256>, lo: nat, depth: nat)
    requires lo + Exp2(depth) <= |leaves| / 2
    ensures Merkle(h, t, Level(h, t, leaves), lo, depth) == Merkle(h, t, leaves, lo + lo, depth + 1)
    decreases depth
  {
    if depth == 0 {
      assert Exp2(0) == 1 && Exp2(1) == 2;
    } else {
      LevelKeepsRoot(h, t, leaves, lo, depth - 1);
      LevelKeepsRoot(h, t, leaves, lo + Exp2(depth - 1), depth - 1);
    }
  }

  /** The exponent of the least power of two that is at least n. */
  function Depth(n: nat): (d: nat)
    ensures n <= Exp2(d) && (d > 0 ==> Exp2(d - 1) < n)
  {
    if n <= 1 then 0
    else
      var d := Depth((n + 1) / 2);
      d + 1
  }

  function Padded(leaves: seq<B256>): (r: seq<B256>)
    ensures |r| == Exp2(Depth(|leaves|)) && leaves <= r
  {
    leaves + seq<B256>(Exp2(Depth(|leaves|)) - |leaves|, i => ZERO_WORD)
  }

  function Committed(h: Hash, tag: Bytes, leaves: seq<B256>): Bytes
  {
    tag + ToBE(|leaves|, 8) + Merkle(h, h(tag), Padded(leaves), 0, Depth(|leaves|))
  }

  function TreeRoot(h: Hash, tag: Bytes, leaves: seq<B256>): B256
  {
    h(Committed(h, tag, leaves))
  }

  /** The halving loop computes the root of the full tree. */
  method HashLevels(h: Hash, t: B256, leaves: seq<B256>, ghost depth: nat) returns (r: B256)
    requires |leaves| == Exp2(depth)
    ensures r == Merkle(h, t, leaves, 0, depth)
  {
    var rows := leaves;
    ghost var d := depth;
    while |rows| > 1
      invariant |rows| == Exp2(d)
      invariant Merkle(h, t, rows, 0, d) == Merkle(h, t, leaves, 0, depth)
      decreases |rows|
    {
      assert |rows| == Exp2(d - 1) + Exp2(d - 1);
      LevelKeepsRoot(h, t, rows, 0, d - 1);
      rows := Level(h, t, rows);
      d := d - 1;
    }
    assert d == 0;
    r := rows[0];
  }

  method ComputeTreeRoot(h: Hash, tag: Bytes, leaves: seq<B256>) returns (r: B256)
    ensures r == TreeRoot(h, tag, leaves)
  {
    var rows: seq<B256> := if leaves == [] then [ZERO_WORD] else Padded(leaves);
    assert rows == Padded(leaves);
    var top := HashLevels(h, h(tag), rows, Depth(|leaves|));
    r := h(tag + ToBE(|leaves|, 8) + top);
  }

  ghost function TreePreimages(h: Hash, tag: Bytes, leaves: seq<B256>): set<Bytes>
  {
    {Committed(h, tag, leaves)} + Nodes(h, h(tag), Padded(leaves), 0, Depth(|leaves|))
  }

  /** Equal tree roots commit to the same leaves in the same order and number, when no hashed strings collide. */
  lemma TreeBinding(h: Hash, tag: Bytes, a: seq<B256>, b: seq<B256>, p: set<Bytes>, q: set<Bytes>)
    requires |a| < TWO_64 && |b| < TWO_64 && TreeRoot(h, tag, a) == TreeRoot(h, tag, b)
    requires TreePreimages(h, tag, a) <= p && TreePreimages(h, tag, b) <= q && !Collide(h, p, q)
    ensures a == b
  {
    assert Committed(h, tag, a) in TreePreimages(h, tag, a) && Committed(h, tag, b) in TreePreimages(h, tag, b);
    EqualOrCollide(h, Committed(h, tag, a), Committed(h, tag, b), p, q);
    var x, y := Merkle(h, h(tag), Padded(a), 0, Depth(|a|)), Merkle(h, h(tag), Padded(b), 0, Depth(|b|));
    SplitEqual(tag + ToBE(|a|, 8), x, tag + ToBE(|b|, 8), y);
    SplitEqual(tag, ToBE(|a|, 8), tag, ToBE(|b|, 8));
    Widths();
    EncodeInjective(|a|, |b|, 8);
    NodesAreIn(h, h(tag), Padded(a), 0, Depth(|a|), p);
    NodesAreIn(h, h(tag), Padded(b), 0, Depth(|b|), q);
    MerkleBinding(h, h(tag), Padded(a), Padded(b), 0, Depth(|a|), p, q);
    assert a == Padded(a)[..|a|] && b == Padded(b)[..|b|];
  }
}
