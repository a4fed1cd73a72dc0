/** The hash function, as a parameter: every theorem holds for every function with 32-byte digests. */
module Hashing {
  type Bytes = seq<bv8>

  const HASH_SIZE := 32

  function Zeros(x: Bytes): (d: Bytes)
    ensures |d| == HASH_SIZE
  {
    seq(HASH_SIZE, i => 0)
  }

  ghost predicate Wide(h: Bytes -> Bytes) {
    forall x :: |h(x)| == HASH_SIZE
  }

  type Hash = h: Bytes -> Bytes | Wide(h) witness x => Zeros(x)

  /** No two members of the finite set s share a digest. A digest is shorter than most inputs, so this
      can only be asked of the strings that were really hashed, never of all strings. */
  ghost predicate CollisionFree(h: Hash, s: set<Bytes>) {
    forall x, y | x in s && y in s && h(x) == h(y) :: x == y
  }

  lemma CollisionFreeSubset(h: Hash, s: set<Bytes>, t: set<Bytes>)
    requires CollisionFree(h, s) && t <= s
    ensures CollisionFree(h, t)
  {
  }
}

/** convex/aukoraMerkleLog.ts, the tree and the proof builders (RFC 6962 sections 2.1, 2.1.1 and 2.1.2). */
module MerkleLog {
  import opened Hashing
  import opened Bits

  function LeafInput(leaf: Bytes): Bytes { [0] + leaf }

  function NodeInput(l: Bytes, r: Bytes): Bytes { [1] + l + r }

  function LeafHash(h: Hash, leaf: Bytes): (d: Bytes)
    ensures |d| == HASH_SIZE
  {
    h(LeafInput(leaf))
  }

  function NodeHash(h: Hash, l: Bytes, r: Bytes): (d: Bytes)
    ensures |d| == HASH_SIZE
  {
    h(NodeInput(l, r))
  }

  function EmptyRoot(h: Hash): Bytes { h([]) }

  function SplitExp(n: nat): nat
    requires n >= 2
  {
    BitLen(n - 1) - 1
  }

  function SplitPoint(n: nat): nat
    requires n >= 2
  {
    Pow2(SplitExp(n))
  }

  lemma SplitBounds(n: nat)
    requires n >= 2
    ensures SplitPoint(n) < n <= 2 * SplitPoint(n)
    ensures SplitPoint(n) == Pow2(SplitExp(n))
  {
    BitLenBounds(n - 1);
  }

  /** The split point is the only power of two k with k < n <= 2k. */
  lemma SplitUnique(n: nat, j: nat)
    requires Pow2(j) < n <= 2 * Pow2(j)
    ensures SplitExp(n) == j
  {
    BitLenTop(n - 1, j);
  }

  lemma {:induction false} SplitOfPower(j: nat)
    requires j > 0
    ensures Pow2(j) >= 2 && SplitExp(Pow2(j)) == j - 1
  {
    SplitUnique(Pow2(j), j - 1);
  }

  /** The doubling loop of the source. */
  method ComputeSplitPoint(n: nat) returns (k: nat)
    requires n >= 2
    ensures k == SplitPoint(n)
  {
    k := 1;
    ghost var e := 0;
    while k * 2 < n
      invariant k == Pow2(e) && k < n
      decreases n - k
    {
      k := k * 2;
      e := e + 1;
    }
    SplitUnique(n, e);
  }

  /** Merkle tree hash over leaf hashes. */
  function RootHashes(h: Hash, hs: seq<Bytes>): Bytes
    decreases |hs|
  {
    if |hs| == 0 then EmptyRoot(h)
    else if |hs| == 1 then hs[0]
    else
      SplitBounds(|hs|);
      var k := SplitPoint(|hs|);
      NodeHash(h, RootHashes(h, hs[..k]), RootHashes(h, hs[k..]))
  }

  function LeafHashes(h: Hash, leaves: seq<Bytes>): (hs: seq<Bytes>)
    ensures |hs| == |leaves|
    ensures forall i | 0 <= i < |hs| :: hs[i] == LeafHash(h, leaves[i])
  {
    seq(|leaves|, i requires 0 <= i < |leaves| => LeafHash(h, leaves[i]))
  }

  function MerkleRoot(h: Hash, leaves: seq<Bytes>): Bytes {
    RootHashes(h, LeafHashes(h, leaves))
  }

  ghost predicate Digests(hs: seq<Bytes>) {
    forall i | 0 <= i < |hs| :: |hs[i]| == HASH_SIZE
  }

  lemma {:induction false} RootWidth(h: Hash, hs: seq<Bytes>)
    requires Digests(hs)
    ensures |RootHashes(h, hs)| == HASH_SIZE
  {
    if |hs| >= 2 { SplitBounds(|hs|); }
  }

  // ---- builders ----

  datatype Built = Proof(hashes: seq<Bytes>) | OutOfRange

  function Path(h: Hash, m: nat, hs: seq<Bytes>): seq<Bytes>
    requires m < |hs|
    decreases |hs|
  {
    if |hs| == 1 then []
    else
      SplitBounds(|hs|);
      var k := SplitPoint(|hs|);
      if m < k then Path(h, m, hs[..k]) + [RootHashes(h, hs[k..])]
      else Path(h, m - k, hs[k..]) + [RootHashes(h, hs[..k])]
  }

  /** The exception of the source is the value OutOfRange. */
  function InclusionProof(h: Hash, hs: seq<Bytes>, index: int): Built {
    if index < 0 || index >= |hs| then OutOfRange else Proof(Path(h, index, hs))
  }

  function Sub(h: Hash, m: nat, hs: seq<Bytes>, b: bool): seq<Bytes>
    requires 0 < m <= |hs|
    decreases |hs|
  {
    if m == |hs| then if b then [] else [RootHashes(h, hs)]
    else
      SplitBounds(|hs|);
      var k := SplitPoint(|hs|);
      if m <= k then Sub(h, m, hs[..k], b) + [RootHashes(h, hs[k..])]
      else Sub(h, m - k, hs[k..], false) + [RootHashes(h, hs[..k])]
  }

  function ConsistencyProof(h: Hash, hs: seq<Bytes>, size1: int, size2: int): Built {
    if size1 < 0 || size2 != |hs| || size1 > size2 then OutOfRange
    else if size1 == 0 || size1 == size2 then Proof([])
    else Proof(Sub(h, size1, hs, true))
  }

  // ---- what a root computation hashes ----

  /** Every string hashed while computing RootHashes(h, hs). */
  function RootInputs(h: Hash, hs: seq<Bytes>): set<Bytes>
    decreases |hs|
  {
    if |hs| == 0 then {[]}
    else if |hs| == 1 then {}
    else
      SplitBounds(|hs|);
      var k := SplitPoint(|hs|);
      {NodeInput(RootHashes(h, hs[..k]), RootHashes(h, hs[k..]))}
      + RootInputs(h, hs[..k]) + RootInputs(h, hs[k..])
  }

  function LeafInputs(leaves: seq<Bytes>): set<Bytes> {
    set i | 0 <= i < |leaves| :: LeafInput(leaves[i])
  }

  /** Every string hashed while computing MerkleRoot(h, leaves). */
  function MerkleInputs(h: Hash, leaves: seq<Bytes>): set<Bytes> {
    LeafInputs(leaves) + RootInputs(h, LeafHashes(h, leaves))
  }

  lemma NodeInputInjective(a: Bytes, b: Bytes, c: Bytes, d: Bytes)
    requires |a| == |c| && NodeInput(a, b) == NodeInput(c, d)
    ensures a == c && b == d
  {
    assert NodeInput(a, b)[1..] == a + b && NodeInput(c, d)[1..] == c + d;
    assert (a + b)[..|a|] == a && (c + d)[..|c|] == c;
    assert (a + b)[|a|..] == b && (c + d)[|c|..] == d;
  }

  /** A tree hash commits to its leaf hashes. */
  lemma {:induction false} RootCommits(h: Hash, xs: seq<Bytes>, ys: seq<Bytes>)
    requires Digests(xs) && Digests(ys) && |xs| == |ys|
    requires CollisionFree(h, RootInputs(h, xs) + RootInputs(h, ys))
    requires RootHashes(h, xs) == RootHashes(h, ys)
    ensures xs == ys
    decreases |xs|
  {
    if |xs| >= 2 {
      SplitBounds(|xs|);
      var k := SplitPoint(|xs|);
      RootWidth(h, xs[..k]);
      RootWidth(h, ys[..k]);
      NodeInputInjective(RootHashes(h, xs[..k]), RootHashes(h, xs[k..]),
                         RootHashes(h, ys[..k]), RootHashes(h, ys[k..]));
      RootCommits(h, xs[..k], ys[..k]);
      RootCommits(h, xs[k..], ys[k..]);
      assert xs == xs[..k] + xs[k..] && ys == ys[..k] + ys[k..];
    }
  }

  lemma LeafHashesCommit(h: Hash, xs: seq<Bytes>, ys: seq<Bytes>)
    requires CollisionFree(h, LeafInputs(xs) + LeafInputs(ys))
    requires LeafHashes(h, xs) == LeafHashes(h, ys)
    ensures xs == ys
  {
    forall i | 0 <= i < |xs|
      ensures xs[i] == ys[i]
    {
      assert LeafInput(xs[i]) in LeafInputs(xs) && LeafInput(ys[i]) in LeafInputs(ys);
      assert LeafHash(h, xs[i]) == LeafHashes(h, xs)[i] == LeafHashes(h, ys)[i] == LeafHash(h, ys[i]);
      assert LeafInput(xs[i])[1..] == xs[i] && LeafInput(ys[i])[1..] == ys[i];
    }
    assert |xs| == |LeafHashes(h, xs)| == |ys|;
  }

  /** What is hashed for the two halves is hashed for the whole. */
  lemma HalvesHashed(h: Hash, xs: seq<Bytes>)
    requires |xs| >= 2
    ensures var k := SplitPoint(|xs|);
      k < |xs| && MerkleRoot(h, xs) == NodeHash(h, MerkleRoot(h, xs[..k]), MerkleRoot(h, xs[k..]))
      && NodeInput(MerkleRoot(h, xs[..k]), MerkleRoot(h, xs[k..])) in MerkleInputs(h, xs)
      && MerkleInputs(h, xs[..k]) <= MerkleInputs(h, xs) && MerkleInputs(h, xs[k..]) <= MerkleInputs(h, xs)
  {
    SplitBounds(|xs|);
    var k, hs := SplitPoint(|xs|), LeafHashes(h, xs);
    assert LeafHashes(h, xs[..k]) == hs[..k] && LeafHashes(h, xs[k..]) == hs[k..];
    hide LeafInput;
    assert LeafInputs(xs[..k]) <= LeafInputs(xs);
    forall i | 0 <= i < |xs[k..]|
      ensures LeafInput(xs[k..][i]) in LeafInputs(xs)
    {
      assert xs[k..][i] == xs[k + i];
    }
  }

  /** The string hashed last for a Merkle root: its first byte, or its absence, tells an inner node from a leaf from the
      empty tree. */
  function TopInput(h: Hash, xs: seq<Bytes>): (t: Bytes)
    ensures t in MerkleInputs(h, xs) && h(t) == MerkleRoot(h, xs)
    ensures |xs| == 0 ==> t == []
    ensures |xs| == 1 ==> t == LeafInput(xs[0])
    ensures |xs| >= 2 ==> |t| == 1 + 2 * HASH_SIZE && t[0] == 1
  {
    if |xs| == 0 then []
    else if |xs| == 1 then
      assert LeafInput(xs[0]) in LeafInputs(xs);
      LeafInput(xs[0])
    else
      HalvesHashed(h, xs);
      var k := SplitPoint(|xs|);
      RootWidth(h, LeafHashes(h, xs[..k]));
      RootWidth(h, LeafHashes(h, xs[k..]));
      NodeInput(MerkleRoot(h, xs[..k]), MerkleRoot(h, xs[k..]))
  }

  /** A Merkle root commits to its leaves, their number included: equal roots over any two lists mean equal lists. */
  lemma {:induction false} MerkleRootCommits(h: Hash, xs: seq<Bytes>, ys: seq<Bytes>)
    requires CollisionFree(h, MerkleInputs(h, xs) + MerkleInputs(h, ys))
    requires MerkleRoot(h, xs) == MerkleRoot(h, ys)
    ensures xs == ys
    decreases |xs|
  {
    hide MerkleRoot, MerkleInputs;
    assert TopInput(h, xs) == TopInput(h, ys);
    if |xs| == 1 {
      assert LeafInput(xs[0])[1..] == xs[0] && LeafInput(ys[0])[1..] == ys[0];
    } else if |xs| >= 2 {
      assert |ys| >= 2;
      HalvesHashed(h, xs);
      HalvesHashed(h, ys);
      var k, l := SplitPoint(|xs|), SplitPoint(|ys|);
      hide *;
      HalvesCommit(h, xs, ys, k, l);
      MerkleRootCommits(h, xs[..k], ys[..l]);
      MerkleRootCommits(h, xs[k..], ys[l..]);
      assert xs == xs[..k] + xs[k..] && ys == ys[..l] + ys[l..];
    }
  }

  lemma HalvesCommit(h: Hash, xs: seq<Bytes>, ys: seq<Bytes>, k: nat, l: nat)
    requires 2 <= |xs| && 2 <= |ys| && k == SplitPoint(|xs|) < |xs| && l == SplitPoint(|ys|) < |ys|
    requires CollisionFree(h, MerkleInputs(h, xs) + MerkleInputs(h, ys)) && MerkleRoot(h, xs) == MerkleRoot(h, ys)
    ensures MerkleRoot(h, xs[..k]) == MerkleRoot(h, ys[..l]) && MerkleRoot(h, xs[k..]) == MerkleRoot(h, ys[l..])
    ensures CollisionFree(h, MerkleInputs(h, xs[..k]) + MerkleInputs(h, ys[..l]))
    ensures CollisionFree(h, MerkleInputs(h, xs[k..]) + MerkleInputs(h, ys[l..]))
  {
    HalvesHashed(h, xs);
    HalvesHashed(h, ys);
    RootWidth(h, LeafHashes(h, xs[..k]));
    RootWidth(h, LeafHashes(h, ys[..l]));
    NodeInputInjective(MerkleRoot(h, xs[..k]), MerkleRoot(h, xs[k..]), MerkleRoot(h, ys[..l]), MerkleRoot(h, ys[l..]));
    hide MerkleInputs, SplitPoint, NodeInput;
  }

  // ---- the tree hash of the standard ----

  /** The largest power of two smaller than n, by halving. */
  function HalfSize(n: nat): (k: nat)
    requires n >= 2
    ensures k < n <= 2 * k
  {
    if n == 2 then 1 else 2 * HalfSize((n + 1) / 2)
  }

  lemma {:induction false} HalfSizeIsSplit(n: nat) returns (j: nat)
    requires n >= 2
    ensures HalfSize(n) == Pow2(j) && SplitPoint(n) == HalfSize(n)
    decreases n
  {
    if n == 2 {
      j := 0;
    } else {
      j := HalfSizeIsSplit((n + 1) / 2);
      j := j + 1;
    }
    assert HalfSize(n) == Pow2(j);
    SplitUnique(n, j);
  }

  /** MTH of section 2.1 of RFC 6962, over the entries themselves. */
  function TreeHash(h: Hash, d: seq<Bytes>): Bytes
    decreases |d|
  {
    if |d| == 0 then h([])
    else if |d| == 1 then h([0x00] + d[0])
    else
      var k := HalfSize(|d|);
      h([0x01] + TreeHash(h, d[..k]) + TreeHash(h, d[k..]))
  }

  /** The Merkle root is that hash. */
  lemma {:induction false} RootIsTreeHash(h: Hash, leaves: seq<Bytes>)
    ensures MerkleRoot(h, leaves) == TreeHash(h, leaves)
    decreases |leaves|
  {
    if |leaves| >= 2 {
      HalvesHashed(h, leaves);
      var j := HalfSizeIsSplit(|leaves|);
      var k := HalfSize(|leaves|);
      hide MerkleRoot, MerkleInputs, SplitPoint, HalfSize;
      RootIsTreeHash(h, leaves[..k]);
      RootIsTreeHash(h, leaves[k..]);
    }
  }
}
