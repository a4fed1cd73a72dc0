/** convex/aukoraMerkleLog.ts, the proof verifiers, and what their verdicts mean
    (RFC 9162 sections 2.1.3.2 and 2.1.4.2). */
module MerkleProofs {
  import opened Hashing
  import opened Bits
  import opened MerkleLog
  import opened MerkleWalk

  datatype Option<+T> = None | Some(value: T)

  // ---- the verdicts as functions ----

  function InclusionTerm(index: nat, size: nat, lh: Bytes, proof: seq<Bytes>): Option<Term> {
    if index >= size || |lh| != HASH_SIZE then None
    else
      var inner, border := Inner(index + 1, size), BorderLen(index + 1, size);
      if |proof| != inner + border || !AllDigests(proof) then None
      else Some(Border(Climb(false, Given(lh), proof[..inner], index), proof[inner..]))
  }

  predicate AllDigests(proof: seq<Bytes>)
    ensures AllDigests(proof) <==> Digests(proof)
  {
    forall i | 0 <= i < |proof| :: |proof[i]| == HASH_SIZE
  }

  predicate VerifyInclusion(h: Hash, index: int, size: int, lh: Bytes, proof: seq<Bytes>, root: Bytes) {
    0 <= index && 0 <= size
    && var t := InclusionTerm(index, size, lh, proof);
    t.Some? && Eval(h, t.value) == root
  }

  /** Both roots, as rebuilt from the proof. */
  datatype Rebuilt = Rebuilt(older: Term, newer: Term)

  /** The seed of both chains: root1 itself when size1 is a power of two, else the first proof hash. */
  function Start(size1: nat): nat {
    if size1 == Pow2(TrailingZeros(size1)) then 0 else 1
  }

  function ConsistencyTerms(size1: nat, size2: nat, proof: seq<Bytes>, root1: Bytes): Option<Rebuilt> {
    if size2 < size1 then None
    else if size1 == size2 then if |proof| > 0 then None else Some(Rebuilt(Given(root1), Given(root1)))
    else if size1 == 0 || proof == [] || |root1| != HASH_SIZE || !AllDigests(proof) then None
    else
      AlignedTrailing(size1);
      var shift := TrailingZeros(size1);
      WalkLenIsBitCount(shift, size1, size2);
      var inner, border := Inner(size1, size2) - shift, BorderLen(size1, size2);
      var start := Start(size1);
      var seed := Given(if start == 0 then root1 else proof[0]);
      if |proof| != start + inner + border then None
      else
        var p, mask := proof[start..], Shr(size1 - 1, shift);
        Some(Rebuilt(Border(Climb(true, seed, p[..inner], mask), p[inner..]),
                     Border(Climb(false, seed, p[..inner], mask), p[inner..])))
  }

  predicate VerifyConsistency(h: Hash, size1: int, size2: int, proof: seq<Bytes>, root1: Bytes, root2: Bytes) {
    0 <= size1 && 0 <= size2
    && var t := ConsistencyTerms(size1, size2, proof, root1);
    t.Some? && Eval(h, t.value.older) == root1 && Eval(h, t.value.newer) == root2
  }

  /** Every string the verifier hashes. */
  function ConsistencyInputs(h: Hash, size1: int, size2: int, proof: seq<Bytes>, root1: Bytes): set<Bytes> {
    if size1 < 0 || size2 < 0 then {}
    else
      var t := ConsistencyTerms(size1, size2, proof, root1);
      if t.None? then {} else Inputs(h, t.value.older) + Inputs(h, t.value.newer)
  }

  function InclusionInputs(h: Hash, index: int, size: int, lh: Bytes, proof: seq<Bytes>): set<Bytes> {
    if index < 0 || size < 0 then {}
    else
      var t := InclusionTerm(index, size, lh, proof);
      if t.None? then {} else Inputs(h, t.value)
  }

  // ---- the loops of the source ----

  method ChainInner(h: Hash, seed: Bytes, proof: seq<Bytes>, index: nat) returns (s: Bytes)
    ensures s == Eval(h, Climb(false, Given(seed), proof, index))
  {
    s := seed;
    for i := 0 to |proof|
      invariant s == Eval(h, Climb(false, Given(seed), proof[..i], index))
    {
      assert proof[..i + 1][..i] == proof[..i];
      s := if Bit(index, i) == 0 then NodeHash(h, s, proof[i]) else NodeHash(h, proof[i], s);
    }
    assert proof[..|proof|] == proof;
  }

  method ChainInnerRight(h: Hash, seed: Bytes, proof: seq<Bytes>, index: nat) returns (s: Bytes)
    ensures s == Eval(h, Climb(true, Given(seed), proof, index))
  {
    s := seed;
    for i := 0 to |proof|
      invariant s == Eval(h, Climb(true, Given(seed), proof[..i], index))
    {
      assert proof[..i + 1][..i] == proof[..i];
      if Bit(index, i) == 1 { s := NodeHash(h, proof[i], s); }
    }
    assert proof[..|proof|] == proof;
  }

  method ChainBorderRight(h: Hash, seed: Bytes, ghost t: Term, proof: seq<Bytes>) returns (s: Bytes)
    requires seed == Eval(h, t)
    ensures s == Eval(h, Border(t, proof))
  {
    s := seed;
    for i := 0 to |proof|
      invariant s == Eval(h, Border(t, proof[..i]))
    {
      assert proof[..i + 1][..i] == proof[..i];
      s := NodeHash(h, proof[i], s);
    }
    assert proof[..|proof|] == proof;
  }

  method DecompInclProof(index: nat, size: nat) returns (inner: nat, border: nat)
    requires index < size
    ensures inner == Inner(index + 1, size) && border == BorderLen(index + 1, size)
  {
    inner := Len64(Xor(index, size - 1));
    border := OnesCount(Shr(index, inner));
  }

  method RootFromInclusionProof(h: Hash, index: nat, size: nat, lh: Bytes, proof: seq<Bytes>) returns (r: Option<Bytes>)
    ensures var t := InclusionTerm(index, size, lh, proof);
      r == if t.None? then None else Some(Eval(h, t.value))
  {
    if index >= size { return None; }
    if |lh| != HASH_SIZE { return None; }
    var inner, border := DecompInclProof(index, size);
    if |proof| != inner + border { return None; }
    if !AllDigests(proof) { return None; }
    var res := ChainInner(h, lh, proof[..inner], index);
    res := ChainBorderRight(h, res, Climb(false, Given(lh), proof[..inner], index), proof[inner..]);
    return Some(res);
  }

  method RootFromConsistencyProof(h: Hash, size1: nat, size2: nat, proof: seq<Bytes>, root1: Bytes) returns (r: Option<Bytes>)
    ensures var t := ConsistencyTerms(size1, size2, proof, root1);
      r == if t.None? || Eval(h, t.value.older) != root1 then None else Some(Eval(h, t.value.newer))
  {
    hide Climb, Border, Shr, WalkLen, Inner, BorderLen, Aligned, Xor, Ones, BitLen;
    if size2 < size1 { return None; }
    if size1 == size2 { return if |proof| > 0 then None else Some(root1); }
    if size1 == 0 { return None; }
    if proof == [] { return None; }
    if |root1| != HASH_SIZE || !AllDigests(proof) { return None; }
    var inner, border := DecompInclProof(size1 - 1, size2);
    var shift := CountTrailingZeros(size1);
    AlignedTrailing(size1);
    WalkLenIsBitCount(shift, size1, size2);
    inner := inner - shift;
    var seed, start := proof[0], 1;
    if size1 == Pow2(shift) { seed, start := root1, 0; }
    if |proof| != start + inner + border { return None; }
    var p, mask := proof[start..], Shr(size1 - 1, shift);
    var hash1 := ChainInnerRight(h, seed, p[..inner], mask);
    hash1 := ChainBorderRight(h, hash1, Climb(true, Given(seed), p[..inner], mask), p[inner..]);
    if hash1 != root1 { return None; }
    var hash2 := ChainInner(h, seed, p[..inner], mask);
    hash2 := ChainBorderRight(h, hash2, Climb(false, Given(seed), p[..inner], mask), p[inner..]);
    return Some(hash2);
  }

  method CheckInclusion(h: Hash, index: int, size: int, lh: Bytes, proof: seq<Bytes>, root: Bytes) returns (ok: bool)
    ensures ok == VerifyInclusion(h, index, size, lh, proof, root)
  {
    if index < 0 || size < 0 { return false; }
    var res := RootFromInclusionProof(h, index, size, lh, proof);
    return res.Some? && res.value == root;
  }

  method CheckConsistency(h: Hash, size1: int, size2: int, proof: seq<Bytes>, root1: Bytes, root2: Bytes) returns (ok: bool)
    ensures ok == VerifyConsistency(h, size1, size2, proof, root1, root2)
  {
    if size1 < 0 || size2 < 0 { return false; }
    var res := RootFromConsistencyProof(h, size1, size2, proof, root1);
    return res.Some? && res.value == root2;
  }

  // ---- the builders in terms of the walk ----

  /** Sibling hashes on the way from the block of 2^t leaves ending at m to the root. */
  function Siblings(h: Hash, t: nat, m: nat, hs: seq<Bytes>): (p: seq<Bytes>)
    requires 0 < m <= |hs|
    ensures |p| == WalkLen(t, m, |hs|)
    decreases |hs|
  {
    if |hs| <= Pow2(t) then []
    else
      SplitBounds(|hs|);
      var k := SplitPoint(|hs|);
      if m <= k then Siblings(h, t, m, hs[..k]) + [RootHashes(h, hs[k..])]
      else Siblings(h, t, m - k, hs[k..]) + [RootHashes(h, hs[..k])]
  }

  lemma {:induction false} SiblingsWidth(h: Hash, t: nat, m: nat, hs: seq<Bytes>)
    requires 0 < m <= |hs| && Digests(hs)
    ensures Digests(Siblings(h, t, m, hs))
    decreases |hs|
  {
    hide RootHashes, SplitExp, SplitPoint, Pow2;
    if |hs| > Pow2(t) {
      SplitBounds(|hs|);
      var k := SplitPoint(|hs|);
      RootWidth(h, hs[..k]);
      RootWidth(h, hs[k..]);
      if m <= k { SiblingsWidth(h, t, m, hs[..k]); } else { SiblingsWidth(h, t, m - k, hs[k..]); }
    }
  }

  lemma {:induction false} PathIsSiblings(h: Hash, m: nat, hs: seq<Bytes>)
    requires m < |hs|
    ensures Path(h, m, hs) == Siblings(h, 0, m + 1, hs)
    decreases |hs|
  {
    hide RootHashes, SplitExp, SplitPoint;
    assert Pow2(0) == 1;
    if |hs| > 1 {
      SplitBounds(|hs|);
      var k := SplitPoint(|hs|);
      if m < k { PathIsSiblings(h, m, hs[..k]); } else { PathIsSiblings(h, m - k, hs[k..]); }
    }
  }

  /** Block(m): the largest aligned block of leaves that ends at m. */
  function Block(m: nat, hs: seq<Bytes>): seq<Bytes>
    requires 0 < m <= |hs|
  {
    AlignedTrailing(m);
    hs[m - Pow2(TrailingZeros(m))..m]
  }

  lemma {:induction false} SubIsSiblings(h: Hash, m: nat, hs: seq<Bytes>, b: bool, j: nat)
    requires 0 < m <= |hs|
    requires m < |hs| || m == Pow2(j)
    ensures Sub(h, m, hs, b) ==
      (if b && Start(m) == 0 then [] else [RootHashes(h, Block(m, hs))]) + Siblings(h, TrailingZeros(m), m, hs)
    decreases |hs|
  {
    hide RootHashes, SplitExp, SplitPoint;
    if m == |hs| {
      TrailingZerosPow(j);
      assert hs[0..m] == hs;
    } else {
      SplitBounds(|hs|);
      var e, k := SplitExp(|hs|), SplitPoint(|hs|);
      if m <= k {
        SubIsSiblings(h, m, hs[..k], b, e);
        SubLeft(h, m, hs, b);
      } else {
        SubIsSiblings(h, m - k, hs[k..], false, j);
        SubRight(h, m, hs, b);
      }
    }
  }

  lemma SubLeft(h: Hash, m: nat, hs: seq<Bytes>, b: bool)
    requires |hs| >= 2 && 0 < m <= SplitPoint(|hs|) < |hs|
    requires var k := SplitPoint(|hs|);
      Sub(h, m, hs[..k], b)
      == (if b && Start(m) == 0 then [] else [RootHashes(h, Block(m, hs[..k]))]) + Siblings(h, TrailingZeros(m), m, hs[..k])
    ensures Sub(h, m, hs, b) ==
      (if b && Start(m) == 0 then [] else [RootHashes(h, Block(m, hs))]) + Siblings(h, TrailingZeros(m), m, hs)
  {
    var k, t := SplitPoint(|hs|), TrailingZeros(m);
    BlockLeft(m, hs, k);
    hide RootHashes, SplitExp, SplitPoint, Pow2, TrailingZeros, Block, Start;
    assert Sub(h, m, hs, b) == Sub(h, m, hs[..k], b) + [RootHashes(h, hs[k..])];
    hide Sub;
    SiblingsLeft(h, t, m, hs, k);
    hide Siblings;
  }

  lemma BlockLeft(m: nat, hs: seq<Bytes>, k: nat)
    requires 0 < m <= k < |hs|
    ensures Pow2(TrailingZeros(m)) < |hs| && Block(m, hs[..k]) == Block(m, hs)
  {
    var p := Pow2(TrailingZeros(m));
    AlignedTrailing(m);
    hide Pow2, TrailingZeros;
    assert hs[..k][m - p..m] == hs[m - p..m];
  }

  lemma SubRight(h: Hash, m: nat, hs: seq<Bytes>, b: bool)
    requires |hs| >= 2 && SplitPoint(|hs|) < m < |hs|
    requires var k := SplitPoint(|hs|);
      Sub(h, m - k, hs[k..], false)
      == [RootHashes(h, Block(m - k, hs[k..]))] + Siblings(h, TrailingZeros(m - k), m - k, hs[k..])
    ensures Sub(h, m, hs, b) ==
      (if b && Start(m) == 0 then [] else [RootHashes(h, Block(m, hs))]) + Siblings(h, TrailingZeros(m), m, hs)
  {
    var k, t := SplitPoint(|hs|), TrailingZeros(m);
    BlockRight(h, m, hs, k);
    hide RootHashes, SplitExp, SplitPoint, Pow2, TrailingZeros, Block, Start;
    assert Sub(h, m, hs, b) == Sub(h, m - k, hs[k..], false) + [RootHashes(h, hs[..k])];
    SiblingsRight(h, t, m, hs, k);
  }

  lemma BlockRight(h: Hash, m: nat, hs: seq<Bytes>, k: nat)
    requires |hs| >= 2 && k == SplitPoint(|hs|) < m < |hs|
    ensures TrailingZeros(m - k) == TrailingZeros(m) && Start(m) == 1 && Pow2(TrailingZeros(m)) < |hs|
    ensures Block(m - k, hs[k..]) == Block(m, hs)
  {
    var e, t := SplitExp(|hs|), TrailingZeros(m);
    SplitBounds(|hs|);
    TrailingZerosSub(m, e);
    Pow2Monotone(t, e);
    AlignedTrailing(m - k);
    AlignedTrailing(m);
    assert hs[k..][m - k - Pow2(t)..m - k] == hs[m - Pow2(t)..m];
  }

  /** Walking up from the hash x of the block of 2^t leaves that ends at m gives the root or, in the
      older reading, the root of the first m leaves. */
  ghost predicate Rebuilds(h: Hash, older: bool, t: nat, m: nat, hs: seq<Bytes>, x: Bytes)
    requires 0 < m <= |hs|
  {
    Eval(h, Walk(older, t, m, |hs|, Given(x), Siblings(h, t, m, hs))) == RootHashes(h, if older then hs[..m] else hs)
  }

  lemma {:induction false} WalkRebuilds(h: Hash, older: bool, t: nat, m: nat, hs: seq<Bytes>, x: Bytes)
    requires 0 < m <= |hs| && Aligned(m, t)
    requires Pow2(t) <= m && x == RootHashes(h, hs[m - Pow2(t)..m])
    ensures Rebuilds(h, older, t, m, hs, x)
    decreases |hs|
  {
    hide *;
    if |hs| <= Pow2(t) {
      WholeTree(h, older, t, m, hs, x);
    } else {
      SplitBounds(|hs|);
      var e, k := SplitExp(|hs|), SplitPoint(|hs|);
      ExpAbove(t, e);
      if m <= k {
        assert hs[..k][m - Pow2(t)..m] == hs[m - Pow2(t)..m];
        WalkRebuilds(h, older, t, m, hs[..k], x);
        RebuildsLeft(h, older, t, m, hs, k, x);
      } else {
        AlignedSub(m, e, t);
        AlignedLeast(m - k, t);
        assert hs[k..][m - k - Pow2(t)..m - k] == hs[m - Pow2(t)..m];
        WalkRebuilds(h, older, t, m - k, hs[k..], x);
        RebuildsRight(h, older, t, m, hs, k, x);
      }
    }
  }

  /** A block that is the whole tree. */
  lemma WholeTree(h: Hash, older: bool, t: nat, m: nat, hs: seq<Bytes>, x: Bytes)
    requires 0 < m <= |hs| <= Pow2(t) <= m && x == RootHashes(h, hs[m - Pow2(t)..m])
    ensures Rebuilds(h, older, t, m, hs, x)
  {
    hide SplitExp, SplitPoint, Pow2, RootHashes;
    assert hs[0..m] == hs == hs[..m];
  }

  lemma RebuildsLeft(h: Hash, older: bool, t: nat, m: nat, hs: seq<Bytes>, k: nat, x: Bytes)
    requires 2 <= |hs| && Pow2(t) < |hs| && 0 < m <= k == SplitPoint(|hs|) < |hs|
    requires Rebuilds(h, older, t, m, hs[..k], x)
    ensures Rebuilds(h, older, t, m, hs, x)
  {
    SplitBounds(|hs|);
    assert hs[..k][..m] == hs[..m];
    var q, last := Siblings(h, t, m, hs[..k]), RootHashes(h, hs[k..]);
    WalkStep(older, t, m, |hs|, SplitExp(|hs|), Given(x), q + [last]);
    assert (q + [last])[..|q|] == q;
  }

  lemma SiblingsLeft(h: Hash, t: nat, m: nat, hs: seq<Bytes>, k: nat)
    requires 2 <= |hs| && 0 < m <= k == SplitPoint(|hs|) < |hs| && |hs| > Pow2(t)
    ensures Siblings(h, t, m, hs) == Siblings(h, t, m, hs[..k]) + [RootHashes(h, hs[k..])]
  {
  }

  lemma SiblingsRight(h: Hash, t: nat, m: nat, hs: seq<Bytes>, k: nat)
    requires 2 <= |hs| && k == SplitPoint(|hs|) < m <= |hs| && |hs| > Pow2(t)
    ensures Siblings(h, t, m, hs) == Siblings(h, t, m - k, hs[k..]) + [RootHashes(h, hs[..k])]
  {
  }

  lemma EvalRight(h: Hash, older: bool, t: nat, m: nat, n: nat, i: nat, l: nat, seed: Term, q: seq<Bytes>, last: Bytes, r: Bytes)
    requires 2 <= n && SplitPoint(n) < m <= n && n > Pow2(t)
    requires i == m - SplitPoint(n) && l == n - SplitPoint(n) && Eval(h, Walk(older, t, i, l, seed, q)) == r
    ensures Eval(h, Walk(older, t, m, n, seed, q + [last])) == NodeHash(h, last, r)
  {
    SplitBounds(n);
    WalkStep(older, t, m, n, SplitExp(n), seed, q + [last]);
    assert (q + [last])[..|q|] == q;
  }

  lemma RootRight(h: Hash, m: nat, hs: seq<Bytes>, k: nat)
    requires 2 <= |hs| && k == SplitPoint(|hs|) < m <= |hs|
    ensures RootHashes(h, hs[..m]) == NodeHash(h, RootHashes(h, hs[..k]), RootHashes(h, hs[k..][..m - k]))
  {
    SplitBounds(|hs|);
    SplitUnique(m, SplitExp(|hs|));
    assert hs[..m][..k] == hs[..k] && hs[..m][k..] == hs[k..][..m - k];
  }

  lemma RootSplit(h: Hash, hs: seq<Bytes>, k: nat)
    requires 2 <= |hs| && k == SplitPoint(|hs|) < |hs|
    ensures RootHashes(h, hs) == NodeHash(h, RootHashes(h, hs[..k]), RootHashes(h, hs[k..]))
  {
  }

  lemma RebuildsRight(h: Hash, older: bool, t: nat, m: nat, hs: seq<Bytes>, k: nat, x: Bytes)
    requires 2 <= |hs| && Pow2(t) < |hs| && k == SplitPoint(|hs|) < m <= |hs|
    requires Rebuilds(h, older, t, m - k, hs[k..], x)
    ensures Rebuilds(h, older, t, m, hs, x)
  {
    RootSplit(h, hs, k);
    SiblingsRight(h, t, m, hs, k);
    if older { RootRight(h, m, hs, k); }
    hide RootHashes, Siblings, Walk, Eval, SplitPoint, Pow2, NodeHash;
    var last, r := RootHashes(h, hs[..k]), RootHashes(h, if older then hs[k..][..m - k] else hs[k..]);
    var q := Siblings(h, t, m - k, hs[k..]);
    assert Eval(h, Walk(older, t, m - k, |hs| - k, Given(x), q)) == r;
    EvalRight(h, older, t, m, |hs|, m - k, |hs| - k, Given(x), q, last, r);
    hide Rebuilds;
    assert Siblings(h, t, m, hs) == q + [last];
    FoldRebuilds(h, older, t, m, hs, x);
  }

  lemma FoldRebuilds(h: Hash, older: bool, t: nat, m: nat, hs: seq<Bytes>, x: Bytes)
    requires 0 < m <= |hs|
    requires Eval(h, Walk(older, t, m, |hs|, Given(x), Siblings(h, t, m, hs))) == RootHashes(h, if older then hs[..m] else hs)
    ensures Rebuilds(h, older, t, m, hs, x)
  {
    hide Eval, Walk, Siblings, RootHashes;
  }
}
