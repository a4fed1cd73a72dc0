/** What the log promises: every built proof is accepted, and an accepted proof says what it seems to say
    unless two of the strings that were hashed collide. */
module MerkleTheorems {
  import opened Hashing
  import opened Bits
  import opened MerkleLog
  import opened MerkleWalk
  import opened MerkleProofs

  // ---- the verdicts, restated over walks from the root ----

  lemma InclusionIsWalk(h: Hash, index: nat, n: nat, lh: Bytes, p: seq<Bytes>)
    requires index < n
    ensures InclusionTerm(index, n, lh, p) ==
      if |lh| == HASH_SIZE && AllDigests(p) && |p| == WalkLen(0, index + 1, n)
      then Some(Walk(false, 0, index + 1, n, Given(lh), p)) else None
    ensures WalkLen(0, index + 1, n) == Inner(index + 1, n) + BorderLen(index + 1, n) <= CeilLog2(n)
  {
    WalkLenIsBitCount(0, index + 1, n);
    WalkHeight(0, index + 1, n);
    if |p| == WalkLen(0, index + 1, n) {
      WalkIsBitWalk(false, 0, index + 1, n, Given(lh), p, Inner(index + 1, n), index);
    }
  }

  /** The part of a consistency proof that is siblings, and the hash the two chains start from. */
  function Rest(m: nat, proof: seq<Bytes>): seq<Bytes>
    requires |proof| >= Start(m)
  {
    proof[Start(m)..]
  }

  function Seed(m: nat, proof: seq<Bytes>, root1: Bytes): Bytes
    requires |proof| >= Start(m)
  {
    if Start(m) == 0 then root1 else proof[0]
  }

  lemma ConsistencyIsWalks(h: Hash, m: nat, n: nat, proof: seq<Bytes>, root1: Bytes)
    requires 1 <= m < n
    ensures var t := TrailingZeros(m);
      WalkLen(t, m, n) == Inner(m, n) - t + BorderLen(m, n) > 0
      && ConsistencyTerms(m, n, proof, root1) ==
        if |root1| == HASH_SIZE && AllDigests(proof) && |proof| == Start(m) + WalkLen(t, m, n)
        then Some(Rebuilt(Walk(true, t, m, n, Given(Seed(m, proof, root1)), Rest(m, proof)),
                          Walk(false, t, m, n, Given(Seed(m, proof, root1)), Rest(m, proof))))
        else None
  {
    var t := TrailingZeros(m);
    AlignedTrailing(m);
    WalkLenIsBitCount(t, m, n);
    WalkPositive(t, m, n);
    if |proof| == Start(m) + WalkLen(t, m, n) {
      var seed, p, cut, idx := Given(Seed(m, proof, root1)), Rest(m, proof), Inner(m, n) - t, Shr(m - 1, t);
      WalkIsBitWalk(true, t, m, n, seed, p, cut, idx);
      WalkIsBitWalk(false, t, m, n, seed, p, cut, idx);
    }
  }

  // ---- completeness ----

  lemma InclusionComplete(h: Hash, hs: seq<Bytes>, index: int)
    requires Digests(hs) && 0 <= index < |hs|
    ensures var p := InclusionProof(h, hs, index);
      p.Proof? && VerifyInclusion(h, index, |hs|, hs[index], p.hashes, RootHashes(h, hs))
      && |p.hashes| == Inner(index + 1, |hs|) + BorderLen(index + 1, |hs|) <= CeilLog2(|hs|)
  {
    var p := Siblings(h, 0, index + 1, hs);
    PathIsSiblings(h, index, hs);
    SiblingsWidth(h, 0, index + 1, hs);
    LeafBlock(h, hs, index);
    WalkRebuilds(h, false, 0, index + 1, hs, hs[index]);
    InclusionIsWalk(h, index, |hs|, hs[index], p);
  }

  lemma LeafBlock(h: Hash, hs: seq<Bytes>, i: nat)
    requires i < |hs|
    ensures Pow2(0) == 1 && RootHashes(h, hs[i + 1 - Pow2(0)..i + 1]) == hs[i]
  {
    assert hs[i + 1 - Pow2(0)..i + 1] == [hs[i]];
  }

  lemma ConsistencyComplete(h: Hash, hs: seq<Bytes>, size1: int)
    requires Digests(hs) && 1 <= size1 <= |hs|
    ensures var p := ConsistencyProof(h, hs, size1, |hs|);
      p.Proof? && VerifyConsistency(h, size1, |hs|, p.hashes, RootHashes(h, hs[..size1]), RootHashes(h, hs))
      && (size1 < |hs| ==>
            |p.hashes| == Start(size1) + (Inner(size1, |hs|) - TrailingZeros(size1)) + BorderLen(size1, |hs|) > 0)
      && |p.hashes| <= CeilLog2(|hs|) + 1
  {
    if size1 == |hs| {
      assert hs[..size1] == hs;
    } else {
      BuiltProof(h, hs, size1, Sub(h, size1, hs, true));
      BuiltWalks(h, hs, size1);
      WalkHeight(TrailingZeros(size1), size1, |hs|);
      ConsistencyIsWalks(h, size1, |hs|, Sub(h, size1, hs, true), RootHashes(h, hs[..size1]));
    }
  }

  /** The built proof p, read as the verifier reads it. */
  lemma BuiltProof(h: Hash, hs: seq<Bytes>, m: nat, p: seq<Bytes>)
    requires Digests(hs) && 1 <= m < |hs| && p == Sub(h, m, hs, true)
    ensures Digests(p) && |p| == Start(m) + WalkLen(TrailingZeros(m), m, |hs|)
    ensures Rest(m, p) == Siblings(h, TrailingZeros(m), m, hs)
    ensures Seed(m, p, RootHashes(h, hs[..m])) == RootHashes(h, Block(m, hs))
    ensures |RootHashes(h, hs[..m])| == HASH_SIZE
  {
    SubIsSiblings(h, m, hs, true, 0);
    RootWidth(h, hs[..m]);
    var x, q := RootHashes(h, Block(m, hs)), Siblings(h, TrailingZeros(m), m, hs);
    assert |x| == HASH_SIZE by {
      AlignedTrailing(m);
      RootWidth(h, Block(m, hs));
    }
    SiblingsWidth(h, TrailingZeros(m), m, hs);
    BuiltShape(h, hs, m, x, q, p);
  }

  lemma BuiltShape(h: Hash, hs: seq<Bytes>, m: nat, x: Bytes, q: seq<Bytes>, p: seq<Bytes>)
    requires 1 <= m < |hs| && x == RootHashes(h, Block(m, hs))
    requires Digests(q) && |x| == HASH_SIZE && p == (if Start(m) == 0 then [] else [x]) + q
    ensures Digests(p) && |p| == Start(m) + |q| && Rest(m, p) == q && Seed(m, p, RootHashes(h, hs[..m])) == x
  {
    if Start(m) == 0 {
      assert Block(m, hs) == hs[..m];
      assert p == q;
    } else {
      assert p == [x] + q && p[1..] == q;
    }
  }

  lemma BuiltWalks(h: Hash, hs: seq<Bytes>, m: nat)
    requires 1 <= m < |hs|
    ensures Rebuilds(h, true, TrailingZeros(m), m, hs, RootHashes(h, Block(m, hs)))
    ensures Rebuilds(h, false, TrailingZeros(m), m, hs, RootHashes(h, Block(m, hs)))
  {
    AlignedTrailing(m);
    WalkRebuilds(h, true, TrailingZeros(m), m, hs, RootHashes(h, Block(m, hs)));
    WalkRebuilds(h, false, TrailingZeros(m), m, hs, RootHashes(h, Block(m, hs)));
  }

  lemma WalkPositive(t: nat, m: nat, n: nat)
    requires 0 < m < n && Aligned(m, t)
    ensures WalkLen(t, m, n) > 0
  {
    AlignedLeast(m, t);
  }

  /** Nothing grows from an empty tree: size 0 is consistent with itself only. */
  lemma ConsistencyFromEmpty(h: Hash, size2: int, proof: seq<Bytes>, root1: Bytes, root2: Bytes)
    ensures VerifyConsistency(h, 0, size2, proof, root1, root2) <==> size2 == 0 && proof == [] && root1 == root2
  {
  }

  // ---- soundness ----

  /** Two equal node hashes over hashed inputs have equal children. */
  lemma NodeCommits(h: Hash, s: set<Bytes>, a: Bytes, b: Bytes, c: Bytes, d: Bytes)
    requires CollisionFree(h, s) && NodeInput(a, b) in s && NodeInput(c, d) in s
    requires |a| == |c| && NodeHash(h, a, b) == NodeHash(h, c, d)
    ensures a == c && b == d
  {
    NodeInputInjective(a, b, c, d);
  }

  lemma {:induction false} EvalWidth(h: Hash, older: bool, t: nat, m: nat, n: nat, seed: Bytes, p: seq<Bytes>)
    requires 0 < m <= n && |seed| == HASH_SIZE
    ensures |Eval(h, Walk(older, t, m, n, Given(seed), p))| == HASH_SIZE
    decreases n
  {
    if n > Pow2(t) && p != [] {
      SplitBounds(n);
      if m <= SplitPoint(n) {
        EvalWidth(h, older, t, m, SplitPoint(n), seed, p[..|p| - 1]);
      }
    }
  }

  /** A walk that hashes only strings of s rebuilds the root of zs, whose computation stays in s too. */
  ghost predicate Reaches(h: Hash, s: set<Bytes>, older: bool, t: nat, m: nat, n: nat, x: Bytes, p: seq<Bytes>, zs: seq<Bytes>)
    requires 0 < m <= n
  {
    Eval(h, Walk(older, t, m, n, Given(x), p)) == RootHashes(h, zs)
    && Inputs(h, Walk(older, t, m, n, Given(x), p)) <= s && RootInputs(h, zs) <= s
  }

  /** A right turn: the last sibling is the root of the left half, the rest reaches the right half. */
  lemma ReachRight(h: Hash, s: set<Bytes>, older: bool, t: nat, m: nat, n: nat, x: Bytes, p: seq<Bytes>, zs: seq<Bytes>, k: nat, i: nat, l: nat)
    requires 2 <= |zs| && Digests(zs) && Digests(p) && p != [] && CollisionFree(h, s)
    requires 2 <= n && Pow2(t) < n && k == SplitPoint(n) == SplitPoint(|zs|) && k < m <= n && k < |zs|
    requires i == m - k && l == n - k
    requires Reaches(h, s, older, t, m, n, x, p, zs)
    ensures p[|p| - 1] == RootHashes(h, zs[..k]) && RootInputs(h, zs[..k]) <= s
    ensures Reaches(h, s, older, t, i, l, x, p[..|p| - 1], zs[k..])
  {
    hide Pow2, SplitExp, SplitPoint, Walk, NodeInput;
    SplitBounds(n);
    WalkStep(older, t, m, n, SplitExp(n), Given(x), p);
    RootWidth(h, zs[..k]);
    var below := Walk(older, t, i, l, Given(x), p[..|p| - 1]);
    assert Walk(older, t, m, n, Given(x), p) == Pair(Given(p[|p| - 1]), below);
    NodeCommits(h, s, p[|p| - 1], Eval(h, below), RootHashes(h, zs[..k]), RootHashes(h, zs[k..]));
  }

  /** A left turn in the newer reading: the last sibling is the root of the right half. */
  lemma ReachLeft(h: Hash, s: set<Bytes>, t: nat, m: nat, n: nat, x: Bytes, p: seq<Bytes>, zs: seq<Bytes>, k: nat)
    requires 2 <= |zs| == n && Digests(zs) && |x| == HASH_SIZE && p != [] && CollisionFree(h, s)
    requires Pow2(t) < n && k == SplitPoint(n) && 0 < m <= k < n
    requires Reaches(h, s, false, t, m, n, x, p, zs)
    ensures p[|p| - 1] == RootHashes(h, zs[k..])
    ensures Reaches(h, s, false, t, m, k, x, p[..|p| - 1], zs[..k])
  {
    SplitBounds(n);
    WalkStep(false, t, m, n, SplitExp(n), Given(x), p);
    EvalWidth(h, false, t, m, k, x, p[..|p| - 1]);
    RootWidth(h, zs[..k]);
    NodeCommits(h, s, Eval(h, Walk(false, t, m, k, Given(x), p[..|p| - 1])), p[|p| - 1],
                RootHashes(h, zs[..k]), RootHashes(h, zs[k..]));
  }

  /** A left turn does not touch the older reading. */
  lemma ReachLeftOlder(h: Hash, s: set<Bytes>, t: nat, m: nat, n: nat, x: Bytes, p: seq<Bytes>, zs: seq<Bytes>, k: nat)
    requires 2 <= n && p != [] && Pow2(t) < n && k == SplitPoint(n) && 0 < m <= k < n
    requires Reaches(h, s, true, t, m, n, x, p, zs)
    ensures Reaches(h, s, true, t, m, k, x, p[..|p| - 1], zs)
  {
    SplitBounds(n);
    WalkStep(true, t, m, n, SplitExp(n), Given(x), p);
  }

  /** One seed and one list of siblings that rebuild both roots. */
  ghost predicate ReachesBoth(h: Hash, s: set<Bytes>, t: nat, xs: seq<Bytes>, ys: seq<Bytes>, x: Bytes, p: seq<Bytes>) {
    0 < |xs| <= |ys| && Aligned(|xs|, t) && |p| == WalkLen(t, |xs|, |ys|)
    && Digests(xs) && Digests(ys) && Digests(p) && |x| == HASH_SIZE
    && Reaches(h, s, true, t, |xs|, |ys|, x, p, xs) && Reaches(h, s, false, t, |xs|, |ys|, x, p, ys)
  }

  /** They force the older list to be a prefix of the newer. */
  lemma {:induction false} WalksCommit(h: Hash, s: set<Bytes>, t: nat, xs: seq<Bytes>, ys: seq<Bytes>, x: Bytes, p: seq<Bytes>)
    requires CollisionFree(h, s) && ReachesBoth(h, s, t, xs, ys, x, p)
    ensures xs == ys[..|xs|]
    decreases |ys|
  {
    hide Pow2, SplitPoint, SplitExp, RootHashes, RootInputs;
    AlignedLeast(|xs|, t);
    if |ys| <= Pow2(t) {
      CollisionFreeSubset(h, s, RootInputs(h, xs) + RootInputs(h, ys));
      RootCommits(h, xs, ys);
    } else {
      SplitBounds(|ys|);
      ExpAbove(t, SplitExp(|ys|));
      var k := SplitPoint(|ys|);
      if |xs| <= k {
        CommitLeft(h, s, t, xs, ys, x, p, k);
        WalksCommit(h, s, t, xs, ys[..k], x, p[..|p| - 1]);
      } else {
        CommitRight(h, s, t, xs, ys, x, p, k);
        WalksCommit(h, s, t, xs[k..], ys[k..], x, p[..|p| - 1]);
        assert xs == xs[..k] + xs[k..] && ys[..|xs|] == ys[..k] + ys[k..][..|xs| - k];
      }
    }
  }

  lemma CommitLeft(h: Hash, s: set<Bytes>, t: nat, xs: seq<Bytes>, ys: seq<Bytes>, x: Bytes, p: seq<Bytes>, k: nat)
    requires CollisionFree(h, s) && ReachesBoth(h, s, t, xs, ys, x, p)
    requires 2 <= |ys| && Pow2(t) < |ys| && k == SplitPoint(|ys|) < |ys| && |xs| <= k
    ensures p != [] && ReachesBoth(h, s, t, xs, ys[..k], x, p[..|p| - 1])
  {
    ReachLeft(h, s, t, |xs|, |ys|, x, p, ys, k);
    ReachLeftOlder(h, s, t, |xs|, |ys|, x, p, xs, k);
  }

  lemma TurnRight(t: nat, m: nat, n: nat, k: nat, i: nat, l: nat)
    requires 2 <= n && Pow2(t) < n && t <= SplitExp(n) && k == SplitPoint(n) < m <= n && i == m - k && l == n - k
    requires Aligned(m, t)
    ensures 2 <= m && SplitPoint(m) == k && 0 < i <= l && Aligned(i, t)
    ensures WalkLen(t, m, n) == 1 + WalkLen(t, i, l)
  {
    SplitBounds(n);
    SplitUnique(m, SplitExp(n));
    AlignedSub(m, SplitExp(n), t);
  }

  lemma CommitRight(h: Hash, s: set<Bytes>, t: nat, xs: seq<Bytes>, ys: seq<Bytes>, x: Bytes, p: seq<Bytes>, k: nat)
    requires CollisionFree(h, s) && ReachesBoth(h, s, t, xs, ys, x, p)
    requires 2 <= |ys| && Pow2(t) < |ys| && t <= SplitExp(|ys|) && k == SplitPoint(|ys|) < |xs|
    ensures p != [] && xs[..k] == ys[..k] && ReachesBoth(h, s, t, xs[k..], ys[k..], x, p[..|p| - 1])
  {
    hide Reaches, WalkLen, Pow2, RootHashes, RootInputs, Aligned;
    TurnRight(t, |xs|, |ys|, k, |xs[k..]|, |ys[k..]|);
    ReachRight(h, s, true, t, |xs|, |ys|, x, p, xs, k, |xs[k..]|, |ys[k..]|);
    ReachRight(h, s, false, t, |xs|, |ys|, x, p, ys, k, |xs[k..]|, |ys[k..]|);
    CollisionFreeSubset(h, s, RootInputs(h, xs[..k]) + RootInputs(h, ys[..k]));
    RootCommits(h, xs[..k], ys[..k]);
  }

  /** A walk that reaches the root starts at the root of its block and follows the siblings. */
  lemma {:induction false} WalkCommits(h: Hash, s: set<Bytes>, t: nat, m: nat, hs: seq<Bytes>, x: Bytes, p: seq<Bytes>)
    requires 0 < m <= |hs| && Aligned(m, t) && |p| == WalkLen(t, m, |hs|)
    requires Digests(hs) && Digests(p) && |x| == HASH_SIZE
    requires CollisionFree(h, s) && Reaches(h, s, false, t, m, |hs|, x, p, hs)
    ensures m >= Pow2(t) && x == RootHashes(h, hs[m - Pow2(t)..m]) && p == Siblings(h, t, m, hs)
    decreases |hs|, 1
  {
    AlignedLeast(m, t);
    if |hs| <= Pow2(t) {
      assert hs[m - Pow2(t)..m] == hs;
    } else {
      SplitBounds(|hs|);
      ExpAbove(t, SplitExp(|hs|));
      if m <= SplitPoint(|hs|) {
        WalkCommitsLeft(h, s, t, m, hs, x, p, SplitPoint(|hs|));
      } else {
        WalkCommitsRight(h, s, t, m, hs, x, p, SplitPoint(|hs|));
      }
    }
  }

  lemma {:induction false} WalkCommitsLeft(h: Hash, s: set<Bytes>, t: nat, m: nat, hs: seq<Bytes>, x: Bytes, p: seq<Bytes>, k: nat)
    requires 2 <= |hs| && Pow2(t) < |hs| && 0 < m <= k == SplitPoint(|hs|) < |hs| && Aligned(m, t) && |p| == WalkLen(t, m, |hs|)
    requires Digests(hs) && Digests(p) && |x| == HASH_SIZE
    requires CollisionFree(h, s) && Reaches(h, s, false, t, m, |hs|, x, p, hs)
    ensures m >= Pow2(t) && x == RootHashes(h, hs[m - Pow2(t)..m]) && p == Siblings(h, t, m, hs)
    decreases |hs|, 0
  {
    hide Reaches, RootHashes, Pow2, SplitPoint;
    var q := p[..|p| - 1];
    assert p == q + [p[|p| - 1]];
    ReachLeft(h, s, t, m, |hs|, x, p, hs, k);
    WalkCommits(h, s, t, m, hs[..k], x, q);
    SiblingsLeft(h, t, m, hs, k);
    assert hs[..k][m - Pow2(t)..m] == hs[m - Pow2(t)..m];
  }

  lemma {:induction false} WalkCommitsRight(h: Hash, s: set<Bytes>, t: nat, m: nat, hs: seq<Bytes>, x: Bytes, p: seq<Bytes>, k: nat)
    requires 2 <= |hs| && Pow2(t) < |hs| && t <= SplitExp(|hs|) && k == SplitPoint(|hs|) < m <= |hs|
    requires Aligned(m, t) && |p| == WalkLen(t, m, |hs|)
    requires Digests(hs) && Digests(p) && |x| == HASH_SIZE
    requires CollisionFree(h, s) && Reaches(h, s, false, t, m, |hs|, x, p, hs)
    ensures m >= Pow2(t) && x == RootHashes(h, hs[m - Pow2(t)..m]) && p == Siblings(h, t, m, hs)
    decreases |hs|, 0
  {
    hide Reaches, RootHashes, Pow2, SplitPoint, Aligned, WalkLen;
    var i := m - k;
    TurnRight(t, m, |hs|, k, i, |hs[k..]|);
    var q := p[..|p| - 1];
    assert p == q + [p[|p| - 1]];
    ReachRight(h, s, false, t, m, |hs|, x, p, hs, k, i, |hs[k..]|);
    WalkCommits(h, s, t, i, hs[k..], x, q);
    SiblingsRight(h, t, m, hs, k);
    assert hs[k..][i - Pow2(t)..i] == hs[m - Pow2(t)..m];
  }

  /** Consistency soundness over leaf hashes. */
  lemma ConsistencySoundHashes(h: Hash, s: set<Bytes>, xs: seq<Bytes>, ys: seq<Bytes>, proof: seq<Bytes>)
    requires Digests(xs) && Digests(ys) && |xs| >= 1
    requires VerifyConsistency(h, |xs|, |ys|, proof, RootHashes(h, xs), RootHashes(h, ys))
    requires CollisionFree(h, s)
    requires ConsistencyInputs(h, |xs|, |ys|, proof, RootHashes(h, xs)) + RootInputs(h, xs) + RootInputs(h, ys) <= s
    ensures xs <= ys && ConsistencyProof(h, ys, |xs|, |ys|) == Proof(proof)
  {
    if |xs| == |ys| {
      CollisionFreeSubset(h, s, RootInputs(h, xs) + RootInputs(h, ys));
      RootCommits(h, xs, ys);
    } else {
      hide *;
      AcceptedReachesBoth(h, s, xs, ys, proof);
      var t, seed, p := TrailingZeros(|xs|), Seed(|xs|, proof, RootHashes(h, xs)), Rest(|xs|, proof);
      WalksCommit(h, s, t, xs, ys, seed, p);
      NewerCommits(h, s, t, xs, ys, seed, p);
      OnlyBuilt(h, xs, ys, proof);
      BuiltIsSub(h, ys, |xs|);
    }
  }

  lemma AcceptedReachesBoth(h: Hash, s: set<Bytes>, xs: seq<Bytes>, ys: seq<Bytes>, proof: seq<Bytes>)
    requires Digests(xs) && Digests(ys) && 1 <= |xs| && |xs| != |ys|
    requires VerifyConsistency(h, |xs|, |ys|, proof, RootHashes(h, xs), RootHashes(h, ys))
    requires ConsistencyInputs(h, |xs|, |ys|, proof, RootHashes(h, xs)) + RootInputs(h, xs) + RootInputs(h, ys) <= s
    ensures |xs| < |ys| && |proof| >= Start(|xs|)
    ensures ReachesBoth(h, s, TrailingZeros(|xs|), xs, ys, Seed(|xs|, proof, RootHashes(h, xs)), Rest(|xs|, proof))
  {
    AlignedTrailing(|xs|);
    ConsistencyIsWalks(h, |xs|, |ys|, proof, RootHashes(h, xs));
  }

  lemma NewerCommits(h: Hash, s: set<Bytes>, t: nat, xs: seq<Bytes>, ys: seq<Bytes>, x: Bytes, p: seq<Bytes>)
    requires CollisionFree(h, s) && ReachesBoth(h, s, t, xs, ys, x, p) && t == TrailingZeros(|xs|)
    ensures x == RootHashes(h, Block(|xs|, ys)) && p == Siblings(h, t, |xs|, ys)
  {
    WalkCommits(h, s, t, |xs|, ys, x, p);
    hide Reaches, Siblings, WalkLen, RootHashes;
  }

  lemma BuiltIsSub(h: Hash, hs: seq<Bytes>, m: nat)
    requires 1 <= m < |hs|
    ensures ConsistencyProof(h, hs, m, |hs|) == Proof(Sub(h, m, hs, true))
  {
    hide Sub;
  }

  /** A proof with the seed and the siblings of the built one is that proof. */
  lemma OnlyBuilt(h: Hash, xs: seq<Bytes>, ys: seq<Bytes>, proof: seq<Bytes>)
    requires Digests(ys) && 1 <= |xs| < |ys| && xs == ys[..|xs|] && |proof| >= Start(|xs|)
    requires Seed(|xs|, proof, RootHashes(h, xs)) == RootHashes(h, Block(|xs|, ys))
    requires Rest(|xs|, proof) == Siblings(h, TrailingZeros(|xs|), |xs|, ys)
    ensures proof == Sub(h, |xs|, ys, true)
  {
    var m, built := |xs|, Sub(h, |xs|, ys, true);
    BuiltProof(h, ys, m, built);
    hide *;
    SamePieces(m, proof, built, RootHashes(h, xs));
  }

  lemma SamePieces(m: nat, p: seq<Bytes>, q: seq<Bytes>, root1: Bytes)
    requires |p| >= Start(m) && |q| >= Start(m) && Rest(m, p) == Rest(m, q) && Seed(m, p, root1) == Seed(m, q, root1)
    ensures p == q
  {
    if Start(m) == 0 {
      assert p == Rest(m, p) && q == Rest(m, q);
    } else {
      assert p == [p[0]] + Rest(m, p) && q == [q[0]] + Rest(m, q);
    }
  }

  /** Consistency soundness: an accepted proof between the Merkle roots of two logs means the first log is a prefix of
      the second and the proof is the built one, unless two of the finitely many strings hashed on the way collide. */
  lemma ConsistencySound(h: Hash, older: seq<Bytes>, newer: seq<Bytes>, proof: seq<Bytes>)
    requires VerifyConsistency(h, |older|, |newer|, proof, MerkleRoot(h, older), MerkleRoot(h, newer))
    requires CollisionFree(h, ConsistencyInputs(h, |older|, |newer|, proof, MerkleRoot(h, older))
                              + MerkleInputs(h, older) + MerkleInputs(h, newer))
    ensures older <= newer && ConsistencyProof(h, LeafHashes(h, newer), |older|, |newer|) == Proof(proof)
  {
    hide ConsistencyTerms, RootHashes, RootInputs, Sub;
    if older == [] {
      ConsistencyFromEmpty(h, |newer|, proof, MerkleRoot(h, older), MerkleRoot(h, newer));
    } else {
      var s := ConsistencyInputs(h, |older|, |newer|, proof, MerkleRoot(h, older))
               + MerkleInputs(h, older) + MerkleInputs(h, newer);
      var xs, ys := LeafHashes(h, older), LeafHashes(h, newer);
      ConsistencySoundHashes(h, s, xs, ys, proof);
      var prefix := newer[..|older|];
      assert LeafHashes(h, prefix) == ys[..|xs|];
      assert LeafInputs(prefix) <= LeafInputs(newer);
      CollisionFreeSubset(h, s, LeafInputs(older) + LeafInputs(prefix));
      LeafHashesCommit(h, older, prefix);
    }
  }

  /** Inclusion soundness: an accepted proof names the leaf at that index and is the built proof. */
  lemma InclusionSound(h: Hash, hs: seq<Bytes>, index: int, lh: Bytes, proof: seq<Bytes>)
    requires Digests(hs)
    requires VerifyInclusion(h, index, |hs|, lh, proof, RootHashes(h, hs))
    requires CollisionFree(h, InclusionInputs(h, index, |hs|, lh, proof) + RootInputs(h, hs))
    ensures 0 <= index < |hs| && lh == hs[index] && InclusionProof(h, hs, index) == Proof(proof)
  {
    var n, s := |hs|, InclusionInputs(h, index, |hs|, lh, proof) + RootInputs(h, hs);
    AcceptedReaches(h, hs, index, lh, proof);
    PathIsSiblings(h, index, hs);
    LeafBlock(h, hs, index);
    assert Aligned(index + 1, 0);
    assert InclusionProof(h, hs, index) == Proof(Siblings(h, 0, index + 1, hs));
    hide *;
    WalkCommits(h, s, 0, index + 1, hs, lh, proof);
  }

  lemma AcceptedReaches(h: Hash, hs: seq<Bytes>, index: int, lh: Bytes, proof: seq<Bytes>)
    requires VerifyInclusion(h, index, |hs|, lh, proof, RootHashes(h, hs))
    ensures 0 <= index < |hs| && |lh| == HASH_SIZE && Digests(proof) && |proof| == WalkLen(0, index + 1, |hs|)
    ensures Reaches(h, InclusionInputs(h, index, |hs|, lh, proof) + RootInputs(h, hs),
                    false, 0, index + 1, |hs|, lh, proof, hs)
  {
    assert index < |hs|;
    hide Walk, WalkLen, RootHashes, RootInputs, Inputs, Eval, Inner, BorderLen, CeilLog2, InclusionTerm;
    InclusionIsWalk(h, index, |hs|, lh, proof);
  }
}
