/** The bridge between the two halves of the log: the builders split a tree from the top, the verifiers walk
    the bits of an index from the bottom. A hash computation is kept as a term, so that one equation
    between terms settles both its value and the set of strings it hashes. */
module MerkleWalk {
  import opened Hashing
  import opened Bits
  import opened MerkleLog

  datatype Term = Given(b: Bytes) | Pair(l: Term, r: Term)

  function Eval(h: Hash, t: Term): Bytes {
    match t
    case Given(b) => b
    case Pair(l, r) => NodeHash(h, Eval(h, l), Eval(h, r))
  }

  /** Every string hashed while evaluating t. */
  function Inputs(h: Hash, t: Term): set<Bytes> {
    match t
    case Given(b) => {}
    case Pair(l, r) => {NodeInput(Eval(h, l), Eval(h, r))} + Inputs(h, l) + Inputs(h, r)
  }

  // ---- bottom up: chainInner (older == false), chainInnerRight (older == true), chainBorderRight ----

  function Climb(older: bool, seed: Term, p: seq<Bytes>, idx: nat): Term {
    if p == [] then seed
    else
      var i := |p| - 1;
      var s := Climb(older, seed, p[..i], idx);
      if Bit(idx, i) == 1 then Pair(Given(p[i]), s)
      else if older then s
      else Pair(s, Given(p[i]))
  }

  function Border(seed: Term, p: seq<Bytes>): Term {
    if p == [] then seed
    else Pair(Given(p[|p| - 1]), Border(seed, p[..|p| - 1]))
  }

  // ---- top down: from the root of a tree of size n to the aligned block of 2^t leaves that ends at m ----

  function WalkLen(t: nat, m: nat, n: nat): nat
    requires 0 < m <= n
    decreases n
  {
    if n <= Pow2(t) then 0
    else
      SplitBounds(n);
      var k := SplitPoint(n);
      1 + if m <= k then WalkLen(t, m, k) else WalkLen(t, m - k, n - k)
  }

  /** The root of size n (or, when older, the root of its first m leaves) rebuilt from the hash of the
      block and the hashes of its siblings; meant for |p| == WalkLen(t, m, n). */
  function Walk(older: bool, t: nat, m: nat, n: nat, seed: Term, p: seq<Bytes>): Term
    requires 0 < m <= n
    decreases n
  {
    if n <= Pow2(t) || p == [] then seed
    else
      SplitBounds(n);
      var k := SplitPoint(n);
      var q, last := p[..|p| - 1], Given(p[|p| - 1]);
      if m > k then Pair(last, Walk(older, t, m - k, n - k, seed, q))
      else if older then Walk(older, t, m, k, seed, q)
      else Pair(Walk(older, t, m, k, seed, q), last)
  }

  // ---- the two agree ----

  /** The chains only look at the low bits of the index. */
  lemma {:induction false} ClimbLowBits(older: bool, seed: Term, p: seq<Bytes>, idx: nat, l: nat)
    requires |p| <= l
    ensures Climb(older, seed, p, idx + Pow2(l)) == Climb(older, seed, p, idx)
    decreases |p|
  {
    if p != [] {
      BitAddPow(idx, l, |p| - 1);
      ClimbLowBits(older, seed, p[..|p| - 1], idx, l);
    }
  }

  /** Bit l of (x >> t) is bit t + l of x. */
  lemma BitOfShr(x: nat, t: nat, l: nat)
    ensures Bit(Shr(x, t), l) == Bit(x, t + l)
  {
    ShrShr(x, t, l);
  }

  lemma {:induction false} PerfectWalkLen(t: nat, m: nat, j: nat)
    requires 0 < m <= Pow2(j) && t <= j
    ensures WalkLen(t, m, Pow2(j)) == j - t
    decreases j
  {
    if j > t {
      Pow2Monotone(t, j - 1);
      SplitOfPower(j);
      PerfectWalkLen(t, if m <= Pow2(j - 1) then m else m - Pow2(j - 1), j - 1);
    }
  }

  /** One step of the walk, spelled out. */
  lemma WalkStep(older: bool, t: nat, m: nat, n: nat, j: nat, seed: Term, p: seq<Bytes>)
    requires 0 < m <= n && n > Pow2(t) && Pow2(j) < n <= 2 * Pow2(j)
    requires p != []
    ensures Walk(older, t, m, n, seed, p) == (
      var q, last := p[..|p| - 1], Given(p[|p| - 1]);
      if m > Pow2(j) then Pair(last, Walk(older, t, m - Pow2(j), n - Pow2(j), seed, q))
      else if older then Walk(older, t, m, Pow2(j), seed, q)
      else Pair(Walk(older, t, m, Pow2(j), seed, q), last))
  {
    SplitUnique(n, j);
  }

  lemma ClimbTopZero(older: bool, seed: Term, p: seq<Bytes>, x: nat, l: nat)
    requires |p| == l + 1 && Bit(x, l) == 0
    ensures Climb(older, seed, p, x) ==
      (var s := Climb(older, seed, p[..l], x); if older then s else Pair(s, Given(p[l])))
  {
  }

  /** A top index bit of 1 is one left sibling, and the levels below do not see it. */
  lemma ClimbTopOne(older: bool, seed: Term, p: seq<Bytes>, x: nat, l: nat)
    requires |p| == l + 1 && x < Pow2(l)
    ensures Climb(older, seed, p, x + Pow2(l)) == Pair(Given(p[l]), Climb(older, seed, p[..l], x))
  {
    TopBit(x + Pow2(l), l);
    ClimbLowBits(older, seed, p[..l], x, l);
  }

  /** The bits of m - 1 above t, in a tree of 2^(i+1) leaves: the top one says left or right. */
  lemma IndexLeft(t: nat, m: nat, i: nat)
    requires 0 < m <= Pow2(i) && t <= i
    ensures Bit(Shr(m - 1, t), i - t) == 0
  {
    BitOfShr(m - 1, t, i - t);
    TopBit(m - 1, i);
  }

  lemma IndexRight(t: nat, m: nat, i: nat)
    requires Pow2(i) < m <= Pow2(i + 1) && t <= i
    ensures var y := Shr(m - Pow2(i) - 1, t);
      Shr(m - 1, t) == y + Pow2(i - t) && y < Pow2(i - t)
  {
    ShrAddPow(m - 1 - Pow2(i), i, t);
    ShrBound(m - 1 - Pow2(i), i, t);
  }

  /** In a perfect tree every level is one bit. */
  lemma {:induction false} PerfectWalk(older: bool, t: nat, m: nat, j: nat, seed: Term, p: seq<Bytes>)
    requires 0 < m <= Pow2(j) && t <= j && Aligned(m, t)
    requires |p| == j - t
    ensures Walk(older, t, m, Pow2(j), seed, p) == Climb(older, seed, p, Shr(m - 1, t))
    decreases j
  {
    if j > t {
      var i := j - 1;
      Pow2Monotone(t, i);
      if m <= Pow2(i) {
        PerfectWalk(older, t, m, i, seed, p[..i - t]);
        PerfectLeft(older, t, m, i, seed, p);
      } else {
        AlignedSub(m, i, t);
        PerfectWalk(older, t, m - Pow2(i), i, seed, p[..i - t]);
        PerfectRight(older, t, m, i, seed, p);
      }
    }
  }

  lemma PerfectLeft(older: bool, t: nat, m: nat, i: nat, seed: Term, p: seq<Bytes>)
    requires 0 < m <= Pow2(i) && t <= i && Pow2(t) <= Pow2(i)
    requires |p| == i - t + 1
    requires Walk(older, t, m, Pow2(i), seed, p[..i - t]) == Climb(older, seed, p[..i - t], Shr(m - 1, t))
    ensures Walk(older, t, m, Pow2(i + 1), seed, p) == Climb(older, seed, p, Shr(m - 1, t))
  {
    WalkStep(older, t, m, Pow2(i + 1), i, seed, p);
    IndexLeft(t, m, i);
    ClimbTopZero(older, seed, p, Shr(m - 1, t), i - t);
  }

  lemma PerfectRight(older: bool, t: nat, m: nat, i: nat, seed: Term, p: seq<Bytes>)
    requires Pow2(i) < m <= Pow2(i + 1) && t <= i && Pow2(t) <= Pow2(i)
    requires |p| == i - t + 1
    requires Walk(older, t, m - Pow2(i), Pow2(i), seed, p[..i - t])
      == Climb(older, seed, p[..i - t], Shr(m - Pow2(i) - 1, t))
    ensures Walk(older, t, m, Pow2(i + 1), seed, p) == Climb(older, seed, p, Shr(m - 1, t))
  {
    WalkStep(older, t, m, Pow2(i + 1), i, seed, p);
    IndexRight(t, m, i);
    ClimbTopOne(older, seed, p, Shr(m - Pow2(i) - 1, t), i - t);
  }

  /** How decompInclProof splits a proof: `inner` levels below the point where the paths to leaves m - 1
      and n - 1 part, `border` right turns above it. */
  function Inner(m: nat, n: nat): nat
    requires 0 < m <= n
  {
    BitLen(Xor(m - 1, n - 1))
  }

  function BorderLen(m: nat, n: nat): nat
    requires 0 < m <= n
  {
    Ones(Shr(m - 1, Inner(m, n)))
  }

  /** Going left at the root of a tree of size n leaves a perfect tree. */
  lemma DecomposeLeft(t: nat, m: nat, n: nat)
    requires 0 < m <= n && n >= 2 && m <= SplitPoint(n) && t <= SplitExp(n)
    ensures Inner(m, n) == SplitExp(n) + 1 && BorderLen(m, n) == 0
    ensures Bit(Shr(m - 1, t), SplitExp(n) - t) == 0
  {
    SplitBounds(n);
    var j := SplitExp(n);
    var k := Pow2(j);
    XorLoneTop(m - 1, n - 1 - k, j);
    BitLenTop(Xor(m - 1, n - 1), j);
    ShrSmall(m - 1, j + 1);
    BitOfShr(m - 1, t, j - t);
    ShrSmall(m - 1, j);
  }

  /** Going right keeps `inner` and adds one to `border`. */
  lemma DecomposeRight(t: nat, m: nat, n: nat)
    requires 0 < m <= n && n >= 2 && m > SplitPoint(n) && t <= SplitExp(n)
    ensures var k := SplitPoint(n);
      m - k <= n - k && Inner(m, n) == Inner(m - k, n - k) <= SplitExp(n)
      && BorderLen(m, n) == 1 + BorderLen(m - k, n - k)
      && Shr(m - 1, t) == Shr(m - k - 1, t) + Pow2(SplitExp(n) - t)
  {
    hide Xor, BitLen, Shr, Ones, SplitExp, SplitPoint;
    SplitBounds(n);
    var j := SplitExp(n);
    var k := Pow2(j);
    XorSharedTop(m - 1 - k, n - 1 - k, j);
    XorSmall(m - 1 - k, n - 1 - k, j);
    BitLenSmall(Xor(m - 1 - k, n - 1 - k), j);
    var inner := Inner(m, n);
    ShrAddPow(m - 1 - k, j, inner);
    ShrBound(m - 1 - k, j, inner);
    OnesTop(Shr(m - 1 - k, inner), j - inner);
    ShrAddPow(m - 1 - k, j, t);
  }

  /** `inner` never drops below the shift, so the subtraction in rootFromConsistencyProof cannot go
      negative, and the length the verifier demands is the length of the recursive walk. */
  lemma {:induction false} WalkLenIsBitCount(t: nat, m: nat, n: nat)
    requires 0 < m <= n && Aligned(m, t) && (t == 0 || m < n)
    ensures Inner(m, n) >= t
    ensures WalkLen(t, m, n) == Inner(m, n) - t + BorderLen(m, n)
    decreases n
  {
    AlignedLeast(m, t);
    if n > Pow2(t) {
      SplitBounds(n);
      var j, k := SplitExp(n), SplitPoint(n);
      ExpAbove(t, j);
      if m <= k {
        DecomposeLeft(t, m, n);
        PerfectWalkLen(t, m, j);
      } else {
        DecomposeRight(t, m, n);
        AlignedSub(m, j, t);
        WalkLenIsBitCount(t, m - k, n - k);
      }
    }
  }

  lemma ExpAbove(t: nat, j: nat)
    requires Pow2(t) < 2 * Pow2(j)
    ensures t <= j
  {
    if j < t { Pow2Monotone(j + 1, t); }
  }

  /** The main bridge: the bit walk of the verifier is the recursive walk from the root. */
  lemma {:induction false} WalkIsBitWalk(older: bool, t: nat, m: nat, n: nat, seed: Term, p: seq<Bytes>, cut: nat, idx: nat)
    requires 0 < m <= n && Aligned(m, t) && (t == 0 || m < n)
    requires cut == Inner(m, n) - t && idx == Shr(m - 1, t) && |p| == cut + BorderLen(m, n)
    ensures Walk(older, t, m, n, seed, p) == Border(Climb(older, seed, p[..cut], idx), p[cut..])
    decreases n
  {
    AlignedLeast(m, t);
    if n > Pow2(t) {
      hide Xor, BitLen, Shr, Ones, SplitExp, SplitPoint, Pow2, Inner, BorderLen, Climb, Walk;
      SplitBounds(n);
      ExpAbove(t, SplitExp(n));
      var k := SplitPoint(n);
      if m <= k {
        DecomposeLeft(t, m, n);
        LeftStep(older, t, m, n, seed, p);
        assert p[..|p|] == p;
      } else {
        DecomposeRight(t, m, n);
        AlignedSub(m, SplitExp(n), t);
        var y := Shr(m - k - 1, t);
        WalkIsBitWalk(older, t, m - k, n - k, seed, p[..|p| - 1], cut, y);
        RightGlue(older, t, m, n, seed, p, cut, y);
      }
    }
  }

  /** A right turn above the inner part is one more border hash. */
  lemma BorderStep(older: bool, seed: Term, p: seq<Bytes>, x: nat, l: nat, cut: nat)
    requires cut < |p| && cut <= l
    ensures var q := p[..|p| - 1];
      Border(Climb(older, seed, p[..cut], x + Pow2(l)), p[cut..])
      == Pair(Given(p[|p| - 1]), Border(Climb(older, seed, q[..cut], x), q[cut..]))
  {
    var q := p[..|p| - 1];
    assert q[..cut] == p[..cut] && q[cut..] == p[cut..][..|p| - cut - 1];
    ClimbLowBits(older, seed, p[..cut], x, l);
  }

  lemma {:induction false} LeftStep(older: bool, t: nat, m: nat, n: nat, seed: Term, p: seq<Bytes>)
    requires 0 < m <= n && Aligned(m, t) && n > Pow2(t) && m <= SplitPoint(n) && t <= SplitExp(n)
    requires |p| == SplitExp(n) + 1 - t
    ensures Walk(older, t, m, n, seed, p) == Climb(older, seed, p, Shr(m - 1, t))
  {
    SplitBounds(n);
    var j, k := SplitExp(n), SplitPoint(n);
    DecomposeLeft(t, m, n);
    WalkStep(older, t, m, n, j, seed, p);
    PerfectWalk(older, t, m, j, seed, p[..|p| - 1]);
  }

  lemma RightGlue(older: bool, t: nat, m: nat, n: nat, seed: Term, p: seq<Bytes>, cut: nat, y: nat)
    requires 2 <= n && SplitPoint(n) < m <= n && n > Pow2(t) && t <= SplitExp(n)
    requires cut < |p| && cut <= SplitExp(n) - t
    requires Walk(older, t, m - SplitPoint(n), n - SplitPoint(n), seed, p[..|p| - 1])
      == Border(Climb(older, seed, p[..|p| - 1][..cut], y), p[..|p| - 1][cut..])
    ensures Walk(older, t, m, n, seed, p)
      == Border(Climb(older, seed, p[..cut], y + Pow2(SplitExp(n) - t)), p[cut..])
  {
    SplitBounds(n);
    WalkStep(older, t, m, n, SplitExp(n), seed, p);
    BorderStep(older, seed, p, y, SplitExp(n) - t, cut);
  }

  /** No walk is longer than the height of the tree. */
  lemma {:induction false} WalkHeight(t: nat, m: nat, n: nat)
    requires 0 < m <= n
    ensures WalkLen(t, m, n) <= CeilLog2(n)
    decreases n
  {
    if n > Pow2(t) {
      SplitBounds(n);
      var j, k := SplitExp(n), SplitPoint(n);
      BitLenTop(n - 1, j);
      if m <= k {
        WalkHeight(t, m, k);
        BitLenSmall(k - 1, j);
      } else {
        WalkHeight(t, m - k, n - k);
        BitLenSmall(n - k - 1, j);
      }
    }
  }
}
