/** Exact bit arithmetic on naturals: what `>>`, `&`, `^` mean on the BigInts of the Merkle verifier. */
module Bits {

  function Pow2(i: nat): (p: nat)
    ensures p >= 1
  {
    if i == 0 then 1 else 2 * Pow2(i - 1)
  }

  /** `x >> i` */
  function Shr(x: nat, i: nat): nat {
    if i == 0 then x else Shr(x / 2, i - 1)
  }

  /** `(x >> i) & 1` */
  function Bit(x: nat, i: nat): nat {
    Shr(x, i) % 2
  }

  /** `a ^ b` */
  function Xor(a: nat, b: nat): nat
    decreases a + b
  {
    if a == 0 && b == 0 then 0
    else 2 * Xor(a / 2, b / 2) + (if a % 2 == b % 2 then 0 else 1)
  }

  /** Number of binary digits; 0 for 0. */
  function BitLen(x: nat): nat {
    if x == 0 then 0 else 1 + BitLen(x / 2)
  }

  /** Population count. */
  function Ones(x: nat): nat {
    if x == 0 then 0 else x % 2 + Ones(x / 2)
  }

  /** Trailing zero bits; 0 for 0. */
  function TrailingZeros(x: nat): nat {
    if x == 0 || x % 2 == 1 then 0 else 1 + TrailingZeros(x / 2)
  }

  /** 2^t divides x. */
  predicate Aligned(x: nat, t: nat) {
    t == 0 || (x % 2 == 0 && Aligned(x / 2, t - 1))
  }

  /** The least e with n <= 2^e, for n >= 1. */
  function CeilLog2(n: nat): nat
    requires n >= 1
  {
    BitLen(n - 1)
  }

  // ---- the loops of the source, each proved against the function above ----

  method Len64(x: nat) returns (n: nat)
    ensures n == BitLen(x)
  {
    n := 0;
    var y := x;
    while y > 0
      invariant n + BitLen(y) == BitLen(x)
    {
      n := n + 1;
      y := y / 2;
    }
  }

  method OnesCount(x: nat) returns (n: nat)
    ensures n == Ones(x)
  {
    n := 0;
    var y := x;
    while y > 0
      invariant n + Ones(y) == Ones(x)
    {
      n := n + y % 2;
      y := y / 2;
    }
  }

  method CountTrailingZeros(x: nat) returns (n: nat)
    ensures n == TrailingZeros(x)
  {
    if x == 0 { return 0; }
    n := 0;
    var y := x;
    while y % 2 == 0
      invariant y > 0
      invariant n + TrailingZeros(y) == TrailingZeros(x)
      decreases y
    {
      n := n + 1;
      y := y / 2;
    }
  }

  // ---- laws ----

  /** Halving a + 2^j, for j > 0. */
  lemma HalfSum(a: nat, j: nat)
    requires j > 0
    ensures Pow2(j) == 2 * Pow2(j - 1)
    ensures (a + Pow2(j)) / 2 == a / 2 + Pow2(j - 1) && (a + Pow2(j)) % 2 == a % 2
  {
    var half := Pow2(j - 1);
    assert Pow2(j) == 2 * half;
    assert a + 2 * half == 2 * (a / 2 + half) + a % 2;
  }

  lemma {:induction false} Pow2Monotone(i: nat, j: nat)
    requires i <= j
    ensures Pow2(i) <= Pow2(j)
    decreases j
  {
    if i < j { Pow2Monotone(i, j - 1); }
  }

  lemma {:induction false} ShrShr(x: nat, i: nat, l: nat)
    ensures Shr(Shr(x, i), l) == Shr(x, i + l)
  {
    if i > 0 { ShrShr(x / 2, i - 1, l); }
  }

  lemma {:induction false} ShrAddPow(x: nat, j: nat, i: nat)
    requires i <= j
    ensures Shr(x + Pow2(j), i) == Shr(x, i) + Pow2(j - i)
  {
    if i > 0 {
      HalfSum(x, j);
      ShrAddPow(x / 2, j - 1, i - 1);
    }
  }

  lemma {:induction false} ShrSmall(x: nat, j: nat)
    requires x < Pow2(j)
    ensures Shr(x, j) == 0
  {
    if j > 0 { ShrSmall(x / 2, j - 1); }
  }

  lemma {:induction false} ShrBound(x: nat, j: nat, i: nat)
    requires x < Pow2(j) && i <= j
    ensures Shr(x, i) < Pow2(j - i)
  {
    if i > 0 { ShrBound(x / 2, j - 1, i - 1); }
  }

  /** A bit below position l does not see an added 2^l. */
  lemma {:induction false} BitAddPow(x: nat, l: nat, i: nat)
    requires i < l
    ensures Bit(x + Pow2(l), i) == Bit(x, i)
  {
    ShrAddPow(x, l, i);
    assert Pow2(l - i) == 2 * Pow2(l - i - 1);
  }

  /** For x below 2^(j+1), bit j tells whether x reaches 2^j. */
  lemma {:induction false} TopBit(x: nat, j: nat)
    requires x < Pow2(j + 1)
    ensures Bit(x, j) == (if x < Pow2(j) then 0 else 1)
  {
    if x < Pow2(j) {
      ShrSmall(x, j);
    } else {
      ShrAddPow(x - Pow2(j), j, j);
      ShrSmall(x - Pow2(j), j);
    }
  }

  lemma {:induction false} BitLenSmall(x: nat, j: nat)
    requires x < Pow2(j)
    ensures BitLen(x) <= j
  {
    if x > 0 { BitLenSmall(x / 2, j - 1); }
  }

  lemma {:induction false} BitLenTop(x: nat, j: nat)
    requires Pow2(j) <= x < Pow2(j + 1)
    ensures BitLen(x) == j + 1
  {
    if j > 0 { BitLenTop(x / 2, j - 1); }
  }

  lemma {:induction false} XorSmall(a: nat, b: nat, j: nat)
    requires a < Pow2(j) && b < Pow2(j)
    ensures Xor(a, b) < Pow2(j)
    decreases j
  {
    if j > 0 && !(a == 0 && b == 0) { XorSmall(a / 2, b / 2, j - 1); }
  }

  /** A shared top bit cancels. */
  lemma {:induction false} XorSharedTop(a: nat, b: nat, j: nat)
    requires a < Pow2(j) && b < Pow2(j)
    ensures Xor(a + Pow2(j), b + Pow2(j)) == Xor(a, b)
    decreases j
  {
    if j > 0 {
      HalfSum(a, j);
      HalfSum(b, j);
      XorSharedTop(a / 2, b / 2, j - 1);
    }
  }

  /** A top bit held by one side only survives. */
  lemma {:induction false} XorLoneTop(a: nat, b: nat, j: nat)
    requires a < Pow2(j) && b < Pow2(j)
    ensures Pow2(j) <= Xor(a, b + Pow2(j)) < Pow2(j + 1)
    decreases j
  {
    if j > 0 {
      HalfSum(b, j);
      XorLoneTop(a / 2, b / 2, j - 1);
    }
  }

  lemma OnesHalf(x: nat)
    ensures Ones(x) == x % 2 + Ones(x / 2)
  {
  }

  lemma HalfBelow(a: nat, j: nat)
    requires j > 0 && a < Pow2(j)
    ensures a / 2 < Pow2(j - 1)
  {
  }

  lemma OnesStep(a: nat, b: nat)
    requires b % 2 == a % 2 && Ones(b / 2) == 1 + Ones(a / 2)
    ensures Ones(b) == 1 + Ones(a)
  {
    OnesHalf(a);
    OnesHalf(b);
    hide Ones;
  }

  lemma {:induction false} OnesTop(a: nat, j: nat)
    requires a < Pow2(j)
    ensures Ones(a + Pow2(j)) == 1 + Ones(a)
    decreases j
  {
    if j > 0 {
      hide *;
      HalfSum(a, j);
      HalfBelow(a, j);
      var half, q, b := a / 2, Pow2(j - 1), a + Pow2(j);
      OnesTop(half, j - 1);
      assert b / 2 == half + q;
      OnesStep(a, b);
    }
  }

  lemma {:induction false} BitLenBounds(x: nat)
    requires x > 0
    ensures Pow2(BitLen(x) - 1) <= x < Pow2(BitLen(x))
  {
    if x > 1 { BitLenBounds(x / 2); }
  }

  lemma {:induction false} AlignedTrailing(x: nat)
    requires x > 0
    ensures Aligned(x, TrailingZeros(x)) && Pow2(TrailingZeros(x)) <= x
  {
    if x % 2 == 0 { AlignedTrailing(x / 2); }
  }

  lemma {:induction false} AlignedLeast(x: nat, t: nat)
    requires x > 0 && Aligned(x, t)
    ensures x >= Pow2(t)
  {
    if t > 0 { AlignedLeast(x / 2, t - 1); }
  }

  /** Taking away a higher power of two keeps alignment. */
  lemma {:induction false} AlignedSub(x: nat, j: nat, t: nat)
    requires x >= Pow2(j) && t <= j && Aligned(x, t)
    ensures Aligned(x - Pow2(j), t)
  {
    if t > 0 {
      assert (x - Pow2(j)) / 2 == x / 2 - Pow2(j - 1);
      AlignedSub(x / 2, j - 1, t - 1);
    }
  }

  lemma {:induction false} TrailingZerosPow(j: nat)
    ensures TrailingZeros(Pow2(j)) == j
  {
    if j > 0 { TrailingZerosPow(j - 1); }
  }

  lemma {:induction false} TrailingZerosSub(x: nat, j: nat)
    requires Pow2(j) < x < Pow2(j + 1)
    ensures TrailingZeros(x - Pow2(j)) == TrailingZeros(x) < j
  {
    if x % 2 == 0 {
      assert (x - Pow2(j)) / 2 == x / 2 - Pow2(j - 1);
      TrailingZerosSub(x / 2, j - 1);
    } 
  }
}
