/** src/evidence/catalogue.ts: the two hand-written linear scanners, with their step counter.
    Text is a sequence of UTF-16 code units; charCodeAt beyond it is NaN, here NAN, which equals no code
    and satisfies no range test, but does satisfy the negated tests. */
module Catalogue {
  import opened Utf16

  const NAN := -1

  function At(text: Text, i: int): int {
    if 0 <= i < |text| then text[i] else NAN
  }

  predicate IsAlpha(c: int) { 0x41 <= c <= 0x5a || 0x61 <= c <= 0x7a }
  predicate IsDigit(c: int) { 0x30 <= c <= 0x39 }
  predicate IsSchemeChar(c: int) { IsDigit(c) || IsAlpha(c) || c == 0x2b || c == 0x2e || c == 0x2d }
  predicate IsWs(c: int) { c == 0x20 || 0x09 <= c <= 0x0d }
  predicate IsUserChar(c: int) { !IsWs(c) && c != 0x2f && c != 0x3a && c != 0x40 }
  predicate IsPassChar(c: int) { !IsWs(c) && c != 0x2f && c != 0x40 }
  predicate IsB64Url(c: int) { IsDigit(c) || IsAlpha(c) || c == 0x5f || c == 0x2d }

  const COLON := 0x3a
  const SLASH := 0x2f
  const DOT := 0x2e
  const AT_SIGN := 0x40

  /** The classes and marks of the two patterns, as characters; the negated ones hold past the end. */
  lemma CharClasses(x: char)
    ensures IsB64Url(x as int) <==> 'A' <= x <= 'Z' || 'a' <= x <= 'z' || '0' <= x <= '9' || x in "_-"
    ensures IsSchemeChar(x as int) <==> 'A' <= x <= 'Z' || 'a' <= x <= 'z' || '0' <= x <= '9' || x in "+.-"
    ensures IsAlpha(x as int) <==> 'A' <= x <= 'Z' || 'a' <= x <= 'z'
    ensures IsUserChar(x as int) <==> x !in " \t\n\r" && x as int != 0x0b && x as int != 0x0c && x !in "/:@"
    ensures IsPassChar(x as int) <==> x !in " \t\n\r" && x as int != 0x0b && x as int != 0x0c && x !in "/@"
    ensures IsUserChar(NAN) && IsPassChar(NAN) && !IsB64Url(NAN) && !IsSchemeChar(NAN)
    ensures EYJ == ('e' as int, 'y' as int, 'J' as int) && SCHEME_SEP == (':' as int, '/' as int, '/' as int)
    ensures COLON == ':' as int && SLASH == '/' as int && DOT == '.' as int && AT_SIGN == '@' as int
  {
  }

  /** The three units p occur at i. */
  predicate Occurs(text: Text, p: (int, int, int), i: int) {
    0 <= i && i + 3 <= |text| && text[i] == p.0 && text[i + 1] == p.1 && text[i + 2] == p.2
  }

  /** indexOf: the first occurrence at or after `from`, or -1. */
  method IndexOf(text: Text, p: (int, int, int), from: nat) returns (i: int)
    ensures i == -1 || (i >= from && Occurs(text, p, i))
    ensures forall j | from <= j && (i == -1 || j < i) :: !Occurs(text, p, j)
  {
    var k := from;
    while k + 3 <= |text|
      invariant from <= k
      invariant forall j | from <= j < k :: !Occurs(text, p, j)
      decreases |text| - k
    {
      if Occurs(text, p, k) { return k; }
      k := k + 1;
    }
    return -1;
  }

  const EYJ := (0x65, 0x79, 0x4a)
  const SCHEME_SEP := (0x3a, 0x2f, 0x2f)

  // ---- scanJwt ----

  predicate B64Run(text: Text, i: int, e: int) {
    0 <= i <= e <= |text| && forall k | i <= k < e :: IsB64Url(text[k])
  }

  /** A token at a whose first two segments end at dots i and j and whose third reaches at least to k. */
  predicate JwtAt(text: Text, a: int, i: int, j: int, k: int) {
    Occurs(text, EYJ, a)
    && a + 13 <= i && B64Run(text, a + 3, i) && At(text, i) == DOT
    && i + 11 <= j && B64Run(text, i + 1, j) && At(text, j) == DOT
    && j + 7 <= k && B64Run(text, j + 1, k)
  }

  /** eyJ and at least 10 base64url units, a dot, at least 10, a dot, at least 6. */
  ghost predicate HasJwt(text: Text) {
    exists a, i, j, k :: JwtAt(text, a, i, j, k)
  }

  /** e is where the maximal run from i ends. */
  predicate RunEnd(text: Text, i: int, e: int) {
    B64Run(text, i, e) && !IsB64Url(At(text, e))
  }

  lemma RunEndUnique(text: Text, i: int, e: int, i': int, e': int)
    requires RunEnd(text, i, e) && RunEnd(text, i', e') && i <= i' <= e
    ensures e == e'
  {
  }

  /** The inner loops of scanJwt: consume a run, one step a unit. */
  method Consume(text: Text, i: nat) returns (e: nat)
    requires i <= |text|
    ensures RunEnd(text, i, e)
  {
    e := i;
    while IsB64Url(At(text, e))
      invariant B64Run(text, i, e)
      decreases |text| - e
    {
      e := e + 1;
    }
  }

  /** eyJ itself is base64url, so an eyJ that starts inside a run ends inside it. */
  lemma EyjInsideRun(text: Text, s: int, e: int, a: int)
    requires RunEnd(text, s, e) && s <= a < e && Occurs(text, EYJ, a)
    ensures a + 3 <= e
  {
  }

  /** A token that starts inside the run of an earlier eyJ shares its dot and everything after it. */
  lemma LaterSharesTail(text: Text, a: int, i: int, a': int, i': int, j: int, k: int)
    requires Occurs(text, EYJ, a) && RunEnd(text, a + 3, i)
    requires a <= a' < i && JwtAt(text, a', i', j, k)
    ensures JwtAt(text, a, i, j, k)
  {
    assert RunEnd(text, a, i) by {
      assert IsB64Url(text[a]) && IsB64Url(text[a + 1]) && IsB64Url(text[a + 2]);
    }
    EyjInsideRun(text, a, i, a');
    RunEndUnique(text, a, i, a' + 3, i');
  }

  /** So if the first candidate of a run fails, every later one in the same run fails. */
  lemma FailureCoversRun(text: Text, a: int, i: int)
    requires Occurs(text, EYJ, a) && RunEnd(text, a + 3, i)
    requires forall j, k :: !JwtAt(text, a, i, j, k)
    ensures forall a', i', j, k | a <= a' < i :: !JwtAt(text, a', i', j, k)
  {
    forall a', i', j, k | a <= a' < i && JwtAt(text, a', i', j, k)
      ensures false
    {
      LaterSharesTail(text, a, i, a', i', j, k);
    }
  }

  /** Where the furthest first, second and third segment scans ended. Each kind of scan starts at or after
      the place where the last one of its kind ended, which is what makes the walk linear. */
  ghost predicate Frontier(text: Text, i: int, j: int, k: int) {
    0 <= i <= |text| && 0 <= j <= |text| && 0 <= k <= |text|
    && (j <= i || (At(text, i) == DOT && RunEnd(text, i + 1, j)))
    && (k <= i || k <= j
        || ((j == i || (At(text, i) == DOT && RunEnd(text, i + 1, j))) && At(text, j) == DOT && RunEnd(text, j + 1, k)))
  }

  lemma NextSegmentOne(text: Text, i: int, j: int, k: int, a: int, e: int)
    requires Frontier(text, i, j, k) && i <= a && Occurs(text, EYJ, a) && RunEnd(text, a + 3, e)
    ensures j <= e && i < e
    ensures k <= e || k <= j || (e == j && At(text, e) == DOT && RunEnd(text, e + 1, k))
  {
    if j > i {
      if a < j {
        EyjInsideRun(text, i + 1, j, a);
        RunEndUnique(text, i + 1, j, a + 3, e);
      }
    }
    if k > i && k > j && e != j && j <= a {
      if a < k {
        EyjInsideRun(text, j + 1, k, a);
        RunEndUnique(text, j + 1, k, a + 3, e);
      }
    }
  }

  /** scanJwt. `steps` is the increment of SCAN_STEPS. */
  method ScanJwt(text: Text) returns (found: bool, steps: nat)
    ensures found <==> HasJwt(text)
    ensures steps <= 3 * |text|
  {
    steps := 0;
    ghost var fi, fj, fk := 0, 0, 0;
    var at := IndexOf(text, EYJ, 0);
    while at != -1
      invariant at == -1 || (at >= fi && Occurs(text, EYJ, at))
      invariant Frontier(text, fi, fj, fk) && steps <= fi + fj + fk
      invariant forall a, i, j, k | at == -1 || a < at :: !JwtAt(text, a, i, j, k)
      decreases if at == -1 then 0 else |text| - fi + 1
    {
      var i := Consume(text, at + 3);
      NextSegmentOne(text, fi, fj, fk, at, i);
      steps := steps + (i - (at + 3));
      ghost var gj, gk := fj, fk;
      if i - at >= 13 && At(text, i) == DOT {
        var j := Consume(text, i + 1);
        SecondAfterThird(text, i, j, fj, fk);
        steps := steps + (j - (i + 1));
        gj := j;
        if j - (i + 1) >= 10 && At(text, j) == DOT {
          var k := Consume(text, j + 1);
          steps := steps + (k - (j + 1));
          gk := k;
          if k - (j + 1) >= 6 {
            assert JwtAt(text, at, i, j, k);
            return true, steps;
          }
          FailThird(text, at, i, j, k);
        } else {
          FailSecond(text, at, i, j);
        }
      } else {
        FailFirst(text, at, i);
      }
      FailureCoversRun(text, at, i);
      assert Frontier(text, i, gj, gk);
      fi, fj, fk := i, gj, gk;
      var next := IndexOf(text, EYJ, i);
      forall a, x, y, z | next == -1 || a < next
        ensures !JwtAt(text, a, x, y, z)
      {
        if i <= a { assert !Occurs(text, EYJ, a); }
      }
      at := next;
    }
    return false, steps;
  }

  lemma SecondAfterThird(text: Text, i: int, j: int, oldJ: int, oldK: int)
    requires At(text, i) == DOT && RunEnd(text, i + 1, j) && oldJ <= i
    requires oldK <= i || oldK <= oldJ || (i == oldJ && RunEnd(text, i + 1, oldK))
    ensures oldK <= j
  {
    if !(oldK <= i || oldK <= oldJ) { RunEndUnique(text, i + 1, j, i + 1, oldK); }
  }

  lemma FailFirst(text: Text, a: int, i: int)
    requires Occurs(text, EYJ, a) && RunEnd(text, a + 3, i) && !(i - a >= 13 && At(text, i) == DOT)
    ensures forall j, k :: !JwtAt(text, a, i, j, k)
  {
  }

  lemma FailSecond(text: Text, a: int, i: int, j: int)
    requires Occurs(text, EYJ, a) && RunEnd(text, i + 1, j) && !(j - (i + 1) >= 10 && At(text, j) == DOT)
    ensures forall j', k :: !JwtAt(text, a, i, j', k)
  {
    forall j', k | JwtAt(text, a, i, j', k)
      ensures false
    {
      RunEndUnique(text, i + 1, j, i + 1, j');
    }
  }

  lemma FailThird(text: Text, a: int, i: int, j: int, k: int)
    requires RunEnd(text, i + 1, j) && RunEnd(text, j + 1, k) && k - (j + 1) < 6
    ensures forall j', k' :: !JwtAt(text, a, i, j', k')
  {
    forall j', k' | JwtAt(text, a, i, j', k')
      ensures false
    {
      RunEndUnique(text, i + 1, j, i + 1, j');
    }
  }

  // ---- scanUrlUserinfo ----

  const SCHEME_MAX := 40
  const USERINFO_MAX := 512

  /** A letter within the contiguous run of at most 40 scheme characters before `at`. */
  ghost predicate SchemeLetter(text: Text, at: int) {
    exists q :: SchemeLetterAt(text, at, q)
  }

  predicate SchemeLetterAt(text: Text, at: int, q: int) {
    0 <= q < at <= |text| && at - SCHEME_MAX <= q && IsAlpha(text[q]) && forall k | q <= k < at :: IsSchemeChar(text[k])
  }

  predicate UserRun(text: Text, i: int, u: int) { 0 <= i <= u <= |text| && forall k | i <= k < u :: IsUserChar(text[k]) }

  predicate PassRun(text: Text, i: int, e: int) { 0 <= i <= e <= |text| && forall k | i <= k < e :: IsPassChar(text[k]) }

  /** scheme://user:pass@ with the colon at u and the at-sign at e, userinfo of at most 512 units. */
  ghost predicate CredentialAt(text: Text, at: int, u: int, e: int) {
    Occurs(text, SCHEME_SEP, at) && SchemeLetter(text, at)
    && at + 3 < u && UserRun(text, at + 3, u) && At(text, u) == COLON
    && u + 1 < e && PassRun(text, u + 1, e) && At(text, e) == AT_SIGN
    && e - (at + 3) <= USERINFO_MAX
  }

  ghost predicate HasCredential(text: Text) {
    exists at, u, e :: CredentialAt(text, at, u, e)
  }

  /** The userinfo after `at` reaches the end of the text before any terminator and before the ceiling. The
      negated character tests hold of NaN, so the scan then runs on past the end up to the ceiling. */
  ghost predicate RunsOffAt(text: Text, at: int) {
    Occurs(text, SCHEME_SEP, at) && SchemeLetter(text, at) && at + 3 + USERINFO_MAX > |text|
    && (UserRun(text, at + 3, |text|)
        || exists u :: at + 3 < u < |text| && UserRun(text, at + 3, u) && At(text, u) == COLON && PassRun(text, u + 1, |text|))
  }

  ghost predicate RunsOff(text: Text) {
    exists at :: RunsOffAt(text, at)
  }

  /** The bounded backward window. */
  method ScanScheme(text: Text, at: nat) returns (s: int, sawAlpha: bool)
    requires at <= |text|
    ensures -1 <= s < at && at - SCHEME_MAX - 1 <= s
    ensures forall k | s < k < at :: IsSchemeChar(text[k])
    ensures sawAlpha <==> SchemeLetter(text, at)
  {
    var lo := if at - SCHEME_MAX < 0 then 0 else at - SCHEME_MAX;
    s, sawAlpha := at - 1, false;
    while s >= lo && IsSchemeChar(text[s])
      invariant lo - 1 <= s < at
      invariant forall k | s < k < at :: IsSchemeChar(text[k])
      invariant sawAlpha <==> exists q :: s < q && SchemeLetterAt(text, at, q)
      decreases s + 1
    {
      if IsAlpha(text[s]) {
        sawAlpha := true;
        assert SchemeLetterAt(text, at, s);
      }
      s := s - 1;
    }
    forall q | SchemeLetterAt(text, at, q)
      ensures s < q
    {
    }
  }

  /** What the forward scan of one occurrence found: where it stopped, and whether that is a credential. */
  ghost predicate ScannedForward(text: Text, at: int, i: int, hit: bool) {
    0 <= at && at + 3 <= i <= at + 3 + USERINFO_MAX
    && (forall k | at + 3 <= k < i && k < |text| :: text[k] != SLASH)
    && (hit ==> i < |text| && exists u :: CredentialAt(text, at, u, i))
    && (!hit && SchemeLetter(text, at) ==> forall u, e :: !CredentialAt(text, at, u, e))
    && (i > |text| ==> i == at + 3 + USERINFO_MAX)
    && (SchemeLetter(text, at) ==> (i > |text| <==> RunsOffAt(text, at)))
  }

  method ScanForward(text: Text, at: nat) returns (i: nat, hit: bool, steps: nat)
    requires Occurs(text, SCHEME_SEP, at) && SchemeLetter(text, at)
    ensures ScannedForward(text, at, i, hit)
    ensures steps <= i - (at + 3)
    ensures i > |text| ==> steps >= i - |text|
  {
    var uStart := at + 3;
    var maxAt := uStart + USERINFO_MAX;
    i, steps, hit := uStart, 0, false;
    while i < maxAt && IsUserChar(At(text, i))
      invariant uStart <= i <= maxAt && steps == i - uStart
      invariant forall k | uStart <= k < i && k < |text| :: IsUserChar(text[k])
    {
      steps := steps + 1;
      i := i + 1;
    }
    ghost var u := i;
    if i > uStart && i < maxAt && At(text, i) == COLON {
      i := i + 1;
      var pStart := i;
      while i < maxAt && IsPassChar(At(text, i))
        invariant pStart <= i <= maxAt && steps == i - uStart - 1
        invariant forall k | pStart <= k < i && k < |text| :: IsPassChar(text[k])
      {
        steps := steps + 1;
        i := i + 1;
      }
      hit := i > pStart && i <= maxAt && At(text, i) == AT_SIGN;
      if hit { assert CredentialAt(text, at, u, i); }
      AfterColon(text, at, u, i);
    } else {
      BeforeColon(text, at, u);
    }
  }

  lemma BeforeColon(text: Text, at: int, u: int)
    requires Occurs(text, SCHEME_SEP, at) && SchemeLetter(text, at)
    requires at + 3 <= u <= at + 3 + USERINFO_MAX
    requires forall k | at + 3 <= k < u && k < |text| :: IsUserChar(text[k])
    requires u == at + 3 + USERINFO_MAX || !IsUserChar(At(text, u))
    requires !(u > at + 3 && u < at + 3 + USERINFO_MAX && At(text, u) == COLON)
    ensures forall v, e :: !CredentialAt(text, at, v, e)
    ensures u > |text| ==> u == at + 3 + USERINFO_MAX
    ensures u > |text| <==> RunsOffAt(text, at)
  {
    forall v, e | CredentialAt(text, at, v, e)
      ensures false
    {
      SameColon(text, at, u, v);
    }
    if RunsOffAt(text, at) && !UserRun(text, at + 3, |text|) {
      var v :| at + 3 < v < |text| && UserRun(text, at + 3, v) && At(text, v) == COLON && PassRun(text, v + 1, |text|);
      SameColon(text, at, u, v);
    }
  }

  /** The user run ends where the scan says, unless the ceiling came first. */
  lemma SameColon(text: Text, at: int, u: int, v: int)
    requires 0 <= at && at + 3 <= u && forall k | at + 3 <= k < u && k < |text| :: IsUserChar(text[k])
    requires u == at + 3 + USERINFO_MAX || !IsUserChar(At(text, u))
    requires at + 3 < v < |text| && UserRun(text, at + 3, v) && At(text, v) == COLON
    ensures u == v || (u == at + 3 + USERINFO_MAX && v >= u)
  {
  }

  lemma AfterColon(text: Text, at: int, u: int, i: int)
    requires Occurs(text, SCHEME_SEP, at) && SchemeLetter(text, at)
    requires at + 3 < u < at + 3 + USERINFO_MAX && UserRun(text, at + 3, u) && At(text, u) == COLON
    requires u + 1 <= i <= at + 3 + USERINFO_MAX
    requires forall k | u + 1 <= k < i && k < |text| :: IsPassChar(text[k])
    requires i == at + 3 + USERINFO_MAX || !IsPassChar(At(text, i))
    ensures !(i > u + 1 && At(text, i) == AT_SIGN) ==> forall v, e :: !CredentialAt(text, at, v, e)
    ensures i > |text| ==> i == at + 3 + USERINFO_MAX
    ensures i > |text| <==> RunsOffAt(text, at)
  {
    forall v, e | CredentialAt(text, at, v, e)
      ensures e == i && i > u + 1
    {
      SameColon(text, at, u, v);
    }
    if RunsOffAt(text, at) {
      assert !UserRun(text, at + 3, |text|) by {
        assert !IsUserChar(text[u]);
      }
      var v :| at + 3 < v < |text| && UserRun(text, at + 3, v) && At(text, v) == COLON && PassRun(text, v + 1, |text|);
      SameColon(text, at, u, v);
    }
  }

  /** scanUrlUserinfo. `past` counts the steps taken beyond the end of the text. */
  method ScanUrlUserinfo(text: Text) returns (found: bool, steps: nat, ghost past: nat)
    ensures found <==> HasCredential(text)
    ensures past <= steps <= 2 * |text| + past
    ensures past <= USERINFO_MAX
    ensures past > 0 <==> !found && RunsOff(text)
    ensures !found ==> forall at | RunsOffAt(text, at) :: past == at + 3 + USERINFO_MAX - |text|
  {
    steps, past := 0, 0;
    ghost var back, fwd := 0, 0;
    var at := IndexOf(text, SCHEME_SEP, 0);
    while at != -1
      invariant at == -1 || (at >= back && at + 3 >= fwd && Occurs(text, SCHEME_SEP, at))
      invariant 0 <= back <= |text| && 0 <= fwd
      invariant back > 0 ==> text[back - 1] == COLON
      invariant past == (if fwd > |text| then fwd - |text| else 0) && past <= USERINFO_MAX
      invariant past <= steps <= back + fwd
      invariant past > 0 ==> at == -1
      invariant forall a, u, e | at == -1 || a < at :: !CredentialAt(text, a, u, e)
      invariant forall a | RunsOffAt(text, a) && (at == -1 || a < at) :: past > 0 && past == a + 3 + USERINFO_MAX - |text|
      invariant past > 0 ==> RunsOff(text)
      decreases if at == -1 then 0 else |text| - back + 1
    {
      var s, sawAlpha := ScanScheme(text, at);
      assert s >= back - 1 by {
        assert back > 0 ==> !IsSchemeChar(text[back - 1]);
      }
      steps := steps + (at - 1 - s);
      ghost var stop := at + 3;
      if sawAlpha {
        var i, hit, n := ScanForward(text, at);
        steps := steps + n;
        if hit {
          return true, steps, 0;
        }
        stop := i;
      }
      var next := IndexOf(text, SCHEME_SEP, at + 1);
      if next != -1 {
        assert text[at + 1] == SLASH && text[at + 2] == SLASH && text[next] == COLON;
        assert next >= at + 3;
        assert text[next + 1] == SLASH;
        assert next + 1 >= stop;
      }
      past := if stop > |text| then stop - |text| else 0;
      forall a, u, e | (next == -1 || a < next)
        ensures !CredentialAt(text, a, u, e)
      {
        if a > at { assert !Occurs(text, SCHEME_SEP, a); }
      }
      forall a | RunsOffAt(text, a) && (next == -1 || a < next)
        ensures past > 0 && past == a + 3 + USERINFO_MAX - |text|
      {
      }
      back, fwd, at := at + 1, stop, next;
    }
    return false, steps, past;
  }

  /** scanStepBudget: the counter is linear, with the overrun as the only constant. */
  method ScanStepBudget(text: Text) returns (steps: nat)
    ensures steps <= 5 * |text| + USERINFO_MAX
    ensures !RunsOff(text) ==> steps <= 5 * |text|
  {
    var found, n, past := ScanUrlUserinfo(text);
    var foundJwt, m := ScanJwt(text);
    steps := n + m;
  }

  /** Two steps a unit is not a bound for every text: on "a://" the scan takes 512 steps past the end. */
  method OverrunOnShortText() returns (text: Text, steps: nat)
    ensures |text| == 4 && steps >= USERINFO_MAX
  {
    text := [0x61, COLON, SLASH, SLASH];
    assert SchemeLetterAt(text, 1, 0);
    assert RunsOffAt(text, 1);
    assert !HasCredential(text);
    var found, n, past := ScanUrlUserinfo(text);
    steps := n;
  }
}
