/** The grammars shared by the identity modules. */
module Names {
  predicate NameChar(c: char) { 'a' <= c <= 'z' || '0' <= c <= '9' || c == '.' || c == '_' || c == '-' }

  predicate NameOk(s: string) { 1 <= |s| <= 64 && forall c | c in s :: NameChar(c) }

  predicate ScopeOk(s: string) { 1 <= |s| <= 128 && forall c | c in s :: '!' <= c <= '~' }

  predicate CodecOk(s: string) { 1 <= |s| <= 32 && forall c | c in s :: 'a' <= c <= 'z' || '0' <= c <= '9' || c == '_' }

  predicate LabelOk(s: string) { 1 <= |s| <= 256 }
}

/** convex/aumlokRootRegistry.ts: genesis, rotation and revocation of root keys. */
module RootRegistry {
  import opened Names

  datatype Option<+T> = None | Some(value: T)

  datatype Status = Active | Retired | Revoked

  datatype KeyRow = KeyRow(rootId: string, keyId: string, publicKey: string, fingerprint: string, status: Status)

  /** The table, in order of insertion; no row is ever deleted. */
  type Keys = seq<KeyRow>

  datatype Rotation = Rotation(version: int, rootId: string, oldKeyId: string, newKeyId: string, newPublicKey: string,
                               newFingerprint: string, reason: string, timestamp: int)

  /** The shape gate on public keys, their fingerprint, and the ideal signature check on a rotation statement. */
  datatype Crypto = Crypto(shape: string -> bool, fingerprint: string -> string, signed: (string, Rotation, string) -> bool)

  datatype Error =
    | OperatorRefused | BadName | BadArgument | RootExists | BadPublicKey | PublicKeyReused | BadVersion | BadTimestamp
    | SameKeyId | KeyUnknown | KeyRevoked | KeyRetired | FingerprintMismatch | KeyIdExists | BadSignature

  datatype Result<+T> = Ok(value: T) | Err(error: Error)

  const MAX_SAFE := 0x1F_FFFF_FFFF_FFFF

  predicate RootKnown(keys: Keys, rootId: string) { exists k | k in keys :: k.rootId == rootId }

  predicate FingerprintInUse(keys: Keys, fp: string) { exists k | k in keys :: k.fingerprint == fp }

  /** The row of (rootId, keyId), by its position. */
  function FindKey(keys: Keys, rootId: string, keyId: string): (r: Option<nat>)
    ensures r.Some? ==> r.value < |keys| && keys[r.value].rootId == rootId && keys[r.value].keyId == keyId
    ensures r.None? ==> forall k | k in keys :: !(k.rootId == rootId && k.keyId == keyId)
  {
    if keys == [] then None
    else
      var n := |keys| - 1;
      var front := FindKey(keys[..n], rootId, keyId);
      assert keys == keys[..n] + [keys[n]];
      if front.Some? then front
      else if keys[n].rootId == rootId && keys[n].keyId == keyId then Some(n)
      else None
  }

  /** The birth of a root: once per root, a well-shaped key, a fingerprint nobody uses. */
  function Mint(c: Crypto, keys: Keys, rootId: string, keyId: string, publicKey: string): Result<Keys> {
    if RootKnown(keys, rootId) then Err(RootExists)
    else if !c.shape(publicKey) then Err(BadPublicKey)
    else if FingerprintInUse(keys, c.fingerprint(publicKey)) then Err(PublicKeyReused)
    else Ok(keys + [KeyRow(rootId, keyId, publicKey, c.fingerprint(publicKey), Active)])
  }

  function Genesis(c: Crypto, keys: Keys, operator: bool, rootId: string, keyId: string, publicKey: string): Result<Keys> {
    if !operator then Err(OperatorRefused)
    else if !NameOk(rootId) || !NameOk(keyId) then Err(BadName)
    else if publicKey == "" then Err(BadArgument)
    else Mint(c, keys, rootId, keyId, publicKey)
  }

  /** The self-sovereign birth of convex/aumlokCeremony.ts: no operator, but a challenge that the new key itself signed. */
  function Ceremony(c: Crypto, keys: Keys, proven: bool, rootId: string, keyId: string, publicKey: string): Result<Keys> {
    if !NameOk(rootId) || !NameOk(keyId) then Err(BadName)
    else if !proven then Err(BadSignature)
    else Mint(c, keys, rootId, keyId, publicKey)
  }

  function Rotate(c: Crypto, keys: Keys, operator: bool, s: Rotation, sig: string): Result<Keys> {
    if !operator then Err(OperatorRefused)
    else if sig == "" then Err(BadArgument)
    else if !NameOk(s.rootId) || !NameOk(s.oldKeyId) || !NameOk(s.newKeyId) then Err(BadName)
    else if s.newPublicKey == "" || !LabelOk(s.newFingerprint) || !LabelOk(s.reason) then Err(BadArgument)
    else if s.version != 1 then Err(BadVersion)
    else if !(0 < s.timestamp <= MAX_SAFE) then Err(BadTimestamp)
    else if s.newKeyId == s.oldKeyId then Err(SameKeyId)
    else
      var prior := FindKey(keys, s.rootId, s.oldKeyId);
      if prior.None? then Err(KeyUnknown)
      else if keys[prior.value].status == Revoked then Err(KeyRevoked)
      else if keys[prior.value].status == Retired then Err(KeyRetired)
      else if !c.shape(s.newPublicKey) then Err(BadPublicKey)
      else if s.newFingerprint != c.fingerprint(s.newPublicKey) then Err(FingerprintMismatch)
      else if FindKey(keys, s.rootId, s.newKeyId).Some? then Err(KeyIdExists)
      else if FingerprintInUse(keys, s.newFingerprint) then Err(PublicKeyReused)
      else if !c.signed(keys[prior.value].publicKey, s, sig) then Err(BadSignature)
      else Ok(keys[prior.value := keys[prior.value].(status := Retired)]
              + [KeyRow(s.rootId, s.newKeyId, s.newPublicKey, s.newFingerprint, Active)])
  }

  function Revoke(keys: Keys, operator: bool, rootId: string, keyId: string, reason: string): Result<Keys> {
    if !operator then Err(OperatorRefused)
    else if !NameOk(rootId) || !NameOk(keyId) then Err(BadName)
    else if !LabelOk(reason) then Err(BadArgument)
    else
      var row := FindKey(keys, rootId, keyId);
      if row.None? then Err(KeyUnknown)
      else if keys[row.value].status == Revoked then Err(KeyRevoked)
      else Ok(keys[row.value := keys[row.value].(status := Revoked)])
  }

  /** proven says that the ceremony's challenge, its summary and its signature by the new key hold. */
  datatype Op =
    | GenesisOp(rootId: string, keyId: string, publicKey: string)
    | CeremonyOp(rootId: string, keyId: string, publicKey: string, proven: bool)
    | RotateOp(s: Rotation, sig: string)
    | RevokeOp(rootId: string, keyId: string, reason: string)

  function Apply(c: Crypto, keys: Keys, operator: bool, op: Op): Result<Keys> {
    match op
    case GenesisOp(r, k, p) => Genesis(c, keys, operator, r, k, p)
    case CeremonyOp(r, k, p, proven) => Ceremony(c, keys, proven, r, k, p)
    case RotateOp(s, sig) => Rotate(c, keys, operator, s, sig)
    case RevokeOp(r, k, reason) => Revoke(keys, operator, r, k, reason)
  }

  function Committed(r: Result<Keys>, before: Keys): Keys { if r.Ok? then r.value else before }

  class Registry {
    const c: Crypto
    var keys: Keys

    constructor (c: Crypto)
      ensures this.c == c && keys == []
    {
      this.c, keys := c, [];
    }

    /** mintRootKeyRow. */
    method MintRow(rootId: string, keyId: string, publicKey: string) returns (error: Option<Error>)
      modifies this
      ensures var r := Mint(c, old(keys), rootId, keyId, publicKey);
        keys == Committed(r, old(keys)) && (error.None? <==> r.Ok?) && (error.Some? ==> r == Err(error.value))
    {
      if exists k | k in keys :: k.rootId == rootId { return Some(RootExists); }
      if !c.shape(publicKey) { return Some(BadPublicKey); }
      var fp := c.fingerprint(publicKey);
      if FingerprintInUse(keys, fp) { return Some(PublicKeyReused); }
      keys := keys + [KeyRow(rootId, keyId, publicKey, fp, Active)];
      return None;
    }

    /** aumlokRotateRoot: all checks, then the flip. */
    method RotateRoot(operator: bool, s: Rotation, sig: string) returns (error: Option<Error>)
      modifies this
      ensures var r := Rotate(c, old(keys), operator, s, sig);
        keys == Committed(r, old(keys)) && (error.None? <==> r.Ok?) && (error.Some? ==> r == Err(error.value))
    {
      if !operator { return Some(OperatorRefused); }
      if sig == "" { return Some(BadArgument); }
      if !NameOk(s.rootId) || !NameOk(s.oldKeyId) || !NameOk(s.newKeyId) { return Some(BadName); }
      if s.newPublicKey == "" || !LabelOk(s.newFingerprint) || !LabelOk(s.reason) { return Some(BadArgument); }
      if s.version != 1 { return Some(BadVersion); }
      if s.timestamp <= 0 || s.timestamp > MAX_SAFE { return Some(BadTimestamp); }
      if s.newKeyId == s.oldKeyId { return Some(SameKeyId); }
      var found := FindKey(keys, s.rootId, s.oldKeyId);
      if found.None? { return Some(KeyUnknown); }
      var i := found.value;
      if keys[i].status == Revoked { return Some(KeyRevoked); }
      if keys[i].status == Retired { return Some(KeyRetired); }
      if !c.shape(s.newPublicKey) { return Some(BadPublicKey); }
      if s.newFingerprint != c.fingerprint(s.newPublicKey) { return Some(FingerprintMismatch); }
      if FindKey(keys, s.rootId, s.newKeyId).Some? { return Some(KeyIdExists); }
      if FingerprintInUse(keys, s.newFingerprint) { return Some(PublicKeyReused); }
      if !c.signed(keys[i].publicKey, s, sig) { return Some(BadSignature); }
      keys := keys[i := keys[i].(status := Retired)];
      keys := keys + [KeyRow(s.rootId, s.newKeyId, s.newPublicKey, s.newFingerprint, Active)];
      return None;
    }

    /** aumlokRevokeRoot. */
    method RevokeRoot(operator: bool, rootId: string, keyId: string, reason: string) returns (error: Option<Error>)
      modifies this
      ensures var r := Revoke(old(keys), operator, rootId, keyId, reason);
        keys == Committed(r, old(keys)) && (error.None? <==> r.Ok?) && (error.Some? ==> r == Err(error.value))
    {
      if !operator { return Some(OperatorRefused); }
      if !NameOk(rootId) || !NameOk(keyId) { return Some(BadName); }
      if !LabelOk(reason) { return Some(BadArgument); }
      var row := FindKey(keys, rootId, keyId);
      if row.None? { return Some(KeyUnknown); }
      if keys[row.value].status == Revoked { return Some(KeyRevoked); }
      keys := keys[row.value := keys[row.value].(status := Revoked)];
      return None;
    }
  }

  // ---- what every run keeps ----

  /** Fingerprints are globally unique, key ids unique within a root, and only the newest key of a root can be
      active, so a root has at most one active key. */
  ghost predicate Sound(c: Crypto, keys: Keys) {
    && (forall i, j | 0 <= i < j < |keys| :: keys[i].fingerprint != keys[j].fingerprint)
    && (forall i, j | 0 <= i < j < |keys| && keys[i].rootId == keys[j].rootId ::
          keys[i].keyId != keys[j].keyId && keys[i].status != Active)
    && (forall k | k in keys :: k.fingerprint == c.fingerprint(k.publicKey) && c.shape(k.publicKey))
  }

  /** A root that has keys, none of them active. */
  predicate Dead(keys: Keys, rootId: string) {
    RootKnown(keys, rootId) && forall k | k in keys && k.rootId == rootId :: k.status != Active
  }

  function Rank(s: Status): nat {
    match s case Active => 0 case Retired => 1 case Revoked => 2
  }

  /** Rows stay, keep their identity, and only move from active to retired to revoked; dead roots stay dead. */
  ghost predicate Evolves(a: Keys, b: Keys) {
    && |a| <= |b|
    && (forall i | 0 <= i < |a| :: a[i].(status := b[i].status) == b[i] && Rank(a[i].status) <= Rank(b[i].status))
    && (forall r | Dead(a, r) :: Dead(b, r))
  }

  lemma MintKeeps(c: Crypto, keys: Keys, rootId: string, keyId: string, publicKey: string)
    requires Sound(c, keys) && Mint(c, keys, rootId, keyId, publicKey).Ok?
    ensures var t := Mint(c, keys, rootId, keyId, publicKey).value; Sound(c, t) && Evolves(keys, t)
  {
    var t := Mint(c, keys, rootId, keyId, publicKey).value;
    assert forall i | 0 <= i < |keys| :: keys[i] in keys;
    forall r | Dead(keys, r)
      ensures Dead(t, r)
    {
      var k :| k in keys && k.rootId == r;
      assert k in t;
    }
  }

  lemma RotateKeeps(c: Crypto, keys: Keys, operator: bool, s: Rotation, sig: string)
    requires Sound(c, keys) && Rotate(c, keys, operator, s, sig).Ok?
    ensures var t := Rotate(c, keys, operator, s, sig).value; Sound(c, t) && Evolves(keys, t)
  {
    var o := FindKey(keys, s.rootId, s.oldKeyId).value;
    var row := KeyRow(s.rootId, s.newKeyId, s.newPublicKey, s.newFingerprint, Active);
    assert FindKey(keys, s.rootId, s.newKeyId).None?;
    assert keys[o].status == Active && Rotate(c, keys, operator, s, sig).value == Flipped(keys, o, row);
    hide FindKey, Rotate, NameOk, LabelOk;
    FlipSound(c, keys, o, row);
    FlipEvolves(c, keys, o, row);
  }

  /** Row o retired, one new row. */
  function Flipped(keys: Keys, o: nat, row: KeyRow): Keys
    requires o < |keys|
  {
    keys[o := keys[o].(status := Retired)] + [row]
  }

  lemma FlipSound(c: Crypto, keys: Keys, o: nat, row: KeyRow)
    requires Sound(c, keys) && o < |keys| && keys[o].status == Active && keys[o].rootId == row.rootId
    requires !FingerprintInUse(keys, row.fingerprint) && forall k | k in keys :: !(k.rootId == row.rootId && k.keyId == row.keyId)
    requires row.fingerprint == c.fingerprint(row.publicKey) && c.shape(row.publicKey)
    ensures Sound(c, Flipped(keys, o, row))
  {
    var t := Flipped(keys, o, row);
    assert forall i | 0 <= i < |keys| :: keys[i] in keys;
    forall i | 0 <= i < |keys| && i != o && keys[i].rootId == row.rootId
      ensures i < o && t[i].status != Active
    {
    }
  }

  lemma FlipEvolves(c: Crypto, keys: Keys, o: nat, row: KeyRow)
    requires Sound(c, keys) && o < |keys| && keys[o].status == Active && keys[o].rootId == row.rootId
    ensures Evolves(keys, Flipped(keys, o, row))
  {
    var t := Flipped(keys, o, row);
    hide Sound;
    forall r | Dead(keys, r)
      ensures Dead(t, r)
    {
      FlipDead(keys, o, row, r);
    }
    hide Dead;
  }

  lemma FlipDead(keys: Keys, o: nat, row: KeyRow, r: string)
    requires o < |keys| && keys[o].status == Active && keys[o].rootId == row.rootId && Dead(keys, r)
    ensures Dead(Flipped(keys, o, row), r)
  {
    var t := Flipped(keys, o, row);
    assert keys[o] in keys && r != row.rootId;
    var k :| k in keys && k.rootId == r;
    var i :| 0 <= i < |keys| && keys[i] == k;
    assert t[i] in t;
  }

  lemma RevokeKeeps(c: Crypto, keys: Keys, operator: bool, rootId: string, keyId: string, reason: string)
    requires Sound(c, keys) && Revoke(keys, operator, rootId, keyId, reason).Ok?
    ensures var t := Revoke(keys, operator, rootId, keyId, reason).value; Sound(c, t) && Evolves(keys, t)
  {
    var t, o := Revoke(keys, operator, rootId, keyId, reason).value, FindKey(keys, rootId, keyId).value;
    hide FindKey;
    assert forall i | 0 <= i < |keys| :: keys[i] in keys;
    forall r | Dead(keys, r)
      ensures Dead(t, r)
    {
      var k :| k in keys && k.rootId == r;
      var i :| 0 <= i < |keys| && keys[i] == k;
      assert t[i] in t;
    }
  }

  lemma ApplyKeeps(c: Crypto, keys: Keys, operator: bool, op: Op)
    requires Sound(c, keys)
    ensures var t := Committed(Apply(c, keys, operator, op), keys); Sound(c, t) && Evolves(keys, t)
  {
    if Apply(c, keys, operator, op).Ok? {
      match op {
        case GenesisOp(r, k, p) => MintKeeps(c, keys, r, k, p);
        case CeremonyOp(r, k, p, _) => MintKeeps(c, keys, r, k, p);
        case RotateOp(s, sig) => RotateKeeps(c, keys, operator, s, sig);
        case RevokeOp(r, k, reason) => RevokeKeeps(c, keys, operator, r, k, reason);
      }
    }
  }

  lemma EvolvesTransitive(a: Keys, b: Keys, d: Keys)
    requires Evolves(a, b) && Evolves(b, d)
    ensures Evolves(a, d)
  {
  }

  datatype Call = Call(operator: bool, op: Op)

  /** The table after a run of calls, failed ones changing nothing. */
  function Run(c: Crypto, keys: Keys, calls: seq<Call>): Keys
    decreases |calls|
  {
    if calls == [] then keys
    else
      var n := |calls| - 1;
      var t := Run(c, keys, calls[..n]);
      Committed(Apply(c, t, calls[n].operator, calls[n].op), t)
  }

  /** Every run, from a sound table: one active key per root at most and unique fingerprints throughout; retired
      and revoked are never left backwards; a root that lost its active key never gets another. */
  lemma {:induction false} RunKeeps(c: Crypto, keys: Keys, calls: seq<Call>)
    requires Sound(c, keys)
    ensures Sound(c, Run(c, keys, calls)) && Evolves(keys, Run(c, keys, calls))
    decreases |calls|
  {
    if calls != [] {
      var n := |calls| - 1;
      var t := Run(c, keys, calls[..n]);
      RunKeeps(c, keys, calls[..n]);
      ApplyKeeps(c, t, calls[n].operator, calls[n].op);
      hide Apply, Sound, Evolves;
      EvolvesTransitive(keys, t, Run(c, keys, calls));
    }
  }

  /** In the readers' words: two active rows of one root are the same row, and a revoked row stays as it is. */
  lemma RegistryLifecycle(c: Crypto, early: seq<Call>, later: seq<Call>, i: nat, j: nat)
    ensures var a := Run(c, [], early);
      var b := Run(c, a, later);
      && (i < |b| && j < |b| && b[i].rootId == b[j].rootId && b[i].status == Active == b[j].status ==> i == j)
      && (i < |b| && j < |b| && b[i].fingerprint == b[j].fingerprint ==> i == j)
      && (i < |a| ==> i < |b| && (a[i].status == Revoked ==> b[i] == a[i]) && (a[i].status == Retired ==> b[i].status != Active))
      && (forall r | Dead(a, r) :: Dead(b, r))
  {
    RunKeeps(c, [], early);
    RunKeeps(c, Run(c, [], early), later);
    hide *;
    Reading(c, Run(c, [], early), Run(c, Run(c, [], early), later), i, j);
  }

  lemma Reading(c: Crypto, a: Keys, b: Keys, i: nat, j: nat)
    requires Sound(c, b) && Evolves(a, b)
    ensures i < |b| && j < |b| && b[i].rootId == b[j].rootId && b[i].status == Active == b[j].status ==> i == j
    ensures i < |b| && j < |b| && b[i].fingerprint == b[j].fingerprint ==> i == j
    ensures i < |a| ==> i < |b| && (a[i].status == Revoked ==> b[i] == a[i]) && (a[i].status == Retired ==> b[i].status != Active)
    ensures forall r | Dead(a, r) :: Dead(b, r)
  {
  }

  /** A well-formed rotation statement, presented by the operator. */
  predicate Presentable(operator: bool, s: Rotation, sig: string) {
    && operator && sig != "" && NameOk(s.rootId) && NameOk(s.oldKeyId) && NameOk(s.newKeyId) && s.newPublicKey != ""
    && LabelOk(s.newFingerprint) && LabelOk(s.reason) && s.version == 1 && 0 < s.timestamp <= MAX_SAFE && s.newKeyId != s.oldKeyId
  }

  /** Row i is the active key that signed the statement. */
  predicate Signer(c: Crypto, keys: Keys, s: Rotation, sig: string, i: nat) {
    i < |keys| && keys[i].rootId == s.rootId && keys[i].keyId == s.oldKeyId && keys[i].status == Active && c.signed(keys[i].publicKey, s, sig)
  }

  /** A rotation commits exactly when the root's active key signed it for a new well-shaped key whose id is new to the
      root and whose fingerprint, rightly stated, is new to the table; and then that key is retired and the new one
      is the active key. */
  lemma RotateExactly(c: Crypto, keys: Keys, operator: bool, s: Rotation, sig: string, i: nat)
    requires Sound(c, keys)
    ensures Rotate(c, keys, operator, s, sig).Ok? && Signer(c, keys, s, sig, i)
      <==> Presentable(operator, s, sig) && Signer(c, keys, s, sig, i) && c.shape(s.newPublicKey)
           && s.newFingerprint == c.fingerprint(s.newPublicKey)
           && forall k | k in keys :: k.fingerprint != s.newFingerprint && !(k.rootId == s.rootId && k.keyId == s.newKeyId)
    ensures Rotate(c, keys, operator, s, sig).Ok? ==> exists j: nat :: Signer(c, keys, s, sig, j)
    ensures Rotate(c, keys, operator, s, sig).Ok? && Signer(c, keys, s, sig, i) ==>
      var t := Rotate(c, keys, operator, s, sig).value;
      && |t| == |keys| + 1 && t[|keys|] == KeyRow(s.rootId, s.newKeyId, s.newPublicKey, c.fingerprint(s.newPublicKey), Active)
      && forall j | 0 <= j < |keys| :: t[j] == if j == i then keys[j].(status := Retired) else keys[j]
  {
    var at := FindKey(keys, s.rootId, s.oldKeyId);
    assert at.Some? ==> keys[at.value] in keys;
    assert i < |keys| ==> keys[i] in keys;
    hide FindKey, NameOk, LabelOk;
    if Signer(c, keys, s, sig, i) { assert at == Some(i); }
    if Rotate(c, keys, operator, s, sig).Ok? { assert Signer(c, keys, s, sig, at.value); }
  }

  /** A root is born exactly when the operator brings a well-shaped key for a name nobody has, with a fingerprint new to
      the table. */
  lemma GenesisExactly(c: Crypto, keys: Keys, operator: bool, rootId: string, keyId: string, publicKey: string)
    ensures var r := Genesis(c, keys, operator, rootId, keyId, publicKey);
      && (r.Ok? <==> operator && NameOk(rootId) && NameOk(keyId) && publicKey != "" && c.shape(publicKey)
                     && forall k | k in keys :: k.rootId != rootId && k.fingerprint != c.fingerprint(publicKey))
      && (r.Ok? ==> r.value == keys + [KeyRow(rootId, keyId, publicKey, c.fingerprint(publicKey), Active)])
  {
    hide NameOk;
  }

  /** A ceremony bears a root under the same conditions, but for the proof in place of the operator. */
  lemma CeremonyExactly(c: Crypto, keys: Keys, proven: bool, rootId: string, keyId: string, publicKey: string)
    ensures var r := Ceremony(c, keys, proven, rootId, keyId, publicKey);
      && (r.Ok? <==> proven && NameOk(rootId) && NameOk(keyId) && c.shape(publicKey)
                     && forall k | k in keys :: k.rootId != rootId && k.fingerprint != c.fingerprint(publicKey))
      && (r.Ok? ==> r.value == keys + [KeyRow(rootId, keyId, publicKey, c.fingerprint(publicKey), Active)])
  {
    hide NameOk;
  }

  /** The call brings this key: as the first of its root, from the operator or on the key's own proof, or signed for by
      the one active then. */
  ghost predicate Brings(c: Crypto, keys: Keys, call: Call, k: KeyRow) {
    match call.op
    case GenesisOp(r, id, p) =>
      call.operator && k.rootId == r && k.keyId == id && k.publicKey == p && forall x | x in keys :: x.rootId != r
    case CeremonyOp(r, id, p, proven) =>
      proven && k.rootId == r && k.keyId == id && k.publicKey == p && forall x | x in keys :: x.rootId != r
    case RotateOp(s, sig) =>
      && call.operator && k.rootId == s.rootId && k.keyId == s.newKeyId && k.publicKey == s.newPublicKey
      && exists i: nat :: Signer(c, keys, s, sig, i)
    case RevokeOp(_, _, _) => false
  }

  lemma NewKeyBrought(c: Crypto, keys: Keys, call: Call, i: nat)
    requires Sound(c, keys)
    ensures var t := Committed(Apply(c, keys, call.operator, call.op), keys);
      |keys| <= i < |t| ==> i == |keys| && Brings(c, keys, call, t[i])
  {
    match call.op {
      case GenesisOp(r, id, p) => GenesisExactly(c, keys, call.operator, r, id, p);
      case CeremonyOp(r, id, p, proven) => CeremonyExactly(c, keys, proven, r, id, p);
      case RotateOp(s, sig) =>
        RotateExactly(c, keys, call.operator, s, sig, 0);
        if Rotate(c, keys, call.operator, s, sig).Ok? {
          var j: nat :| Signer(c, keys, s, sig, j);
          RotateExactly(c, keys, call.operator, s, sig, j);
          hide Rotate;
        }
      case _ =>
    }
    hide Genesis, Ceremony, NameOk, LabelOk, FindKey, Signer;
  }

  /** Every key in every reachable table has a chain of custody: one call brought it, the first of a root by the operator's
      genesis or by a ceremony the key itself signed, every later one by a rotation that the key active then had signed. */
  lemma {:induction false} KeyHasOrigin(c: Crypto, calls: seq<Call>, i: nat) returns (k: nat)
    requires i < |Run(c, [], calls)|
    ensures k < |calls|
    ensures var t := Run(c, [], calls[..k]); |t| == i && Brings(c, t, calls[k], Run(c, [], calls)[i])
    decreases |calls|
  {
    k := |calls| - 1;
    var front := calls[..k];
    var t := Run(c, [], front);
    RunKeeps(c, [], front);
    ApplyKeeps(c, t, calls[k].operator, calls[k].op);
    NewKeyBrought(c, t, calls[k], i);
    hide Apply, Brings, Sound;
    if i < |t| {
      var all := Run(c, [], calls);
      assert t[i].(status := all[i].status) == all[i];
      k := KeyHasOrigin(c, front, i);
      assert front[..k] == calls[..k];
      SameBringing(c, Run(c, [], calls[..k]), calls[k], t[i], all[i]);
    }
  }

  lemma SameBringing(c: Crypto, keys: Keys, call: Call, k: KeyRow, l: KeyRow)
    requires Brings(c, keys, call, k) && k.(status := l.status) == l
    ensures Brings(c, keys, call, l)
  {
  }

  /** A root dies exactly when its active key is revoked. */
  lemma DiesExactlyByRevocation(c: Crypto, keys: Keys, operator: bool, op: Op, r: string)
    requires Sound(c, keys) && RootKnown(keys, r) && !Dead(keys, r)
    ensures Dead(Committed(Apply(c, keys, operator, op), keys), r)
      <==> operator && op.RevokeOp? && op.rootId == r && NameOk(r) && NameOk(op.keyId) && LabelOk(op.reason)
           && exists k | k in keys :: k.rootId == r && k.keyId == op.keyId && k.status == Active
  {
    match op {
      case GenesisOp(root, keyId, publicKey) => GenesisSpares(c, keys, operator, root, keyId, publicKey, r);
      case CeremonyOp(root, keyId, publicKey, proven) => CeremonySpares(c, keys, proven, root, keyId, publicKey, r);
      case RotateOp(s, sig) => RotateSpares(c, keys, operator, s, sig, r);
      case RevokeOp(root, keyId, reason) => RevokeKills(c, keys, operator, root, keyId, reason, r);
    }
    hide Genesis, Ceremony, Rotate, Revoke, Dead, RootKnown, Sound, NameOk, LabelOk;
  }

  /** The position of a living root's active key. */
  lemma Alive(keys: Keys, r: string) returns (i: nat)
    requires RootKnown(keys, r) && !Dead(keys, r)
    ensures i < |keys| && keys[i].rootId == r && keys[i].status == Active
  {
    var a :| a in keys && a.rootId == r && a.status == Active;
    i :| 0 <= i < |keys| && keys[i] == a;
  }

  /** An active key at the end of the table keeps a root alive. */
  lemma StillAlive(keys: Keys, r: string, i: nat)
    requires i < |keys| && keys[i].rootId == r && keys[i].status == Active
    ensures !Dead(keys, r)
  {
    assert keys[i] in keys;
  }

  lemma GenesisSpares(c: Crypto, keys: Keys, operator: bool, root: string, keyId: string, publicKey: string, r: string)
    requires RootKnown(keys, r) && !Dead(keys, r)
    ensures !Dead(Committed(Genesis(c, keys, operator, root, keyId, publicKey), keys), r)
  {
    var i := Alive(keys, r);
    GenesisExactly(c, keys, operator, root, keyId, publicKey);
    hide Dead, RootKnown, Genesis;
    StillAlive(Committed(Genesis(c, keys, operator, root, keyId, publicKey), keys), r, i);
  }

  lemma CeremonySpares(c: Crypto, keys: Keys, proven: bool, root: string, keyId: string, publicKey: string, r: string)
    requires RootKnown(keys, r) && !Dead(keys, r)
    ensures !Dead(Committed(Ceremony(c, keys, proven, root, keyId, publicKey), keys), r)
  {
    var i := Alive(keys, r);
    CeremonyExactly(c, keys, proven, root, keyId, publicKey);
    hide Dead, RootKnown, Ceremony;
    StillAlive(Committed(Ceremony(c, keys, proven, root, keyId, publicKey), keys), r, i);
  }

  lemma RotateSpares(c: Crypto, keys: Keys, operator: bool, s: Rotation, sig: string, r: string)
    requires Sound(c, keys) && RootKnown(keys, r) && !Dead(keys, r)
    ensures !Dead(Committed(Rotate(c, keys, operator, s, sig), keys), r)
  {
    var i := Alive(keys, r);
    var t := Committed(Rotate(c, keys, operator, s, sig), keys);
    RotateExactly(c, keys, operator, s, sig, i);
    hide Dead, RootKnown, Sound;
    if t != keys {
      var j: nat :| Signer(c, keys, s, sig, j);
      RotateExactly(c, keys, operator, s, sig, j);
      hide Rotate;
      StillAlive(t, r, if s.rootId == r then |keys| else i);
    }
  }

  lemma RevokeKills(c: Crypto, keys: Keys, operator: bool, root: string, keyId: string, reason: string, r: string)
    requires Sound(c, keys) && RootKnown(keys, r) && !Dead(keys, r)
    ensures Dead(Committed(Revoke(keys, operator, root, keyId, reason), keys), r)
      <==> operator && root == r && NameOk(r) && NameOk(keyId) && LabelOk(reason)
           && exists k | k in keys :: k.rootId == r && k.keyId == keyId && k.status == Active
  {
    var i := Alive(keys, r);
    var t := Committed(Revoke(keys, operator, root, keyId, reason), keys);
    assert forall m | 0 <= m < |keys| && m != i && keys[m].rootId == r :: keys[m].status != Active;
    assert keys[i] in keys;
    hide NameOk, LabelOk;
    if t != keys {
      var o := FindKey(keys, root, keyId).value;
      hide FindKey;
      if o == i { assert t[i].rootId == r && t[i] in t; } else { StillAlive(t, r, i); }
    }
  }
}
