/** convex/aumlokManifests.ts: delegation manifests, their resolution against the root registry, their lifecycle,
    and the consumption of uses. Also promoteCrossGrant of convex/nodeImport.ts. */
module Manifests {
  import opened Names
  import opened RootRegistry
  import RateLimit
  import K = Kernel

  /** aumlok_manifests, or node_cross_grants for promoted foreign manifests. */
  datatype Table = Local | Cross

  datatype Ref = Ref(table: Table, id: string)

  datatype Permission = Permission(ring: K.Ring, action: string, resource: string)

  datatype PerWindow = PerWindow(capacity: int, windowMs: int)

  /** What the root and the subject sign. */
  datatype Body = Body(manifestId: string, rootId: string, rootKeyId: string, nodeId: string, subjectId: string,
                       knownKind: bool, subjectPubKey: string, permissions: seq<Permission>, codecs: seq<string>,
                       notBefore: int, expiresAt: int, maxUses: Option<int>, maxPerWindow: Option<PerWindow>, createdAt: int)

  datatype MStatus = Live | Paused | MRevoked

  /** source is the origin node of a promoted row. */
  datatype Manifest = Manifest(body: Body, source: string, status: MStatus, usedCount: nat)

  /** A peer's revocation view. */
  datatype View = View(verifiedAt: int, revoked: set<string>)

  /** A committed use of a row, and the permission it was for. */
  datatype Use = Use(ref: Ref, useSeq: nat, want: Permission)

  /** The manifest tables and the trust tables they are resolved against: pins maps (source node, root, key) to a
      pinned public key. uses is model-only: every committed use, in order. */
  datatype Db = Db(rows: map<Ref, Manifest>, pins: map<(string, string, string), string>,
                   views: map<(string, string), View>, uses: seq<Use>)

  datatype Statement = Statement(version: int, manifestId: string, revoke: bool, reason: string, timestamp: int)

  datatype Request = Request(version: int, manifestId: string, subjectId: string, ring: K.Ring, action: string,
                             resource: string, intentCodec: string, useSeq: int, timestamp: int, key: Option<string>)

  /** This node's id, the shape gate on keys, the demo-lineage test, and the ideal signature checks, one per domain. */
  datatype Env = Env(node: string, shape: string -> bool, demo: Body -> bool,
                     signedMint: (string, Body, string) -> bool, signedPop: (string, Body, string) -> bool,
                     signedRevoke: (string, Statement, string) -> bool, signedSelf: (string, Statement, string) -> bool,
                     signedUse: (string, Request, string) -> bool)

  datatype Refusal =
    | ManifestUnknown | NodeMismatch | ManifestRevoked | ManifestPaused | NotYetValid | Expired
    | RootKeyUnknown | RootKeyRevoked | RootKeyRetired | NotCrossGrant | UnpinnedForeignRoot | StaleView | CrossGrantRevoked
    | PermissionDenied | CodecNotAllowed | Malformed | SubjectMismatch | SignatureInvalid | Stale | UseSeqMismatch
    | MaxUsesExceeded | RateExceeded | ManifestExists | NoActiveRootKey | RootIsLocal | Quarantined

  datatype Answer<+T> = Yes(value: T) | No(why: Refusal)

  const CONSUME_FRESHNESS := 60_000
  const VIEW_FRESHNESS := 900_000

  // ---- resolving ----

  /** Local authority is never shadowed by a cross-grant. */
  function Lookup(db: Db, id: string): (r: Option<Ref>)
    ensures r.Some? ==> r.value in db.rows && r.value.id == id
  {
    if Ref(Local, id) in db.rows then Some(Ref(Local, id))
    else if Ref(Cross, id) in db.rows then Some(Ref(Cross, id))
    else None
  }

  /** The signing root: a local key that is not revoked where the root has any local key at all, otherwise a pinned
      foreign root under a fresh revocation view. */
  function CheckRoot(keys: Keys, db: Db, ref: Ref, now: int): Answer<bool>
    requires ref in db.rows
  {
    var m := db.rows[ref];
    var b := m.body;
    if RootKnown(keys, b.rootId) then
      var at := FindKey(keys, b.rootId, b.rootKeyId);
      if at.None? then No(RootKeyUnknown)
      else if keys[at.value].status == Revoked then No(RootKeyRevoked)
      else Yes(true)
    else if ref.table != Cross then No(NotCrossGrant)
    else if (m.source, b.rootId, b.rootKeyId) !in db.pins then No(UnpinnedForeignRoot)
    else if (m.source, b.rootId) !in db.views || now - db.views[(m.source, b.rootId)].verifiedAt > VIEW_FRESHNESS then No(StaleView)
    else if b.manifestId in db.views[(m.source, b.rootId)].revoked then No(CrossGrantRevoked)
    else Yes(false)
  }

  /** resolveManifestAuthority: the row that gives the authority. */
  function Resolve(env: Env, keys: Keys, db: Db, id: string, want: Permission, codec: string, now: int): (r: Answer<Ref>)
    ensures r.Yes? ==> r.value in db.rows && r.value.id == id && want in db.rows[r.value].body.permissions
  {
    var found := Lookup(db, id);
    if found.None? then No(ManifestUnknown)
    else
      var m := db.rows[found.value];
      if m.body.nodeId != env.node then No(NodeMismatch)
      else if m.status == MRevoked then No(ManifestRevoked)
      else if m.status == Paused then No(ManifestPaused)
      else if now < m.body.notBefore then No(NotYetValid)
      else if now >= m.body.expiresAt then No(Expired)
      else
        match CheckRoot(keys, db, found.value, now)
        case No(why) => No(why)
        case Yes(_) =>
          if want !in m.body.permissions then No(PermissionDenied)
          else if codec !in m.body.codecs then No(CodecNotAllowed)
          else Yes(found.value)
  }

  // ---- lifecycle ----

  predicate PosInt(x: int) { 0 < x <= MAX_SAFE }

  predicate BodyOk(b: Body) {
    && NameOk(b.manifestId) && NameOk(b.rootId) && NameOk(b.rootKeyId) && ScopeOk(b.nodeId) && NameOk(b.subjectId) && b.knownKind
    && 1 <= |b.permissions| <= 64
    && (forall p | p in b.permissions :: p.ring != K.SelfModify && ScopeOk(p.action) && ScopeOk(p.resource))
    && 1 <= |b.codecs| <= 16 && (forall c | c in b.codecs :: CodecOk(c))
    && PosInt(b.notBefore) && PosInt(b.expiresAt) && b.notBefore < b.expiresAt
    && (b.maxUses.Some? ==> PosInt(b.maxUses.value))
    && (b.maxPerWindow.Some? ==> PosInt(b.maxPerWindow.value.capacity) && PosInt(b.maxPerWindow.value.windowMs))
    && PosInt(b.createdAt)
  }

  function MintManifest(env: Env, keys: Keys, db: Db, b: Body, rootSig: string, popSig: string): Answer<Db> {
    if rootSig == "" || popSig == "" || !BodyOk(b) || !env.shape(b.subjectPubKey) then No(Malformed)
    else if b.nodeId != env.node then No(NodeMismatch)
    else
      var at := FindKey(keys, b.rootId, b.rootKeyId);
      if at.None? then No(RootKeyUnknown)
      else if keys[at.value].status == Revoked then No(RootKeyRevoked)
      else if keys[at.value].status == Retired then No(RootKeyRetired)
      else if !env.signedMint(keys[at.value].publicKey, b, rootSig) || !env.signedPop(b.subjectPubKey, b, popSig) then No(SignatureInvalid)
      else if Ref(Local, b.manifestId) in db.rows then No(ManifestExists)
      else Yes(db.(rows := db.rows[Ref(Local, b.manifestId) := Manifest(b, env.node, Live, 0)]))
  }

  /** promoteCrossGrant; the permissions and codecs stored may come beside the signed body. */
  function Promote(env: Env, keys: Keys, db: Db, operator: bool, source: string, b: Body, stored: Body,
                   rootSig: string, popSig: string): Answer<Db>
    requires stored == b.(permissions := stored.permissions, codecs := stored.codecs)
  {
    if !operator then No(SignatureInvalid)
    else if env.demo(b) then No(Quarantined)
    else if b.nodeId != env.node then No(NodeMismatch)
    else if RootKnown(keys, b.rootId) then No(RootIsLocal)
    else if (source, b.rootId, b.rootKeyId) !in db.pins then No(UnpinnedForeignRoot)
    else if !env.signedMint(db.pins[(source, b.rootId, b.rootKeyId)], b, rootSig) || !env.signedPop(b.subjectPubKey, b, popSig) then No(SignatureInvalid)
    else if Ref(Local, b.manifestId) in db.rows || Ref(Cross, b.manifestId) in db.rows then No(ManifestExists)
    else Yes(db.(rows := db.rows[Ref(Cross, b.manifestId) := Manifest(stored, source, Live, 0)]))
  }

  /** The position of the root's first active key. */
  function ActiveKey(keys: Keys, rootId: string): (r: Option<nat>)
    ensures r.Some? ==> r.value < |keys| && keys[r.value].rootId == rootId && keys[r.value].status == Active
    ensures r.None? ==> forall k | k in keys :: k.rootId == rootId ==> k.status != Active
  {
    if keys == [] then None
    else
      var n := |keys| - 1;
      var front := ActiveKey(keys[..n], rootId);
      assert keys == keys[..n] + [keys[n]];
      if front.Some? then front
      else if keys[n].rootId == rootId && keys[n].status == Active then Some(n)
      else None
  }

  predicate StatementOk(s: Statement) { s.version == 1 && NameOk(s.manifestId) && ScopeOk(s.reason) && PosInt(s.timestamp) }

  function SetStatus(db: Db, ref: Ref, status: MStatus): Db
    requires ref in db.rows
  {
    db.(rows := db.rows[ref := db.rows[ref].(status := status)])
  }

  /** Revocation by the root, signed by its current active key. */
  function RevokeManifest(env: Env, keys: Keys, db: Db, s: Statement, rootSig: string): Answer<Db> {
    var ref := Ref(Local, s.manifestId);
    if !StatementOk(s) || !s.revoke || rootSig == "" then No(Malformed)
    else if ref !in db.rows then No(ManifestUnknown)
    else if db.rows[ref].status == MRevoked then No(ManifestRevoked)
    else
      var at := ActiveKey(keys, db.rows[ref].body.rootId);
      if at.None? then No(NoActiveRootKey)
      else if !env.signedRevoke(keys[at.value].publicKey, s, rootSig) then No(SignatureInvalid)
      else Yes(SetStatus(db, ref, MRevoked))
  }

  /** Revocation or pause by the subject. */
  function SelfRevoke(env: Env, db: Db, s: Statement, sig: string): Answer<Db> {
    var ref := Ref(Local, s.manifestId);
    if !StatementOk(s) || sig == "" then No(Malformed)
    else if ref !in db.rows then No(ManifestUnknown)
    else if db.rows[ref].status == MRevoked then No(ManifestRevoked)
    else if !env.signedSelf(db.rows[ref].body.subjectPubKey, s, sig) then No(SignatureInvalid)
    else Yes(SetStatus(db, ref, if s.revoke then MRevoked else Paused))
  }

  // ---- consuming ----

  predicate RequestOk(r: Request, memory: bool) {
    && r.version == 1 && NameOk(r.manifestId) && NameOk(r.subjectId) && ScopeOk(r.action) && ScopeOk(r.resource)
    && ScopeOk(r.intentCodec) && PosInt(r.timestamp) && 0 <= r.useSeq <= MAX_SAFE && (r.key.Some? <==> memory)
  }

  type Buckets = map<string, RateLimit.Bucket>

  datatype Spent = Spent(ref: Ref, db: Db, buckets: Buckets)

  function BucketKey(id: string): string { "mft:" + id }

  /** The rate limit of a manifest, if it has one. */
  function PayRate(m: Manifest, id: string, buckets: Buckets, now: int): Option<Buckets> {
    if m.body.maxPerWindow.None? then Some(buckets)
    else
      var w := m.body.maxPerWindow.value;
      var step := RateLimit.BucketConsume(RateLimit.Row(buckets, BucketKey(id)),
                                          RateLimit.Config(w.capacity as real, w.windowMs as real), now as real);
      if step.allowed then Some(buckets[BucketKey(id) := step.next]) else None
  }

  /** consumeManifestUseCore. */
  function Consume(env: Env, keys: Keys, db: Db, buckets: Buckets, r: Request, sig: string, memory: bool, now: int): (a: Answer<Spent>)
    ensures a.Yes? ==> a.value.ref in db.rows && WantOf(r) in db.rows[a.value.ref].body.permissions
  {
    if !RequestOk(r, memory) || sig == "" then No(Malformed)
    else
      match Resolve(env, keys, db, r.manifestId, WantOf(r), r.intentCodec, now)
      case No(why) => No(why)
      case Yes(ref) =>
        var m := db.rows[ref];
        if r.subjectId != m.body.subjectId then No(SubjectMismatch)
        else if !env.signedUse(m.body.subjectPubKey, r, sig) then No(SignatureInvalid)
        else if now - r.timestamp > CONSUME_FRESHNESS || r.timestamp - now > CONSUME_FRESHNESS then No(Stale)
        else if r.useSeq != m.usedCount then No(UseSeqMismatch)
        else if m.body.maxUses.Some? && m.usedCount >= m.body.maxUses.value then No(MaxUsesExceeded)
        else
          var paid := PayRate(m, r.manifestId, buckets, now);
          if paid.None? then No(RateExceeded)
          else Yes(Spent(ref, Used(db, ref, WantOf(r)), paid.value))
  }

  function WantOf(r: Request): Permission { Permission(r.ring, r.action, r.resource) }

  /** One more use of a row. */
  function Used(db: Db, ref: Ref, want: Permission): Db
    requires ref in db.rows
  {
    var m := db.rows[ref];
    db.(rows := db.rows[ref := m.(usedCount := m.usedCount + 1)], uses := db.uses + [Use(ref, m.usedCount, want)])
  }

  // ---- the mutations ----

  class Manifold {
    const env: Env
    var rows: map<Ref, Manifest>
    var pins: map<(string, string, string), string>
    var views: map<(string, string), View>
    ghost var uses: seq<Use>

    constructor (env: Env)
      ensures this.env == env && Table() == Db(map[], map[], map[], [])
    {
      this.env := env;
      rows, pins, views, uses := map[], map[], map[], [];
    }

    ghost function Table(): Db
      reads this
    {
      Db(rows, pins, views, uses)
    }

    /** aumlokMintManifest. */
    method Mint(keys: Keys, b: Body, rootSig: string, popSig: string) returns (ok: bool)
      modifies this
      ensures var a := MintManifest(env, keys, old(Table()), b, rootSig, popSig);
        ok == a.Yes? && Table() == if ok then a.value else old(Table())
    {
      if rootSig == "" || popSig == "" || !BodyOk(b) || !env.shape(b.subjectPubKey) || b.nodeId != env.node { return false; }
      var at := FindKey(keys, b.rootId, b.rootKeyId);
      if at.None? || keys[at.value].status != Active { return false; }
      if !env.signedMint(keys[at.value].publicKey, b, rootSig) { return false; }
      if !env.signedPop(b.subjectPubKey, b, popSig) { return false; }
      if Ref(Local, b.manifestId) in rows { return false; }
      rows := rows[Ref(Local, b.manifestId) := Manifest(b, env.node, Live, 0)];
      return true;
    }

    /** aumlokRevokeManifest. */
    method RevokeByRoot(keys: Keys, s: Statement, rootSig: string) returns (ok: bool)
      modifies this
      ensures var a := RevokeManifest(env, keys, old(Table()), s, rootSig);
        ok == a.Yes? && Table() == if ok then a.value else old(Table())
    {
      var ref := Ref(Local, s.manifestId);
      if !StatementOk(s) || !s.revoke || rootSig == "" { return false; }
      if ref !in rows || rows[ref].status == MRevoked { return false; }
      var at := ActiveKey(keys, rows[ref].body.rootId);
      if at.None? || !env.signedRevoke(keys[at.value].publicKey, s, rootSig) { return false; }
      rows := rows[ref := rows[ref].(status := MRevoked)];
      return true;
    }

    /** aumlokManifestSelfRevoke. */
    method RevokeBySubject(s: Statement, sig: string) returns (ok: bool)
      modifies this
      ensures var a := SelfRevoke(env, old(Table()), s, sig);
        ok == a.Yes? && Table() == if ok then a.value else old(Table())
    {
      var ref := Ref(Local, s.manifestId);
      if !StatementOk(s) || sig == "" || ref !in rows { return false; }
      if rows[ref].status == MRevoked || !env.signedSelf(rows[ref].body.subjectPubKey, s, sig) { return false; }
      rows := rows[ref := rows[ref].(status := if s.revoke then MRevoked else Paused)];
      return true;
    }

    method ResolveNow(keys: Keys, id: string, want: Permission, codec: string, now: int) returns (a: Answer<Ref>)
      ensures a == Resolve(env, keys, Table(), id, want, codec, now)
    {
      var ref := Ref(Local, id);
      if ref !in rows { ref := Ref(Cross, id); }
      if ref !in rows { return No(ManifestUnknown); }
      var m := rows[ref];
      if m.body.nodeId != env.node { return No(NodeMismatch); }
      if m.status == MRevoked { return No(ManifestRevoked); }
      if m.status == Paused { return No(ManifestPaused); }
      if now < m.body.notBefore { return No(NotYetValid); }
      if now >= m.body.expiresAt { return No(Expired); }
      if RootKnown(keys, m.body.rootId) {
        var at := FindKey(keys, m.body.rootId, m.body.rootKeyId);
        if at.None? { return No(RootKeyUnknown); }
        if keys[at.value].status == Revoked { return No(RootKeyRevoked); }
      } else {
        if ref.table != Cross { return No(NotCrossGrant); }
        if (m.source, m.body.rootId, m.body.rootKeyId) !in pins { return No(UnpinnedForeignRoot); }
        var at := (m.source, m.body.rootId);
        if at !in views || now - views[at].verifiedAt > VIEW_FRESHNESS { return No(StaleView); }
        if m.body.manifestId in views[at].revoked { return No(CrossGrantRevoked); }
      }
      if want !in m.body.permissions { return No(PermissionDenied); }
      if codec !in m.body.codecs { return No(CodecNotAllowed); }
      return Yes(ref);
    }

    /** consumeManifestUseCore on the engine's buckets; a refused request leaves both tables as they were. */
    method ConsumeUse(engine: K.Engine, keys: Keys, r: Request, sig: string, memory: bool, now: int) returns (a: Answer<Ref>)
      modifies this, engine`buckets
      ensures var c := Consume(env, keys, old(Table()), old(engine.buckets), r, sig, memory, now);
        if c.Yes? then a == Yes(c.value.ref) && Table() == c.value.db && engine.buckets == c.value.buckets
        else a == No(c.why) && Table() == old(Table()) && engine.buckets == old(engine.buckets)
    {
      if !RequestOk(r, memory) || sig == "" { return No(Malformed); }
      a := ResolveNow(keys, r.manifestId, WantOf(r), r.intentCodec, now);
      if a.No? { return; }
      var ref := a.value;
      var m := rows[ref];
      if r.subjectId != m.body.subjectId { return No(SubjectMismatch); }
      if !env.signedUse(m.body.subjectPubKey, r, sig) { return No(SignatureInvalid); }
      if now - r.timestamp > CONSUME_FRESHNESS || r.timestamp - now > CONSUME_FRESHNESS { return No(Stale); }
      if r.useSeq != m.usedCount { return No(UseSeqMismatch); }
      if m.body.maxUses.Some? && m.usedCount >= m.body.maxUses.value { return No(MaxUsesExceeded); }
      if m.body.maxPerWindow.Some? {
        var w, saved := m.body.maxPerWindow.value, engine.buckets;
        var paid := engine.ConsumeRateLimit(BucketKey(r.manifestId), RateLimit.Config(w.capacity as real, w.windowMs as real), now);
        if !paid {
          engine.buckets := saved;
          return No(RateExceeded);
        }
      }
      rows := rows[ref := m.(usedCount := m.usedCount + 1)];
      uses := uses + [Use(ref, m.usedCount, WantOf(r))];
    }

    /** The database's rollback of an aborted mutation. */
    method Restore(db: Db)
      modifies this
      ensures Table() == db
    {
      rows, pins, views := db.rows, db.pins, db.views;
      uses := db.uses;
    }
  }

  // ---- what every run keeps ----

  /** The sequence numbers of the committed uses of a row, in order. */
  function UsesOf(uses: seq<Use>, ref: Ref): seq<nat> {
    if uses == [] then []
    else
      var n := |uses| - 1;
      UsesOf(uses[..n], ref) + if uses[n].ref == ref then [uses[n].useSeq] else []
  }

  /** 0, 1, ..., n - 1. */
  function Counting(n: nat): seq<nat> { seq(n, i => i) }

  ghost predicate ManifestOk(m: Manifest, uses: seq<nat>) {
    && uses == Counting(m.usedCount)
    && (m.body.maxUses.Some? && m.usedCount > 0 ==> m.usedCount <= m.body.maxUses.value)
  }

  ghost predicate MInv(db: Db) {
    && (forall ref | ref in db.rows :: ManifestOk(db.rows[ref], UsesOf(db.uses, ref)) && db.rows[ref].body.manifestId == ref.id)
    && (forall ref | ref in db.rows && ref.table == Local :: BodyOk(db.rows[ref].body))
    && (forall i | 0 <= i < |db.uses| :: db.uses[i].ref in db.rows && db.uses[i].want in db.rows[db.uses[i].ref].body.permissions)
  }

  function MRank(s: MStatus): nat {
    match s case Live => 0 case Paused => 1 case MRevoked => 2
  }

  predicate ManifestAges(x: Manifest, y: Manifest) {
    x.(status := y.status, usedCount := y.usedCount) == y && MRank(x.status) <= MRank(y.status) && x.usedCount <= y.usedCount
  }

  /** Rows stay, keep what was signed, and only wear out: a paused or revoked row is never live again. */
  ghost predicate MEvolves(a: Db, b: Db) {
    && (forall ref | ref in a.rows :: ref in b.rows && ManifestAges(a.rows[ref], b.rows[ref]))
    && a.uses <= b.uses
  }

  lemma UsesOfSnoc(uses: seq<Use>, u: Use, ref: Ref)
    ensures UsesOf(uses + [u], ref) == UsesOf(uses, ref) + if u.ref == ref then [u.useSeq] else []
  {
    assert (uses + [u])[..|uses|] == uses;
  }

  lemma {:induction false} UsesOfAbsent(uses: seq<Use>, ref: Ref)
    requires forall i | 0 <= i < |uses| :: uses[i].ref != ref
    ensures UsesOf(uses, ref) == []
    decreases |uses|
  {
    if uses != [] { UsesOfAbsent(uses[..|uses| - 1], ref); }
  }

  lemma AddRowKeeps(db: Db, ref: Ref, m: Manifest)
    requires MInv(db) && ref !in db.rows && m.usedCount == 0 && m.status == Live && m.body.manifestId == ref.id
    requires ref.table == Local ==> BodyOk(m.body)
    ensures var t := db.(rows := db.rows[ref := m]); MInv(t) && MEvolves(db, t)
  {
    UsesOfAbsent(db.uses, ref);
    assert Counting(0) == [];
    hide BodyOk;
  }

  lemma SetStatusKeeps(db: Db, ref: Ref, status: MStatus)
    requires MInv(db) && ref in db.rows && MRank(db.rows[ref].status) <= MRank(status)
    ensures var t := SetStatus(db, ref, status); MInv(t) && MEvolves(db, t)
  {
    hide BodyOk, UsesOf;
  }

  lemma UsedKeeps(db: Db, ref: Ref, want: Permission)
    requires MInv(db) && ref in db.rows && want in db.rows[ref].body.permissions
    requires var m := db.rows[ref]; m.body.maxUses.Some? ==> m.usedCount < m.body.maxUses.value
    ensures var t := Used(db, ref, want); MInv(t) && MEvolves(db, t)
  {
    var t := Used(db, ref, want);
    forall r | r in t.rows
      ensures ManifestOk(t.rows[r], UsesOf(t.uses, r))
    {
      UsedRow(db, ref, want, r);
    }
    hide BodyOk, UsesOf, ManifestOk, Used;
    UsedShape(db, ref, want);
  }

  lemma UsedShape(db: Db, ref: Ref, want: Permission)
    requires ref in db.rows
    ensures var t := Used(db, ref, want);
      t.rows.Keys == db.rows.Keys && MEvolves(db, t) && t.uses == db.uses + [Use(ref, db.rows[ref].usedCount, want)]
      && forall r | r in t.rows :: t.rows[r].body == db.rows[r].body
  {
  }

  lemma UsedRow(db: Db, ref: Ref, want: Permission, r: Ref)
    requires ref in db.rows && r in db.rows && ManifestOk(db.rows[r], UsesOf(db.uses, r))
    requires var m := db.rows[ref]; m.body.maxUses.Some? ==> m.usedCount < m.body.maxUses.value
    ensures ManifestOk(Used(db, ref, want).rows[r], UsesOf(Used(db, ref, want).uses, r))
  {
    var m := db.rows[ref];
    UsesOfSnoc(db.uses, Use(ref, m.usedCount, want), r);
    CountingNext(m.usedCount);
    hide UsesOf, Counting;
  }

  lemma CountingNext(n: nat)
    ensures Counting(n + 1) == Counting(n) + [n]
  {
  }

  lemma ConsumeKeeps(env: Env, keys: Keys, db: Db, buckets: Buckets, r: Request, sig: string, memory: bool, now: int)
    requires MInv(db) && Consume(env, keys, db, buckets, r, sig, memory, now).Yes?
    ensures var t := Consume(env, keys, db, buckets, r, sig, memory, now).value.db; MInv(t) && MEvolves(db, t)
  {
    hide Resolve, PayRate, RequestOk, MInv, MEvolves;
    UsedKeeps(db, Consume(env, keys, db, buckets, r, sig, memory, now).value.ref, WantOf(r));
  }

  lemma MEvolvesTransitive(a: Db, b: Db, c: Db)
    requires MEvolves(a, b) && MEvolves(b, c)
    ensures MEvolves(a, c)
  {
  }

  /** A local key of the manifest's root that is not revoked signed for it. */
  ghost predicate LocallySigned(keys: Keys, b: Body) {
    exists k :: k in keys && k.rootId == b.rootId && k.keyId == b.rootKeyId && k.status != Revoked
  }

  /** The root is foreign, pinned for the row's source, and its fresh revocation view spares the manifest. */
  predicate ForeignlySigned(db: Db, ref: Ref, now: int)
    requires ref in db.rows
  {
    var m := db.rows[ref];
    var view := (m.source, m.body.rootId);
    && ref.table == Cross && (m.source, m.body.rootId, m.body.rootKeyId) in db.pins
    && view in db.views && now - db.views[view].verifiedAt <= 900_000 && m.body.manifestId !in db.views[view].revoked
  }

  /** The row is the live authority for what is wanted now. */
  ghost predicate Authoritative(env: Env, keys: Keys, db: Db, ref: Ref, id: string, want: Permission, codec: string, now: int)
    requires ref in db.rows
  {
    var m := db.rows[ref];
    && ref.id == id && (ref.table == Cross ==> Ref(Local, ref.id) !in db.rows)
    && m.body.nodeId == env.node && m.status == Live && m.body.notBefore <= now < m.body.expiresAt
    && (if RootKnown(keys, m.body.rootId) then LocallySigned(keys, m.body) else ForeignlySigned(db, ref, now))
    && want in m.body.permissions && codec in m.body.codecs
  }

  /** Resolution finds exactly the live authority. */
  lemma ResolveExactly(c: Crypto, env: Env, keys: Keys, db: Db, ref: Ref, id: string, want: Permission, codec: string, now: int)
    requires Sound(c, keys)
    ensures var a := Resolve(env, keys, db, id, want, codec, now);
      a.Yes? && a.value == ref <==> ref in db.rows && Authoritative(env, keys, db, ref, id, want, codec, now)
  {
    if ref in db.rows { RootExactly(c, keys, db, ref, now); }
    hide CheckRoot, LocallySigned, ForeignlySigned;
  }

  /** The request is well formed, its subject signed it within a minute, and it carries the row's next sequence number
      with a use and a token left. */
  ghost predicate UseInOrder(env: Env, m: Manifest, buckets: Buckets, r: Request, sig: string, memory: bool, now: int) {
    && RequestOk(r, memory) && sig != "" && r.subjectId == m.body.subjectId && env.signedUse(m.body.subjectPubKey, r, sig)
    && -60_000 <= now - r.timestamp <= 60_000
    && r.useSeq == m.usedCount && (m.body.maxUses.Some? ==> m.usedCount < m.body.maxUses.value)
    && PayRate(m, r.manifestId, buckets, now).Some?
  }

  /** A use is granted exactly on the live authority for the request, for a use in order. */
  lemma ConsumeExactly(c: Crypto, env: Env, keys: Keys, db: Db, buckets: Buckets, r: Request, sig: string, memory: bool, now: int, ref: Ref)
    requires Sound(c, keys)
    ensures var a := Consume(env, keys, db, buckets, r, sig, memory, now);
      a.Yes? && a.value.ref == ref
      <==> ref in db.rows
           && Authoritative(env, keys, db, ref, r.manifestId, WantOf(r), r.intentCodec, now)
           && UseInOrder(env, db.rows[ref], buckets, r, sig, memory, now)
  {
    ResolveExactly(c, env, keys, db, ref, r.manifestId, WantOf(r), r.intentCodec, now);
    hide RequestOk, PayRate, Resolve, Authoritative;
  }

  /** A manifest is minted exactly for a valid body for this node, under an id no local manifest has, signed by its root's
      named key while that is active and by its subject. */
  lemma MintsExactly(c: Crypto, env: Env, keys: Keys, db: Db, b: Body, rootSig: string, popSig: string)
    requires Sound(c, keys)
    ensures var a := MintManifest(env, keys, db, b, rootSig, popSig);
      && (a.Yes? <==>
           rootSig != "" && popSig != "" && BodyOk(b) && env.shape(b.subjectPubKey) && b.nodeId == env.node
           && (exists k | k in keys :: k.rootId == b.rootId && k.keyId == b.rootKeyId && k.status == Active
                                       && env.signedMint(k.publicKey, b, rootSig))
           && env.signedPop(b.subjectPubKey, b, popSig) && Ref(Local, b.manifestId) !in db.rows)
      && (a.Yes? ==> a.value == db.(rows := db.rows[Ref(Local, b.manifestId) := Manifest(b, env.node, Live, 0)]))
  {
    hide BodyOk;
    var at := FindKey(keys, b.rootId, b.rootKeyId);
    if at.Some? { assert keys[at.value] in keys; }
    hide FindKey;
    forall k | k in keys && k.rootId == b.rootId && k.keyId == b.rootKeyId
      ensures at.Some? && keys[at.value] == k
    {
      var i :| 0 <= i < |keys| && keys[i] == k;
    }
  }

  /** A foreign manifest is promoted exactly by the operator, when it is for this node and of no demo lineage, its root has
      no key here but one pinned for its source, that key and the subject signed it, and its id is free in both tables. */
  lemma PromotesExactly(env: Env, keys: Keys, db: Db, operator: bool, source: string, b: Body, stored: Body,
                        rootSig: string, popSig: string)
    requires stored == b.(permissions := stored.permissions, codecs := stored.codecs)
    ensures var a, pin := Promote(env, keys, db, operator, source, b, stored, rootSig, popSig), (source, b.rootId, b.rootKeyId);
      && (a.Yes? <==>
           operator && !env.demo(b) && b.nodeId == env.node && (forall k | k in keys :: k.rootId != b.rootId)
           && pin in db.pins && env.signedMint(db.pins[pin], b, rootSig) && env.signedPop(b.subjectPubKey, b, popSig)
           && Ref(Local, b.manifestId) !in db.rows && Ref(Cross, b.manifestId) !in db.rows)
      && (a.Yes? ==> a.value == db.(rows := db.rows[Ref(Cross, b.manifestId) := Manifest(stored, source, Live, 0)]))
  {
  }

  /** A limited manifest is out of uses for now exactly when its bucket holds, with the refill since, less than one token;
      it refills capacity tokens in windowMs milliseconds. */
  lemma PayRateExactly(m: Manifest, id: string, buckets: Buckets, now: int)
    requires m.body.maxPerWindow.Some? && m.body.maxPerWindow.value.capacity >= 1 && m.body.maxPerWindow.value.windowMs >= 1
    ensures var w, key := m.body.maxPerWindow.value, "mft:" + id;
      var paid := PayRate(m, id, buckets, now);
      && (paid.None? <==>
            key in buckets
            && buckets[key].tokens + RateLimit.Max(0.0, now as real - buckets[key].updatedAt) * (w.capacity as real / w.windowMs as real) < 1.0)
      && (paid.Some? ==> key in paid.value && paid.value == buckets[key := paid.value[key]])
  {
    var w := m.body.maxPerWindow.value;
    var cfg := RateLimit.Config(w.capacity as real, w.windowMs as real);
    RateLimit.DeniedExactly(RateLimit.Row(buckets, BucketKey(id)), cfg, now as real);
    assert RateLimit.Capacity(cfg) == w.capacity as real && RateLimit.Window(cfg) == w.windowMs as real;
    assert RateLimit.Rate(cfg) == w.capacity as real / w.windowMs as real;
    hide RateLimit.BucketConsume, RateLimit.Capacity, RateLimit.Window, RateLimit.Max, RateLimit.Rate;
  }

  lemma RootExactly(c: Crypto, keys: Keys, db: Db, ref: Ref, now: int)
    requires Sound(c, keys) && ref in db.rows
    ensures CheckRoot(keys, db, ref, now).Yes?
      <==> if RootKnown(keys, db.rows[ref].body.rootId) then LocallySigned(keys, db.rows[ref].body) else ForeignlySigned(db, ref, now)
  {
    var b := db.rows[ref].body;
    var at := FindKey(keys, b.rootId, b.rootKeyId);
    hide FindKey;
    if RootKnown(keys, b.rootId) {
      if at.Some? { assert keys[at.value] in keys; }
      if LocallySigned(keys, b) {
        var k :| k in keys && k.rootId == b.rootId && k.keyId == b.rootKeyId && k.status != Revoked;
        var i :| 0 <= i < |keys| && keys[i] == k;
        assert at == Some(i);
      }
    }
  }

  /** A request that was committed can never commit again on that row, however the tables wear on. */
  lemma NoReplay(env: Env, keys: Keys, db: Db, buckets: Buckets, r: Request, sig: string, memory: bool, now: int,
                 keys2: Keys, db2: Db, buckets2: Buckets, sig2: string, memory2: bool, now2: int)
    requires var c := Consume(env, keys, db, buckets, r, sig, memory, now); c.Yes? && MEvolves(c.value.db, db2)
    ensures var c2 := Consume(env, keys2, db2, buckets2, r, sig2, memory2, now2);
      c2.Yes? ==> c2.value.ref != Consume(env, keys, db, buckets, r, sig, memory, now).value.ref
  {
    hide Resolve, PayRate, RequestOk;
  }

  /** A manifest under a revoked local key resolves no more, whether it was minted here or promoted from a peer,
      and the foreign branch is no way around it. */
  lemma RevokedKeyNeverResolves(c: Crypto, env: Env, a: Keys, b: Keys, db: Db, i: nat, id: string, want: Permission, codec: string, now: int)
    requires Sound(c, b) && Evolves(a, b) && i < |a| && a[i].status == Revoked
    ensures var r := Resolve(env, b, db, id, want, codec, now);
      r.Yes? ==> !(db.rows[r.value].body.rootId == a[i].rootId && db.rows[r.value].body.rootKeyId == a[i].keyId)
  {
    RevokedIsFound(c, a, b, i);
  }

  lemma RevokedIsFound(c: Crypto, a: Keys, b: Keys, i: nat)
    requires Sound(c, b) && Evolves(a, b) && i < |a| && a[i].status == Revoked
    ensures FindKey(b, a[i].rootId, a[i].keyId) == Some(i) && b[i].status == Revoked && RootKnown(b, a[i].rootId)
  {
    assert b[i] == a[i] && b[i] in b;
    hide FindKey, Evolves;
    var at := FindKey(b, a[i].rootId, a[i].keyId);
    assert at.Some?;
  }
}
