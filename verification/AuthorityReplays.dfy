/** When a signed memory write can commit twice, and where the manifests in force came from. */
module AuthorityReplays {
  import opened Names
  import opened RootRegistry
  import opened Authority
  import R = AuthorityRuns
  import M = Manifests
  import K = Kernel

  /** Everything a write on this manifest row needs, as a caller could check it beforehand. */
  ghost predicate CommitsOn(n: NodeEnv, s: State, ref: M.Ref, r: M.Request, sig: string, ctx: K.Ctx) {
    && ref in s.mft.rows && WriteShape(r)
    && M.Authoritative(n.mft, s.keys, s.mft, ref, r.manifestId, M.WantOf(r), r.intentCodec, ctx.now)
    && M.UseInOrder(n.mft, s.mft.rows[ref], s.kernel.buckets, r, sig, true, ctx.now)
    && var b := s.mft.rows[ref].body;
    && r.resource == Namespace(b.rootId) && r.key.value != "rev" && R.WriteOpen(n, s.kernel, b, r.key.value, ctx)
    && (K.FindGrant(s.kernel.grants, R.AskFor(b), ctx.now).Some? || |K.Candidates(s.kernel.grants, b.subjectId)| < K.TAKE)
  }

  /** A write commits on a row exactly under those conditions. */
  lemma CommitsExactly(n: NodeEnv, s: State, ref: M.Ref, r: M.Request, sig: string, value: string, ctx: K.Ctx)
    requires Sound(n.crypto, s.keys)
    ensures var c := M.Consume(n.mft, s.keys, s.mft, s.kernel.buckets, r, sig, true, ctx.now);
      MemoryWrite(n, s, r, sig, value, ctx).Some? && c.Yes? && c.value.ref == ref <==> CommitsOn(n, s, ref, r, sig, ctx)
  {
    R.WriteExactly(n, s, r, sig, value, ctx);
    M.ConsumeExactly(n.crypto, n.mft, s.keys, s.mft, s.kernel.buckets, r, sig, true, ctx.now, ref);
    hide M.Consume, MemoryWrite, M.Authoritative, M.UseInOrder, R.WriteOpen, K.FindGrant, K.Candidates, WriteShape, Namespace;
  }

  /** Local rows come first in every lookup, and stay. */
  lemma ConsumesLocally(n: NodeEnv, s: State, r: M.Request, sig: string, now: int)
    ensures var c := M.Consume(n.mft, s.keys, s.mft, s.kernel.buckets, r, sig, true, now);
      c.Yes? ==> c.value.ref == M.Ref(if M.Ref(M.Local, r.manifestId) in s.mft.rows then M.Local else M.Cross, r.manifestId)
  {
    hide M.CheckRoot, M.PayRate, M.RequestOk, M.Used;
  }

  /** When the same signed request commits a second time, in whatever later state: exactly when its first use was of a
      promoted manifest, a local manifest of the same id has been minted since, and that one grants the request. So a
      write on a local manifest is never replayed, and a mint that takes a promoted manifest's id reopens its requests. */
  lemma WriteReplaysExactly(n: NodeEnv, calls: seq<R.Call>, later: seq<R.Call>, r: M.Request, sig: string, value: string, ctx: K.Ctx,
                            sig2: string, value2: string, ctx2: K.Ctx)
    requires MemoryWrite(n, R.Reached(n, calls), r, sig, value, ctx).Some?
    ensures var s, local := R.Reached(n, calls), M.Ref(M.Local, r.manifestId);
      var u := R.Run(n, MemoryWrite(n, s, r, sig, value, ctx).value, later);
      MemoryWrite(n, u, r, sig2, value2, ctx2).Some? <==> local !in s.mft.rows && CommitsOn(n, u, local, r, sig2, ctx2)
  {
    var s, local := R.Reached(n, calls), M.Ref(M.Local, r.manifestId);
    var t := MemoryWrite(n, s, r, sig, value, ctx).value;
    var u := R.Run(n, t, later);
    R.WriteNeverReplays(n, calls, later, r, sig, value, ctx, sig2, value2, ctx2);
    LaterState(n, calls, later, r, sig, value, ctx);
    ConsumesLocally(n, s, r, sig, ctx.now);
    ConsumesLocally(n, u, r, sig2, ctx2.now);
    CommitsExactly(n, u, local, r, sig2, value2, ctx2);
    hide MemoryWrite, M.Consume, CommitsOn, R.Reached, R.Run, Sound;
  }

  /** What a later state keeps. */
  lemma LaterState(n: NodeEnv, calls: seq<R.Call>, later: seq<R.Call>, r: M.Request, sig: string, value: string, ctx: K.Ctx)
    requires MemoryWrite(n, R.Reached(n, calls), r, sig, value, ctx).Some?
    ensures var s := R.Reached(n, calls);
      var u := R.Run(n, MemoryWrite(n, s, r, sig, value, ctx).value, later);
      Sound(n.crypto, u.keys) && forall ref | ref in s.mft.rows :: ref in u.mft.rows
  {
    var s := R.Reached(n, calls);
    R.ReachedInv(n, calls);
    R.WriteKeeps(n, s, r, sig, value, ctx);
    R.RunKeeps(n, MemoryWrite(n, s, r, sig, value, ctx).value, later);
    hide MemoryWrite, R.Reached, R.Run, Sound, Evolves, M.MInv, K.KInv, K.KEvolves, R.Coupled, M.ManifestAges;
  }

  // ---- where the rows came from ----

  /** Call k minted the row: its body is valid and for this node, and was then signed by an active key of its root and by
      its subject. */
  ghost predicate MintedAt(n: NodeEnv, calls: seq<R.Call>, k: nat, b: M.Body) {
    && k < |calls| && calls[k].op.OnManifests? && calls[k].op.mftOp.Mint? && calls[k].op.mftOp.body == b
    && var s, x, y := R.Reached(n, calls[..k]), calls[k].op.mftOp.rootSig, calls[k].op.mftOp.popSig;
    && M.BodyOk(b) && n.mft.shape(b.subjectPubKey) && b.nodeId == n.mft.node && n.mft.signedPop(b.subjectPubKey, b, y)
    && exists key :: key in s.keys && key.rootId == b.rootId && key.keyId == b.rootKeyId && key.status == Active
         && n.mft.signedMint(key.publicKey, b, x)
  }

  /** Call k, the operator's, promoted the row: the body presented is for this node, of no demo lineage and of a root
      without a key here, and was signed by the key then pinned and by its subject; and the row differs from it only in
      permissions and codecs, which came beside it. */
  ghost predicate PromotedAt(n: NodeEnv, calls: seq<R.Call>, k: nat, source: string, b: M.Body) {
    && k < |calls| && calls[k].op.OnManifests? && calls[k].op.mftOp.Promote?
    && var s, p := R.Reached(n, calls[..k]), calls[k].op.mftOp;
    && source == p.source && b == p.body.(permissions := p.permissions, codecs := p.codecs)
    && p.operator && !n.mft.demo(p.body) && b.nodeId == n.mft.node && (forall x | x in s.keys :: x.rootId != b.rootId)
    && (p.source, p.body.rootId, p.body.rootKeyId) in s.mft.pins
    && n.mft.signedMint(s.mft.pins[(p.source, p.body.rootId, p.body.rootKeyId)], p.body, p.rootSig)
    && n.mft.signedPop(p.body.subjectPubKey, p.body, p.popSig)
  }

  lemma MintSigned(n: NodeEnv, keys: Keys, db: M.Db, b: M.Body, x: string, y: string)
    requires M.MintManifest(n.mft, keys, db, b, x, y).Yes?
    ensures M.BodyOk(b) && n.mft.shape(b.subjectPubKey) && b.nodeId == n.mft.node && n.mft.signedPop(b.subjectPubKey, b, y)
    ensures exists key :: key in keys && key.rootId == b.rootId && key.keyId == b.rootKeyId && key.status == Active
              && n.mft.signedMint(key.publicKey, b, x)
  {
    hide M.BodyOk;
    var at := FindKey(keys, b.rootId, b.rootKeyId);
    assert keys[at.value] in keys;
  }

  lemma PromoteSigned(n: NodeEnv, keys: Keys, db: M.Db, o: bool, source: string, b: M.Body, stored: M.Body, x: string, y: string)
    requires stored == b.(permissions := stored.permissions, codecs := stored.codecs)
    requires M.Promote(n.mft, keys, db, o, source, b, stored, x, y).Yes?
    ensures (source, b.rootId, b.rootKeyId) in db.pins && n.mft.signedPop(b.subjectPubKey, b, y)
    ensures n.mft.signedMint(db.pins[(source, b.rootId, b.rootKeyId)], b, x)
    ensures o && !n.mft.demo(b) && b.nodeId == n.mft.node && forall k | k in keys :: k.rootId != b.rootId
  {
  }

  /** A manifest mutation adds a row only by a mint or a promotion of it. */
  lemma NewMftRow(n: NodeEnv, keys: Keys, db: M.Db, op: R.MftOp, ref: M.Ref)
    requires ref !in db.rows && ref in R.MftNext(n, keys, db, op).rows
    ensures var m := R.MftNext(n, keys, db, op).rows[ref];
      m.status == M.Live
      && if ref.table == M.Local then
        op.Mint? && M.MintManifest(n.mft, keys, db, op.body, op.rootSig, op.popSig).Yes? && m.body == op.body
      else
        op.Promote?
        && var stored := op.body.(permissions := op.permissions, codecs := op.codecs);
        M.Promote(n.mft, keys, db, op.operator, op.source, op.body, stored, op.rootSig, op.popSig).Yes?
        && m.body == stored && m.source == op.source
  {
    hide M.BodyOk, M.StatementOk, FindKey, M.ActiveKey, RootKnown;
  }

  /** No other mutation adds one. */
  lemma OnlyMftAddsRows(n: NodeEnv, s: State, call: R.Call)
    requires !call.op.OnManifests?
    ensures R.Step(n, s, call).mft.rows.Keys == s.mft.rows.Keys
  {
    match call.op {
      case Write(r, x, v) =>
        WrittenRows(n, s, r, x, v, call.ctx);
        hide MemoryWrite;
      case Consume(r, x) =>
        ConsumedRows(n, s, r, x, call.ctx.now);
        hide R.ConsumeNext;
      case _ =>
        hide R.KernelNext, Apply;
    }
  }

  lemma WrittenRows(n: NodeEnv, s: State, r: M.Request, sig: string, value: string, ctx: K.Ctx)
    ensures var w := MemoryWrite(n, s, r, sig, value, ctx); w.Some? ==> w.value.mft.rows.Keys == s.mft.rows.Keys
  {
    if MemoryWrite(n, s, r, sig, value, ctx).Some? { R.WriteSpendsOne(n, s, r, sig, value, ctx); }
    hide MemoryWrite, M.Consume, R.WriteRow, WriteGrant, R.SpentBy, ChainKey;
  }

  lemma ConsumedRows(n: NodeEnv, s: State, r: M.Request, sig: string, now: int)
    ensures R.ConsumeNext(n, s, r, sig, now).mft.rows.Keys == s.mft.rows.Keys
  {
    hide M.Resolve, M.PayRate, M.RequestOk;
  }

  /** Call k put the row into its table. */
  predicate Entered(n: NodeEnv, calls: seq<R.Call>, k: nat, ref: M.Ref) {
    k < |calls| && ref !in R.Reached(n, calls[..k]).mft.rows && ref in R.Reached(n, calls[..k + 1]).mft.rows
  }

  /** Call k put the row into its table, with the signatures that takes. */
  ghost predicate Origin(n: NodeEnv, calls: seq<R.Call>, k: nat, ref: M.Ref, m: M.Manifest) {
    Entered(n, calls, k, ref)
    && if ref.table == M.Local then MintedAt(n, calls, k, m.body) else PromotedAt(n, calls, k, m.source, m.body)
  }

  lemma OriginLater(n: NodeEnv, calls: seq<R.Call>, k: nat, ref: M.Ref, m: M.Manifest, later: M.Manifest)
    requires calls != [] && Origin(n, calls[..|calls| - 1], k, ref, m) && later.body == m.body && later.source == m.source
    ensures Origin(n, calls, k, ref, later)
  {
    var front := calls[..|calls| - 1];
    assert front[..k] == calls[..k] && front[..k + 1] == calls[..k + 1];
    hide R.Reached;
  }

  lemma OriginNow(n: NodeEnv, calls: seq<R.Call>, ref: M.Ref)
    requires calls != []
    requires ref !in R.Reached(n, calls[..|calls| - 1]).mft.rows && ref in R.Reached(n, calls).mft.rows
    ensures Origin(n, calls, |calls| - 1, ref, R.Reached(n, calls).mft.rows[ref])
  {
    var k := |calls| - 1;
    assert calls[..k + 1] == calls;
    var s, call := R.Reached(n, calls[..k]), calls[k];
    assert R.Reached(n, calls) == R.Step(n, s, call);
    if !call.op.OnManifests? { OnlyMftAddsRows(n, s, call); }
    assert call.op.OnManifests?;
    var op, m := call.op.mftOp, R.Reached(n, calls).mft.rows[ref];
    NewMftRow(n, s.keys, s.mft, op, ref);
    if ref.table == M.Local {
      MintSigned(n, s.keys, s.mft, op.body, op.rootSig, op.popSig);
      hide R.Step, R.Reached, R.MftNext, M.MintManifest;
      assert MintedAt(n, calls, k, m.body);
    } else {
      var stored := op.body.(permissions := op.permissions, codecs := op.codecs);
      PromoteSigned(n, s.keys, s.mft, op.operator, op.source, op.body, stored, op.rootSig, op.popSig);
      hide R.Step, R.Reached, R.MftNext, M.Promote;
      assert PromotedAt(n, calls, k, m.source, m.body);
    }
  }

  lemma ReachedNext(n: NodeEnv, calls: seq<R.Call>, j: nat)
    requires j < |calls|
    ensures R.Reached(n, calls[..j + 1]) == R.Step(n, R.Reached(n, calls[..j]), calls[j])
  {
    hide R.Step;
    assert calls[..j + 1][..j] == calls[..j];
  }

  /** Every manifest row in every reachable state was put there by one call, with the signatures that takes. */
  lemma {:induction false} RowsHaveOrigin(n: NodeEnv, calls: seq<R.Call>, ref: M.Ref) returns (k: nat)
    requires ref in R.Reached(n, calls).mft.rows
    ensures Origin(n, calls, k, ref, R.Reached(n, calls).mft.rows[ref])
    decreases |calls|
  {
    hide *;
    NotEmptyRun(n, calls, ref);
    var j := |calls| - 1;
    var front := calls[..j];
    assert calls[..j + 1] == calls;
    ReachedNext(n, calls, j);
    var s, t := R.Reached(n, front), R.Reached(n, calls);
    if ref in s.mft.rows {
      R.ReachedInv(n, front);
      StepAges(n, s, calls[j], ref);
      k := RowsHaveOrigin(n, front, ref);
      OriginLater(n, calls, k, ref, s.mft.rows[ref], t.mft.rows[ref]);
    } else {
      OriginNow(n, calls, ref);
      k := j;
    }
  }

  lemma NotEmptyRun(n: NodeEnv, calls: seq<R.Call>, ref: M.Ref)
    ensures ref in R.Reached(n, calls).mft.rows ==> calls != []
  {
  }

  lemma StepAges(n: NodeEnv, s: State, call: R.Call, ref: M.Ref)
    requires R.Inv(n, s) && ref in s.mft.rows
    ensures var t := R.Step(n, s, call);
      ref in t.mft.rows && t.mft.rows[ref].body == s.mft.rows[ref].body && t.mft.rows[ref].source == s.mft.rows[ref].source
  {
    R.StepKeeps(n, s, call);
    hide R.Step, R.Inv, Evolves, K.KEvolves;
    assert M.ManifestAges(s.mft.rows[ref], R.Step(n, s, call).mft.rows[ref]);
  }

  lemma {:induction false} RowStays(n: NodeEnv, calls: seq<R.Call>, i: nat, j: nat, ref: M.Ref)
    requires i <= j <= |calls| && ref in R.Reached(n, calls[..i]).mft.rows
    ensures ref in R.Reached(n, calls[..j]).mft.rows
    decreases j
  {
    hide *;
    if i < j {
      RowStays(n, calls, i, j - 1, ref);
      ReachedNext(n, calls, j - 1);
      R.ReachedInv(n, calls[..j - 1]);
      StepAges(n, R.Reached(n, calls[..j - 1]), calls[j - 1], ref);
    }
  }

  lemma EnteredOnce(n: NodeEnv, calls: seq<R.Call>, j: nat, k: nat, ref: M.Ref)
    requires Entered(n, calls, j, ref) && Entered(n, calls, k, ref)
    ensures j == k
  {
    hide R.Reached;
    if j < k { RowStays(n, calls, j + 1, k, ref); }
    if k < j { RowStays(n, calls, k + 1, j, ref); }
  }

  // ---- what the roots signed ----

  /** The body presented at call k, signed then by its root and its subject, grants this. */
  ghost predicate SignedThen(n: NodeEnv, calls: seq<R.Call>, k: nat, want: M.Permission) {
    && k < |calls| && calls[k].op.OnManifests?
    && var op := calls[k].op.mftOp;
    || (op.Mint? && MintedAt(n, calls, k, op.body) && want in op.body.permissions)
    || (op.Promote? && PromotedAt(n, calls, k, op.source, op.body.(permissions := op.permissions, codecs := op.codecs))
        && want in op.body.permissions)
  }

  /** The body that brought the row in force grants this under its root's signature. */
  ghost predicate PermissionSigned(n: NodeEnv, calls: seq<R.Call>, ref: M.Ref, want: M.Permission) {
    exists k: nat :: Entered(n, calls, k, ref) && SignedThen(n, calls, k, want)
  }

  /** Every committed use of a local manifest was of a permission its root had signed. A use of a promoted one was of a
      permission stored at the promotion, and its root had signed that exactly when it is in the body then presented. */
  lemma UsesSignedExactly(n: NodeEnv, calls: seq<R.Call>, i: nat) returns (k: nat)
    requires i < |R.Reached(n, calls).mft.uses|
    ensures var u := R.Reached(n, calls).mft.uses[i];
      && Entered(n, calls, k, u.ref) && calls[k].op.OnManifests?
      && (u.ref.table == M.Local ==> PermissionSigned(n, calls, u.ref, u.want))
      && (u.ref.table == M.Cross ==>
           && calls[k].op.mftOp.Promote? && u.want in calls[k].op.mftOp.permissions
           && (PermissionSigned(n, calls, u.ref, u.want) <==> u.want in calls[k].op.mftOp.body.permissions))
  {
    var s := R.Reached(n, calls);
    R.ReachedInv(n, calls);
    var u := s.mft.uses[i];
    assert u.ref in s.mft.rows && u.want in s.mft.rows[u.ref].body.permissions;
    k := RowsHaveOrigin(n, calls, u.ref);
    hide R.Reached, R.Inv;
    if u.ref.table == M.Local {
      assert SignedThen(n, calls, k, u.want);
    } else {
      assert u.want in calls[k].op.mftOp.body.permissions ==> SignedThen(n, calls, k, u.want);
      forall j: nat | Entered(n, calls, j, u.ref) && SignedThen(n, calls, j, u.want)
        ensures j == k
      {
        EnteredOnce(n, calls, j, k, u.ref);
      }
    }
  }

  /** So a promotion whose permissions are the signed body's own lets nothing else be used, and one that stores another
      puts in force a permission no root signed. */
  lemma PromotionWidensExactly(n: NodeEnv, calls: seq<R.Call>, ref: M.Ref) returns (k: nat)
    requires ref.table == M.Cross && ref in R.Reached(n, calls).mft.rows
    ensures Entered(n, calls, k, ref) && calls[k].op.OnManifests? && calls[k].op.mftOp.Promote?
    ensures var row, op := R.Reached(n, calls).mft.rows[ref], calls[k].op.mftOp;
      (forall want | want in row.body.permissions :: PermissionSigned(n, calls, ref, want))
      <==> forall want | want in op.permissions :: want in op.body.permissions
  {
    k := RowsHaveOrigin(n, calls, ref);
    var row, op := R.Reached(n, calls).mft.rows[ref], calls[k].op.mftOp;
    hide R.Reached;
    forall want
      ensures PermissionSigned(n, calls, ref, want) <==> want in op.body.permissions
    {
      if want in op.body.permissions { assert SignedThen(n, calls, k, want); }
      forall j: nat | Entered(n, calls, j, ref) && SignedThen(n, calls, j, want)
        ensures j == k
      {
        EnteredOnce(n, calls, j, k, ref);
      }
    }
    hide PermissionSigned;
  }
}
