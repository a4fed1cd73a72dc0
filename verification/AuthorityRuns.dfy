/** What every run of the authority path keeps: manifest uses, grants, tokens and memory writes are conserved. */
module AuthorityRuns {
  import opened Names
  import opened RootRegistry
  import opened Authority
  import M = Manifests
  import K = Kernel

  // ---- one write ----

  /** A memory chain key falls into the reserved ":rev" suffix exactly for the memory key "rev", so that key can never
      be written. */
  lemma ReservedExactly(owner: string, key: string)
    requires NameOk(key)
    ensures ReservedChain(ChainKey(owner, key)) <==> key == "rev"
  {
    var ck := ChainKey(owner, key);
    var n := |ck|;
    assert ck[n - |key|..] == key && ck[n - |key| - 1] == ':';
    assert ck[..3][0] == ck[0] == 'm' && ck[..4][1] == ck[1] == 'e';
    if |key| >= 4 {
      assert ck[n - 4] == key[|key| - 4] && NameChar(key[|key| - 4]);
      assert ck[n - 4..][0] == ck[n - 4];
    } else if |key| == 3 {
      assert ck[n - 4..] == ":" + key;
      assert key == ck[n - 4..][1..];
    } else {
      assert ck[n - 4..][3 - |key|] == ':';
    }
  }

  function AskFor(b: M.Body): K.Ask { K.Ask(b.subjectId, K.LocalWrite, WRITE, Namespace(b.rootId)) }

  lemma {:induction false} CandidatesSnoc(grants: seq<K.Grant>, g: K.Grant, actor: string)
    ensures K.Candidates(grants + [g], actor) == K.Candidates(grants, actor) + if K.Candidate(g, actor) then [|grants|] else []
  {
    assert (grants + [g])[..|grants|] == grants;
  }

  lemma {:induction false} FirstFitExtends(grants: seq<K.Grant>, g: K.Grant, c: seq<nat>, a: K.Ask, now: int)
    requires K.Within(c, |grants|)
    ensures K.FirstFit(grants + [g], c, a, now) == K.FirstFit(grants, c, a, now)
    ensures K.Fits(g, a, now) ==>
      K.FirstFit(grants + [g], c + [|grants|], a, now)
        == if K.FirstFit(grants, c, a, now).Some? then K.FirstFit(grants, c, a, now) else Some(|grants|)
    decreases |c|
  {
    hide K.Fits;
    if c == [] {
      assert c + [|grants|] == [|grants|];
    } else {
      assert (c + [|grants|])[1..] == c[1..] + [|grants|];
      FirstFitExtends(grants, g, c[1..], a, now);
    }
  }

  /** Which grant a write spends: an older one that fits, if the actor's first fifty hold one; else the one it just
      inserted, if fewer than fifty active grants are older; else none. */
  lemma FoundWithFresh(grants: seq<K.Grant>, g: K.Grant, a: K.Ask, now: int)
    requires K.Fits(g, a, now) && K.Candidate(g, a.actor)
    ensures K.FindGrant(grants + [g], a, now)
      == if K.FindGrant(grants, a, now).Some? then K.FindGrant(grants, a, now)
         else if |K.Candidates(grants, a.actor)| < K.TAKE then Some(|grants|) else None
  {
    var c := K.Candidates(grants, a.actor);
    CandidatesSnoc(grants, g, a.actor);
    hide K.Candidates, K.FirstFit, K.Fits;
    if |c| < K.TAKE {
      FirstFitExtends(grants, g, c, a, now);
    } else {
      assert (c + [|grants|])[..K.TAKE] == c[..K.TAKE];
      FirstFitExtends(grants, g, K.Window(c), a, now);
    }
  }

  /** What must hold of the engine for a write to be authorized. */
  predicate WriteOpen(n: NodeEnv, k: K.KState, b: M.Body, key: string, ctx: K.Ctx) {
    && !K.Halts(k) && n.gate.inputsOk(WriteArgs(b, key)) && ctx.secret
    && !K.HeldOn(k.held, ChainKey(b.rootId, key)) && !n.gate.sacred(WRITE, Namespace(b.rootId))
  }

  /** The log row of a write, its token consumed. */
  function WriteRow(b: M.Body, key: string, g: nat, now: int): K.LogRow {
    K.LogRow(ChainKey(b.rootId, key), K.IntentOf(WriteArgs(b, key), true), K.Accepted, K.Moga, true, b.subjectId, Some(g), now, Some(now))
  }

  /** Submitting and redeeming succeed together, and spend the grant found and one token. */
  lemma AuthorizeExactly(n: NodeEnv, k: K.KState, b: M.Body, key: string, ctx: K.Ctx)
    ensures var found := K.FindGrant(k.grants, AskFor(b), ctx.now);
      Authorize(n, k, b, key, ctx)
      == if WriteOpen(n, k, b, key, ctx) && found.Some? then
           Some(k.(grants := k.grants[found.value := K.SpentGrant(k.grants[found.value])],
                   held := k.held[ChainKey(b.rootId, key) := false],
                   logs := k.logs + [WriteRow(b, key, found.value, ctx.now)],
                   redeemed := k.redeemed + [|k.logs|]))
         else None
  {
    hide K.FindGrant, K.SpentGrant, ChainKey, Namespace;
    var args := WriteArgs(b, key);
    var found := K.FindGrant(k.grants, AskFor(b), ctx.now);
    assert K.AskOf(args) == AskFor(b) && K.StateKey(args) == ChainKey(b.rootId, key);
    if WriteOpen(n, k, b, key, ctx) && found.Some? {
      var k2 := K.Submit(n.gate, k, args, ctx).0;
      var l := |k.logs|;
      assert k2.logs[l] == WriteRow(b, key, found.value, ctx.now).(consumedAt := None);
      assert k2.logs[l := WriteRow(b, key, found.value, ctx.now)] == k.logs + [WriteRow(b, key, found.value, ctx.now)];
    }
  }

  /** A memory write commits exactly when: it is a memory write by shape; its manifest use is granted; it names the
      manifest's own namespace; the engine is neither killed nor held, has a token secret, takes the inputs and finds
      no sacred target; a usable grant is within the fifty looked at; and the key is not "rev". */
  lemma WriteExactly(n: NodeEnv, s: State, r: M.Request, sig: string, value: string, ctx: K.Ctx)
    ensures var c := M.Consume(n.mft, s.keys, s.mft, s.kernel.buckets, r, sig, true, ctx.now);
      MemoryWrite(n, s, r, sig, value, ctx).Some?
      <==> WriteShape(r) && c.Yes?
           && var b := s.mft.rows[c.value.ref].body;
           r.resource == Namespace(b.rootId) && WriteOpen(n, s.kernel, b, r.key.value, ctx)
           && (K.FindGrant(s.kernel.grants, AskFor(b), ctx.now).Some? || |K.Candidates(s.kernel.grants, b.subjectId)| < K.TAKE)
           && r.key.value != "rev"
  {
    hide M.Consume;
    var c := M.Consume(n.mft, s.keys, s.mft, s.kernel.buckets, r, sig, true, ctx.now);
    if WriteShape(r) && c.Yes? {
      var b, useSeq := s.mft.rows[c.value.ref].body, s.mft.rows[c.value.ref].usedCount;
      var g := WriteGrant(n, b, useSeq, ctx.now);
      var k := Granted(n, s.kernel, b, useSeq, c.value.buckets, ctx.now);
      FreshFits(n, b, useSeq, ctx.now);
      FoundWithFresh(s.kernel.grants, g, AskFor(b), ctx.now);
      AuthorizeExactly(n, k, b, r.key.value, ctx);
      ReservedExactly(b.rootId, r.key.value);
      hide K.FindGrant, K.Candidates, Authorize, ReservedChain, ChainKey, Namespace, NameOk;
    }
  }

  lemma FreshFits(n: NodeEnv, b: M.Body, useSeq: nat, now: int)
    ensures var g := WriteGrant(n, b, useSeq, now); K.Fits(g, AskFor(b), now) && K.Candidate(g, b.subjectId)
  {
    assert Namespace(b.rootId) != "";
  }

  /** The grant spent by a write, by position. */
  function SpentBy(s: State, b: M.Body, now: int): nat {
    var older := K.FindGrant(s.kernel.grants, AskFor(b), now);
    if older.Some? then older.value else |s.kernel.grants|
  }

  /** A committed write spends one manifest use, one grant use and one token, and leaves one receipt and one memory
      row that name them; nothing else changes but the manifest's rate-limit bucket and the chain's hold entry. */
  lemma WriteSpendsOne(n: NodeEnv, s: State, r: M.Request, sig: string, value: string, ctx: K.Ctx)
    requires MemoryWrite(n, s, r, sig, value, ctx).Some?
    ensures var t, c := MemoryWrite(n, s, r, sig, value, ctx).value, M.Consume(n.mft, s.keys, s.mft, s.kernel.buckets, r, sig, true, ctx.now);
      c.Yes? && Spends(n, s, t, c.value.ref, r, value, ctx)
  {
    var c := M.Consume(n.mft, s.keys, s.mft, s.kernel.buckets, r, sig, true, ctx.now);
    ConsumeShape(n, s, r, sig, ctx);
    hide M.Consume;
    WriteExactly(n, s, r, sig, value, ctx);
    var ref := c.value.ref;
    var b, useSeq := s.mft.rows[ref].body, s.mft.rows[ref].usedCount;
    var k := Granted(n, s.kernel, b, useSeq, c.value.buckets, ctx.now);
    FreshFits(n, b, useSeq, ctx.now);
    FoundWithFresh(s.kernel.grants, WriteGrant(n, b, useSeq, ctx.now), AskFor(b), ctx.now);
    AuthorizeExactly(n, k, b, r.key.value, ctx);
    hide K.FindGrant, K.Candidates, Authorize, ReservedChain, ChainKey, Namespace, WriteRow, WriteGrant, M.Used, M.PayRate, WriteOpen;
  }

  lemma ConsumeShape(n: NodeEnv, s: State, r: M.Request, sig: string, ctx: K.Ctx)
    ensures var c := M.Consume(n.mft, s.keys, s.mft, s.kernel.buckets, r, sig, true, ctx.now);
      c.Yes? ==>
      && c.value.db == M.Used(s.mft, c.value.ref, M.WantOf(r)) && r.useSeq == s.mft.rows[c.value.ref].usedCount
      && r.subjectId == s.mft.rows[c.value.ref].body.subjectId && c.value.ref.id == r.manifestId
      && M.PayRate(s.mft.rows[c.value.ref], r.manifestId, s.kernel.buckets, ctx.now) == Some(c.value.buckets)
  {
    hide M.Used, M.PayRate, M.RequestOk;
  }

  /** The one-shot grant a write inserts lets the writer write to the owner's namespace once within a minute. It is itself
      the one spent exactly when no older grant fitted; otherwise an older grant pays and it is left active and unused. */
  lemma FreshGrantSpentExactly(n: NodeEnv, s: State, r: M.Request, sig: string, value: string, ctx: K.Ctx)
    requires MemoryWrite(n, s, r, sig, value, ctx).Some?
    ensures var t, c := MemoryWrite(n, s, r, sig, value, ctx).value, M.Consume(n.mft, s.keys, s.mft, s.kernel.buckets, r, sig, true, ctx.now);
      && c.Yes? && |t.kernel.grants| == |s.kernel.grants| + 1
      && var older, inserted := K.FindGrant(s.kernel.grants, AskFor(s.mft.rows[c.value.ref].body), ctx.now), t.kernel.grants[|s.kernel.grants|];
      && inserted.(key := "", status := K.GActive, usedCount := 0)
         == K.Grant("", r.subjectId, K.LocalWrite, "memory.write", r.resource, ctx.now + 60_000, Some(1), 0, K.GActive)
      && (older.None? ==> inserted.status == K.GUsed && inserted.usedCount == 1)
      && (older.Some? ==> inserted.status == K.GActive && inserted.usedCount == 0
                          && t.kernel.grants[older.value].usedCount == s.kernel.grants[older.value].usedCount + 1)
  {
    var t, c := MemoryWrite(n, s, r, sig, value, ctx).value, M.Consume(n.mft, s.keys, s.mft, s.kernel.buckets, r, sig, true, ctx.now);
    WriteSpendsOne(n, s, r, sig, value, ctx);
    hide *;
    SpendsGrant(n, s, t, c.value.ref, r, value, ctx);
  }

  lemma SpendsGrant(n: NodeEnv, s: State, t: State, ref: M.Ref, r: M.Request, value: string, ctx: K.Ctx)
    requires ref in s.mft.rows && Spends(n, s, t, ref, r, value, ctx)
    ensures |t.kernel.grants| == |s.kernel.grants| + 1
    ensures var older, inserted := K.FindGrant(s.kernel.grants, AskFor(s.mft.rows[ref].body), ctx.now), t.kernel.grants[|s.kernel.grants|];
      && inserted.(key := "", status := K.GActive, usedCount := 0)
         == K.Grant("", r.subjectId, K.LocalWrite, "memory.write", r.resource, ctx.now + 60_000, Some(1), 0, K.GActive)
      && (older.None? ==> inserted.status == K.GUsed && inserted.usedCount == 1)
      && (older.Some? ==> inserted.status == K.GActive && inserted.usedCount == 0
                          && t.kernel.grants[older.value].usedCount == s.kernel.grants[older.value].usedCount + 1)
  {
    hide K.FindGrant, WriteRow, ChainKey, Namespace, M.Used, M.PayRate, Newest, WriteReceipt;
  }

  /** The receipt of a write. */
  function WriteReceipt(b: M.Body, key: string, useSeq: nat, value: string, now: int): Receipt {
    Receipt(ChainKey(b.rootId, key), now, b.manifestId, b.rootId, b.subjectId, useSeq, b.rootId + ":" + key + ":" + value)
  }

  predicate Spends(n: NodeEnv, s: State, t: State, ref: M.Ref, r: M.Request, value: string, ctx: K.Ctx)
    requires ref in s.mft.rows
  {
    var b, useSeq, g := s.mft.rows[ref].body, s.mft.rows[ref].usedCount, SpentBy(s, s.mft.rows[ref].body, ctx.now);
    var grants := s.kernel.grants + [WriteGrant(n, b, useSeq, ctx.now)];
    && r.key.Some? && M.WantOf(r) == M.Permission(K.LocalWrite, WRITE, Namespace(b.rootId)) && r.useSeq == useSeq && r.subjectId == b.subjectId && ref.id == r.manifestId
    && t.keys == s.keys && t.mft == M.Used(s.mft, ref, M.WantOf(r))
    && g < |grants| && t.kernel.grants == grants[g := K.SpentGrant(grants[g])]
    && t.kernel.logs == s.kernel.logs + [WriteRow(b, r.key.value, g, ctx.now)]
    && t.kernel.redeemed == s.kernel.redeemed + [|s.kernel.logs|]
    && t.kernel.held == s.kernel.held[ChainKey(b.rootId, r.key.value) := false] && t.kernel.killSwitch == s.kernel.killSwitch
    && M.PayRate(s.mft.rows[ref], r.manifestId, s.kernel.buckets, ctx.now) == Some(t.kernel.buckets)
    && t.receipts == s.receipts + [WriteReceipt(b, r.key.value, useSeq, value, ctx.now)]
    && t.memory == s.memory + [MemoryRow(b.rootId, b.subjectId, b.manifestId, r.key.value, value,
                                         Newest(t.receipts, ChainKey(b.rootId, r.key.value)).value)]
    && t.trail == s.trail + [Trail(|s.mft.uses|, |s.kernel.logs|, |s.receipts|)]
  }

  // ---- runs ----

  datatype MftOp =
    | Mint(body: M.Body, rootSig: string, popSig: string)
    | Promote(operator: bool, source: string, body: M.Body, permissions: seq<M.Permission>, codecs: seq<string>,
              rootSig: string, popSig: string)
    | Trust(pins: map<(string, string, string), string>, views: map<(string, string), M.View>)
    | RevokeByRoot(statement: M.Statement, sig: string)
    | RevokeBySubject(statement: M.Statement, sig: string)

  datatype KernelOp =
    | Issue(args: K.IssueArgs)
    | RevokeGrant(founder: bool, key: string)
    | Salama(founder: bool, on: bool)
    | Kill(founder: bool, on: bool)
    | Submit(intent: K.Args)
    | Redeem(token: K.Presented)

  datatype Op =
    | OnRegistry(operator: bool, registryOp: RootRegistry.Op)
    | OnManifests(mftOp: MftOp)
    | OnKernel(kernelOp: KernelOp)
    | Consume(request: M.Request, sig: string)
    | Write(request: M.Request, sig: string, value: string)
    | Note(receipt: Receipt, logId: nat)
    | Bring(receipt: Receipt)

  datatype Call = Call(op: Op, ctx: K.Ctx)

  function Landed(a: M.Answer<M.Db>, db: M.Db): M.Db { if a.Yes? then a.value else db }

  function MftNext(n: NodeEnv, keys: Keys, db: M.Db, op: MftOp): M.Db {
    match op
    case Mint(b, x, y) => Landed(M.MintManifest(n.mft, keys, db, b, x, y), db)
    case Promote(o, src, b, ps, cs, x, y) =>
      Landed(M.Promote(n.mft, keys, db, o, src, b, b.(permissions := ps, codecs := cs), x, y), db)
    case Trust(ps, vs) => db.(pins := ps, views := vs)
    case RevokeByRoot(st, x) => Landed(M.RevokeManifest(n.mft, keys, db, st, x), db)
    case RevokeBySubject(st, x) => Landed(M.SelfRevoke(n.mft, db, st, x), db)
  }

  function KernelNext(n: NodeEnv, k: K.KState, op: KernelOp, ctx: K.Ctx): K.KState {
    match op
    case Issue(a) => var t := K.Issue(k, a, ctx); if t.Some? then t.value else k
    case RevokeGrant(f, key) => K.RevokeGrant(k, f, key)
    case Salama(f, on) => K.SetHold(k, f, on)
    case Kill(f, on) => K.SetKill(k, f, on)
    case Submit(a) => K.Submit(n.gate, k, a, ctx).0
    case Redeem(t) => var u := K.Redeem(n.gate, k, t, ctx); if u.Some? then u.value else k
  }

  /** A plain manifest consume. */
  function ConsumeNext(n: NodeEnv, s: State, r: M.Request, sig: string, now: int): State {
    var c := M.Consume(n.mft, s.keys, s.mft, s.kernel.buckets, r, sig, false, now);
    if c.Yes? then s.(mft := c.value.db, kernel := s.kernel.(buckets := c.value.buckets)) else s
  }

  /** One mutation; one that throws changes nothing. */
  function Step(n: NodeEnv, s: State, call: Call): State {
    match call.op
    case OnRegistry(o, op) => s.(keys := Committed(Apply(n.crypto, s.keys, o, op), s.keys))
    case OnManifests(op) => s.(mft := MftNext(n, s.keys, s.mft, op))
    case OnKernel(op) => s.(kernel := KernelNext(n, s.kernel, op, call.ctx))
    case Consume(r, x) => ConsumeNext(n, s, r, x, call.ctx.now)
    case Write(r, x, v) => var w := MemoryWrite(n, s, r, x, v, call.ctx); if w.Some? then w.value else s
    case Note(r, logId) => NoteReceipt(s, r, logId, call.ctx.now)
    case Bring(r) => BringReceipt(s, r)
  }

  function Run(n: NodeEnv, s: State, calls: seq<Call>): State
    decreases |calls|
  {
    if calls == [] then s else Step(n, Run(n, s, calls[..|calls| - 1]), calls[|calls| - 1])
  }

  // ---- what every run keeps ----

  /** Memory row i, the receipt it wrote and the one it carries, and the use, grant use and token it spent. */
  ghost predicate RowCoupled(s: State, i: nat)
    requires i < |s.memory| == |s.trail|
  {
    var m, t := s.memory[i], s.trail[i];
    && t.use < |s.mft.uses| && t.logId < |s.kernel.logs| && t.receipt < |s.receipts|
    && var u, l, c := s.mft.uses[t.use], s.kernel.logs[t.logId], s.receipts[t.receipt];
    && c == Receipt(ChainKey(m.owner, m.key), l.ts, m.manifestId, m.owner, m.writer, u.useSeq, m.owner + ":" + m.key + ":" + m.value)
    && Newest(s.receipts[..t.receipt + 1], c.chainKey) == Some(m.receipt)
    && u.ref.id == m.manifestId && u.ref in s.mft.rows && u.want == M.Permission(K.LocalWrite, WRITE, Namespace(m.owner))
    && s.mft.rows[u.ref].body.rootId == m.owner && s.mft.rows[u.ref].body.subjectId == m.writer
    && l.allowed && l.consumedAt.Some? && l.grantRef.Some? && l.actor == m.writer
    && l.intent.ring == K.LocalWrite && l.intent.action == WRITE && l.intent.resource == Namespace(m.owner)
  }

  predicate TrailBefore(a: Trail, b: Trail) { a.use < b.use && a.logId < b.logId && a.receipt < b.receipt }

  /** One trail entry for each memory row, and no use, token or receipt written by two of them. */
  ghost predicate Coupled(s: State) {
    && |s.memory| == |s.trail|
    && (forall i: nat | i < |s.memory| :: RowCoupled(s, i))
    && (forall i, j | 0 <= i < j < |s.trail| :: TrailBefore(s.trail[i], s.trail[j]))
  }

  ghost predicate Inv(n: NodeEnv, s: State) {
    Sound(n.crypto, s.keys) && M.MInv(s.mft) && K.KInv(n.gate.sacred, s.kernel) && Coupled(s)
  }

  /** Nothing is ever taken back. */
  ghost predicate Wears(s: State, t: State) {
    && Evolves(s.keys, t.keys) && M.MEvolves(s.mft, t.mft) && K.KEvolves(s.kernel, t.kernel)
    && s.receipts <= t.receipts && s.memory <= t.memory && s.trail <= t.trail
  }

  lemma RowCoupledWears(s: State, t: State, i: nat)
    requires i < |s.memory| == |s.trail| && RowCoupled(s, i)
    requires |t.memory| == |t.trail| && s.receipts <= t.receipts && s.memory <= t.memory && s.trail <= t.trail
    requires M.MEvolves(s.mft, t.mft) && K.KEvolves(s.kernel, t.kernel)
    ensures RowCoupled(t, i)
  {
    hide ChainKey, Namespace, Newest;
    var tr := s.trail[i];
    assert t.mft.uses[tr.use] == s.mft.uses[tr.use];
    assert K.RowAges(s.kernel.logs[tr.logId], t.kernel.logs[tr.logId]);
    assert t.memory[i] == s.memory[i] && t.trail[i] == s.trail[i];
    assert t.receipts[tr.receipt] == s.receipts[tr.receipt] && t.receipts[..tr.receipt + 1] == s.receipts[..tr.receipt + 1];
  }

  /** A step that adds no memory row keeps the rows coupled. */
  lemma StillCoupled(s: State, t: State)
    requires Coupled(s) && s.receipts <= t.receipts && t.memory == s.memory && t.trail == s.trail
    requires M.MEvolves(s.mft, t.mft) && K.KEvolves(s.kernel, t.kernel)
    ensures Coupled(t)
  {
    forall i: nat | i < |t.memory|
      ensures RowCoupled(t, i)
    {
      RowCoupledWears(s, t, i);
    }
    hide RowCoupled;
  }

  lemma MftNextKeeps(n: NodeEnv, keys: Keys, db: M.Db, op: MftOp)
    requires M.MInv(db)
    ensures var t := MftNext(n, keys, db, op); M.MInv(t) && M.MEvolves(db, t)
  {
    TrustKeeps(db, db.pins, db.views);
    match op {
      case Mint(b, x, y) =>
        hide *;
        MintKeepsMft(n, keys, db, b, x, y);
      case Promote(o, src, b, ps, cs, x, y) =>
        hide *;
        PromoteKeepsMft(n, keys, db, o, src, b, b.(permissions := ps, codecs := cs), x, y);
      case RevokeByRoot(st, x) =>
        hide *;
        RevokeKeepsMft(n, keys, db, st, x);
      case RevokeBySubject(st, x) =>
        hide *;
        SelfRevokeKeepsMft(n, db, st, x);
      case Trust(ps, vs) => TrustKeeps(db, ps, vs);
    }
    hide M.MInv, M.MEvolves, M.MintManifest, M.Promote, M.RevokeManifest, M.SelfRevoke;
  }

  lemma MintKeepsMft(n: NodeEnv, keys: Keys, db: M.Db, b: M.Body, x: string, y: string)
    requires M.MInv(db)
    ensures var a := M.MintManifest(n.mft, keys, db, b, x, y); a.Yes? ==> M.MInv(a.value) && M.MEvolves(db, a.value)
  {
    hide M.MInv, M.MEvolves, M.BodyOk, FindKey;
    if M.MintManifest(n.mft, keys, db, b, x, y).Yes? {
      M.AddRowKeeps(db, M.Ref(M.Local, b.manifestId), M.Manifest(b, n.mft.node, M.Live, 0));
    }
  }

  lemma PromoteKeepsMft(n: NodeEnv, keys: Keys, db: M.Db, o: bool, src: string, b: M.Body, stored: M.Body, x: string, y: string)
    requires M.MInv(db) && stored == b.(permissions := stored.permissions, codecs := stored.codecs)
    ensures var a := M.Promote(n.mft, keys, db, o, src, b, stored, x, y); a.Yes? ==> M.MInv(a.value) && M.MEvolves(db, a.value)
  {
    hide M.MInv, M.MEvolves, M.BodyOk, RootKnown;
    if M.Promote(n.mft, keys, db, o, src, b, stored, x, y).Yes? {
      M.AddRowKeeps(db, M.Ref(M.Cross, b.manifestId), M.Manifest(stored, src, M.Live, 0));
    }
  }

  lemma RevokeKeepsMft(n: NodeEnv, keys: Keys, db: M.Db, st: M.Statement, x: string)
    requires M.MInv(db)
    ensures var a := M.RevokeManifest(n.mft, keys, db, st, x); a.Yes? ==> M.MInv(a.value) && M.MEvolves(db, a.value)
  {
    hide M.MInv, M.MEvolves, M.StatementOk, M.ActiveKey, M.SetStatus;
    if M.RevokeManifest(n.mft, keys, db, st, x).Yes? { M.SetStatusKeeps(db, M.Ref(M.Local, st.manifestId), M.MRevoked); }
  }

  lemma SelfRevokeKeepsMft(n: NodeEnv, db: M.Db, st: M.Statement, x: string)
    requires M.MInv(db)
    ensures var a := M.SelfRevoke(n.mft, db, st, x); a.Yes? ==> M.MInv(a.value) && M.MEvolves(db, a.value)
  {
    hide M.MInv, M.MEvolves, M.StatementOk, M.SetStatus;
    if M.SelfRevoke(n.mft, db, st, x).Yes? {
      M.SetStatusKeeps(db, M.Ref(M.Local, st.manifestId), if st.revoke then M.MRevoked else M.Paused);
    }
  }

  lemma TrustKeeps(db: M.Db, pins: map<(string, string, string), string>, views: map<(string, string), M.View>)
    requires M.MInv(db)
    ensures var t := db.(pins := pins, views := views); M.MInv(t) && M.MEvolves(db, t)
  {
    hide M.BodyOk;
  }

  lemma KernelNextKeeps(n: NodeEnv, k: K.KState, op: KernelOp, ctx: K.Ctx)
    requires K.KInv(n.gate.sacred, k)
    ensures var t := KernelNext(n, k, op, ctx); K.KInv(n.gate.sacred, t) && K.KEvolves(k, t)
  {
    BucketsKeep(n, k, k.buckets);
    if op.Salama? || op.Kill? { FlagsKeep(n, k, KernelNext(n, k, op, ctx)); }
    hide K.KInv, K.KEvolves, K.Issue, K.Submit, K.Redeem, K.RevokeGrant;
    match op {
      case Issue(a) => if K.Issue(k, a, ctx).Some? { K.IssueKeeps(n.gate.sacred, k, a, ctx); }
      case RevokeGrant(f, key) => K.RevokeGrantKeeps(n.gate.sacred, k, f, key);
      case Submit(a) => K.SubmitKeeps(n.gate, k, a, ctx);
      case Redeem(t) => if K.Redeem(n.gate, k, t, ctx).Some? { K.RedeemKeeps(n.gate, k, t, ctx); }
      case _ =>
    }
  }

  lemma FlagsKeep(n: NodeEnv, k: K.KState, t: K.KState)
    requires K.KInv(n.gate.sacred, k) && t == k.(held := t.held, killSwitch := t.killSwitch)
    ensures K.KInv(n.gate.sacred, t) && K.KEvolves(k, t)
  {
    hide K.RowOk, K.GrantOk, K.Uses;
  }

  lemma ConsumeKeeps(n: NodeEnv, s: State, r: M.Request, sig: string, now: int)
    requires Inv(n, s)
    ensures var t := ConsumeNext(n, s, r, sig, now); Inv(n, t) && Wears(s, t)
  {
    var c := M.Consume(n.mft, s.keys, s.mft, s.kernel.buckets, r, sig, false, now);
    SelfWears(s);
    if c.Yes? { M.ConsumeKeeps(n.mft, s.keys, s.mft, s.kernel.buckets, r, sig, false, now); }
    hide M.Consume, Coupled, M.MInv, M.MEvolves, K.KInv, K.KEvolves, Sound, Evolves;
    if c.Yes? {
      BucketsKeep(n, s.kernel, c.value.buckets);
      StillCoupled(s, ConsumeNext(n, s, r, sig, now));
    }
  }

  lemma BucketsKeep(n: NodeEnv, k: K.KState, buckets: M.Buckets)
    requires K.KInv(n.gate.sacred, k)
    ensures K.KInv(n.gate.sacred, k.(buckets := buckets)) && K.KEvolves(k, k.(buckets := buckets))
  {
    hide K.RowOk, K.GrantOk, K.Uses;
  }

  lemma AuthorizeKeeps(n: NodeEnv, k: K.KState, b: M.Body, key: string, ctx: K.Ctx)
    requires K.KInv(n.gate.sacred, k) && Authorize(n, k, b, key, ctx).Some?
    ensures var t := Authorize(n, k, b, key, ctx).value; K.KInv(n.gate.sacred, t) && K.KEvolves(k, t)
  {
    var (k2, out) := K.Submit(n.gate, k, WriteArgs(b, key), ctx);
    K.SubmitKeeps(n.gate, k, WriteArgs(b, key), ctx);
    hide K.Submit, K.Redeem, K.KInv, K.KEvolves;
    K.RedeemKeeps(n.gate, k2, WriteToken(b, out.logId, out.token.value), ctx);
    K.KEvolvesTransitive(k, k2, Authorize(n, k, b, key, ctx).value);
  }

  /** The parts a committed write is made of. */
  lemma WriteParts(n: NodeEnv, s: State, r: M.Request, sig: string, value: string, ctx: K.Ctx)
    requires MemoryWrite(n, s, r, sig, value, ctx).Some?
    ensures var t, c := MemoryWrite(n, s, r, sig, value, ctx).value, M.Consume(n.mft, s.keys, s.mft, s.kernel.buckets, r, sig, true, ctx.now);
      && c.Yes? && t.keys == s.keys && t.mft == c.value.db && r.key.Some?
      && var b := s.mft.rows[c.value.ref].body;
      Authorize(n, Granted(n, s.kernel, b, s.mft.rows[c.value.ref].usedCount, c.value.buckets, ctx.now), b, r.key.value, ctx) == Some(t.kernel)
  {
    hide M.Consume, Authorize, Granted, ReservedChain, NameOk;
  }

  lemma WriteKeeps(n: NodeEnv, s: State, r: M.Request, x: string, v: string, ctx: K.Ctx)
    requires Inv(n, s) && MemoryWrite(n, s, r, x, v, ctx).Some?
    ensures var t := MemoryWrite(n, s, r, x, v, ctx).value; Inv(n, t) && Wears(s, t)
  {
    var t, c := MemoryWrite(n, s, r, x, v, ctx).value, M.Consume(n.mft, s.keys, s.mft, s.kernel.buckets, r, x, true, ctx.now);
    WriteSpendsOne(n, s, r, x, v, ctx);
    WriteParts(n, s, r, x, v, ctx);
    M.ConsumeKeeps(n.mft, s.keys, s.mft, s.kernel.buckets, r, x, true, ctx.now);
    SelfEvolves(s.keys);
    var ref := c.value.ref;
    assert s.mft.rows[ref].body.manifestId == ref.id;
    hide MemoryWrite, M.Consume, M.MInv, M.MEvolves, K.KInv, K.KEvolves, Sound, Evolves, Coupled, Spends, WriteGrant, Authorize;
    var b, useSeq := s.mft.rows[ref].body, s.mft.rows[ref].usedCount;
    FreshUnused(n, b, useSeq, ctx.now);
    var k := Granted(n, s.kernel, b, useSeq, c.value.buckets, ctx.now);
    K.AddGrantKeeps(n.gate.sacred, s.kernel, k, WriteGrant(n, b, useSeq, ctx.now));
    AuthorizeKeeps(n, k, b, r.key.value, ctx);
    K.KEvolvesTransitive(s.kernel, k, t.kernel);
    WriteKeepsCoupled(n, s, t, ref, r, v, ctx);
  }

  lemma FreshUnused(n: NodeEnv, b: M.Body, useSeq: nat, now: int)
    ensures var g := WriteGrant(n, b, useSeq, now); g.usedCount == 0 && g.status == K.GActive && g.maxUses == Some(1)
  {
  }

  lemma SelfEvolves(keys: Keys)
    ensures Evolves(keys, keys)
  {
  }

  lemma SelfWears(s: State)
    ensures Wears(s, s)
  {
  }

  lemma WriteKeepsCoupled(n: NodeEnv, s: State, t: State, ref: M.Ref, r: M.Request, value: string, ctx: K.Ctx)
    requires Coupled(s) && ref in s.mft.rows && s.mft.rows[ref].body.manifestId == ref.id && Spends(n, s, t, ref, r, value, ctx)
    requires M.MEvolves(s.mft, t.mft) && K.KEvolves(s.kernel, t.kernel)
    ensures Coupled(t) && s.receipts <= t.receipts && s.memory <= t.memory && s.trail <= t.trail
  {
    WriteAdds(n, s, t, ref, r, value, ctx);
    TrailOrdered(s, t);
    hide RowCoupled, TrailBefore, Spends, M.MEvolves, K.KEvolves;
    var m := |s.memory|;
    forall i: nat | i < |t.memory|
      ensures RowCoupled(t, i)
    {
      if i < m {
        RowCoupledWears(s, t, i);
      } else {
        NewRowCoupled(n, s, t, ref, r, value, ctx);
      }
    }
  }

  /** What a new entry names is beyond what any earlier one does. */
  lemma TrailOrdered(s: State, t: State)
    requires Coupled(s) && t.trail == s.trail + [Trail(|s.mft.uses|, |s.kernel.logs|, |s.receipts|)]
    ensures forall i, j | 0 <= i < j < |t.trail| :: TrailBefore(t.trail[i], t.trail[j])
  {
    hide ChainKey, Namespace, Newest;
    forall i, j | 0 <= i < j < |t.trail|
      ensures TrailBefore(t.trail[i], t.trail[j])
    {
      if j < |s.trail| { assert TrailBefore(s.trail[i], s.trail[j]); } else { assert RowCoupled(s, i); }
    }
  }

  lemma WriteAdds(n: NodeEnv, s: State, t: State, ref: M.Ref, r: M.Request, value: string, ctx: K.Ctx)
    requires ref in s.mft.rows && Spends(n, s, t, ref, r, value, ctx)
    ensures s.receipts <= t.receipts && s.memory <= t.memory && |t.memory| == |s.memory| + 1
    ensures t.trail == s.trail + [Trail(|s.mft.uses|, |s.kernel.logs|, |s.receipts|)]
  {
    hide WriteReceipt, WriteRow, WriteGrant, K.SpentGrant, SpentBy, M.Used, M.PayRate, Newest, ChainKey;
  }

  lemma NewRowCoupled(n: NodeEnv, s: State, t: State, ref: M.Ref, r: M.Request, value: string, ctx: K.Ctx)
    requires |s.memory| == |s.trail| && ref in s.mft.rows && s.mft.rows[ref].body.manifestId == ref.id
    requires Spends(n, s, t, ref, r, value, ctx)
    ensures |t.memory| == |t.trail| == |s.memory| + 1 && RowCoupled(t, |s.memory|)
  {
    hide ChainKey, Namespace, K.SpentGrant, SpentBy, WriteGrant, Newest;
    assert t.receipts[..|s.receipts| + 1] == t.receipts;
  }

  lemma StepKeeps(n: NodeEnv, s: State, call: Call)
    requires Inv(n, s)
    ensures Inv(n, Step(n, s, call)) && Wears(s, Step(n, s, call))
  {
    SelfWears(s);
    hide MemoryWrite, Inv, Wears, KernelNext, MftNext, ConsumeNext, Apply;
    match call.op {
      case OnRegistry(o, op) => RegistryStep(n, s, o, op);
      case OnManifests(op) => ManifestStep(n, s, op);
      case OnKernel(op) => KernelStep(n, s, op, call.ctx);
      case Consume(r, x) => ConsumeKeeps(n, s, r, x, call.ctx.now);
      case Write(r, x, v) => if MemoryWrite(n, s, r, x, v, call.ctx).Some? { WriteKeeps(n, s, r, x, v, call.ctx); }
      case Note(r, logId) => ReceiptStep(n, s, NoteReceipt(s, r, logId, call.ctx.now));
      case Bring(r) => ReceiptStep(n, s, BringReceipt(s, r));
    }
  }

  lemma ReceiptStep(n: NodeEnv, s: State, t: State)
    requires Inv(n, s) && t == s.(receipts := t.receipts) && s.receipts <= t.receipts
    ensures Inv(n, t) && Wears(s, t)
  {
    SelfWears(s);
    hide Sound, Evolves, M.MInv, M.MEvolves, K.KInv, K.KEvolves, Coupled;
    StillCoupled(s, t);
  }

  lemma RegistryStep(n: NodeEnv, s: State, operator: bool, op: RootRegistry.Op)
    requires Inv(n, s)
    ensures var t := s.(keys := Committed(Apply(n.crypto, s.keys, operator, op), s.keys)); Inv(n, t) && Wears(s, t)
  {
    SelfWears(s);
    ApplyKeeps(n.crypto, s.keys, operator, op);
    hide Apply, Sound, Evolves, M.MInv, M.MEvolves, K.KInv, K.KEvolves, Coupled;
    OnlyKeys(n, s, s.(keys := Committed(Apply(n.crypto, s.keys, operator, op), s.keys)));
  }

  lemma ManifestStep(n: NodeEnv, s: State, op: MftOp)
    requires Inv(n, s)
    ensures var t := s.(mft := MftNext(n, s.keys, s.mft, op)); Inv(n, t) && Wears(s, t)
  {
    SelfWears(s);
    MftNextKeeps(n, s.keys, s.mft, op);
    hide MftNext, Sound, Evolves, M.MInv, M.MEvolves, K.KInv, K.KEvolves, Coupled;
    StillCoupled(s, s.(mft := MftNext(n, s.keys, s.mft, op)));
  }

  lemma KernelStep(n: NodeEnv, s: State, op: KernelOp, ctx: K.Ctx)
    requires Inv(n, s)
    ensures var t := s.(kernel := KernelNext(n, s.kernel, op, ctx)); Inv(n, t) && Wears(s, t)
  {
    SelfWears(s);
    KernelNextKeeps(n, s.kernel, op, ctx);
    hide KernelNext, Sound, Evolves, M.MInv, M.MEvolves, K.KInv, K.KEvolves, Coupled;
    StillCoupled(s, s.(kernel := KernelNext(n, s.kernel, op, ctx)));
  }

  /** The coupling of the effect tables does not look at the registry. */
  lemma OnlyKeys(n: NodeEnv, s: State, t: State)
    requires Inv(n, s) && t == s.(keys := t.keys)
    ensures Coupled(t)
  {
    SelfWears(s);
    StillCoupled(s, t);
  }

  lemma WearsTransitive(a: State, b: State, c: State)
    requires Wears(a, b) && Wears(b, c)
    ensures Wears(a, c)
  {
    EvolvesTransitive(a.keys, b.keys, c.keys);
    M.MEvolvesTransitive(a.mft, b.mft, c.mft);
    K.KEvolvesTransitive(a.kernel, b.kernel, c.kernel);
    hide Evolves, M.MEvolves, K.KEvolves;
  }

  /** Every run from a sound state keeps it sound and takes nothing back. */
  lemma {:induction false} RunKeeps(n: NodeEnv, s: State, calls: seq<Call>)
    requires Inv(n, s)
    ensures Inv(n, Run(n, s, calls)) && Wears(s, Run(n, s, calls))
    decreases |calls|
  {
    if calls == [] {
      SelfWears(s);
    } else {
      var k := |calls| - 1;
      var t := Run(n, s, calls[..k]);
      RunKeeps(n, s, calls[..k]);
      StepKeeps(n, t, calls[k]);
      hide Inv, Wears, Step;
      WearsTransitive(s, t, Run(n, s, calls));
    }
  }

  lemma EmptyInv(n: NodeEnv)
    ensures Inv(n, Empty())
  {
  }

  /** The state after a run from empty tables. */
  function Reached(n: NodeEnv, calls: seq<Call>): State { Run(n, Empty(), calls) }

  lemma ReachedInv(n: NodeEnv, calls: seq<Call>)
    ensures Inv(n, Reached(n, calls))
  {
    EmptyInv(n);
    RunKeeps(n, Empty(), calls);
  }

  // ---- the main results, in the readers' words ----

  /** A promoted manifest may state a negative limit, which allows no use. */
  function AtLeastZero(x: int): nat { if x < 0 then 0 else x }

  /** In every reachable state the committed uses of each manifest row carried 0, 1, ..., usedCount - 1, in order,
      and never more of them than maxUses, on local rows and promoted ones alike. */
  lemma UsesConserved(n: NodeEnv, calls: seq<Call>, ref: M.Ref)
    ensures var db := Reached(n, calls).mft;
      ref in db.rows ==>
      && M.UsesOf(db.uses, ref) == M.Counting(db.rows[ref].usedCount)
      && (db.rows[ref].body.maxUses.Some? ==> db.rows[ref].usedCount <= AtLeastZero(db.rows[ref].body.maxUses.value))
  {
    var s := Reached(n, calls);
    ReachedInv(n, calls);
    hide Reached, M.UsesOf, M.Counting, Sound, K.KInv, Coupled, NameOk, ScopeOk, CodecOk;
    if ref in s.mft.rows { assert M.ManifestOk(s.mft.rows[ref], M.UsesOf(s.mft.uses, ref)); }
  }

  /** In every reachable state a grant has been used exactly as often as allowed intents name it, at most maxUses
      times, and each of those intents asked for what the grant gives. */
  lemma GrantsConserved(n: NodeEnv, calls: seq<Call>, g: nat, l: nat)
    ensures var k := Reached(n, calls).kernel;
      && (g < |k.grants| ==> k.grants[g].usedCount == K.Uses(k.logs, g))
      && (g < |k.grants| && k.grants[g].maxUses.Some? ==> k.grants[g].usedCount <= k.grants[g].maxUses.value)
      && (l < |k.logs| && k.logs[l].grantRef == Some(g) ==> g < |k.grants| && K.Backs(k.grants[g], k.logs[l]))
  {
    var s := Reached(n, calls);
    ReachedInv(n, calls);
    hide Reached, K.Uses, M.MInv, Sound, Coupled, K.MayRun, K.Backs;
    if g < |s.kernel.grants| { assert K.GrantOk(s.kernel.grants[g], K.Uses(s.kernel.logs, g)); }
    if l < |s.kernel.logs| { assert K.RowOk(n.gate.sacred, s.kernel.grants, s.kernel.logs[l]); }
  }

  /** In every reachable state each token was consumed at most once, only from an allowed, accepted moga intent, one
      backed by a grant unless it only observes; and no allowed intent had a sacred target or an uncleared
      self-modify ring. */
  lemma TokensConserved(n: NodeEnv, calls: seq<Call>, i: nat, j: nat, l: nat)
    ensures var k := Reached(n, calls).kernel;
      && (i < j < |k.redeemed| ==> k.redeemed[i] != k.redeemed[j])
      && (l < |k.logs| && (l in k.redeemed || k.logs[l].consumedAt.Some?) ==> TokenOk(k.logs[l]))
      && (l < |k.logs| && k.logs[l].allowed ==> Permitted(n, k.logs[l]))
  {
    var s := Reached(n, calls);
    ReachedInv(n, calls);
    hide Reached, K.Uses, M.MInv, Sound, Coupled;
    if l < |s.kernel.logs| { assert K.RowOk(n.gate.sacred, s.kernel.grants, s.kernel.logs[l]); }
  }

  predicate TokenOk(row: K.LogRow) {
    && row.consumedAt.Some? && row.allowed && row.verdict == K.Accepted && row.claim == K.Moga
    && (row.intent.ring != K.Observe ==> row.grantRef.Some?) && !row.intent.clearSalama && !row.intent.triggerSalama
  }

  predicate Permitted(n: NodeEnv, row: K.LogRow) {
    && !n.gate.sacred(row.intent.action, row.intent.resource)
    && (row.intent.ring == K.SelfModify ==> row.intent.humanClearance)
  }

  /** In every reachable state each memory row has a receipt of its own, written by its write, and two memory rows
      never share a manifest use, a token or the receipt they wrote. */
  lemma MemoryConserved(n: NodeEnv, calls: seq<Call>, i: nat, j: nat)
    ensures var s := Reached(n, calls);
      && |s.memory| == |s.trail|
      && (i < |s.memory| ==> RowCoupled(s, i) && s.trail[i].logId in s.kernel.redeemed)
      && (i < j < |s.memory| ==>
           s.trail[i].use != s.trail[j].use && s.trail[i].logId != s.trail[j].logId && s.trail[i].receipt != s.trail[j].receipt)
  {
    var s := Reached(n, calls);
    ReachedInv(n, calls);
    hide Reached, M.MInv, Sound, ChainKey, Namespace, Newest;
    if i < |s.memory| { assert RowCoupled(s, i); }
    if i < j < |s.memory| { assert TrailBefore(s.trail[i], s.trail[j]); }
  }

  /** No receipt of the chain has a later clock reading than now. */
  predicate NoneLater(receipts: seq<Receipt>, ck: string, now: int) {
    forall r | r in receipts && r.chainKey == ck :: r.ts <= now
  }

  lemma {:induction false} NewestIsGreatest(receipts: seq<Receipt>, ck: string)
    ensures var at := Newest(receipts, ck);
      forall r | r in receipts && r.chainKey == ck :: at.Some? && r.ts <= receipts[at.value].ts
    decreases |receipts|
  {
    if receipts != [] {
      var n := |receipts| - 1;
      NewestIsGreatest(receipts[..n], ck);
      assert receipts == receipts[..n] + [receipts[n]];
    }
  }

  /** A receipt just written is the one read back exactly when none of its chain has a later clock reading. */
  lemma ReadsBackExactly(receipts: seq<Receipt>, r: Receipt)
    ensures Newest(receipts + [r], r.chainKey) == Some(|receipts|) <==> NoneLater(receipts, r.chainKey, r.ts)
  {
    var all, front := receipts + [r], Newest(receipts, r.chainKey);
    assert all[..|receipts|] == receipts;
    NewestIsGreatest(receipts, r.chainKey);
    assert Newest(all, r.chainKey)
        == if front.None? || receipts[front.value].ts <= r.ts then Some(|receipts|) else front;
    hide Newest;
    if front.Some? { assert receipts[front.value] in receipts; }
  }

  /** A memory row carries the hash of its own receipt exactly when, at its write, no receipt of that chain had a later
      clock reading. Otherwise it carries another receipt's. */
  lemma OwnReceiptExactly(n: NodeEnv, calls: seq<Call>, i: nat)
    requires i < |Reached(n, calls).memory|
    ensures var s := Reached(n, calls);
      && |s.memory| == |s.trail|
      && var m, t := s.memory[i], s.trail[i];
      && t.receipt < |s.receipts|
      && (m.receipt == t.receipt <==> NoneLater(s.receipts[..t.receipt], ChainKey(m.owner, m.key), s.receipts[t.receipt].ts))
  {
    var s := Reached(n, calls);
    MemoryConserved(n, calls, i, i);
    hide Reached, ChainKey, Namespace, NoneLater, Newest;
    var t := s.trail[i].receipt;
    assert s.receipts[..t + 1] == s.receipts[..t] + [s.receipts[t]];
    ReadsBackExactly(s.receipts[..t], s.receipts[t]);
  }

  /** The value is not part of what the subject signed: whatever commits with one value commits with any other. */
  lemma WriteIgnoresValue(n: NodeEnv, s: State, r: M.Request, sig: string, value: string, other: string, ctx: K.Ctx)
    ensures MemoryWrite(n, s, r, sig, value, ctx).Some? <==> MemoryWrite(n, s, r, sig, other, ctx).Some?
  {
    WriteExactly(n, s, r, sig, value, ctx);
    WriteExactly(n, s, r, sig, other, ctx);
    hide MemoryWrite, M.Consume, WriteOpen, K.FindGrant, K.Candidates, WriteShape, Namespace;
  }

  /** A signed write request that committed once never commits again on the same manifest row, in any later state. On
      another row it can: see AuthorityReplays. */
  lemma WriteNeverReplays(n: NodeEnv, calls: seq<Call>, later: seq<Call>, r: M.Request, sig: string, value: string, ctx: K.Ctx,
                          sig2: string, value2: string, ctx2: K.Ctx)
    requires MemoryWrite(n, Reached(n, calls), r, sig, value, ctx).Some?
    ensures var s := Reached(n, calls);
      var t := MemoryWrite(n, s, r, sig, value, ctx).value;
      var u := Run(n, t, later);
      var c1 := M.Consume(n.mft, s.keys, s.mft, s.kernel.buckets, r, sig, true, ctx.now);
      var c2 := M.Consume(n.mft, u.keys, u.mft, u.kernel.buckets, r, sig2, true, ctx2.now);
      && c1.Yes? && (c2.Yes? ==> c2.value.ref != c1.value.ref)
      && (c2.No? ==> MemoryWrite(n, u, r, sig2, value2, ctx2).None?)
  {
    var s := Reached(n, calls);
    var t := MemoryWrite(n, s, r, sig, value, ctx).value;
    var u := Run(n, t, later);
    ReachedInv(n, calls);
    WriteParts(n, s, r, sig, value, ctx);
    WriteKeeps(n, s, r, sig, value, ctx);
    RunKeeps(n, t, later);
    WriteExactly(n, u, r, sig2, value2, ctx2);
    hide MemoryWrite, M.Consume, Reached, Run, Authorize, K.FindGrant, Sound, Evolves, M.MInv, M.MEvolves, K.KInv, K.KEvolves, Coupled;
    M.NoReplay(n.mft, s.keys, s.mft, s.kernel.buckets, r, sig, true, ctx.now,
               u.keys, u.mft, u.kernel.buckets, sig2, true, ctx2.now);
  }

  /** Once a local root key is revoked, no later state lets a manifest signed under it resolve, whether minted here or
      promoted; and a paused or revoked manifest row is never live again. */
  lemma RevocationIsFinal(n: NodeEnv, early: seq<Call>, later: seq<Call>, i: nat, ref: M.Ref, id: string,
                          want: M.Permission, codec: string, now: int)
    ensures var a := Reached(n, early);
      var b := Run(n, a, later);
      && (i < |a.keys| && a.keys[i].status == Revoked ==>
            var r := M.Resolve(n.mft, b.keys, b.mft, id, want, codec, now);
            r.Yes? ==> !SignedUnder(b.mft.rows[r.value].body, a.keys[i]))
      && (ref in a.mft.rows ==> ref in b.mft.rows && b.mft.rows[ref].body == a.mft.rows[ref].body)
      && (ref in a.mft.rows && a.mft.rows[ref].status != M.Live ==> b.mft.rows[ref].status != M.Live)
  {
    var a := Reached(n, early);
    var b := Run(n, a, later);
    ReachedInv(n, early);
    RunKeeps(n, a, later);
    hide *;
    KeyStaysRevoked(n, a, b, i, id, want, codec, now);
    StatusWears(a, b, ref);
  }

  lemma KeyStaysRevoked(n: NodeEnv, a: State, b: State, i: nat, id: string, want: M.Permission, codec: string, now: int)
    requires Inv(n, b) && Wears(a, b)
    ensures i < |a.keys| && a.keys[i].status == Revoked ==>
      var r := M.Resolve(n.mft, b.keys, b.mft, id, want, codec, now);
      r.Yes? ==> !SignedUnder(b.mft.rows[r.value].body, a.keys[i])
  {
    hide M.Resolve, M.MInv, K.KInv, K.KEvolves, Coupled;
    if i < |a.keys| && a.keys[i].status == Revoked {
      M.RevokedKeyNeverResolves(n.crypto, n.mft, a.keys, b.keys, b.mft, i, id, want, codec, now);
    }
  }

  lemma StatusWears(a: State, b: State, ref: M.Ref)
    requires Wears(a, b)
    ensures ref in a.mft.rows ==>
      && ref in b.mft.rows && b.mft.rows[ref].body == a.mft.rows[ref].body
      && (a.mft.rows[ref].status != M.Live ==> b.mft.rows[ref].status != M.Live)
  {
    hide Evolves, K.KEvolves;
    if ref in a.mft.rows { assert M.ManifestAges(a.mft.rows[ref], b.mft.rows[ref]); }
  }

  predicate SignedUnder(b: M.Body, k: KeyRow) { b.rootId == k.rootId && b.rootKeyId == k.keyId }

  /** While the kill switch or the operator's hold is on, no intent is logged, no token redeemed, no memory written. */
  lemma HaltIsTotal(n: NodeEnv, s: State, call: Call)
    requires K.Halts(s.kernel)
    requires call.op.Write? || (call.op.OnKernel? && (call.op.kernelOp.Submit? || call.op.kernelOp.Redeem?))
    ensures Step(n, s, call) == s
  {
    if call.op.Write? {
      WriteExactly(n, s, call.op.request, call.op.sig, call.op.value, call.ctx);
      hide MemoryWrite, M.Consume, K.FindGrant, K.Candidates;
    }
  }
}
