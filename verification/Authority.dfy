/** convex/aumlokMemory.ts over the registry, the manifests and the engine: the memory write as one transaction. */
module Authority {
  import opened Names
  import opened RootRegistry
  import M = Manifests
  import K = Kernel

  /** The node's cryptography and gates, and the key a write gives its one-shot grant. */
  datatype NodeEnv = NodeEnv(crypto: Crypto, mft: M.Env, gate: K.Gate, grantKey: (string, nat) -> string)

  /** A receipt with its clock reading; hashed is the text whose hash it carries. */
  datatype Receipt = Receipt(chainKey: string, ts: int, manifestId: string, rootId: string, subjectId: string, useSeq: nat, hashed: string)

  /** receipt is the receipt whose hash the row carries, by position. */
  datatype MemoryRow = MemoryRow(owner: string, writer: string, manifestId: string, key: string, value: string, receipt: nat)

  /** Which committed manifest use and which log row a memory write spent, and which receipt it wrote, by position. */
  datatype Trail = Trail(use: nat, logId: nat, receipt: nat)

  /** trail is model-only, one entry for each memory row. */
  datatype State = State(keys: Keys, mft: M.Db, kernel: K.KState, receipts: seq<Receipt>, memory: seq<MemoryRow>, trail: seq<Trail>)

  /** What the by_chainKey_ts index gives last: the receipt of the chain with the greatest clock reading, the latest
      inserted of several. */
  function Newest(receipts: seq<Receipt>, ck: string): (r: Option<nat>)
    ensures r.Some? ==> r.value < |receipts| && receipts[r.value].chainKey == ck
    ensures receipts != [] && receipts[|receipts| - 1].chainKey == ck ==> r.Some?
  {
    if receipts == [] then None
    else
      var n := |receipts| - 1;
      var front := Newest(receipts[..n], ck);
      if receipts[n].chainKey == ck && (front.None? || receipts[front.value].ts <= receipts[n].ts) then Some(n) else front
  }

  const WRITE := "memory.write"
  const WRITE_GRANT_TTL := 60_000

  function Namespace(owner: string): string { "mem:" + owner }

  function ChainKey(owner: string, key: string): string { Namespace(owner) + ":" + key }

  /** The chain keys writeReceiptRow refuses. */
  predicate ReservedChain(ck: string) {
    (|ck| >= 4 && ck[|ck| - 4..] == ":rev") || (|ck| >= 3 && ck[..3] == "id:") || (|ck| >= 4 && ck[..4] == "mft:")
  }

  function WriteGrant(n: NodeEnv, b: M.Body, useSeq: nat, now: int): K.Grant {
    K.Grant(n.grantKey(b.manifestId, useSeq), b.subjectId, K.LocalWrite, WRITE, Namespace(b.rootId), now + WRITE_GRANT_TTL,
            Some(1), 0, K.GActive)
  }

  function WriteArgs(b: M.Body, key: string): K.Args {
    K.Args(b.subjectId, K.LocalWrite, K.Moga, WRITE, Namespace(b.rootId), true, Some(ChainKey(b.rootId, key)), false, false, false, None)
  }

  function WriteToken(b: M.Body, logId: nat, sig: string): K.Presented {
    K.Presented(logId, sig, WRITE, Namespace(b.rootId), K.LocalWrite, b.subjectId, None)
  }

  /** The request is a memory write at all. */
  predicate WriteShape(r: M.Request) { r.action == WRITE && r.ring == K.LocalWrite && r.key.Some? && NameOk(r.key.value) }

  /** The engine once the use is paid for and the one-shot grant inserted. */
  function Granted(n: NodeEnv, k: K.KState, b: M.Body, useSeq: nat, buckets: M.Buckets, now: int): K.KState {
    k.(buckets := buckets, grants := k.grants + [WriteGrant(n, b, useSeq, now)])
  }

  /** submit, then redeem the token; None where either fails. */
  function Authorize(n: NodeEnv, k: K.KState, b: M.Body, key: string, ctx: K.Ctx): Option<K.KState> {
    var (k2, out) := K.Submit(n.gate, k, WriteArgs(b, key), ctx);
    if !out.Logged? || out.token.None? then None
    else K.Redeem(n.gate, k2, WriteToken(b, out.logId, out.token.value), ctx)
  }

  /** aumlokMemoryWrite; None where it throws, and then nothing has changed. */
  function MemoryWrite(n: NodeEnv, s: State, r: M.Request, sig: string, value: string, ctx: K.Ctx): Option<State> {
    if !WriteShape(r) then None
    else
      match M.Consume(n.mft, s.keys, s.mft, s.kernel.buckets, r, sig, true, ctx.now)
      case No(_) => None
      case Yes(spent) =>
        var b := s.mft.rows[spent.ref].body;
        if r.resource != Namespace(b.rootId) then None
        else
          var k := Granted(n, s.kernel, b, s.mft.rows[spent.ref].usedCount, spent.buckets, ctx.now);
          match Authorize(n, k, b, r.key.value, ctx)
          case None => None
          case Some(k2) =>
            if ReservedChain(ChainKey(b.rootId, r.key.value)) then None
            else Some(Effect(s, spent, b, k2, r.key.value, value, ctx.now))
  }

  /** The receipt, and the memory row with the receipt read back from its chain. */
  function Effect(s: State, spent: M.Spent, b: M.Body, k: K.KState, key: string, value: string, now: int): State
    requires spent.ref in s.mft.rows
  {
    var ck, useSeq := ChainKey(b.rootId, key), s.mft.rows[spent.ref].usedCount;
    var receipts := s.receipts + [Receipt(ck, now, b.manifestId, b.rootId, b.subjectId, useSeq, b.rootId + ":" + key + ":" + value)];
    State(s.keys, spent.db, k, receipts,
          s.memory + [MemoryRow(b.rootId, b.subjectId, b.manifestId, key, value, Newest(receipts, ck).value)],
          s.trail + [Trail(|s.mft.uses|, |s.kernel.logs|, |s.receipts|)])
  }

  /** writeReceiptRow for another protected action: the intent named must have consumed its token. */
  function NoteReceipt(s: State, r: Receipt, logId: nat, now: int): State {
    if ReservedChain(r.chainKey) || logId >= |s.kernel.logs| || s.kernel.logs[logId].consumedAt.None? then s
    else s.(receipts := s.receipts + [r.(ts := now)])
  }

  /** The one thing an import does to this table: it begins a chain, with whatever clock reading its origin gave. */
  function BringReceipt(s: State, r: Receipt): State {
    if exists x | x in s.receipts :: x.chainKey == r.chainKey then s else s.(receipts := s.receipts + [r])
  }

  class Node {
    const n: NodeEnv
    const registry: Registry
    const manifold: M.Manifold
    const engine: K.Engine
    var receipts: seq<Receipt>
    var memory: seq<MemoryRow>
    ghost var trail: seq<Trail>

    ghost predicate Valid()
      reads this
    {
      registry.c == n.crypto && manifold.env == n.mft && engine.e == n.gate
    }

    ghost function View(): State
      reads this, registry, manifold, engine
    {
      State(registry.keys, manifold.Table(), engine.View(), receipts, memory, trail)
    }

    constructor (n: NodeEnv)
      ensures Valid() && fresh(registry) && fresh(manifold) && fresh(engine) && View() == Empty()
    {
      this.n := n;
      registry := new Registry(n.crypto);
      manifold := new M.Manifold(n.mft);
      engine := new K.Engine(n.gate);
      receipts, memory, trail := [], [], [];
    }

    /** aumlokMemoryWrite: a failed attempt is rolled back. */
    method Write(r: M.Request, sig: string, value: string, ctx: K.Ctx) returns (ok: bool)
      requires Valid()
      modifies this, manifold, engine
      ensures Valid()
      ensures var w := MemoryWrite(n, old(View()), r, sig, value, ctx);
        ok == w.Some? && View() == if ok then w.value else old(View())
    {
      var rows, pins, views := manifold.rows, manifold.pins, manifold.views;
      var grants, logs, held, killSwitch, buckets := engine.grants, engine.logs, engine.held, engine.killSwitch, engine.buckets;
      ghost var uses, redeemed := manifold.uses, engine.redeemed;
      hide MemoryWrite;
      ok := Attempt(r, sig, value, ctx);
      if !ok {
        manifold.rows, manifold.pins, manifold.views, manifold.uses := rows, pins, views, uses;
        engine.grants, engine.logs, engine.held, engine.killSwitch, engine.buckets := grants, logs, held, killSwitch, buckets;
        engine.redeemed := redeemed;
      }
    }

    /** The steps in order, left where they fail. */
    method Attempt(r: M.Request, sig: string, value: string, ctx: K.Ctx) returns (ok: bool)
      requires Valid()
      modifies this, manifold, engine
      ensures Valid()
      ensures var w := MemoryWrite(n, old(View()), r, sig, value, ctx);
        ok == w.Some? && (ok ==> View() == w.value) && (!ok ==> (receipts, memory, trail) == old((receipts, memory, trail)))
    {
      hide M.Consume, Authorize, WriteGrant, ReservedChain, Namespace, ChainKey;
      if !WriteShape(r) { return false; }
      hide WriteShape;
      var key := r.key.value;
      var rows := manifold.rows;
      ghost var trace := Trail(|manifold.uses|, |engine.logs|, |receipts|);
      var use := manifold.ConsumeUse(engine, registry.keys, r, sig, true, ctx.now);
      if use.No? { return false; }
      var m := rows[use.value];
      var b := m.body;
      if r.resource != Namespace(b.rootId) { return false; }
      engine.InsertGrant(WriteGrant(n, b, m.usedCount, ctx.now));
      var authorized := SubmitAndRedeem(b, key, ctx);
      if !authorized || ReservedChain(ChainKey(b.rootId, key)) { return false; }
      var ck := ChainKey(b.rootId, key);
      receipts := receipts + [Receipt(ck, ctx.now, b.manifestId, b.rootId, b.subjectId, m.usedCount, b.rootId + ":" + key + ":" + value)];
      var readBack := Newest(receipts, ck);
      memory := memory + [MemoryRow(b.rootId, b.subjectId, b.manifestId, key, value, readBack.value)];
      trail := trail + [trace];
      return true;
    }

    method Note(r: Receipt, logId: nat, now: int)
      modifies this`receipts
      ensures View() == NoteReceipt(old(View()), r, logId, now)
    {
      if !ReservedChain(r.chainKey) && logId < |engine.logs| && engine.logs[logId].consumedAt.Some? {
        receipts := receipts + [r.(ts := now)];
      }
    }

    method Bring(r: Receipt)
      modifies this`receipts
      ensures View() == BringReceipt(old(View()), r)
    {
      if forall x | x in receipts :: x.chainKey != r.chainKey { receipts := receipts + [r]; }
    }

    method SubmitAndRedeem(b: M.Body, key: string, ctx: K.Ctx) returns (ok: bool)
      requires Valid()
      modifies engine
      ensures var a := Authorize(n, old(engine.View()), b, key, ctx);
        ok == a.Some? && (ok ==> engine.View() == a.value)
    {
      var out := engine.SubmitIntent(WriteArgs(b, key), ctx);
      if !out.Logged? || out.token.None? { return false; }
      ok := engine.VerifyAndConsume(WriteToken(b, out.logId, out.token.value), ctx);
    }
  }

  /** Empty tables. */
  function Empty(): State {
    State([], M.Db(map[], map[], map[], []), K.KState([], [], map[], false, map[], []), [], [], [])
  }
}
