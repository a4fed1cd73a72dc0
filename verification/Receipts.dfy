/** convex/aukoraReceipts.ts, convex/nodeB.ts, convex/aukoraSignedHead.ts and the row walk of
    convex/aukoraCore.ts: receipt chains, their heads, and the verifiers over them. */
module Receipts {
  import opened Hashing
  import MerkleLog

  datatype Option<+T> = None | Some(value: T)

  /** The hashed content of a receipt; `body` stands for the fields the chain never looks at. */
  datatype Payload = Payload(chainKey: string, receiptId: string, ts: int, body: string)

  datatype Row = Row(payload: Payload, prevHash: Option<Bytes>, chainHash: Bytes, seqNo: int)

  datatype Signature = Signature(signedAt: int, root: Bytes, sig: Bytes)

  datatype HeadRow = HeadRow(lastChainHash: Bytes, count: int, signature: Option<Signature>)

  datatype HighWater = HighWater(maxCount: int, headHash: Bytes)

  datatype HeadFields = HeadFields(chainKey: string, timestamp: int, chainLength: int, headHash: Bytes, root: Bytes)

  /** The fields of a parsed proof; a field is None when it is not a string. */
  datatype Meta = Meta(sourceNodeId: Option<string>, delegationId: Option<string>, revocationPointer: Option<string>)

  datatype RevocationPayload = RevocationPayload(sourceNodeId: string, delegationId: string, revokedAt: int)

  datatype RevocationHead = RevocationHead(chainKey: string, timestamp: int, chainLength: int, headHash: Bytes)

  /** link and linkRevocation hash the canonical JSON of a payload and its predecessor's hash; meta parses the proof in a
      receipt's body, None where that fails. */
  datatype World = World(
    h: Hash,
    link: (Payload, Option<Bytes>) -> Bytes,
    linkRevocation: RevocationPayload -> Bytes,
    meta: string -> Option<Meta>,
    keyShape: Bytes -> bool,
    verifyRevocation: (Bytes, RevocationHead, Bytes) -> bool,
    ownKey: Bytes,
    sign: HeadFields -> Bytes,
    verify: (Bytes, HeadFields, Bytes) -> bool)

  /** What signing promises. */
  ghost predicate SigningWorks(w: World) {
    forall f: HeadFields :: w.verify(w.ownKey, f, w.sign(f))
  }

  datatype ImportRow = ImportRow(sourceNodeId: string, chainKey: string, envelopeId: string, receiptHash: Bytes)

  /** What is known of other nodes: their pinned keys, the delegations they revoked, and what was imported from them. */
  datatype Peers = Peers(trust: map<(string, string), Bytes>, revoked: set<(string, string)>, imports: seq<ImportRow>)

  datatype State = State(rows: seq<Row>, heads: map<string, HeadRow>, highWater: map<string, HighWater>, peers: Peers)

  function Empty(): State { State([], map[], map[], Peers(map[], {}, [])) }

  // ---- reading a chain out of the table ----

  /** The rows of one chain, in insertion order. */
  function OfChain(rows: seq<Row>, key: string): seq<Row> {
    if rows == [] then []
    else
      var init, last := rows[..|rows| - 1], rows[|rows| - 1];
      OfChain(init, key) + (if last.payload.chainKey == key then [last] else [])
  }

  function Insert(r: Row, rows: seq<Row>, rank: Row -> int): seq<Row> {
    if rows == [] || rank(r) >= rank(rows[|rows| - 1]) then rows + [r]
    else Insert(r, rows[..|rows| - 1], rank) + [rows[|rows| - 1]]
  }

  /** A stable sort, as the index scan (by ts) and Array.prototype.sort (by seq) perform it. */
  function Sort(rows: seq<Row>, rank: Row -> int): seq<Row> {
    if rows == [] then [] else Insert(rows[|rows| - 1], Sort(rows[..|rows| - 1], rank), rank)
  }

  function Ts(): Row -> int { (r: Row) => r.payload.ts }

  function SeqNo(): Row -> int { (r: Row) => r.seqNo }

  /** What a scan of the by_chainKey_ts index returns, oldest first. */
  function Scan(rows: seq<Row>, key: string): seq<Row> { Sort(OfChain(rows, key), Ts()) }

  function ChainHashes(rows: seq<Row>): (hs: seq<Bytes>)
    ensures |hs| == |rows| && forall i | 0 <= i < |hs| :: hs[i] == rows[i].chainHash
  {
    seq(|rows|, i requires 0 <= i < |rows| => rows[i].chainHash)
  }

  datatype Log = Log(root: Bytes, size: nat)

  /** computeReceiptLogRoot: scan in clock order, then reorder by sequence number. */
  function ReceiptLog(w: World, rows: seq<Row>, key: string): Log {
    var sorted := Sort(Scan(rows, key), SeqNo());
    Log(MerkleLog.MerkleRoot(w.h, ChainHashes(sorted)), |sorted|)
  }

  // ---- writing ----

  function Prev(heads: map<string, HeadRow>, key: string): Option<Bytes> {
    if key in heads then Some(heads[key].lastChainHash) else None
  }

  function NextCount(heads: map<string, HeadRow>, key: string): int {
    (if key in heads then heads[key].count else 0) + 1
  }

  function NextRow(w: World, st: State, p: Payload): Row {
    var prev := Prev(st.heads, p.chainKey);
    Row(p, prev, w.link(p, prev), NextCount(st.heads, p.chainKey))
  }

  datatype Outcome = Done(state: State) | SizeMismatch

  /** appendReceiptAndSignHead. The exception of the source leaves the tables as they were. */
  function Append(w: World, st: State, p: Payload, signing: bool): Outcome {
    var key, row := p.chainKey, NextRow(w, st, p);
    var rows := st.rows + [row];
    if !signing then
      Done(st.(rows := rows, heads := st.heads[key := HeadRow(row.chainHash, row.seqNo, None)]))
    else
      var log := ReceiptLog(w, rows, key);
      if log.size != row.seqNo then SizeMismatch
      else
        var sig := w.sign(HeadFields(key, p.ts, row.seqNo, row.chainHash, log.root));
        Done(st.(rows := rows, heads := st.heads[key := HeadRow(row.chainHash, row.seqNo, Some(Signature(p.ts, log.root, sig)))]))
  }

  // ---- importing ----

  /** An export envelope of one receipt. */
  datatype Import = Import(sourceNodeId: string, headKeyId: string, delegationId: string, envelopeId: string, row: Row, head: HeadRow)

  /** The proof speaks of this source and delegation, and the envelope of this receipt. */
  predicate MetaMatches(i: Import, m: Meta) {
    && m.sourceNodeId == Some(i.sourceNodeId) && m.delegationId == Some(i.delegationId)
    && m.revocationPointer == Some("rev:" + i.sourceNodeId + ":" + i.delegationId)
    && "env_" + i.row.payload.receiptId == i.envelopeId
  }

  predicate Imported(imports: seq<ImportRow>, i: Import) {
    exists r | r in imports ::
      r.sourceNodeId == i.sourceNodeId && (r.envelopeId == i.envelopeId || r.receiptHash == i.row.chainHash)
  }

  predicate ImportAccepted(w: World, st: State, i: Import) {
    (i.sourceNodeId, i.headKeyId) in st.peers.trust && i.head.signature.Some?
    && var key, s := i.row.payload.chainKey, i.head.signature.value;
    w.verify(st.peers.trust[(i.sourceNodeId, i.headKeyId)],
             HeadFields(key, s.signedAt, i.head.count, i.head.lastChainHash, s.root), s.sig)
    && i.head.count == 1 && i.row.prevHash == None && i.head.lastChainHash == i.row.chainHash
    && w.link(i.row.payload, None) == i.row.chainHash
    && MerkleLog.MerkleRoot(w.h, [i.row.chainHash]) == s.root
    && w.meta(i.row.payload.body).Some? && MetaMatches(i, w.meta(i.row.payload.body).value)
    && (i.sourceNodeId, i.delegationId) !in st.peers.revoked && !Imported(st.peers.imports, i)
    && key !in st.heads && OfChain(st.rows, key) == []
  }

  function ImportRowOf(i: Import): ImportRow {
    ImportRow(i.sourceNodeId, i.row.payload.chainKey, i.envelopeId, i.row.chainHash)
  }

  function DoImport(w: World, st: State, i: Import): State {
    if ImportAccepted(w, st, i) then
      st.(rows := st.rows + [i.row.(seqNo := 1)], heads := st.heads[i.row.payload.chainKey := i.head],
          peers := st.peers.(imports := st.peers.imports + [ImportRowOf(i)]))
    else st
  }

  datatype Revocation = Revocation(sourceNodeId: string, headKeyId: string, chainKey: string, signedAt: int, count: int,
                                   headHash: Bytes, sig: Bytes, payload: RevocationPayload)

  /** importRevocation. */
  function DoRevoke(w: World, p: Peers, r: Revocation): Peers {
    var id := (r.sourceNodeId, r.headKeyId);
    if id !in p.trust then p
    else if !w.verifyRevocation(p.trust[id], RevocationHead(r.chainKey + ":rev", r.signedAt, r.count, r.headHash), r.sig) then p
    else if r.count != 1 || w.linkRevocation(r.payload) != r.headHash || r.payload.sourceNodeId != r.sourceNodeId then p
    else p.(revoked := p.revoked + {(r.payload.sourceNodeId, r.payload.delegationId)})
  }

  /** pinTrustCore without the root binding: a pinned key is never replaced. */
  function DoPin(w: World, p: Peers, source: string, kid: string, publicKey: Bytes): Peers {
    if (source, kid) in p.trust || !w.keyShape(publicKey) then p else p.(trust := p.trust[(source, kid) := publicKey])
  }

  // ---- verifying ----

  /** verifyReceiptChainRows: the first row whose hash is not the hash of its payload and its predecessor. */
  function FirstBreak(w: World, rows: seq<Row>, prev: Option<Bytes>): Option<nat> {
    if rows == [] then None
    else
      var expected := w.link(rows[0].payload, prev);
      if rows[0].chainHash != expected then Some(0)
      else
        var rest := FirstBreak(w, rows[1..], Some(expected));
        if rest.None? then None else Some(rest.value + 1)
  }

  method VerifyRows(w: World, rows: seq<Row>, startPrev: Option<Bytes>) returns (b: Option<nat>)
    ensures b == FirstBreak(w, rows, startPrev)
  {
    var prev := startPrev;
    for i := 0 to |rows|
      invariant FirstBreak(w, rows, startPrev) ==
        (var rest := FirstBreak(w, rows[i..], prev); if rest.None? then None else Some(rest.value + i))
    {
      var expected := w.link(rows[i].payload, prev);
      assert rows[i..][1..] == rows[i + 1..];
      if rows[i].chainHash != expected { return Some(i); }
      prev := Some(expected);
    }
    return None;
  }

  datatype HighWaterStatus = Fine | Rollback | Fork

  function EvaluateHighWater(hwm: Option<HighWater>, count: int, headHash: Bytes): HighWaterStatus {
    if hwm.None? then Fine
    else if count > hwm.value.maxCount then Fine
    else if count == hwm.value.maxCount then if headHash == hwm.value.headHash then Fine else Fork
    else Rollback
  }

  function HeadSignatureOk(w: World, head: HeadRow, key: string): bool {
    head.signature.Some?
    && var s := head.signature.value;
    w.verify(w.ownKey, HeadFields(key, s.signedAt, head.count, head.lastChainHash, s.root), s.sig)
  }

  datatype Status = Verified | Broken | MissingHead | Truncated | BadSignature | BadRoot | RolledBack | Forked

  /** The checks on the head that both verifiers make; `last` is the hash the walk ended on, `some`
      whether the walk (for the paged verifier: its final page) saw a row. */
  function HeadStatus(w: World, st: State, key: string, signing: bool, last: Option<Bytes>, some: bool): Status {
    var present := key in st.heads;
    var head := if present then st.heads[key] else HeadRow([], 0, None);
    if !present && some then MissingHead
    else if present && last != Some(head.lastChainHash) then Truncated
    else if signing && (if present then !HeadSignatureOk(w, head, key) else some) then BadSignature
    else if signing && present
         && (var log := ReceiptLog(w, st.rows, key);
             log.root != head.signature.value.root || log.size != head.count) then BadRoot
    else
      var mark := if key in st.highWater then Some(st.highWater[key]) else None;
      match EvaluateHighWater(mark, head.count, head.lastChainHash)
      case Rollback => RolledBack
      case Fork => Forked
      case Fine => Verified
  }

  /** The newest `limit` rows in clock order. */
  function Window(rows: seq<Row>, key: string, limit: nat): seq<Row> {
    var all := Scan(rows, key);
    if |all| <= limit then all else all[|all| - limit..]
  }

  /** verifyReceiptChainCore. The tables of the source carry an explicit break index; a break outranks no
      other failure, so it is reported only when everything else holds. */
  function VerifyCore(w: World, st: State, key: string, limit: nat, signing: bool): Status {
    var rows := Window(st.rows, key, limit);
    var start := if rows == [] then None else rows[0].prevHash;
    var last := if rows == [] then None else Some(rows[|rows| - 1].chainHash);
    var s := HeadStatus(w, st, key, signing, last, rows != []);
    if s == Verified && FirstBreak(w, rows, start).Some? then Broken else s
  }

  /** verifyAndRecordReceiptHead: raise the mark on a verified head, never lower it. */
  function Record(w: World, st: State, key: string, limit: nat, signing: bool): State {
    if VerifyCore(w, st, key, limit, signing) == Verified && key in st.heads
       && (key !in st.highWater || st.heads[key].count > st.highWater[key].maxCount) then
      st.(highWater := st.highWater[key := HighWater(st.heads[key].count, st.heads[key].lastChainHash)])
    else st
  }

  // ---- verifyReceiptChainPage ----

  /** The hash a walk over rows ends on, given the hash it started from. */
  function Tail(rows: seq<Row>, prev: Option<Bytes>): Option<Bytes> {
    if rows == [] then prev else Some(rows[|rows| - 1].chainHash)
  }

  /** One caller walking the pages in order, carrying the tail hash; it stops at the first broken page. */
  function WalkPages(w: World, st: State, key: string, signing: bool, pages: seq<seq<Row>>, carry: Option<Bytes>): Status
    requires pages != []
    decreases |pages|
  {
    var page := pages[0];
    if FirstBreak(w, page, carry).Some? then Broken
    else if |pages| == 1 then HeadStatus(w, st, key, signing, Tail(page, carry), page != [])
    else WalkPages(w, st, key, signing, pages[1..], Tail(page, carry))
  }

  function Concat(pages: seq<seq<Row>>): seq<Row> {
    if pages == [] then [] else pages[0] + Concat(pages[1..])
  }

  // ---- the tables, updated in place ----

  class Store {
    const world: World
    var rows: seq<Row>
    var heads: map<string, HeadRow>
    var highWater: map<string, HighWater>
    var peers: Peers

    constructor (w: World)
      ensures world == w && Snapshot() == Empty()
    {
      world := w;
      rows, heads, highWater, peers := [], map[], map[], Peers(map[], {}, []);
    }

    function Snapshot(): State
      reads this
    {
      State(rows, heads, highWater, peers)
    }

    /** Appends the row, then signs the head; a size mismatch rolls the insertion back. */
    method AppendReceiptAndSignHead(p: Payload, signing: bool) returns (ok: bool)
      modifies this`rows, this`heads
      ensures var o := Append(world, old(Snapshot()), p, signing);
        ok == o.Done? && Snapshot() == if o.Done? then o.state else old(Snapshot())
    {
      var key, before := p.chainKey, rows;
      var prevHash := if key in heads then Some(heads[key].lastChainHash) else None;
      var newCount := (if key in heads then heads[key].count else 0) + 1;
      var chainHash := world.link(p, prevHash);
      rows := rows + [Row(p, prevHash, chainHash, newCount)];
      var signature: Option<Signature> := None;
      if signing {
        var log := ReceiptLog(world, rows, key);
        if log.size != newCount {
          rows := before;
          return false;
        }
        signature := Some(Signature(p.ts, log.root, world.sign(HeadFields(key, p.ts, newCount, chainHash, log.root))));
      }
      heads := heads[key := HeadRow(chainHash, newCount, signature)];
      return true;
    }

    /** Every check in order, then the three insertions. */
    method ImportEnvelope(i: Import) returns (ok: bool)
      modifies this`rows, this`heads, this`peers
      ensures ok == ImportAccepted(world, old(Snapshot()), i)
      ensures Snapshot() == DoImport(world, old(Snapshot()), i)
    {
      var id, key := (i.sourceNodeId, i.headKeyId), i.row.payload.chainKey;
      if id !in peers.trust || i.head.signature.None? { return false; }
      var s := i.head.signature.value;
      var fields := HeadFields(key, s.signedAt, i.head.count, i.head.lastChainHash, s.root);
      if !world.verify(peers.trust[id], fields, s.sig) { return false; }
      if i.head.count != 1 || i.row.prevHash.Some? || i.head.lastChainHash != i.row.chainHash { return false; }
      if world.link(i.row.payload, None) != i.row.chainHash { return false; }
      if MerkleLog.MerkleRoot(world.h, [i.row.chainHash]) != s.root { return false; }
      var meta := world.meta(i.row.payload.body);
      if meta.None? || !MetaMatches(i, meta.value) { return false; }
      if (i.sourceNodeId, i.delegationId) in peers.revoked { return false; }
      if Imported(peers.imports, i) { return false; }
      if key in heads || OfChain(rows, key) != [] { return false; }
      rows := rows + [i.row.(seqNo := 1)];
      heads := heads[key := i.head];
      peers := peers.(imports := peers.imports + [ImportRowOf(i)]);
      return true;
    }

    method ImportRevocation(r: Revocation)
      modifies this`peers
      ensures peers == DoRevoke(world, old(peers), r)
    {
      var id := (r.sourceNodeId, r.headKeyId);
      if id !in peers.trust { return; }
      var head := RevocationHead(r.chainKey + ":rev", r.signedAt, r.count, r.headHash);
      if !world.verifyRevocation(peers.trust[id], head, r.sig) || r.count != 1 { return; }
      if world.linkRevocation(r.payload) != r.headHash || r.payload.sourceNodeId != r.sourceNodeId { return; }
      peers := peers.(revoked := peers.revoked + {(r.payload.sourceNodeId, r.payload.delegationId)});
    }

    method VerifyAndRecord(key: string, limit: nat, signing: bool) returns (recorded: bool)
      modifies this`highWater
      ensures Snapshot() == Record(world, old(Snapshot()), key, limit, signing)
      ensures recorded ==> key in highWater && key in heads && highWater[key].maxCount == heads[key].count
      ensures !recorded ==> highWater == old(highWater)
    {
      var status := VerifyCore(world, Snapshot(), key, limit, signing);
      recorded := false;
      if status == Verified && key in heads {
        if key !in highWater || heads[key].count > highWater[key].maxCount {
          highWater := highWater[key := HighWater(heads[key].count, heads[key].lastChainHash)];
          recorded := true;
        }
      }
    }
  }
}
