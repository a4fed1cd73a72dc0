/** What every run of the receipt tables keeps, and what the verifiers' verdicts mean. */
module ReceiptTheorems {
  import opened Hashing
  import opened Receipts
  import MerkleLog

  // ---- sorting ----

  predicate Ascending(rows: seq<Row>, rank: Row -> int) {
    forall i, j | 0 <= i < j < |rows| :: rank(rows[i]) <= rank(rows[j])
  }

  lemma {:induction false} InsertBound(r: Row, rows: seq<Row>, rank: Row -> int, top: int)
    requires rank(r) <= top && forall i | 0 <= i < |rows| :: rank(rows[i]) <= top
    ensures forall i | 0 <= i < |Insert(r, rows, rank)| :: rank(Insert(r, rows, rank)[i]) <= top
    decreases |rows|
  {
    if rows != [] { InsertBound(r, rows[..|rows| - 1], rank, top); }
  }

  lemma {:induction false} InsertSorts(r: Row, rows: seq<Row>, rank: Row -> int)
    requires Ascending(rows, rank)
    ensures Ascending(Insert(r, rows, rank), rank)
    decreases |rows|
  {
    if !(rows == [] || rank(r) >= rank(rows[|rows| - 1])) {
      var init, last := rows[..|rows| - 1], rows[|rows| - 1];
      InsertSorts(r, init, rank);
      InsertBound(r, init, rank, rank(last));
    }
  }

  lemma {:induction false} InsertPermutes(r: Row, rows: seq<Row>, rank: Row -> int)
    ensures multiset(Insert(r, rows, rank)) == multiset(rows) + multiset{r}
    decreases |rows|
  {
    if rows != [] {
      assert rows == rows[..|rows| - 1] + [rows[|rows| - 1]];
      InsertPermutes(r, rows[..|rows| - 1], rank);
    }
  }

  lemma {:induction false} SortSorts(rows: seq<Row>, rank: Row -> int)
    ensures Ascending(Sort(rows, rank), rank)
    ensures multiset(Sort(rows, rank)) == multiset(rows) && |Sort(rows, rank)| == |rows|
    decreases |rows|
  {
    hide Insert;
    if rows != [] {
      var init, last := rows[..|rows| - 1], rows[|rows| - 1];
      assert rows == init + [last];
      SortSorts(init, rank);
      InsertSorts(last, Sort(init, rank), rank);
      InsertPermutes(last, Sort(init, rank), rank);
    }
    assert |multiset(Sort(rows, rank))| == |multiset(rows)|;
  }

  lemma {:induction false} SortOfAscending(rows: seq<Row>, rank: Row -> int)
    requires Ascending(rows, rank)
    ensures Sort(rows, rank) == rows
    decreases |rows|
  {
    if rows != [] {
      var init, last := rows[..|rows| - 1], rows[|rows| - 1];
      assert rows == init + [last];
      SortOfAscending(init, rank);
    }
  }

  lemma LastIsLast(a: seq<Row>, b: seq<Row>, n: nat)
    requires |a| == |b| == n + 1 && multiset(a) == multiset(b) && Ascending(b, SeqNo())
    requires forall i | 0 <= i < |a| :: a[i].seqNo == i + 1
    ensures a[n] == b[n]
  {
    assert b[n] in multiset(a) && a[n] in multiset(b);
    var i :| 0 <= i <= n && a[i] == b[n];
    var j :| 0 <= j <= n && b[j] == a[n];
    assert SeqNo()(b[j]) <= SeqNo()(b[n]);
  }

  lemma InitMultiset(a: seq<Row>, b: seq<Row>, n: nat)
    requires |a| == |b| == n + 1 && multiset(a) == multiset(b) && a[n] == b[n]
    ensures multiset(a[..n]) == multiset(b[..n])
  {
    assert a == a[..n] + [a[n]] && b == b[..n] + [b[n]];
    assert multiset(a[..n]) == multiset(a) - multiset{a[n]};
    assert multiset(b[..n]) == multiset(b) - multiset{b[n]};
  }

  lemma AscendingInit(b: seq<Row>, n: nat)
    requires n <= |b| && Ascending(b, SeqNo())
    ensures Ascending(b[..n], SeqNo())
  {
    forall i, j | 0 <= i < j < n
      ensures SeqNo()(b[..n][i]) <= SeqNo()(b[..n][j])
    {
      assert SeqNo()(b[i]) <= SeqNo()(b[j]);
    }
  }

  /** Rows numbered 1..n have one ascending arrangement. */
  lemma {:induction false} NumberedIsUnique(a: seq<Row>, b: seq<Row>)
    requires multiset(a) == multiset(b) && Ascending(b, SeqNo())
    requires forall i | 0 <= i < |a| :: a[i].seqNo == i + 1
    ensures a == b
    decreases |a|
  {
    assert |a| == |multiset(a)| == |multiset(b)| == |b|;
    if a != [] {
      var n := |a| - 1;
      LastIsLast(a, b, n);
      InitMultiset(a, b, n);
      AscendingInit(b, n);
      NumberedIsUnique(a[..n], b[..n]);
      assert a == a[..n] + [a[n]] && b == b[..n] + [b[n]];
    }
  }

  // ---- the chain invariant ----

  function Before(rows: seq<Row>, i: nat, prev: Option<Bytes>): Option<Bytes>
    requires i <= |rows|
  {
    if i == 0 then prev else Some(rows[i - 1].chainHash)
  }

  /** Each stored hash is the hash of the payload and the hash before it. */
  ghost predicate Intact(w: World, rows: seq<Row>, prev: Option<Bytes>) {
    forall i | 0 <= i < |rows| :: rows[i].chainHash == w.link(rows[i].payload, Before(rows, i, prev))
  }

  ghost predicate Linked(w: World, c: seq<Row>, key: string) {
    Intact(w, c, None)
    && forall i | 0 <= i < |c| :: c[i].seqNo == i + 1 && c[i].payload.chainKey == key && c[i].prevHash == Before(c, i, None)
  }

  ghost predicate HeadOf(w: World, c: seq<Row>, head: HeadRow)
    requires c != []
  {
    head.count == |c| && head.lastChainHash == c[|c| - 1].chainHash
    && (head.signature.Some? ==> head.signature.value.root == MerkleLog.MerkleRoot(w.h, ChainHashes(c)))
  }

  ghost predicate ChainOk(w: World, st: State, key: string) {
    var c := OfChain(st.rows, key);
    Linked(w, c, key)
    && (key in st.heads <==> c != [])
    && (key in st.heads ==> HeadOf(w, c, st.heads[key]))
    && (key in st.highWater ==>
          key in st.heads
          && EvaluateHighWater(Some(st.highWater[key]), st.heads[key].count, st.heads[key].lastChainHash) == Fine)
  }

  ghost predicate AllChainsOk(w: World, st: State) {
    forall key: string :: ChainOk(w, st, key)
  }

  datatype Action =
    | Write(p: Payload, signing: bool)
    | Bring(i: Import)
    | Remember(key: string, limit: nat, signing: bool)
    | Trust(source: string, kid: string, publicKey: Bytes)
    | Renounce(r: Revocation)

  function Step(w: World, st: State, a: Action): State {
    match a
    case Write(p, signing) => var o := Append(w, st, p, signing); if o.Done? then o.state else st
    case Bring(i) => DoImport(w, st, i)
    case Remember(key, limit, signing) => Record(w, st, key, limit, signing)
    case Trust(source, kid, publicKey) => st.(peers := DoPin(w, st.peers, source, kid, publicKey))
    case Renounce(r) => st.(peers := DoRevoke(w, st.peers, r))
  }

  function Run(w: World, st: State, actions: seq<Action>): State
    decreases |actions|
  {
    if actions == [] then st else Run(w, Step(w, st, actions[0]), actions[1..])
  }

  lemma OfChainAppend(rows: seq<Row>, r: Row, key: string)
    ensures OfChain(rows + [r], key) == OfChain(rows, key) + (if r.payload.chainKey == key then [r] else [])
  {
    assert (rows + [r])[..|rows|] == rows;
  }

  /** The log is read in append order whatever the clock did: sequence numbers decide. */
  lemma LogIsAppendOrder(w: World, rows: seq<Row>, key: string)
    requires forall i | 0 <= i < |OfChain(rows, key)| :: OfChain(rows, key)[i].seqNo == i + 1
    ensures Sort(Scan(rows, key), SeqNo()) == OfChain(rows, key)
    ensures ReceiptLog(w, rows, key) == Log(MerkleLog.MerkleRoot(w.h, ChainHashes(OfChain(rows, key))), |OfChain(rows, key)|)
  {
    hide Sort, OfChain, Ascending, MerkleLog.MerkleRoot;
    var c := OfChain(rows, key);
    SortSorts(c, Ts());
    SortSorts(Scan(rows, key), SeqNo());
    NumberedIsUnique(c, Sort(Scan(rows, key), SeqNo()));
  }

  lemma BeforeStable(c: seq<Row>, r: Row, i: nat, prev: Option<Bytes>)
    requires i <= |c|
    ensures Before(c + [r], i, prev) == Before(c, i, prev)
  {
  }

  lemma LinkedExtend(w: World, c: seq<Row>, r: Row, key: string)
    requires Linked(w, c, key)
    requires r.payload.chainKey == key && r.seqNo == |c| + 1 && r.prevHash == Before(c, |c|, None)
    requires r.chainHash == w.link(r.payload, r.prevHash)
    ensures Linked(w, c + [r], key)
  {
    var d := c + [r];
    forall i | 0 <= i < |d|
      ensures d[i].chainHash == w.link(d[i].payload, Before(d, i, None))
      ensures d[i].seqNo == i + 1 && d[i].payload.chainKey == key && d[i].prevHash == Before(d, i, None)
    {
      BeforeStable(c, r, i, None);
      if i < |c| {
        assert d[i] == c[i] && c[i].prevHash == Before(c, i, None);
      }
    }
  }

  /** One more row and a head for it keep the chain of that row. */
  lemma ExtendedOk(w: World, st: State, st': State, row: Row, head: HeadRow)
    requires var key := row.payload.chainKey;
      ChainOk(w, st, key) && st'.rows == st.rows + [row] && st'.highWater == st.highWater
      && st'.heads == st.heads[key := head]
    requires var c := OfChain(st.rows, row.payload.chainKey);
      row.seqNo == |c| + 1 == head.count && row.prevHash == Before(c, |c|, None)
      && row.chainHash == w.link(row.payload, row.prevHash) == head.lastChainHash
      && (head.signature.Some? ==> head.signature.value.root == MerkleLog.MerkleRoot(w.h, ChainHashes(c + [row])))
    ensures ChainOk(w, st', row.payload.chainKey)
  {
    var key := row.payload.chainKey;
    OfChainAppend(st.rows, row, key);
    LinkedExtend(w, OfChain(st.rows, key), row, key);
    hide OfChain, Linked, MerkleLog.MerkleRoot, ChainHashes;
  }

  lemma OthersOk(w: World, st: State, st': State, row: Row, head: HeadRow, key: string)
    requires key != row.payload.chainKey && ChainOk(w, st, key)
    requires st'.rows == st.rows + [row] && st'.highWater == st.highWater
    requires st'.heads == st.heads[row.payload.chainKey := head]
    ensures ChainOk(w, st', key)
  {
    OfChainAppend(st.rows, row, key);
    assert OfChain(st'.rows, key) == OfChain(st.rows, key);
    hide OfChain, Linked, MerkleLog.MerkleRoot;
  }

  lemma AddedOk(w: World, st: State, st': State, row: Row, head: HeadRow)
    requires AllChainsOk(w, st) && ChainOk(w, st', row.payload.chainKey)
    requires st'.rows == st.rows + [row] && st'.highWater == st.highWater
    requires st'.heads == st.heads[row.payload.chainKey := head]
    ensures AllChainsOk(w, st')
  {
    hide ChainOk;
    forall key: string
      ensures ChainOk(w, st', key)
    {
      assert ChainOk(w, st, key);
      if key != row.payload.chainKey { OthersOk(w, st, st', row, head, key); }
    }
  }

  lemma AppendKeeps(w: World, st: State, p: Payload, signing: bool)
    requires AllChainsOk(w, st)
    ensures Append(w, st, p, signing).Done? && AllChainsOk(w, Append(w, st, p, signing).state)
  {
    var row := NextRow(w, st, p);
    hide *;
    NextRowFits(w, st, p);
    AppendedHead(w, st, p, signing);
    var st' := Append(w, st, p, signing).state;
    ExtendedOk(w, st, st', row, st'.heads[p.chainKey]);
    AddedOk(w, st, st', row, st'.heads[p.chainKey]);
  }

  lemma NextRowFits(w: World, st: State, p: Payload)
    requires AllChainsOk(w, st)
    ensures var row, c := NextRow(w, st, p), OfChain(st.rows, p.chainKey);
      && ChainOk(w, st, p.chainKey) && row.payload == p && row.seqNo == |c| + 1 && row.prevHash == Before(c, |c|, None)
      && row.chainHash == w.link(row.payload, row.prevHash)
      && ReceiptLog(w, st.rows + [row], p.chainKey).size == row.seqNo
      && ReceiptLog(w, st.rows + [row], p.chainKey).root == MerkleLog.MerkleRoot(w.h, ChainHashes(c + [row]))
  {
    var row, c := NextRow(w, st, p), OfChain(st.rows, p.chainKey);
    assert ChainOk(w, st, p.chainKey);
    assert row.seqNo == |c| + 1 && row.prevHash == Before(c, |c|, None);
    OfChainAppend(st.rows, row, p.chainKey);
    LinkedExtend(w, c, row, p.chainKey);
    LogIsAppendOrder(w, st.rows + [row], p.chainKey);
    hide OfChain, Linked, ReceiptLog, MerkleLog.MerkleRoot, ChainHashes, ChainOk, AllChainsOk;
  }

  lemma AppendedHead(w: World, st: State, p: Payload, signing: bool)
    requires ReceiptLog(w, st.rows + [NextRow(w, st, p)], p.chainKey).size == NextRow(w, st, p).seqNo
    ensures var o, row := Append(w, st, p, signing), NextRow(w, st, p);
      o.Done? && p.chainKey in o.state.heads
      && o.state == st.(rows := st.rows + [row], heads := st.heads[p.chainKey := o.state.heads[p.chainKey]])
      && var head := o.state.heads[p.chainKey];
      head.count == row.seqNo && head.lastChainHash == row.chainHash
      && (head.signature.Some? ==> head.signature.value.root == ReceiptLog(w, st.rows + [row], p.chainKey).root)
  {
    hide ReceiptLog, OfChain;
  }

  lemma ImportKeeps(w: World, st: State, i: Import)
    requires AllChainsOk(w, st)
    ensures AllChainsOk(w, DoImport(w, st, i))
  {
    if ImportAccepted(w, st, i) {
      var row, st' := i.row.(seqNo := 1), DoImport(w, st, i);
      assert ChainOk(w, st, row.payload.chainKey);
      assert ChainHashes([] + [row]) == [row.chainHash];
      hide OfChain, Linked, ChainOk, MerkleLog.MerkleRoot, ChainHashes, AllChainsOk;
      ExtendedOk(w, st, st', row, i.head);
      AddedOk(w, st, st', row, i.head);
    }
  }

  lemma RecordKeeps(w: World, st: State, key: string, limit: nat, signing: bool)
    requires AllChainsOk(w, st)
    ensures AllChainsOk(w, Record(w, st, key, limit, signing))
  {
    var st' := Record(w, st, key, limit, signing);
    forall k: string
      ensures ChainOk(w, st', k)
    {
      assert ChainOk(w, st, k);
    }
  }

  /** The chains do not look at what is known of other nodes. */
  lemma PeersApart(w: World, st: State, st': State)
    requires AllChainsOk(w, st) && st' == st.(peers := st'.peers)
    ensures AllChainsOk(w, st')
  {
    forall key: string
      ensures ChainOk(w, st', key)
    {
      assert ChainOk(w, st, key);
    }
  }

  /** Under any interleaving of appends, fresh-chain imports, mark raises, pins and revocations: a chain has a head exactly
      when it has rows, the head counts them, the rows are numbered 1..n and hash-linked from genesis, the
      head holds the last hash and, when signed, the Merkle root in append order. */
  lemma {:induction false} ChainsStayOk(w: World, st: State, actions: seq<Action>)
    requires AllChainsOk(w, st)
    ensures AllChainsOk(w, Run(w, st, actions))
    decreases |actions|
  {
    if actions != [] {
      match actions[0] {
        case Write(p, signing) => AppendKeeps(w, st, p, signing);
        case Bring(i) => ImportKeeps(w, st, i);
        case Remember(key, limit, signing) => RecordKeeps(w, st, key, limit, signing);
        case _ => PeersApart(w, st, Step(w, st, actions[0]));
      }
      ChainsStayOk(w, Step(w, st, actions[0]), actions[1..]);
    }
  }

  lemma EmptyOk(w: World)
    ensures AllChainsOk(w, Empty())
  {
  }

  /** The size-mismatch exception is unreachable from the empty tables. */
  lemma SizeMismatchUnreachable(w: World, actions: seq<Action>, p: Payload, signing: bool)
    ensures Append(w, Run(w, Empty(), actions), p, signing).Done?
  {
    EmptyOk(w);
    ChainsStayOk(w, Empty(), actions);
    AppendKeeps(w, Run(w, Empty(), actions), p, signing);
  }

  // ---- imports ----

  /** Nothing known of other nodes is forgotten. */
  predicate Learns(a: Peers, b: Peers) {
    && (forall id | id in a.trust :: id in b.trust && b.trust[id] == a.trust[id])
    && a.revoked <= b.revoked && a.imports <= b.imports
  }

  /** One source's envelopes and receipts are imported once each. */
  predicate ImportedOnce(imports: seq<ImportRow>) {
    forall i, j | 0 <= i < j < |imports| && imports[i].sourceNodeId == imports[j].sourceNodeId ::
      imports[i].envelopeId != imports[j].envelopeId && imports[i].receiptHash != imports[j].receiptHash
  }

  lemma StepLearns(w: World, st: State, a: Action)
    ensures var st' := Step(w, st, a);
      Learns(st.peers, st'.peers) && (ImportedOnce(st.peers.imports) ==> ImportedOnce(st'.peers.imports))
  {
    hide ReceiptLog, VerifyCore, OfChain, MerkleLog.MerkleRoot, MetaMatches;
    if a.Bring? && ImportAccepted(w, st, a.i) {
      assert forall k | 0 <= k < |st.peers.imports| :: st.peers.imports[k] in st.peers.imports;
    }
  }

  lemma {:induction false} RunLearns(w: World, st: State, actions: seq<Action>)
    ensures var end := Run(w, st, actions);
      Learns(st.peers, end.peers) && (ImportedOnce(st.peers.imports) ==> ImportedOnce(end.peers.imports))
    decreases |actions|
  {
    if actions != [] {
      StepLearns(w, st, actions[0]);
      hide Step, ImportedOnce;
      RunLearns(w, Step(w, st, actions[0]), actions[1..]);
    }
  }

  /** In every run from empty tables an envelope or receipt of a source is imported at most once, and one whose
      delegation the source has revoked, or that was imported before, is refused ever after. */
  lemma ImportsConserved(w: World, actions: seq<Action>, later: seq<Action>, i: Import)
    ensures var a := Run(w, Empty(), actions);
      var b := Run(w, a, later);
      && ImportedOnce(b.peers.imports)
      && ((i.sourceNodeId, i.delegationId) in a.peers.revoked || Imported(a.peers.imports, i) ==> !ImportAccepted(w, b, i))
      && (ImportAccepted(w, a, i) ==> !ImportAccepted(w, Run(w, Step(w, a, Bring(i)), later), i))
  {
    var a := Run(w, Empty(), actions);
    assert ImportedOnce(Empty().peers.imports);
    RunLearns(w, Empty(), actions);
    RunLearns(w, a, later);
    RunLearns(w, Step(w, a, Bring(i)), later);
    hide Run, ImportedOnce, OfChain, MerkleLog.MerkleRoot, MetaMatches;
    var b, c := Run(w, a, later), Step(w, a, Bring(i));
    KnownStays(a.peers.imports, b.peers.imports, i);
    if ImportAccepted(w, a, i) {
      assert c.peers.imports[|a.peers.imports|] == ImportRowOf(i) && ImportRowOf(i) in c.peers.imports;
      KnownStays(c.peers.imports, Run(w, c, later).peers.imports, i);
    }
  }

  lemma KnownStays(a: seq<ImportRow>, b: seq<ImportRow>, i: Import)
    requires a <= b
    ensures Imported(a, i) ==> Imported(b, i)
  {
    if Imported(a, i) {
      var r :| r in a && r.sourceNodeId == i.sourceNodeId && (r.envelopeId == i.envelopeId || r.receiptHash == i.row.chainHash);
      var k :| 0 <= k < |a| && a[k] == r;
      assert b[k] == r && r in b;
    }
  }

  /** The key pinned for the source signed a one-receipt head that names this receipt, hashed from nothing but its
      payload, whose proof speaks of this source and delegation. */
  ghost predicate Vouches(w: World, trust: map<(string, string), Bytes>, i: Import) {
    var id, key := (i.sourceNodeId, i.headKeyId), i.row.payload.chainKey;
    && id in trust && i.head.signature.Some?
    && var s := i.head.signature.value;
    && w.verify(trust[id], HeadFields(key, s.signedAt, 1, i.row.chainHash, s.root), s.sig)
    && i.row.chainHash == w.link(i.row.payload, None) && s.root == MerkleLog.TreeHash(w.h, [i.row.chainHash])
    && w.meta(i.row.payload.body) == Some(Meta(Some(i.sourceNodeId), Some(i.delegationId), Some("rev:" + i.sourceNodeId + ":" + i.delegationId)))
    && i.envelopeId == "env_" + i.row.payload.receiptId
  }

  /** An import is accepted exactly when its source vouches for it as the one receipt of its chain, has not revoked the
      delegation, and neither the envelope, the receipt nor the chain is known here; and then row, head and registry
      entry come in together. */
  lemma ImportsExactly(w: World, st: State, i: Import)
    ensures var key, t := i.row.payload.chainKey, DoImport(w, st, i);
      && (ImportAccepted(w, st, i) <==>
           Vouches(w, st.peers.trust, i) && i.head.count == 1 && i.head.lastChainHash == i.row.chainHash && i.row.prevHash == None
           && (i.sourceNodeId, i.delegationId) !in st.peers.revoked
           && (forall r | r in st.peers.imports && r.sourceNodeId == i.sourceNodeId ::
                 r.envelopeId != i.envelopeId && r.receiptHash != i.row.chainHash)
           && key !in st.heads && forall r | r in st.rows :: r.payload.chainKey != key)
      && (ImportAccepted(w, st, i) ==>
           && t.rows == st.rows + [Row(i.row.payload, None, i.row.chainHash, 1)] && t.heads == st.heads[key := i.head]
           && t.peers.imports == st.peers.imports + [ImportRow(i.sourceNodeId, key, i.envelopeId, i.row.chainHash)]
           && t.peers.trust == st.peers.trust && t.peers.revoked == st.peers.revoked)
      && (!ImportAccepted(w, st, i) ==> t == st)
  {
    MerkleLog.RootIsTreeHash(w.h, [i.row.chainHash]);
    OfChainEmpty(st.rows, i.row.payload.chainKey);
    MetaExactly(w, i);
    hide MerkleLog.MerkleRoot, MerkleLog.TreeHash, OfChain, MetaMatches;
  }

  lemma MetaExactly(w: World, i: Import)
    ensures w.meta(i.row.payload.body).Some? && MetaMatches(i, w.meta(i.row.payload.body).value)
      <==> w.meta(i.row.payload.body) == Some(Meta(Some(i.sourceNodeId), Some(i.delegationId), Some("rev:" + i.sourceNodeId + ":" + i.delegationId)))
           && i.envelopeId == "env_" + i.row.payload.receiptId
  {
  }

  lemma {:induction false} OfChainEmpty(rows: seq<Row>, key: string)
    ensures OfChain(rows, key) == [] <==> forall r | r in rows :: r.payload.chainKey != key
    decreases |rows|
  {
    if rows != [] {
      OfChainEmpty(rows[..|rows| - 1], key);
      assert rows == rows[..|rows| - 1] + [rows[|rows| - 1]];
    }
  }

  /** A source's key is pinned exactly by the first well-shaped key that comes for its name. */
  lemma PinsExactly(w: World, p: Peers, source: string, kid: string, publicKey: Bytes)
    ensures DoPin(w, p, source, kid, publicKey)
      == p.(trust := if w.keyShape(publicKey) && (source, kid) !in p.trust then p.trust[(source, kid) := publicKey] else p.trust)
  {
  }

  /** A revocation is recorded exactly when its source signed it and it is of the source's own delegation. */
  lemma RevokesExactly(w: World, p: Peers, r: Revocation)
    ensures var id, q := (r.sourceNodeId, r.payload.delegationId), DoRevoke(w, p, r);
      && q == p.(revoked := q.revoked)
      && q.revoked == p.revoked +
           if (r.sourceNodeId, r.headKeyId) in p.trust && r.payload.sourceNodeId == r.sourceNodeId && r.count == 1
              && r.headHash == w.linkRevocation(r.payload)
              && w.verifyRevocation(p.trust[(r.sourceNodeId, r.headKeyId)], RevocationHead(r.chainKey + ":rev", r.signedAt, 1, r.headHash), r.sig)
           then {id} else {}
  {
  }

  /** The registry entry is of a receipt in the table that its source vouches for. */
  ghost predicate ImportVouched(w: World, st: State, r: ImportRow) {
    exists i: Import :: ImportRowOf(i) == r && i.row.(seqNo := 1) in st.rows && Vouches(w, st.peers.trust, i)
  }

  /** The source signed this revocation under a key pinned for it, of a delegation of its own. */
  ghost predicate RevocationVouched(w: World, p: Peers, id: (string, string)) {
    exists r: Revocation ::
      && (r.sourceNodeId, r.headKeyId) in p.trust && id == (r.sourceNodeId, r.payload.delegationId)
      && r.payload.sourceNodeId == r.sourceNodeId && r.headHash == w.linkRevocation(r.payload)
      && w.verifyRevocation(p.trust[(r.sourceNodeId, r.headKeyId)], RevocationHead(r.chainKey + ":rev", r.signedAt, 1, r.headHash), r.sig)
  }

  ghost predicate AllVouched(w: World, st: State) {
    && (forall r | r in st.peers.imports :: ImportVouched(w, st, r))
    && (forall id | id in st.peers.revoked :: RevocationVouched(w, st.peers, id))
    && (forall id | id in st.peers.trust :: w.keyShape(st.peers.trust[id]))
  }

  lemma StillVouched(w: World, a: State, b: State, r: ImportRow, id: (string, string))
    requires Learns(a.peers, b.peers) && forall row | row in a.rows :: row in b.rows
    ensures ImportVouched(w, a, r) ==> ImportVouched(w, b, r)
    ensures RevocationVouched(w, a.peers, id) ==> RevocationVouched(w, b.peers, id)
  {
    hide MerkleLog.TreeHash, MetaMatches;
    if ImportVouched(w, a, r) {
      var i: Import :| ImportRowOf(i) == r && i.row.(seqNo := 1) in a.rows && Vouches(w, a.peers.trust, i);
      assert Vouches(w, b.peers.trust, i);
    }
  }

  lemma StepRows(w: World, st: State, a: Action)
    ensures forall row | row in st.rows :: row in Step(w, st, a).rows
  {
    hide ReceiptLog, VerifyCore, ImportAccepted;
  }

  lemma BroughtVouched(w: World, st: State, i: Import)
    requires ImportAccepted(w, st, i)
    ensures ImportVouched(w, DoImport(w, st, i), ImportRowOf(i))
  {
    ImportsExactly(w, st, i);
    hide MerkleLog.MerkleRoot, MerkleLog.TreeHash, MetaMatches, OfChain, Imported, ImportAccepted;
    assert Vouches(w, DoImport(w, st, i).peers.trust, i);
  }

  lemma RevokedVouched(w: World, p: Peers, r: Revocation, id: (string, string))
    requires id in DoRevoke(w, p, r).revoked && id !in p.revoked
    ensures RevocationVouched(w, DoRevoke(w, p, r), id)
  {
  }

  lemma PinsShaped(w: World, st: State, a: Action)
    requires forall id | id in st.peers.trust :: w.keyShape(st.peers.trust[id])
    ensures forall id | id in Step(w, st, a).peers.trust :: w.keyShape(Step(w, st, a).peers.trust[id])
  {
    hide ReceiptLog, VerifyCore, ImportAccepted;
  }

  lemma StepVouched(w: World, st: State, a: Action)
    requires AllVouched(w, st)
    ensures AllVouched(w, Step(w, st, a))
  {
    var t := Step(w, st, a);
    StepLearns(w, st, a);
    StepRows(w, st, a);
    forall r | r in t.peers.imports
      ensures ImportVouched(w, t, r)
    {
      StillVouched(w, st, t, r, ("", ""));
      hide Learns, ImportVouched, ReceiptLog, VerifyCore, ImportAccepted;
      if r !in st.peers.imports { BroughtVouched(w, st, a.i); }
    }
    PinsShaped(w, st, a);
    forall id | id in t.peers.revoked
      ensures RevocationVouched(w, t.peers, id)
    {
      assert id in st.peers.revoked ==> RevocationVouched(w, st.peers, id);
      hide Learns, RevocationVouched, ReceiptLog, VerifyCore, ImportAccepted;
      if id in st.peers.revoked {
        StillVouched(w, st, t, ImportRow("", "", "", []), id);
      } else {
        RevokedVouched(w, st.peers, a.r, id);
      }
    }
  }

  /** In every run from a state where it holds, so from empty tables (EmptyVouched), each imported receipt and each
      recorded revocation is one its source signed under the well-shaped key pinned for it, which is never replaced. */
  lemma {:induction false} ForeignSigned(w: World, st: State, actions: seq<Action>)
    requires AllVouched(w, st)
    ensures AllVouched(w, Run(w, st, actions))
    decreases |actions|
  {
    if actions != [] {
      StepVouched(w, st, actions[0]);
      hide AllVouched, Step;
      ForeignSigned(w, Step(w, st, actions[0]), actions[1..]);
    }
  }

  lemma EmptyVouched(w: World)
    ensures AllVouched(w, Empty())
  {
  }

  // ---- the row walk ----

  lemma {:induction false} NoBreakIsIntact(w: World, rows: seq<Row>, prev: Option<Bytes>)
    ensures FirstBreak(w, rows, prev).None? <==> Intact(w, rows, prev)
    decreases |rows|
  {
    if rows != [] {
      var rest, next := rows[1..], Some(rows[0].chainHash);
      NoBreakIsIntact(w, rest, next);
      assert forall i | 0 <= i < |rest| :: rest[i] == rows[i + 1] && Before(rest, i, next) == Before(rows, i + 1, prev);
      if Intact(w, rows, prev) {
        assert rows[0].chainHash == w.link(rows[0].payload, Before(rows, 0, prev));
        forall i | 0 <= i < |rest|
          ensures rest[i].chainHash == w.link(rest[i].payload, Before(rest, i, next))
        {
          assert rows[i + 1].chainHash == w.link(rows[i + 1].payload, Before(rows, i + 1, prev));
        }
      }
      if Intact(w, rest, next) && rows[0].chainHash == w.link(rows[0].payload, prev) {
        forall i | 0 <= i < |rows|
          ensures rows[i].chainHash == w.link(rows[i].payload, Before(rows, i, prev))
        {
          if i > 0 { assert rest[i - 1].chainHash == w.link(rest[i - 1].payload, Before(rest, i - 1, next)); }
        }
      }
    }
  }

  /** Clock order equals append order. */
  ghost predicate ClockMonotone(st: State, key: string) { Ascending(OfChain(st.rows, key), Ts()) }

  /** An honestly written chain whose clock did not run backwards verifies, for every window, also after
      its mark was recorded, provided its head carries this kernel's signature when one is expected. */
  lemma HonestChainVerifies(w: World, st: State, key: string, limit: nat, signing: bool)
    requires AllChainsOk(w, st) && ClockMonotone(st, key) && limit >= 1
    requires signing && key in st.heads ==> HeadSignatureOk(w, st.heads[key], key)
    ensures VerifyCore(w, st, key, limit, signing) == Verified
  {
    WindowUnbroken(w, st, key, limit);
    HeadAgrees(w, st, key);
    hide FirstBreak, Window, ReceiptLog, OfChain, HeadStatus, AllChainsOk, ClockMonotone, HeadSignatureOk;
    var c, rows := OfChain(st.rows, key), Window(st.rows, key, limit);
    GoodHead(w, st, key, signing, if rows == [] then None else Some(rows[|rows| - 1].chainHash), rows != []);
  }

  /** What the invariant says about the head, in the verifier's terms. */
  lemma HeadAgrees(w: World, st: State, key: string)
    requires AllChainsOk(w, st)
    ensures var c, log := OfChain(st.rows, key), ReceiptLog(w, st.rows, key);
      Linked(w, c, key) && (key in st.heads <==> c != [])
      && (key in st.heads ==>
            st.heads[key].lastChainHash == c[|c| - 1].chainHash && log.size == st.heads[key].count
            && (st.heads[key].signature.Some? ==> log.root == st.heads[key].signature.value.root))
      && (key in st.highWater ==>
            key in st.heads
            && EvaluateHighWater(Some(st.highWater[key]), st.heads[key].count, st.heads[key].lastChainHash) == Fine)
  {
    assert ChainOk(w, st, key);
    LogIsAppendOrder(w, st.rows, key);
    hide OfChain, ReceiptLog, MerkleLog.MerkleRoot, EvaluateHighWater;
  }

  lemma GoodHead(w: World, st: State, key: string, signing: bool, last: Option<Bytes>, some: bool)
    requires key in st.heads <==> some
    requires some ==> last == Some(st.heads[key].lastChainHash) && ReceiptLog(w, st.rows, key).size == st.heads[key].count
    requires signing && some ==>
      HeadSignatureOk(w, st.heads[key], key) && ReceiptLog(w, st.rows, key).root == st.heads[key].signature.value.root
    requires key in st.highWater ==>
      some && EvaluateHighWater(Some(st.highWater[key]), st.heads[key].count, st.heads[key].lastChainHash) == Fine
    ensures HeadStatus(w, st, key, signing, last, some) == Verified
  {
    hide ReceiptLog;
  }

  lemma WindowUnbroken(w: World, st: State, key: string, limit: nat)
    requires AllChainsOk(w, st) && ClockMonotone(st, key) && limit >= 1
    ensures var c, rows := OfChain(st.rows, key), Window(st.rows, key, limit);
      (c == [] <==> rows == []) && (c != [] ==> rows[|rows| - 1] == c[|c| - 1])
      && FirstBreak(w, rows, if rows == [] then None else rows[0].prevHash) == None
  {
    var c, rows := OfChain(st.rows, key), Window(st.rows, key, limit);
    var from := WindowIsSuffix(st, key, limit);
    assert Linked(w, c, key) by { assert ChainOk(w, st, key); }
    hide *;
    if c != [] {
      SuffixIntact(w, c, key, from);
      NoBreakIsIntact(w, rows, rows[0].prevHash);
    } else {
      EmptyIntact(w, None);
      NoBreakIsIntact(w, rows, None);
    }
  }

  lemma EmptyIntact(w: World, prev: Option<Bytes>)
    ensures Intact(w, [], prev)
  {
  }

  lemma WindowIsSuffix(st: State, key: string, limit: nat) returns (from: nat)
    requires ClockMonotone(st, key) && limit >= 1
    ensures var c := OfChain(st.rows, key);
      from <= |c| && (c != [] ==> from < |c|) && Window(st.rows, key, limit) == c[from..]
  {
    var c := OfChain(st.rows, key);
    SortOfAscending(c, Ts());
    from := if |c| <= limit then 0 else |c| - limit;
  }

  lemma SuffixIntact(w: World, c: seq<Row>, key: string, from: nat)
    requires Linked(w, c, key) && from < |c|
    ensures Intact(w, c[from..], c[from].prevHash)
  {
    var rows := c[from..];
    forall i | 0 <= i < |rows|
      ensures rows[i].chainHash == w.link(rows[i].payload, Before(rows, i, c[from].prevHash))
    {
      assert rows[i] == c[from + i] && c[from + i].chainHash == w.link(c[from + i].payload, Before(c, from + i, None));
      assert c[from].prevHash == Before(c, from, None);
    }
  }

  /** A head this kernel has just signed passes its own signature check. */
  lemma SignedAppendChecks(w: World, st: State, p: Payload)
    requires SigningWorks(w) && Append(w, st, p, true).Done?
    ensures HeadSignatureOk(w, Append(w, st, p, true).state.heads[p.chainKey], p.chainKey)
  {
    var row := NextRow(w, st, p);
    var log := ReceiptLog(w, st.rows + [row], p.chainKey);
    var f := HeadFields(p.chainKey, p.ts, row.seqNo, row.chainHash, log.root);
    assert w.verify(w.ownKey, f, w.sign(f));
  }

  // ---- the converse: what an intact walk proves ----

  type Link = (Payload, Option<Bytes>)

  /** Every (payload, predecessor) pair a walk hashes. */
  ghost function Links(rows: seq<Row>, prev: Option<Bytes>): set<Link> {
    set i | 0 <= i < |rows| :: (rows[i].payload, Before(rows, i, prev))
  }

  ghost predicate LinksApart(w: World, s: set<Link>) {
    forall a: Link, b: Link | a in s && b in s && w.link(a.0, a.1) == w.link(b.0, b.1) :: a == b
  }

  /** Two rows with one hash have one payload and one predecessor. */
  lemma SameHashSameLink(w: World, s: set<Link>, a: seq<Row>, b: seq<Row>, i: nat, j: nat)
    requires Intact(w, a, None) && Intact(w, b, None) && LinksApart(w, s) && Links(a, None) + Links(b, None) <= s
    requires i < |a| && j < |b| && a[i].chainHash == b[j].chainHash
    ensures a[i].payload == b[j].payload && Before(a, i, None) == Before(b, j, None)
  {
    var x, y := (a[i].payload, Before(a, i, None)), (b[j].payload, Before(b, j, None));
    assert x in Links(a, None) && y in Links(b, None);
    assert w.link(x.0, x.1) == w.link(y.0, y.1);
  }

  /** In a chain from genesis no hash repeats. */
  lemma {:induction false} HashesDistinct(w: World, c: seq<Row>, i: nat, j: nat)
    requires Intact(w, c, None) && LinksApart(w, Links(c, None)) && i < j < |c|
    ensures c[i].chainHash != c[j].chainHash
    decreases i
  {
    hide Intact, Links, LinksApart;
    if c[i].chainHash == c[j].chainHash {
      SameHashSameLink(w, Links(c, None), c, c, i, j);
      if i > 0 { HashesDistinct(w, c, i - 1, j - 1); }
    }
  }

  /** The full verifier sees the chain in clock order, so it accepts the links exactly when the clock never
      ran backwards: a chain written across a clock step back is reported broken although nothing in it
      was changed. */
  lemma WalkAcceptsIffClockMonotone(w: World, st: State, key: string)
    requires AllChainsOk(w, st) && OfChain(st.rows, key) != []
    requires var d := Scan(st.rows, key);
      LinksApart(w, Links(OfChain(st.rows, key), None) + if d == [] then {} else Links(d, d[0].prevHash))
    ensures var d := Scan(st.rows, key);
      d != [] && (FirstBreak(w, d, d[0].prevHash).None? <==> ClockMonotone(st, key))
  {
    assert ChainOk(w, st, key);
    var c, d := OfChain(st.rows, key), Scan(st.rows, key);
    SortSorts(c, Ts());
    NoBreakIsIntact(w, d, d[0].prevHash);
    if ClockMonotone(st, key) {
      SortOfAscending(c, Ts());
      assert c[0].prevHash == Before(c, 0, None);
    } else if Intact(w, d, d[0].prevHash) {
      IntactScanIsChain(w, c, d, key);
    }
  }

  lemma IntactScanIsChain(w: World, c: seq<Row>, d: seq<Row>, key: string)
    requires Linked(w, c, key) && multiset(c) == multiset(d) && d != []
    requires Intact(w, d, d[0].prevHash)
    requires LinksApart(w, Links(c, None) + Links(d, d[0].prevHash))
    ensures c == d
  {
    forall i | 0 < i < |d|
      ensures d[i].seqNo == d[i - 1].seqNo + 1
    {
      Consecutive(w, c, d, key, i);
    }
    ConsecutiveAscends(d);
    NumberedIsUnique(c, d);
  }

  lemma Consecutive(w: World, c: seq<Row>, d: seq<Row>, key: string, i: nat)
    requires Linked(w, c, key) && multiset(c) == multiset(d) && 0 < i < |d|
    requires Intact(w, d, d[0].prevHash)
    requires LinksApart(w, Links(c, None) + Links(d, d[0].prevHash))
    ensures d[i].seqNo == d[i - 1].seqNo + 1
  {
    hide *;
    var p := Find(c, d, i);
    var q := Find(c, d, i - 1);
    ScanLink(w, c, d, key, i, p);
    ChainFacts(w, c, key, p, q, Links(d, d[0].prevHash));
    if p - 1 < q { HashesDistinct(w, c, p - 1, q); }
    if q < p - 1 { HashesDistinct(w, c, q, p - 1); }
  }

  lemma ChainFacts(w: World, c: seq<Row>, key: string, p: nat, q: nat, s: set<Link>)
    requires Linked(w, c, key) && LinksApart(w, Links(c, None) + s) && p < |c| && q < |c|
    ensures Intact(w, c, None) && LinksApart(w, Links(c, None)) && c[p].seqNo == p + 1 && c[q].seqNo == q + 1
  {
  }

  ghost function Find(c: seq<Row>, d: seq<Row>, i: nat): (p: nat)
    requires multiset(c) == multiset(d) && i < |d|
    ensures p < |c| && c[p] == d[i]
  {
    assert d[i] in multiset(c);
    var p :| 0 <= p < |c| && c[p] == d[i];
    p
  }

  /** The row scanned at i, found at p in the chain, has the row scanned before it as predecessor. */
  lemma ScanLink(w: World, c: seq<Row>, d: seq<Row>, key: string, i: nat, p: nat)
    requires Linked(w, c, key) && 0 < i < |d| && p < |c| && c[p] == d[i]
    requires Intact(w, d, d[0].prevHash)
    requires LinksApart(w, Links(c, None) + Links(d, d[0].prevHash))
    ensures p > 0 && c[p - 1].chainHash == d[i - 1].chainHash
  {
    var x, y := (c[p].payload, Before(c, p, None)), (d[i].payload, Before(d, i, d[0].prevHash));
    assert x in Links(c, None) && y in Links(d, d[0].prevHash);
    assert w.link(x.0, x.1) == w.link(y.0, y.1);
  }

  lemma {:induction false} ConsecutiveAscends(d: seq<Row>)
    requires forall i | 0 < i < |d| :: d[i].seqNo == d[i - 1].seqNo + 1
    ensures Ascending(d, SeqNo())
    ensures d != [] ==> forall i | 0 <= i < |d| :: d[i].seqNo == d[0].seqNo + i
    decreases |d|
  {
    if |d| > 1 {
      var n := |d| - 1;
      var init := d[..n];
      forall i | 0 < i < n
        ensures init[i].seqNo == init[i - 1].seqNo + 1
      {
        assert d[i].seqNo == d[i - 1].seqNo + 1;
      }
      ConsecutiveAscends(init);
      forall i | 0 <= i < |d|
        ensures d[i].seqNo == d[0].seqNo + i
      {
        if i < n { assert d[i] == init[i]; } else { assert d[n].seqNo == d[n - 1].seqNo + 1 && d[n - 1] == init[n - 1]; }
      }
    }
  }

  // ---- exactly when the full verifier accepts an honest chain ----

  /** Every row among the newest n appended is stamped no earlier than any row appended before it. */
  predicate RecentInOrder(c: seq<Row>, n: nat) {
    forall i, j | 0 <= i < j < |c| && |c| - j <= n :: Ts()(c[i]) <= Ts()(c[j])
  }

  lemma SortTail(a: seq<Row>, r: Row)
    requires forall i | 0 <= i < |a| :: Ts()(a[i]) <= Ts()(r)
    ensures Sort(a + [r], Ts()) == Sort(a, Ts()) + [r]
  {
    var s := Sort(a, Ts());
    SortSorts(a, Ts());
    assert (a + [r])[..|a|] == a;
    if s != [] { assert s[|s| - 1] in multiset(a); }
  }

  /** Rows stamped in order after everything before them stay last. */
  lemma {:induction false} SortKeepsTail(c: seq<Row>, from: nat)
    requires from <= |c| && forall i, j | 0 <= i < j < |c| && from <= j :: Ts()(c[i]) <= Ts()(c[j])
    ensures Sort(c, Ts()) == Sort(c[..from], Ts()) + c[from..]
    decreases |c|
  {
    hide Sort, Ts;
    if from == |c| {
      assert c[..from] == c;
    } else {
      var n := |c| - 1;
      SortKeepsTail(c[..n], from);
      assert c == c[..n] + [c[n]] && c[..n][..from] == c[..from];
      SortTail(c[..n], c[n]);
    }
  }

  /** The scanned window is the newest rows in append order exactly when those were stamped in order. */
  lemma WindowIsNewestExactly(c: seq<Row>, d: seq<Row>, n: nat)
    requires d == Sort(c, Ts()) && n <= |c|
    ensures |d| == |c| && (d[|c| - n..] == c[|c| - n..] <==> RecentInOrder(c, n))
  {
    SortSorts(c, Ts());
    var from := |c| - n;
    if RecentInOrder(c, n) {
      SortKeepsTail(c, from);
      SortSorts(c[..from], Ts());
    }
    hide Sort;
    if d[from..] == c[from..] { TailInOrder(c, d, from); }
  }

  lemma SameRest(a: seq<Row>, b: seq<Row>, t: seq<Row>)
    requires multiset(a + t) == multiset(b + t)
    ensures multiset(a) == multiset(b)
  {
    assert multiset(a) == multiset(a + t) - multiset(t) && multiset(b) == multiset(b + t) - multiset(t);
  }

  lemma TailInOrder(c: seq<Row>, d: seq<Row>, from: nat)
    requires multiset(c) == multiset(d) && Ascending(d, Ts()) && from <= |c| == |d| && d[from..] == c[from..]
    ensures RecentInOrder(c, |c| - from)
  {
    hide Ts;
    assert c == c[..from] + c[from..] && d == d[..from] + d[from..];
    SameRest(c[..from], d[..from], c[from..]);
    forall i, j | 0 <= i < j < |c| && from <= j
      ensures Ts()(c[i]) <= Ts()(c[j])
    {
      assert d[j] == d[from..][j - from] == c[from..][j - from] == c[j];
      if i < from {
        assert c[..from][i] in multiset(d[..from]);
        var q :| 0 <= q < from && d[..from][q] == c[i];
        assert Ts()(d[q]) <= Ts()(d[j]);
      } else {
        assert d[i] == d[from..][i - from] == c[from..][i - from] == c[i];
        assert Ts()(d[i]) <= Ts()(d[j]);
      }
    }
  }

  /** Rows of the chain that link to one another and end on its last hash are its newest rows. */
  lemma {:induction false} IntactEndsIt(w: World, c: seq<Row>, d: seq<Row>, key: string, k: nat)
    requires Linked(w, c, key) && k < |d| && Intact(w, d, d[0].prevHash) && LinksApart(w, Links(c, None) + Links(d, d[0].prevHash))
    requires forall r | r in d :: r in c
    requires c != [] && d[|d| - 1].chainHash == c[|c| - 1].chainHash
    ensures k < |c| && d[|d| - 1 - k] == c[|c| - 1 - k]
  {
    hide *;
    var i := |d| - 1 - k;
    var q := IndexIn(c, d[i]);
    if k == 0 {
      SamePlace(w, c, key, q, |c| - 1, Links(d, d[0].prevHash));
    } else {
      IntactEndsIt(w, c, d, key, k - 1);
      ScanLink(w, c, d, key, i + 1, |c| - k);
      SamePlace(w, c, key, q, |c| - 1 - k, Links(d, d[0].prevHash));
    }
  }

  ghost function IndexIn(c: seq<Row>, r: Row): (q: nat)
    requires r in c
    ensures q < |c| && c[q] == r
  {
    var q :| 0 <= q < |c| && c[q] == r;
    q
  }

  lemma SamePlace(w: World, c: seq<Row>, key: string, p: nat, q: nat, s: set<Link>)
    requires Linked(w, c, key) && LinksApart(w, Links(c, None) + s) && p < |c| && q < |c| && c[p].chainHash == c[q].chainHash
    ensures p == q
  {
    hide *;
    ChainFacts(w, c, key, p, q, s);
    if p < q { HashesDistinct(w, c, p, q); }
    if q < p { HashesDistinct(w, c, q, p); }
  }

  lemma NewestOnly(w: World, c: seq<Row>, d: seq<Row>, key: string)
    requires Linked(w, c, key) && d != [] && Intact(w, d, d[0].prevHash) && LinksApart(w, Links(c, None) + Links(d, d[0].prevHash))
    requires forall r | r in d :: r in c
    requires c != [] && |d| <= |c| && d[|d| - 1].chainHash == c[|c| - 1].chainHash
    ensures d == c[|c| - |d|..]
  {
    hide Linked, Intact, Links, LinksApart;
    forall i | 0 <= i < |d|
      ensures d[i] == c[|c| - |d| + i]
    {
      IntactEndsIt(w, c, d, key, |d| - 1 - i);
    }
  }

  /** What the window is made of. */
  lemma WindowShape(st: State, key: string, limit: nat) returns (n: nat)
    ensures var c, d := OfChain(st.rows, key), Window(st.rows, key, limit);
      && n == |d| == (if |c| <= limit then |c| else limit) && (forall r | r in d :: r in c)
      && (d == c[|c| - n..] <==> RecentInOrder(c, limit))
  {
    hide *;
    var c, all := OfChain(st.rows, key), Scan(st.rows, key);
    n := if |c| <= limit then |c| else limit;
    WindowSlice(st, key, limit, n);
    WindowIsNewestExactly(c, all, n);
    RecentAtMostAll(c, n, limit);
    ScannedIn(c, all, n);
  }

  lemma WindowSlice(st: State, key: string, limit: nat, n: nat)
    requires var c := OfChain(st.rows, key); n == if |c| <= limit then |c| else limit
    ensures var c, all := OfChain(st.rows, key), Scan(st.rows, key);
      && all == Sort(c, Ts()) && |all| == |c| && multiset(all) == multiset(c) && Window(st.rows, key, limit) == all[|all| - n..]
  {
    SortSorts(OfChain(st.rows, key), Ts());
    hide OfChain, Sort, Ts;
    var all := Scan(st.rows, key);
    assert all[0..] == all;
  }

  lemma RecentAtMostAll(c: seq<Row>, n: nat, limit: nat)
    requires n == if |c| <= limit then |c| else limit
    ensures RecentInOrder(c, n) <==> RecentInOrder(c, limit)
  {
    hide Ts;
  }

  lemma ScannedIn(c: seq<Row>, all: seq<Row>, n: nat)
    requires multiset(all) == multiset(c) && n <= |all|
    ensures forall r | r in all[|all| - n..] :: r in c
  {
    forall r | r in all[|all| - n..]
      ensures r in c
    {
      assert r in multiset(all) && r in multiset(c);
    }
  }

  /** The full verifier takes the newest rows by clock, and accepts an untouched chain exactly when the newest rows by
      append order, as many as it takes, were stamped in order and after everything before them. */
  lemma CoreVerifiesExactly(w: World, st: State, key: string, limit: nat, signing: bool)
    requires AllChainsOk(w, st) && limit >= 1
    requires signing && key in st.heads ==> HeadSignatureOk(w, st.heads[key], key)
    requires var d := Window(st.rows, key, limit);
      LinksApart(w, Links(OfChain(st.rows, key), None) + if d == [] then {} else Links(d, d[0].prevHash))
    ensures VerifyCore(w, st, key, limit, signing) == Verified <==> RecentInOrder(OfChain(st.rows, key), limit)
  {
    var c, d := OfChain(st.rows, key), Window(st.rows, key, limit);
    var n := WindowShape(st, key, limit);
    CoreParts(w, st, key, limit, signing);
    hide *;
    if d == [] {
      EmptyIntact(w, None);
      NoBreakIsIntact(w, [], None);
      HonestHead(w, st, key, signing, None);
    } else {
      HonestHead(w, st, key, signing, Some(d[n - 1].chainHash));
      IntactToTheEnd(w, c, d, key);
    }
  }

  /** An unbroken window that ends on the chain's last hash is its newest rows, and conversely. */
  lemma IntactToTheEnd(w: World, c: seq<Row>, d: seq<Row>, key: string)
    requires Linked(w, c, key) && d != [] && (forall r | r in d :: r in c) && |d| <= |c|
    requires LinksApart(w, Links(c, None) + Links(d, d[0].prevHash))
    ensures FirstBreak(w, d, d[0].prevHash).None? && d[|d| - 1].chainHash == c[|c| - 1].chainHash <==> d == c[|c| - |d|..]
  {
    hide *;
    NoBreakIsIntact(w, d, d[0].prevHash);
    if d == c[|c| - |d|..] { SuffixIntact(w, c, key, |c| - |d|); }
    if FirstBreak(w, d, d[0].prevHash).None? && d[|d| - 1].chainHash == c[|c| - 1].chainHash { NewestOnly(w, c, d, key); }
  }

  /** The checks on the head of an untouched chain come down to where the walk ended. */
  lemma HonestHead(w: World, st: State, key: string, signing: bool, last: Option<Bytes>)
    requires AllChainsOk(w, st)
    requires signing && key in st.heads ==> HeadSignatureOk(w, st.heads[key], key)
    ensures var c := OfChain(st.rows, key);
      Linked(w, c, key)
      && (c == [] ==> HeadStatus(w, st, key, signing, last, false) == Verified)
      && (c != [] ==> (HeadStatus(w, st, key, signing, last, true) == Verified <==> last == Some(c[|c| - 1].chainHash)))
  {
    HeadAgrees(w, st, key);
    hide ReceiptLog, OfChain, AllChainsOk, EvaluateHighWater, Linked;
    var c := OfChain(st.rows, key);
    if c == [] {
      hide HeadStatus;
      GoodHead(w, st, key, signing, last, false);
    } else if last == Some(c[|c| - 1].chainHash) {
      hide HeadStatus;
      GoodHead(w, st, key, signing, last, true);
    }
  }

  lemma CoreParts(w: World, st: State, key: string, limit: nat, signing: bool)
    ensures var d := Window(st.rows, key, limit);
      var start, last := if d == [] then None else d[0].prevHash, if d == [] then None else Some(d[|d| - 1].chainHash);
      VerifyCore(w, st, key, limit, signing) == Verified
      <==> HeadStatus(w, st, key, signing, last, d != []) == Verified && FirstBreak(w, d, start).None?
  {
    hide Window, HeadStatus, FirstBreak;
  }

  /** The failing input of "an untouched chain verifies": two appends, the second while the clock reads less, and the
      chain is reported truncated for every window, signed or not. */
  lemma ClockStepBackTruncates(w: World, a: Payload, b: Payload, signed: bool, limit: nat, signing: bool)
    requires a.chainKey == b.chainKey && b.ts < a.ts && w.link(a, None) != w.link(b, Some(w.link(a, None))) && limit >= 1
    ensures VerifyCore(w, Run(w, Empty(), [Write(a, signed), Write(b, signed)]), a.chainKey, limit, signing) == Truncated
  {
    hide *;
    var st := Run(w, Empty(), [Write(a, signed), Write(b, signed)]);
    TwoAppends(w, a, b, signed);
    RunTwo(w, Empty(), Write(a, signed), Write(b, signed));
    ScanOfTwo(st.rows[0], st.rows[1], a.chainKey);
    OldestLast(st, a.chainKey, limit, st.rows[1], st.rows[0]);
    CutShort(w, st, a.chainKey, limit, signing);
  }

  lemma RunTwo(w: World, st: State, x: Action, y: Action)
    ensures Run(w, st, [x, y]) == Step(w, Step(w, st, x), y)
  {
    hide Step;
    assert [x, y][1..] == [y] && [y][1..] == [];
    assert Run(w, st, [x, y]) == Run(w, Step(w, st, x), [y]);
  }

  lemma OldestLast(st: State, key: string, limit: nat, a: Row, b: Row)
    requires Scan(st.rows, key) == [a, b] && limit >= 1
    ensures var d := Window(st.rows, key, limit); d != [] && d[|d| - 1] == b
  {
    hide Scan;
  }

  lemma CutShort(w: World, st: State, key: string, limit: nat, signing: bool)
    requires var d := Window(st.rows, key, limit);
      d != [] && key in st.heads && d[|d| - 1].chainHash != st.heads[key].lastChainHash
    ensures VerifyCore(w, st, key, limit, signing) == Truncated
  {
    hide Window, FirstBreak, ReceiptLog, HeadSignatureOk;
  }

  lemma TwoAppends(w: World, a: Payload, b: Payload, signed: bool)
    requires a.chainKey == b.chainKey
    ensures var st1 := Step(w, Empty(), Write(a, signed));
      var st2, ra, rb := Step(w, st1, Write(b, signed)), NextRow(w, Empty(), a), NextRow(w, st1, b);
      && st2.rows == [ra, rb] && ra.payload == a && rb.payload == b && ra.chainHash == w.link(a, None)
      && rb.chainHash == w.link(b, Some(ra.chainHash))
      && b.chainKey in st2.heads && st2.heads[b.chainKey].lastChainHash == rb.chainHash
  {
    EmptyOk(w);
    OneAppend(w, Empty(), a, signed);
    OneAppend(w, Step(w, Empty(), Write(a, signed)), b, signed);
    hide Step, AllChainsOk;
  }

  lemma OneAppend(w: World, st: State, p: Payload, signed: bool)
    requires AllChainsOk(w, st)
    ensures var st', row := Step(w, st, Write(p, signed)), NextRow(w, st, p);
      && AllChainsOk(w, st') && st'.rows == st.rows + [row]
      && p.chainKey in st'.heads && st'.heads[p.chainKey].lastChainHash == row.chainHash
  {
    AppendKeeps(w, st, p, signed);
    NextRowFits(w, st, p);
    hide AllChainsOk, ChainOk, ReceiptLog, OfChain, MerkleLog.MerkleRoot, Before;
    AppendedHead(w, st, p, signed);
    hide Append, NextRow;
  }

  lemma ScanOfTwo(a: Row, b: Row, key: string)
    requires a.payload.chainKey == key == b.payload.chainKey && b.payload.ts < a.payload.ts
    ensures Scan([a, b], key) == [b, a]
  {
    ChainOfTwo(a, b, key);
    hide OfChain;
    SortOfTwo(a, b);
  }

  lemma ChainOfTwo(a: Row, b: Row, key: string)
    requires a.payload.chainKey == key == b.payload.chainKey
    ensures OfChain([a, b], key) == [a, b]
  {
    OfChainAppend([], a, key);
    OfChainAppend([a], b, key);
    assert [] + [a] == [a] && [a] + [b] == [a, b];
  }

  lemma SortOfTwo(a: Row, b: Row)
    requires b.payload.ts < a.payload.ts
    ensures Sort([a, b], Ts()) == [b, a]
  {
    SortOfAscending([a], Ts());
    InsertAhead(a, b);
    hide Insert;
    assert [a, b][..1] == [a];
  }

  lemma InsertAhead(a: Row, b: Row)
    requires b.payload.ts < a.payload.ts
    ensures Insert(b, [a], Ts()) == [b, a]
  {
    assert [a][..0] == [];
  }

  // ---- exactly when any table verifies ----

  /** The stored hashes in the order of the Merkle log. */
  function InSequence(rows: seq<Row>, key: string): seq<Bytes> { ChainHashes(Sort(Scan(rows, key), SeqNo())) }

  /** The mark allows a head of this count and hash: beyond it, or the same one. */
  predicate AtMark(mark: HighWater, count: int, headHash: Bytes) {
    count > mark.maxCount || (count == mark.maxCount && headHash == mark.headHash)
  }

  /** This kernel's key signed the head, all of its fields together. */
  ghost predicate KernelSigned(w: World, key: string, head: HeadRow) {
    && head.signature.Some?
    && var s := head.signature.value;
    w.verify(w.ownKey, HeadFields(key, s.signedAt, head.count, head.lastChainHash, s.root), s.sig)
  }

  /** The head stands: it is there and ends where the walk ended, or nothing was walked and it is not; with signing it is
      signed, and its root and count are those of the stored hashes in sequence order; and the mark allows it. */
  ghost predicate HeadStands(w: World, st: State, key: string, signing: bool, last: Option<Bytes>, some: bool) {
    if key in st.heads then
      var head := st.heads[key];
      && last == Some(head.lastChainHash)
      && (signing ==>
            KernelSigned(w, key, head)
            && MerkleLog.TreeHash(w.h, InSequence(st.rows, key)) == head.signature.value.root && |InSequence(st.rows, key)| == head.count)
      && (key in st.highWater ==> AtMark(st.highWater[key], head.count, head.lastChainHash))
    else !some && (key in st.highWater ==> AtMark(st.highWater[key], 0, []))
  }

  lemma HeadStandsExactly(w: World, st: State, key: string, signing: bool, last: Option<Bytes>, some: bool)
    ensures HeadStatus(w, st, key, signing, last, some) == Verified <==> HeadStands(w, st, key, signing, last, some)
  {
    MerkleLog.RootIsTreeHash(w.h, InSequence(st.rows, key));
    hide MerkleLog.MerkleRoot, MerkleLog.TreeHash, Sort, Scan;
  }

  /** Whatever the tables hold, the full verifier accepts a chain exactly when each row of the window carries the hash of
      its payload and the hash before it, starting from what the first row claims, and the head stands. */
  lemma VerifiesExactly(w: World, st: State, key: string, limit: nat, signing: bool)
    ensures var d := Window(st.rows, key, limit);
      VerifyCore(w, st, key, limit, signing) == Verified
      <==> Intact(w, d, if d == [] then None else d[0].prevHash)
           && HeadStands(w, st, key, signing, if d == [] then None else Some(d[|d| - 1].chainHash), d != [])
  {
    var d := Window(st.rows, key, limit);
    CoreParts(w, st, key, limit, signing);
    NoBreakIsIntact(w, d, if d == [] then None else d[0].prevHash);
    HeadStandsExactly(w, st, key, signing, if d == [] then None else Some(d[|d| - 1].chainHash), d != []);
    hide *;
  }

  /** The paged walk does exactly when all its rows do, from the hash it was given, and the head stands. */
  lemma PagesVerifyExactly(w: World, st: State, key: string, signing: bool, pages: seq<seq<Row>>, prev: Option<Bytes>)
    requires pages != []
    ensures var rows := Concat(pages);
      WalkPages(w, st, key, signing, pages, prev) == Verified
      <==> Intact(w, rows, prev) && HeadStands(w, st, key, signing, Tail(rows, prev), pages[|pages| - 1] != [])
  {
    PagedIsWhole(w, st, key, signing, pages, prev);
    NoBreakIsIntact(w, Concat(pages), prev);
    HeadStandsExactly(w, st, key, signing, Tail(Concat(pages), prev), pages[|pages| - 1] != []);
    hide *;
  }

  /** The mark is raised to a head exactly when the chain verifies and the head counts more than the mark. */
  lemma RecordsExactly(w: World, st: State, key: string, limit: nat, signing: bool)
    ensures var t := Record(w, st, key, limit, signing);
      && t == st.(highWater := t.highWater)
      && t.highWater == if VerifyCore(w, st, key, limit, signing) == Verified && key in st.heads
                           && (key in st.highWater ==> st.highWater[key].maxCount < st.heads[key].count)
                        then st.highWater[key := HighWater(st.heads[key].count, st.heads[key].lastChainHash)] else st.highWater
  {
    hide VerifyCore;
  }

  /** What is reported of a head against its mark: fewer receipts are a rollback, as many under another hash a fork. */
  lemma MarkExactly(mark: HighWater, count: int, headHash: Bytes)
    ensures var s := EvaluateHighWater(Some(mark), count, headHash);
      && (s == Fine <==> AtMark(mark, count, headHash))
      && (s == Rollback <==> count < mark.maxCount)
      && (s == HighWaterStatus.Fork <==> count == mark.maxCount && headHash != mark.headHash)
  {
  }

  /** The first of the failures that is reported. */
  lemma FirstFailure(w: World, st: State, key: string, limit: nat, signing: bool)
    ensures var d, v, here := Window(st.rows, key, limit), VerifyCore(w, st, key, limit, signing), key in st.heads;
      var ends := here ==> d != [] && d[|d| - 1].chainHash == st.heads[key].lastChainHash;
      var signed := here && signing ==> KernelSigned(w, key, st.heads[key]);
      && (v == MissingHead <==> !here && d != [])
      && (v == Truncated <==> !ends)
      && (v == BadSignature <==> ends && !signed)
      && (v == BadRoot || v == RolledBack || v == Forked || v == Broken || v == Verified ==> ends && signed && (here || d == []))
      && (v == RolledBack || v == Forked ==> key in st.highWater && !AtMark(st.highWater[key], if here then st.heads[key].count else 0, if here then st.heads[key].lastChainHash else []))
      && (v == RolledBack ==> (if here then st.heads[key].count else 0) < st.highWater[key].maxCount)
      && (v == Forked ==> (if here then st.heads[key].count else 0) == st.highWater[key].maxCount)
  {
    hide Window, ReceiptLog, FirstBreak;
  }

  /** The mark is of a head this kernel signed for the chain. */
  ghost predicate MarkSigned(w: World, key: string, mark: HighWater) {
    exists signature :: KernelSigned(w, key, HeadRow(mark.headHash, mark.maxCount, Some(signature)))
  }

  lemma RecordSigned(w: World, st: State, key: string, limit: nat, k: string)
    requires k in st.highWater ==> MarkSigned(w, k, st.highWater[k])
    ensures var t := Record(w, st, key, limit, true); k in t.highWater ==> MarkSigned(w, k, t.highWater[k])
  {
    VerifiesExactly(w, st, key, limit, true);
    hide VerifyCore, Window, Intact, MerkleLog.TreeHash, KernelSigned;
    if key in st.heads && KernelSigned(w, key, st.heads[key]) {
      var head := st.heads[key];
      Signed(w, key, head);
      assert head == HeadRow(head.lastChainHash, head.count, Some(head.signature.value));
    }
  }

  lemma Signed(w: World, key: string, head: HeadRow)
    requires KernelSigned(w, key, head)
    ensures head.signature.Some?
  {
  }

  /** With signing on, whatever is done to receipts and heads between recordings, no mark is ever raised on a head that
      this kernel's key did not sign. */
  lemma {:induction false} MarksAreSigned(w: World, st: State, steps: seq<Attack>, key: string)
    requires forall i | 0 <= i < |steps| && steps[i].Recall? :: steps[i].signing
    requires key in st.highWater ==> MarkSigned(w, key, st.highWater[key])
    ensures var end := AttackRun(w, st, steps); key in end.highWater ==> MarkSigned(w, key, end.highWater[key])
    decreases |steps|
  {
    if steps != [] {
      var next := match steps[0]
        case Tamper(rows, heads) => st.(rows := rows, heads := heads)
        case Recall(k, limit, signing) => Record(w, st, k, limit, signing);
      if steps[0].Recall? { RecordSigned(w, st, steps[0].key, steps[0].limit, key); }
      hide Record, MarkSigned;
      MarksAreSigned(w, next, steps[1..], key);
    }
  }

  // ---- what a signed head commits to ----

  /** Two tables that verify under one signed root hold the same chain hashes in sequence order, also outside the window
      looked at, unless two strings hashed for the two roots collide. */
  lemma SignedHeadFixesHashes(w: World, s: State, t: State, key: string, m: nat, n: nat)
    requires VerifyCore(w, s, key, m, true) == Verified && VerifyCore(w, t, key, n, true) == Verified
    requires key in s.heads && key in t.heads
    requires s.heads[key].signature.Some? && t.heads[key].signature.Some?
    requires s.heads[key].signature.value.root == t.heads[key].signature.value.root
    requires CollisionFree(w.h, MerkleLog.MerkleInputs(w.h, InSequence(s.rows, key)) + MerkleLog.MerkleInputs(w.h, InSequence(t.rows, key)))
    ensures InSequence(s.rows, key) == InSequence(t.rows, key)
  {
    hide FirstBreak, Window, Scan, Sort, MerkleLog.MerkleRoot, MerkleLog.MerkleInputs, EvaluateHighWater, HeadSignatureOk;
    MerkleLog.MerkleRootCommits(w.h, InSequence(s.rows, key), InSequence(t.rows, key));
  }

  ghost function Payloads(rows: seq<Row>): (ps: seq<Payload>)
    ensures |ps| == |rows| && forall i | 0 <= i < |ps| :: ps[i] == rows[i].payload
  {
    seq(|rows|, i requires 0 <= i < |rows| => rows[i].payload)
  }

  /** Two full walks from genesis that end intact on the same hash hold the same payloads in the same
      order, unless two of the pairs they hashed collide. */
  lemma {:induction false} SameHeadSamePayloads(w: World, a: seq<Row>, b: seq<Row>)
    requires FirstBreak(w, a, None).None? && FirstBreak(w, b, None).None?
    requires Tail(a, None) == Tail(b, None)
    requires LinksApart(w, Links(a, None) + Links(b, None))
    ensures Payloads(a) == Payloads(b)
  {
    NoBreakIsIntact(w, a, None);
    NoBreakIsIntact(w, b, None);
    SameTailSamePayloads(w, Links(a, None) + Links(b, None), a, b);
  }

  lemma {:induction false} SameTailSamePayloads(w: World, s: set<Link>, a: seq<Row>, b: seq<Row>)
    requires Intact(w, a, None) && Intact(w, b, None) && Tail(a, None) == Tail(b, None)
    requires LinksApart(w, s) && Links(a, None) + Links(b, None) <= s
    ensures Payloads(a) == Payloads(b)
    decreases |a|
  {
    hide LinksApart, Links, Intact;
    if a != [] && b != [] {
      var m, n := |a| - 1, |b| - 1;
      SameHashSameLink(w, s, a, b, m, n);
      IntactInit(w, a);
      IntactInit(w, b);
      assert Tail(a[..m], None) == Before(a, m, None) && Tail(b[..n], None) == Before(b, n, None);
      SameTailSamePayloads(w, s, a[..m], b[..n]);
      PayloadsInit(a);
      PayloadsInit(b);
    }
  }

  lemma PayloadsInit(a: seq<Row>)
    requires a != []
    ensures Payloads(a) == Payloads(a[..|a| - 1]) + [a[|a| - 1].payload]
  {
  }

  lemma IntactInit(w: World, a: seq<Row>)
    requires a != [] && Intact(w, a, None)
    ensures Intact(w, a[..|a| - 1], None) && Links(a[..|a| - 1], None) <= Links(a, None)
  {
    var init := a[..|a| - 1];
    forall i | 0 <= i < |init|
      ensures init[i].chainHash == w.link(init[i].payload, Before(init, i, None))
      ensures (init[i].payload, Before(init, i, None)) in Links(a, None)
    {
      assert a[i] == init[i] && Before(init, i, None) == Before(a, i, None);
    }
  }

  // ---- paging ----

  lemma {:induction false} BreakSplits(w: World, a: seq<Row>, b: seq<Row>, prev: Option<Bytes>)
    ensures FirstBreak(w, a + b, prev).None? <==> FirstBreak(w, a, prev).None? && FirstBreak(w, b, Tail(a, prev)).None?
    ensures Tail(a + b, prev) == Tail(b, Tail(a, prev))
    decreases |a|
  {
    if a == [] {
      assert a + b == b;
    } else {
      assert (a + b)[1..] == a[1..] + b;
      BreakSplits(w, a[1..], b, Some(w.link(a[0].payload, prev)));
    }
  }

  lemma EmptyUnbroken(w: World, prev: Option<Bytes>)
    ensures FirstBreak(w, [], prev) == None
  {
  }

  /** The whole list in one go, from the same starting hash. */
  function WholeWalk(w: World, st: State, key: string, signing: bool, rows: seq<Row>, prev: Option<Bytes>): Status {
    if FirstBreak(w, rows, prev).Some? then Broken else HeadStatus(w, st, key, signing, Tail(rows, prev), rows != [])
  }

  /** However the chain is cut into pages, the paged walk breaks exactly when the whole walk does, and ends
      on the same tail. When it does not break, the verdicts agree exactly when the final page has a row,
      or the head exists, or there is no row at all: a final page without rows makes a deleted head
      look like a chain that never was. */
  lemma {:induction false} PagedIsWhole(w: World, st: State, key: string, signing: bool, pages: seq<seq<Row>>, prev: Option<Bytes>)
    requires pages != []
    ensures var rows := Concat(pages);
      if FirstBreak(w, rows, prev).Some? then
        WalkPages(w, st, key, signing, pages, prev) == WholeWalk(w, st, key, signing, rows, prev) == Broken
      else
        WalkPages(w, st, key, signing, pages, prev)
        == HeadStatus(w, st, key, signing, Tail(rows, prev), pages[|pages| - 1] != [])
    decreases |pages|
  {
    hide HeadStatus, FirstBreak;
    BreakSplits(w, pages[0], Concat(pages[1..]), prev);
    if |pages| == 1 {
      EmptyUnbroken(w, Tail(pages[0], prev));
      assert Concat(pages[1..]) == [] && pages[0] + [] == pages[0];
    } else {
      PagedIsWhole(w, st, key, signing, pages[1..], Tail(pages[0], prev));
    }
  }

  lemma PagedAgreesIff(w: World, st: State, key: string, signing: bool, pages: seq<seq<Row>>, prev: Option<Bytes>)
    requires pages != [] && FirstBreak(w, Concat(pages), prev).None?
    ensures WalkPages(w, st, key, signing, pages, prev) == WholeWalk(w, st, key, signing, Concat(pages), prev)
      <==> pages[|pages| - 1] != [] || key in st.heads || Concat(pages) == []
  {
    PagedIsWhole(w, st, key, signing, pages, prev);
    if pages[|pages| - 1] != [] { LastPageCounts(pages); }
  }

  /** The failing input of "the paged walk agrees with the whole one": after one append and the deletion of its head, an
      empty last page verifies. */
  lemma DeletedHeadPasses(w: World, p: Payload, signing: bool)
    ensures var st := Append(w, Empty(), p, false).state.(heads := map[]);
      var pages := [st.rows, []];
      && Concat(pages) == Scan(st.rows, p.chainKey)
      && WalkPages(w, st, p.chainKey, signing, pages, None) == Verified
      && WholeWalk(w, st, p.chainKey, signing, Concat(pages), None) == MissingHead
  {
    var row := NextRow(w, Empty(), p);
    var st := Append(w, Empty(), p, false).state.(heads := map[]);
    assert [] + [row] == [row] == st.rows && [row][..0] == [] && [row][1..] == [];
    assert OfChain([row], p.chainKey) == [row] && Sort([row], Ts()) == [row];
    var pages := [st.rows, []];
    assert pages[1..] == [[]] && Concat([[]]) == [] && Concat(pages) == [row] + [];
    assert FirstBreak(w, [row], None).None?;
  }

  lemma {:induction false} LastPageCounts(pages: seq<seq<Row>>)
    requires pages != [] && pages[|pages| - 1] != []
    ensures Concat(pages) != []
    decreases |pages|
  {
    if |pages| > 1 { LastPageCounts(pages[1..]); }
  }

  /** Against the other verifier of the source: the paged walk from genesis over everything the full verifier looks at
      accepts exactly what that one accepts when the first row claims no predecessor. When it claims one, the full
      verifier starts from the claim and the paged walk does not, and they never both accept. The last page is not
      empty, or there is a head, or there is nothing at all: see PagedAgreesIff for that. */
  lemma PagedIsCore(w: World, st: State, key: string, limit: nat, signing: bool, pages: seq<seq<Row>>)
    requires pages != [] && Concat(pages) == Scan(st.rows, key) && |Scan(st.rows, key)| <= limit
    requires pages[|pages| - 1] != [] || key in st.heads || Concat(pages) == []
    requires var rows := Scan(st.rows, key);
      rows != [] ==> LinksApart(w, {(rows[0].payload, None), (rows[0].payload, rows[0].prevHash)})
    ensures var rows, paged, core := Scan(st.rows, key), WalkPages(w, st, key, signing, pages, None), VerifyCore(w, st, key, limit, signing);
      if rows == [] || rows[0].prevHash.None? then paged == Verified <==> core == Verified
      else !(paged == Verified && core == Verified)
  {
    var rows := Scan(st.rows, key);
    PagedIsWhole(w, st, key, signing, pages, None);
    if pages[|pages| - 1] != [] { LastPageCounts(pages); }
    if rows == [] { EmptyUnbroken(w, None); }
    hide WalkPages, Scan;
    assert Window(st.rows, key, limit) == rows;
    assert HeadStatus(w, st, key, signing, Tail(rows, None), pages[|pages| - 1] != [])
        == HeadStatus(w, st, key, signing, Tail(rows, None), rows != []);
    if rows != [] && rows[0].prevHash.Some? { OneStart(w, rows); }
    hide HeadStatus, FirstBreak, Window;
  }

  /** A first row that claims a predecessor cannot be hashed both from genesis and from its claim. */
  lemma OneStart(w: World, rows: seq<Row>)
    requires rows != [] && rows[0].prevHash.Some?
    requires LinksApart(w, {(rows[0].payload, None), (rows[0].payload, rows[0].prevHash)})
    ensures FirstBreak(w, rows, None).Some? || FirstBreak(w, rows, rows[0].prevHash).Some?
  {
    var p, q: Link := (rows[0].payload, None), (rows[0].payload, rows[0].prevHash);
    assert p in {p, q} && q in {p, q} && p != q;
  }

  // ---- the high-water mark ----

  /** Between two recordings the tables may be changed in any way at all. */
  datatype Attack = Tamper(rows: seq<Row>, heads: map<string, HeadRow>) | Recall(key: string, limit: nat, signing: bool)

  function AttackRun(w: World, st: State, steps: seq<Attack>): State
    decreases |steps|
  {
    if steps == [] then st
    else
      var next := match steps[0]
        case Tamper(rows, heads) => st.(rows := rows, heads := heads)
        case Recall(key, limit, signing) => Record(w, st, key, limit, signing);
      AttackRun(w, next, steps[1..])
  }

  /** The recorded mark never falls and never changes its hash at an equal count, whatever is done to
      receipts and heads in between. */
  lemma {:induction false} HighWaterNeverFalls(w: World, st: State, steps: seq<Attack>, key: string)
    requires key in st.highWater
    ensures var end := AttackRun(w, st, steps);
      key in end.highWater
      && (end.highWater[key] == st.highWater[key] || end.highWater[key].maxCount > st.highWater[key].maxCount)
    decreases |steps|
  {
    if steps != [] {
      var next := match steps[0]
        case Tamper(rows, heads) => st.(rows := rows, heads := heads)
        case Recall(k, limit, signing) => Record(w, st, k, limit, signing);
      HighWaterNeverFalls(w, next, steps[1..], key);
    }
  }

  /** A chain that verifies is at least as long as the mark, and the same head at the same length: after a
      rollback, a fork or an erasure no table contents verify. */
  lemma VerifiedIsAtTheMark(w: World, st: State, key: string, limit: nat, signing: bool)
    requires VerifyCore(w, st, key, limit, signing) == Verified && key in st.highWater && st.highWater[key].maxCount > 0
    ensures key in st.heads && st.heads[key].count >= st.highWater[key].maxCount
    ensures st.heads[key].count == st.highWater[key].maxCount ==> st.heads[key].lastChainHash == st.highWater[key].headHash
  {
  }
}
