/** Who ends a manifest, and where the receipts came from. */
module AuthorityLedger {
  import opened Names
  import opened RootRegistry
  import opened Authority
  import P = AuthorityReplays
  import R = AuthorityRuns
  import M = Manifests
  import K = Kernel

  // ---- the status of a manifest ----

  /** The call is a well-formed statement about this local manifest, which is not revoked yet, signed by its root's active
      key or by its subject. */
  ghost predicate Ends(n: NodeEnv, s: State, call: R.Call, ref: M.Ref)
    requires ref in s.mft.rows
  {
    var b := s.mft.rows[ref].body;
    && call.op.OnManifests? && ref.table == M.Local && s.mft.rows[ref].status != M.MRevoked
    && match call.op.mftOp {
         case RevokeByRoot(st, x) =>
           && st.manifestId == ref.id && M.StatementOk(st) && st.revoke && x != ""
           && exists k :: k in s.keys && k.rootId == b.rootId && k.status == Active && n.mft.signedRevoke(k.publicKey, st, x)
         case RevokeBySubject(st, x) =>
           st.manifestId == ref.id && M.StatementOk(st) && x != "" && n.mft.signedSelf(b.subjectPubKey, st, x)
         case _ => false
       }
  }

  /** A subject may pause instead of revoking. */
  function Ended(op: R.MftOp): M.MStatus
    requires op.RevokeByRoot? || op.RevokeBySubject?
  {
    if op.RevokeBySubject? && !op.statement.revoke then M.Paused else M.MRevoked
  }

  /** The root's active key is unique, so looking for the first one finds the signer. */
  lemma ActiveKeyExactly(c: Crypto, keys: Keys, rootId: string, k: KeyRow)
    requires Sound(c, keys) && k in keys && k.rootId == rootId && k.status == Active
    ensures M.ActiveKey(keys, rootId).Some? && keys[M.ActiveKey(keys, rootId).value] == k
  {
    var at := M.ActiveKey(keys, rootId);
    hide M.ActiveKey;
    assert at.Some?;
    var i :| 0 <= i < |keys| && keys[i] == k;
    OneActive(c, keys, at.value, i);
  }

  lemma OneActive(c: Crypto, keys: Keys, i: nat, j: nat)
    requires Sound(c, keys) && i < |keys| && j < |keys| && keys[i].rootId == keys[j].rootId
    requires keys[i].status == keys[j].status == Active
    ensures i == j
  {
  }

  lemma RootEnds(n: NodeEnv, s: State, call: R.Call, ref: M.Ref)
    requires Sound(n.crypto, s.keys) && ref in s.mft.rows && call.op.OnManifests? && call.op.mftOp.RevokeByRoot?
    ensures var t := R.MftNext(n, s.keys, s.mft, call.op.mftOp);
      ref in t.rows && t.rows[ref].status == if Ends(n, s, call, ref) then M.MRevoked else s.mft.rows[ref].status
  {
    var root := s.mft.rows[ref].body.rootId;
    var at := M.ActiveKey(s.keys, root);
    if at.Some? { assert s.keys[at.value] in s.keys; }
    hide M.ActiveKey, Sound, M.StatementOk;
    forall k | k in s.keys && k.rootId == root && k.status == Active
      ensures at.Some? && s.keys[at.value] == k
    {
      ActiveKeyExactly(n.crypto, s.keys, root, k);
    }
  }

  lemma MftStatus(n: NodeEnv, s: State, call: R.Call, ref: M.Ref)
    requires Sound(n.crypto, s.keys) && ref in s.mft.rows && call.op.OnManifests?
    ensures var t := R.MftNext(n, s.keys, s.mft, call.op.mftOp);
      ref in t.rows && t.rows[ref].status == if Ends(n, s, call, ref) then Ended(call.op.mftOp) else s.mft.rows[ref].status
  {
    if call.op.mftOp.RevokeByRoot? { RootEnds(n, s, call, ref); }
    hide M.BodyOk, M.StatementOk, FindKey, M.ActiveKey, RootKnown, Sound;
  }

  lemma OtherStatus(n: NodeEnv, s: State, call: R.Call, ref: M.Ref)
    requires ref in s.mft.rows && !call.op.OnManifests?
    ensures var t := R.Step(n, s, call); ref in t.mft.rows && t.mft.rows[ref].status == s.mft.rows[ref].status
  {
    match call.op {
      case Write(r, x, v) =>
        WrittenStatus(n, s, r, x, v, call.ctx, ref);
        hide MemoryWrite;
      case Consume(r, x) =>
        ConsumedStatus(n, s, r, x, call.ctx.now, ref);
        hide R.ConsumeNext;
      case _ =>
        hide R.KernelNext, Apply;
    }
  }

  lemma WrittenStatus(n: NodeEnv, s: State, r: M.Request, sig: string, value: string, ctx: K.Ctx, ref: M.Ref)
    requires ref in s.mft.rows
    ensures var w := MemoryWrite(n, s, r, sig, value, ctx);
      w.Some? ==> ref in w.value.mft.rows && w.value.mft.rows[ref].status == s.mft.rows[ref].status
  {
    if MemoryWrite(n, s, r, sig, value, ctx).Some? { R.WriteSpendsOne(n, s, r, sig, value, ctx); }
    hide MemoryWrite, M.Consume, R.WriteRow, WriteGrant, R.SpentBy, ChainKey, Newest;
  }

  lemma ConsumedStatus(n: NodeEnv, s: State, r: M.Request, sig: string, now: int, ref: M.Ref)
    requires ref in s.mft.rows
    ensures var t := R.ConsumeNext(n, s, r, sig, now);
      ref in t.mft.rows && t.mft.rows[ref].status == s.mft.rows[ref].status
  {
    hide M.Resolve, M.PayRate, M.RequestOk;
  }

  /** In every run a manifest's status moves exactly by a statement that its root's active key or its subject signed, to
      what the statement says. */
  lemma StatusMovesExactly(n: NodeEnv, calls: seq<R.Call>, call: R.Call, ref: M.Ref)
    requires ref in R.Reached(n, calls).mft.rows
    ensures var s := R.Reached(n, calls);
      var t := R.Step(n, s, call);
      ref in t.mft.rows
      && t.mft.rows[ref].status == if Ends(n, s, call, ref) then Ended(call.op.mftOp) else s.mft.rows[ref].status
  {
    var s := R.Reached(n, calls);
    R.ReachedInv(n, calls);
    hide R.Reached, Ends;
    if call.op.OnManifests? {
      MftStatus(n, s, call, ref);
      hide R.MftNext;
    } else {
      OtherStatus(n, s, call, ref);
      NeverEnds(n, s, call, ref);
      hide R.Step;
    }
  }

  lemma NeverEnds(n: NodeEnv, s: State, call: R.Call, ref: M.Ref)
    requires ref in s.mft.rows && !call.op.OnManifests?
    ensures !Ends(n, s, call, ref)
  {
  }

  /** So nothing on this node ever ends a promoted manifest: only its origin's revocation view does. */
  lemma {:induction false} PromotedStaysLive(n: NodeEnv, calls: seq<R.Call>, ref: M.Ref)
    requires ref.table == M.Cross && ref in R.Reached(n, calls).mft.rows
    ensures R.Reached(n, calls).mft.rows[ref].status == M.Live
    decreases |calls|
  {
    P.NotEmptyRun(n, calls, ref);
    var j := |calls| - 1;
    var front := calls[..j];
    assert calls[..j + 1] == calls;
    P.ReachedNext(n, calls, j);
    hide R.Reached, R.Step;
    var s := R.Reached(n, front);
    if ref in s.mft.rows {
      PromotedStaysLive(n, front, ref);
      StatusMovesExactly(n, front, calls[j], ref);
    } else {
      NewRowLive(n, s, calls[j], ref);
    }
  }

  lemma NewRowLive(n: NodeEnv, s: State, call: R.Call, ref: M.Ref)
    requires ref !in s.mft.rows && ref in R.Step(n, s, call).mft.rows
    ensures R.Step(n, s, call).mft.rows[ref].status == M.Live
  {
    if !call.op.OnManifests? { P.OnlyMftAddsRows(n, s, call); }
    assert R.Step(n, s, call).mft == R.MftNext(n, s.keys, s.mft, call.op.mftOp) by { hide R.MftNext; }
    hide R.Step;
    P.NewMftRow(n, s.keys, s.mft, call.op.mftOp, ref);
  }

  // ---- receipts ----

  /** The chains a protected action may not write to, in words. */
  lemma ReservedChainExactly(ck: string)
    ensures ReservedChain(ck) <==> exists p: string :: ck == p + ":rev" || ck == "id:" + p || ck == "mft:" + p
  {
    if ReservedChain(ck) {
      if |ck| >= 4 && ck[|ck| - 4..] == ":rev" {
        assert ck == ck[..|ck| - 4] + ":rev";
      } else if ck[..3] == "id:" {
        assert ck == "id:" + ck[3..];
      } else {
        assert ck == "mft:" + ck[4..];
      }
    }
    forall p: string | ck == p + ":rev" || ck == "id:" + p || ck == "mft:" + p
      ensures ReservedChain(ck)
    {
      if ck == p + ":rev" { assert ck[|ck| - 4..] == ":rev"; }
      if ck == "id:" + p { assert ck[..3] == "id:"; }
      if ck == "mft:" + p { assert ck[..4] == "mft:"; }
    }
  }

  /** The call writes this receipt: the memory write it belongs to; or another action, off the reserved chains and under an
      intent whose token was consumed; or an import, which begins a chain. */
  predicate Wrote(n: NodeEnv, s: State, call: R.Call, x: Receipt) {
    match call.op
    case Write(r, sig, value) =>
      MemoryWrite(n, s, r, sig, value, call.ctx).Some? && MemoryWrite(n, s, r, sig, value, call.ctx).value.receipts == s.receipts + [x]
    case Note(r, logId) =>
      !ReservedChain(x.chainKey) && logId < |s.kernel.logs| && s.kernel.logs[logId].consumedAt.Some? && x == r.(ts := call.ctx.now)
    case Bring(r) => x == r && forall y | y in s.receipts :: y.chainKey != x.chainKey
    case _ => false
  }

  lemma ReceiptsGrow(n: NodeEnv, s: State, call: R.Call)
    ensures var t := R.Step(n, s, call).receipts;
      t == s.receipts || (|t| == |s.receipts| + 1 && s.receipts <= t && Wrote(n, s, call, t[|s.receipts|]))
  {
    if call.op.Write? {
      WriteGrows(n, s, call);
    } else {
      hide M.Consume, MemoryWrite, R.KernelNext, R.MftNext, Apply, ReservedChain;
    }
  }

  lemma WriteGrows(n: NodeEnv, s: State, call: R.Call)
    requires call.op.Write?
    ensures var t := R.Step(n, s, call).receipts;
      t == s.receipts || (|t| == |s.receipts| + 1 && s.receipts <= t && Wrote(n, s, call, t[|s.receipts|]))
  {
    hide MemoryWrite;
    var op := call.op;
    if MemoryWrite(n, s, op.request, op.sig, op.value, call.ctx).Some? { WroteReceipt(n, s, op.request, op.sig, op.value, call.ctx); }
  }

  lemma WroteReceipt(n: NodeEnv, s: State, r: M.Request, sig: string, value: string, ctx: K.Ctx)
    requires MemoryWrite(n, s, r, sig, value, ctx).Some?
    ensures var t := MemoryWrite(n, s, r, sig, value, ctx).value.receipts;
      |t| == |s.receipts| + 1 && t == s.receipts + [t[|s.receipts|]]
  {
    R.WriteSpendsOne(n, s, r, sig, value, ctx);
    hide MemoryWrite, M.Consume, R.WriteRow, WriteGrant, R.SpentBy, ChainKey, M.Used, Newest;
  }

  /** In every reachable state every receipt was written by one call of the run, in one of those three ways. */
  lemma {:induction false} ReceiptHasOrigin(n: NodeEnv, calls: seq<R.Call>, i: nat) returns (k: nat)
    requires i < |R.Reached(n, calls).receipts|
    ensures k < |calls|
    ensures var s := R.Reached(n, calls[..k]);
      |s.receipts| == i && Wrote(n, s, calls[k], R.Reached(n, calls).receipts[i])
    decreases |calls|
  {
    EmptyHasNone(n, calls);
    k := |calls| - 1;
    var front := calls[..k];
    assert calls[..k + 1] == calls;
    P.ReachedNext(n, calls, k);
    hide R.Reached, R.Step, Wrote;
    ReceiptsGrow(n, R.Reached(n, front), calls[k]);
    if i < |R.Reached(n, front).receipts| {
      k := ReceiptHasOrigin(n, front, i);
      assert front[..k] == calls[..k];
    }
  }

  lemma EmptyHasNone(n: NodeEnv, calls: seq<R.Call>)
    ensures R.Reached(n, calls).receipts != [] ==> calls != []
  {
  }
}
