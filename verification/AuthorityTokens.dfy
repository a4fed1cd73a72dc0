/** What consumes a decision token, and what the operator's calls achieve. */
module AuthorityTokens {
  import opened Names
  import opened RootRegistry
  import opened Authority
  import P = AuthorityReplays
  import R = AuthorityRuns
  import M = Manifests
  import K = Kernel

  // ---- one redemption ----

  /** The token is the one minted for log row l, and its holder does with it what the row says, in time. */
  predicate Fitting(g: K.Gate, row: K.LogRow, l: nat, t: K.Presented, now: int) {
    && t.logId == l && t.sig == g.mac(l)
    && t.ring == row.intent.ring && t.action == row.intent.action && t.resource == row.intent.resource
    && (t.actor == "" || t.actor == row.actor)
    && row.ts <= now <= row.ts + if t.maxAge.Some? then t.maxAge.value else 300_000
  }

  /** The row allowed a moga intent whose token nobody has consumed. */
  predicate Unspent(row: K.LogRow) { row.allowed && row.claim == K.Moga && row.consumedAt.None? }

  /** In a sound engine a token is consumed exactly when the engine runs and has its secret, and the token presented is
      the one minted for an allowed, unconsumed moga row, by its actor or nobody named, for what the row says, in time;
      and then that row alone is marked. */
  lemma RedeemedExactly(g: K.Gate, k: K.KState, t: K.Presented, ctx: K.Ctx)
    requires K.KInv(g.sacred, k)
    ensures var u := K.Redeem(g, k, t, ctx);
      && (u.Some? <==> !K.Halts(k) && ctx.secret && t.logId < |k.logs|
                       && Fitting(g, k.logs[t.logId], t.logId, t, ctx.now) && Unspent(k.logs[t.logId]))
      && (u.Some? ==> u.value == k.(logs := u.value.logs, redeemed := k.redeemed + [t.logId])
                      && u.value.logs == k.logs[t.logId := k.logs[t.logId].(consumedAt := Some(ctx.now))])
  {
    if t.logId < |k.logs| { assert K.RowOk(g.sacred, k.grants, k.logs[t.logId]); }
    hide K.Uses, K.GrantOk, K.RedeemedOk;
  }

  // ---- over runs ----

  /** The call redeems the token of row l as it should be. */
  predicate Redeems(n: NodeEnv, s: State, call: R.Call, l: nat)
    requires l < |s.kernel.logs|
  {
    && call.op.OnKernel? && call.op.kernelOp.Redeem? && !K.Halts(s.kernel) && call.ctx.secret
    && Fitting(n.gate, s.kernel.logs[l], l, call.op.kernelOp.token, call.ctx.now) && Unspent(s.kernel.logs[l])
  }

  /** The call is a memory write that commits and logs its intent as row l. */
  predicate Writes(n: NodeEnv, s: State, call: R.Call, l: nat) {
    && call.op.Write? && l == |s.kernel.logs|
    && MemoryWrite(n, s, call.op.request, call.op.sig, call.op.value, call.ctx).Some?
  }

  /** No call but these two leaves a consumed token where there was none, or a log row that has one. */
  lemma OthersConsumeNothing(n: NodeEnv, s: State, call: R.Call)
    requires !(call.op.OnKernel? && call.op.kernelOp.Redeem?) && !call.op.Write?
    ensures var t := R.Step(n, s, call).kernel;
      s.kernel.logs <= t.logs && forall l | |s.kernel.logs| <= l < |t.logs| :: t.logs[l].consumedAt.None?
  {
    match call.op {
      case OnKernel(op) =>
        if op.Submit? { SubmitLogs(n, s.kernel, op.intent, call.ctx); }
        hide K.Submit, K.KeyAt;
      case Consume(r, x) =>
        hide M.Consume;
      case _ =>
        hide Apply, R.MftNext;
    }
  }

  lemma SubmitLogs(n: NodeEnv, k: K.KState, a: K.Args, ctx: K.Ctx)
    ensures var t := K.Submit(n.gate, k, a, ctx).0;
      k.logs <= t.logs && forall l | |k.logs| <= l < |t.logs| :: t.logs[l].consumedAt.None?
  {
    hide K.FindGrant, K.Evaluate, K.Execute, K.StateKey;
  }

  /** A step consumes the token of a row that was there exactly when it is such a redemption. A row that is new and
      already consumed is the one of a committed memory write. */
  lemma TokenSpentExactly(n: NodeEnv, calls: seq<R.Call>, call: R.Call, l: nat)
    ensures var s := R.Reached(n, calls);
      var t := R.Step(n, s, call);
      && |s.kernel.logs| <= |t.kernel.logs|
      && (l < |s.kernel.logs| && s.kernel.logs[l].consumedAt.None? ==>
            (t.kernel.logs[l].consumedAt.Some? <==> Redeems(n, s, call, l)))
      && (|s.kernel.logs| <= l < |t.kernel.logs| ==> (t.kernel.logs[l].consumedAt.Some? <==> Writes(n, s, call, l)))
  {
    R.ReachedInv(n, calls);
    StepSpendsExactly(n, R.Reached(n, calls), call, l);
    hide *;
  }

  lemma StepSpendsExactly(n: NodeEnv, s: State, call: R.Call, l: nat)
    requires R.Inv(n, s)
    ensures var t := R.Step(n, s, call);
      && |s.kernel.logs| <= |t.kernel.logs|
      && (l < |s.kernel.logs| && s.kernel.logs[l].consumedAt.None? ==>
            (t.kernel.logs[l].consumedAt.Some? <==> Redeems(n, s, call, l)))
      && (|s.kernel.logs| <= l < |t.kernel.logs| ==> (t.kernel.logs[l].consumedAt.Some? <==> Writes(n, s, call, l)))
  {
    if call.op.Write? {
      WriteSpends(n, s, call, l);
    } else if call.op.OnKernel? && call.op.kernelOp.Redeem? {
      assert R.Step(n, s, call) == s.(kernel := R.KernelNext(n, s.kernel, call.op.kernelOp, call.ctx)) by { hide R.KernelNext; }
      hide R.Step;
      RedeemedExactly(n.gate, s.kernel, call.op.kernelOp.token, call.ctx);
      hide K.Redeem, K.KInv, M.MInv, Sound, R.Coupled, Unspent, Fitting;
      if l < |s.kernel.logs| { FittingRow(n.gate, s.kernel.logs[l], l, call.op.kernelOp.token, call.ctx.now); }
    } else {
      OthersConsumeNothing(n, s, call);
      hide R.Step, R.Inv;
    }
  }

  lemma FittingRow(g: K.Gate, row: K.LogRow, l: nat, t: K.Presented, now: int)
    ensures Fitting(g, row, l, t, now) ==> t.logId == l
  {
  }

  lemma WriteSpends(n: NodeEnv, s: State, call: R.Call, l: nat)
    requires call.op.Write?
    ensures var t := R.Step(n, s, call);
      && s.kernel.logs <= t.kernel.logs
      && (|s.kernel.logs| <= l < |t.kernel.logs| ==> (t.kernel.logs[l].consumedAt.Some? <==> Writes(n, s, call, l)))
  {
    var op := call.op;
    WrittenLog(n, s, op.request, op.sig, op.value, call.ctx);
    hide MemoryWrite;
  }

  lemma WrittenLog(n: NodeEnv, s: State, r: M.Request, sig: string, value: string, ctx: K.Ctx)
    ensures var w := MemoryWrite(n, s, r, sig, value, ctx);
      w.Some? ==>
      && |w.value.kernel.logs| == |s.kernel.logs| + 1 && s.kernel.logs <= w.value.kernel.logs
      && w.value.kernel.logs[|s.kernel.logs|].consumedAt.Some?
  {
    if MemoryWrite(n, s, r, sig, value, ctx).Some? { R.WriteSpendsOne(n, s, r, sig, value, ctx); }
    hide MemoryWrite, M.Consume, WriteGrant, R.SpentBy, ChainKey, Namespace, K.SpentGrant, K.IntentOf, M.Used, M.PayRate, Newest;
  }

  /** Call k consumed the token of row l. */
  predicate SpentAt(n: NodeEnv, calls: seq<R.Call>, k: nat, l: nat) {
    && k < |calls|
    && var s := R.Reached(n, calls[..k]);
    if l < |s.kernel.logs| then Redeems(n, s, calls[k], l) else Writes(n, s, calls[k], l)
  }

  /** In every reachable state every consumed token was consumed by one call of the run: a redemption of that very token
      for what its row says, or the memory write that logged the row. */
  lemma {:induction false} TokenHasOrigin(n: NodeEnv, calls: seq<R.Call>, l: nat) returns (k: nat)
    requires l < |R.Reached(n, calls).kernel.logs| && R.Reached(n, calls).kernel.logs[l].consumedAt.Some?
    ensures SpentAt(n, calls, k, l)
    decreases |calls|
  {
    if calls != [] {
      k := |calls| - 1;
      var front := calls[..k];
      TokenSpentExactly(n, front, calls[k], l);
      assert R.Reached(n, calls) == R.Step(n, R.Reached(n, front), calls[k]) by {
        assert calls[..k + 1] == calls;
        P.ReachedNext(n, calls, k);
        hide *;
      }
      hide R.Reached, R.Step, Redeems, Writes;
      var s := R.Reached(n, front);
      if l < |s.kernel.logs| && s.kernel.logs[l].consumedAt.Some? {
        k := TokenHasOrigin(n, front, l);
        assert front[..k] == calls[..k];
      }
    }
  }

  // ---- the operator's calls ----

  /** Whoever is not the founder changes nothing by them. */
  lemma OnlyTheFounder(k: K.KState, key: string, on: bool, a: K.IssueArgs, ctx: K.Ctx)
    ensures K.RevokeGrant(k, false, key) == k && K.SetHold(k, false, on) == k && K.SetKill(k, false, on) == k
    ensures a.founder.None? ==> K.Issue(k, a, ctx).None?
  {
    hide K.KeyAt;
  }

  lemma {:induction false} KeyAtFirst(grants: seq<K.Grant>, key: string, g: nat)
    requires g < |grants| && grants[g].key == key && forall h | 0 <= h < g :: grants[h].key != key
    ensures K.KeyAt(grants, key) == Some(g)
    decreases |grants|
  {
    var n := |grants| - 1;
    if g < n {
      KeyAtFirst(grants[..n], key, g);
    } else {
      K.KeyAtComplete(grants[..n], key);
    }
  }

  /** After the founder's revocation the first grant of that key is found for nobody, in any later state. */
  lemma RevokedNeverFound(n: NodeEnv, calls: seq<R.Call>, later: seq<R.Call>, ctx: K.Ctx, key: string, g: nat, a: K.Ask, now: int)
    requires var gs := R.Reached(n, calls).kernel.grants;
      g < |gs| && gs[g].key == key && forall h | 0 <= h < g :: gs[h].key != key
    ensures var t := R.Step(n, R.Reached(n, calls), R.Call(R.OnKernel(R.RevokeGrant(true, key)), ctx));
      K.FindGrant(R.Run(n, t, later).kernel.grants, a, now) != Some(g)
  {
    var s := R.Reached(n, calls);
    var call := R.Call(R.OnKernel(R.RevokeGrant(true, key)), ctx);
    var t := R.Step(n, s, call);
    KeyAtFirst(s.kernel.grants, key, g);
    assert t.kernel.grants[g].status == K.GRevoked;
    R.ReachedInv(n, calls);
    R.StepKeeps(n, s, call);
    hide R.Step, R.Reached, R.Inv;
    R.RunKeeps(n, t, later);
    var u := R.Run(n, t, later);
    hide R.Run, Evolves, M.MEvolves, K.FindGrant;
    K.FoundExactly(u.kernel.grants, a, now, g);
    assert K.GrantAges(t.kernel.grants[g], u.kernel.grants[g]);
  }

  /** The founder's call stops the engine at once, whatever held before, and both lifted let it run. */
  lemma FounderHalts(n: NodeEnv, s: State, ctx: K.Ctx)
    ensures K.Halts(R.Step(n, s, R.Call(R.OnKernel(R.Kill(true, true)), ctx)).kernel)
    ensures K.Halts(R.Step(n, s, R.Call(R.OnKernel(R.Salama(true, true)), ctx)).kernel)
    ensures var killed := R.Step(n, s, R.Call(R.OnKernel(R.Kill(true, false)), ctx));
      !K.Halts(R.Step(n, killed, R.Call(R.OnKernel(R.Salama(true, false)), ctx)).kernel)
  {
  }

  /** The call is the founder's and takes the kill switch or the hold away. */
  predicate Lifts(call: R.Call) {
    call.op == R.OnKernel(R.Kill(true, false)) || call.op == R.OnKernel(R.Salama(true, false))
  }

  lemma HaltStepLasts(n: NodeEnv, s: State, call: R.Call)
    requires K.Halts(s.kernel) && !Lifts(call)
    ensures var t := R.Step(n, s, call);
      K.Halts(t.kernel) && t.kernel.logs == s.kernel.logs && t.kernel.redeemed == s.kernel.redeemed && t.memory == s.memory
  {
    match call.op {
      case Write(_, _, _) =>
        R.HaltIsTotal(n, s, call);
        hide R.Step;
      case OnKernel(op) =>
        hide K.KeyAt, K.Decide;
      case Consume(_, _) =>
        hide M.Consume;
      case _ =>
        hide Apply, R.MftNext;
    }
  }

  /** A stopped engine stays stopped over every run until the founder lifts what stops it: nobody else can, and
      until then no intent is logged, no token redeemed and no memory written. */
  lemma {:induction false} HaltLasts(n: NodeEnv, s: State, calls: seq<R.Call>)
    requires K.Halts(s.kernel) && forall i | 0 <= i < |calls| :: !Lifts(calls[i])
    ensures var t := R.Run(n, s, calls);
      K.Halts(t.kernel) && t.kernel.logs == s.kernel.logs && t.kernel.redeemed == s.kernel.redeemed && t.memory == s.memory
    decreases |calls|
  {
    if calls != [] {
      var k := |calls| - 1;
      HaltLasts(n, s, calls[..k]);
      HaltStepLasts(n, R.Run(n, s, calls[..k]), calls[k]);
      hide R.Step, K.Halts, Lifts;
    }
  }
}
