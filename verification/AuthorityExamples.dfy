/** Runs from empty tables that show what the authority path allows: a write replayed under a local manifest that took a
    promoted one's id, a write under a permission no root signed, an overwrite that is never read back, and two memory
    rows that carry one receipt. */
module AuthorityExamples {
  import opened Names
  import opened RootRegistry
  import opened Authority
  import P = AuthorityReplays
  import Recall = MemoryRecall
  import R = AuthorityRuns
  import M = Manifests
  import K = Kernel

  /** A node where every signature is genuine and nothing is sacred. */
  function Everyone(): NodeEnv {
    NodeEnv(Crypto(k => true, k => k, (p, s, x) => true),
            M.Env("n", k => true, b => false, (p, b, x) => true, (p, b, x) => true, (p, s, x) => true, (p, s, x) => true,
                  (p, r, x) => true),
            K.Gate((a, r) => false, a => true, l => "t"),
            (id, useSeq) => "g")
  }

  /** No gate closes, no grant key matters, and every use is genuine. */
  ghost predicate Lenient(n: NodeEnv) {
    n.gate == Everyone().gate && n.mft.node == "n" && n.crypto == Everyone().crypto && forall p, r, x :: n.mft.signedUse(p, r, x)
  }

  function At(now: int): K.Ctx { K.Ctx(now, true) }

  function Here(): K.Ctx { At(10) }

  /** Root r lets subject s write its memory. */
  function Delegation(): M.Body {
    M.Body("m", "r", "k", "n", "s", true, "p", [Recall.WriteOf("r")], [Recall.CODEC], 1, 1000, None, None, 1)
  }

  function Asks(useSeq: nat): M.Request {
    M.Request(1, "m", "s", K.LocalWrite, WRITE, Namespace("r"), Recall.CODEC, useSeq, 10, Some("a"))
  }

  function RootKey(): KeyRow { KeyRow("r", "k", "p", "p", Active) }

  /** What a write of the delegation leaves in memory, and its receipt. */
  function RowOf(value: string, receipt: nat): MemoryRow { MemoryRow("r", "s", "m", "a", value, receipt) }

  function ReceiptOf(useSeq: nat, value: string, now: int): Receipt { R.WriteReceipt(Delegation(), "a", useSeq, value, now) }

  function WriteCall(useSeq: nat, value: string, now: int): R.Call { R.Call(R.Write(Asks(useSeq), "x", value), At(now)) }

  lemma Spelled()
    ensures NameOk("m") && NameOk("r") && NameOk("k") && NameOk("s") && NameOk("a") && ScopeOk("n")
    ensures ScopeOk(WRITE) && ScopeOk(Namespace("r")) && ScopeOk(Recall.CODEC) && CodecOk(Recall.CODEC)
  {
    assert Namespace("r") == "mem:r";
  }

  // ---- one write in such a run ----

  /** Nothing is held and every grant is used up. */
  predicate Quiet(k: K.KState) {
    !k.killSwitch && (forall key | key in k.held :: !k.held[key]) && forall g | g in k.grants :: g.status == K.GUsed
  }

  /** The delegation is in force on this row, used so many times. */
  ghost predicate InForce(s: State, table: M.Table, useSeq: nat) {
    var ref := M.Ref(table, "m");
    && ref in s.mft.rows && s.mft.rows[ref] == M.Manifest(Delegation(), s.mft.rows[ref].source, M.Live, useSeq)
    && (table == M.Cross ==> M.Ref(M.Local, "m") !in s.mft.rows && s.keys == [] && M.ForeignlySigned(s.mft, ref, 10))
    && (table == M.Local ==> s.keys == [RootKey()])
  }

  lemma {:induction false} NoCandidates(grants: seq<K.Grant>, actor: string)
    requires forall g | g in grants :: g.status == K.GUsed
    ensures K.Candidates(grants, actor) == []
    decreases |grants|
  {
    if grants != [] { NoCandidates(grants[..|grants| - 1], actor); }
  }

  lemma WriteGranted(n: NodeEnv, s: State, table: M.Table, useSeq: nat, now: int)
    requires Lenient(n) && 1 <= now <= 10
    requires Quiet(s.kernel) && InForce(s, table, useSeq) && useSeq <= 1
    ensures P.CommitsOn(n, s, M.Ref(table, "m"), Asks(useSeq), "x", At(now))
  {
    var ref, r := M.Ref(table, "m"), Asks(useSeq);
    Spelled();
    NoCandidates(s.kernel.grants, "s");
    assert M.RequestOk(r, true) && WriteShape(r);
    hide NameOk, ScopeOk, CodecOk, Namespace;
    if table == M.Local { assert s.keys[0] in s.keys && M.LocallySigned(s.keys, Delegation()); }
    assert M.Authoritative(n.mft, s.keys, s.mft, ref, r.manifestId, M.WantOf(r), r.intentCodec, now);
    assert M.UseInOrder(n.mft, s.mft.rows[ref], s.kernel.buckets, r, "x", true, now);
    hide M.Authoritative, M.UseInOrder, InForce;
    assert R.WriteOpen(n, s.kernel, Delegation(), "a", At(now));
  }

  /** Such a write commits and leaves the run as quiet as before. */
  lemma WriteCommits(n: NodeEnv, s: State, table: M.Table, useSeq: nat, value: string, now: int)
    requires Lenient(n) && 1 <= now <= 10 && Sound(n.crypto, s.keys)
    requires Quiet(s.kernel) && InForce(s, table, useSeq) && useSeq <= 1
    ensures var w := MemoryWrite(n, s, Asks(useSeq), "x", value, At(now));
      && w.Some? && Quiet(w.value.kernel) && w.value.keys == s.keys && InForce(w.value, table, useSeq + 1)
      && (M.Ref(M.Local, "m") in w.value.mft.rows <==> M.Ref(M.Local, "m") in s.mft.rows)
      && w.value.receipts == s.receipts + [ReceiptOf(useSeq, value, now)]
      && w.value.memory == s.memory + [RowOf(value, Newest(w.value.receipts, ChainKey("r", "a")).value)]
  {
    var ref, r, c := M.Ref(table, "m"), Asks(useSeq), At(now);
    WriteGranted(n, s, table, useSeq, now);
    P.CommitsExactly(n, s, ref, r, "x", value, c);
    R.WriteSpendsOne(n, s, r, "x", value, c);
    var t := MemoryWrite(n, s, r, "x", value, c).value;
    hide MemoryWrite, M.Consume, P.CommitsOn, M.Used, Newest, ChainKey;
    assert R.Spends(n, s, t, ref, r, value, c);
    assert s.mft.rows[ref].body == Delegation();
    NoCandidates(s.kernel.grants, "s");
    FreshSpent(n, s, t, ref, r, value, c);
    UsedInForce(s, t, table, useSeq, M.WantOf(r));
  }

  lemma UsedInForce(s: State, t: State, table: M.Table, useSeq: nat, want: M.Permission)
    requires InForce(s, table, useSeq) && t.keys == s.keys && t.mft == M.Used(s.mft, M.Ref(table, "m"), want)
    ensures InForce(t, table, useSeq + 1) && (M.Ref(M.Local, "m") in t.mft.rows <==> M.Ref(M.Local, "m") in s.mft.rows)
  {
  }

  /** Without an older grant the inserted one is used up. */
  lemma FreshSpent(n: NodeEnv, s: State, t: State, ref: M.Ref, r: M.Request, value: string, c: K.Ctx)
    requires ref in s.mft.rows && R.Spends(n, s, t, ref, r, value, c) && Quiet(s.kernel)
    requires K.Candidates(s.kernel.grants, s.mft.rows[ref].body.subjectId) == []
    ensures Quiet(t.kernel)
  {
    hide ChainKey, R.WriteRow, M.Used, M.PayRate, Newest;
    assert R.SpentBy(s, s.mft.rows[ref].body, c.now) == |s.kernel.grants|;
  }

  lemma RunSnoc(n: NodeEnv, s: State, calls: seq<R.Call>, call: R.Call)
    ensures R.Run(n, s, calls + [call]) == R.Step(n, R.Run(n, s, calls), call)
  {
    assert (calls + [call])[..|calls|] == calls;
  }

  // ---- a replay ----

  const PIN: (string, string, string) := ("src", "r", "k")
  const VIEW: (string, string) := ("src", "r")

  /** The delegation arrives from the node src, whose root r is pinned. */
  function Promoted(): seq<R.Call> {
    [R.Call(R.OnManifests(R.Trust(map[PIN := "p"], map[VIEW := M.View(10, {})])), Here()),
     R.Call(R.OnManifests(R.Promote(true, "src", Delegation(), Delegation().permissions, Delegation().codecs, "x", "x")), Here())]
  }

  /** The same root is born here, and mints a manifest of the same id and contents. */
  function Shadowing(): seq<R.Call> {
    [R.Call(R.OnRegistry(true, GenesisOp("r", "k", "p")), Here()),
     R.Call(R.OnManifests(R.Mint(Delegation(), "x", "x")), Here())]
  }

  lemma RunTwo(n: NodeEnv, s: State, a: R.Call, b: R.Call)
    ensures R.Run(n, s, [a, b]) == R.Step(n, R.Step(n, s, a), b)
  {
    assert [a, b] == [] + [a] + [b];
    RunSnoc(n, s, [] + [a], b);
    RunSnoc(n, s, [], a);
  }

  lemma PromotedState()
    ensures var s := R.Reached(Everyone(), Promoted());
      s == Empty().(mft := s.mft) && InForce(s, M.Cross, 0)
  {
    var n, calls := Everyone(), Promoted();
    RunTwo(n, Empty(), calls[0], calls[1]);
    var db := Empty().mft.(pins := map[PIN := "p"], views := map[VIEW := M.View(10, {})]);
    var s := Empty().(mft := db);
    assert R.Step(n, Empty(), calls[0]) == s;
    var b := Delegation();
    assert b == b.(permissions := b.permissions, codecs := b.codecs);
    assert M.Promote(n.mft, [], db, true, "src", b, b, "x", "x")
        == M.Yes(db.(rows := map[M.Ref(M.Cross, "m") := M.Manifest(b, "src", M.Live, 0)]));
  }

  /** From a state without local keys and without a local row of that id. */
  lemma ShadowedState(s: State)
    requires s.keys == [] && M.Ref(M.Local, "m") !in s.mft.rows
    ensures var u := R.Run(Everyone(), s, Shadowing());
      && u == s.(keys := u.keys, mft := u.mft) && InForce(u, M.Local, 0) && Sound(Everyone().crypto, u.keys)
  {
    var n, calls := Everyone(), Shadowing();
    RunTwo(n, s, calls[0], calls[1]);
    Spelled();
    var keys := [RootKey()];
    var s1 := R.Step(n, s, calls[0]);
    assert s1 == s.(keys := keys);
    var b := Delegation();
    assert M.BodyOk(b);
    assert FindKey(keys, "r", "k") == Some(0) by { assert keys[0] in keys; }
    hide NameOk, ScopeOk, CodecOk, Namespace;
    assert M.MintManifest(n.mft, keys, s.mft, b, "x", "x")
        == M.Yes(s.mft.(rows := s.mft.rows[M.Ref(M.Local, "m") := M.Manifest(b, "n", M.Live, 0)]));
  }

  /** The failing input of "a signed write commits at most once": the write commits under the promoted manifest, the
      local one is minted, and the identical request commits again in the same minute. */
  lemma ShadowedWriteReplays(value: string)
    ensures var n, r := Everyone(), Asks(0);
      var first := MemoryWrite(n, R.Reached(n, Promoted()), r, "x", value, Here());
      first.Some? && MemoryWrite(n, R.Run(n, first.value, Shadowing()), r, "x", value, Here()).Some?
  {
    var n, r := Everyone(), Asks(0);
    PromotedState();
    var s := R.Reached(n, Promoted());
    WriteCommits(n, s, M.Cross, 0, value, 10);
    var t := MemoryWrite(n, s, r, "x", value, Here()).value;
    hide MemoryWrite, R.Reached, R.Run;
    ShadowedState(t);
    var u := R.Run(n, t, Shadowing());
    WriteCommits(n, u, M.Local, 0, value, 10);
  }

  // ---- a permission no root signed ----

  /** The same delegation, for reading only. */
  function Watching(): M.Body { Delegation().(permissions := [M.Permission(K.Observe, "memory.read", Namespace("r"))]) }

  /** A node where the one body that was ever signed is that. */
  function Narrow(): NodeEnv {
    Everyone().(mft := Everyone().mft.(signedMint := (p, b, x) => b == Watching(), signedPop := (p, b, x) => b == Watching()))
  }

  /** Its promotion, with other permissions beside it. */
  function Widening(): seq<R.Call> {
    [R.Call(R.OnManifests(R.Trust(map[PIN := "p"], map[VIEW := M.View(10, {})])), Here()),
     R.Call(R.OnManifests(R.Promote(true, "src", Watching(), Delegation().permissions, Delegation().codecs, "x", "x")), Here())]
  }

  lemma WidenedState()
    ensures var s := R.Reached(Narrow(), Widening());
      s == Empty().(mft := s.mft) && InForce(s, M.Cross, 0)
  {
    var n, calls := Narrow(), Widening();
    RunTwo(n, Empty(), calls[0], calls[1]);
    var db := Empty().mft.(pins := map[PIN := "p"], views := map[VIEW := M.View(10, {})]);
    assert R.Step(n, Empty(), calls[0]) == Empty().(mft := db);
    var b := Delegation();
    assert b == Watching().(permissions := b.permissions, codecs := b.codecs);
    assert M.Promote(n.mft, [], db, true, "src", Watching(), b, "x", "x")
        == M.Yes(db.(rows := map[M.Ref(M.Cross, "m") := M.Manifest(b, "src", M.Live, 0)]));
  }

  /** The failing input of "every permission used was signed by the root": a memory write commits on a node where no
      signed body ever granted the permission to write. */
  lemma UnsignedPermissionWrites(value: string)
    ensures var n, r := Narrow(), Asks(0);
      && MemoryWrite(n, R.Reached(n, Widening()), r, "x", value, Here()).Some?
      && forall p, b, x :: n.mft.signedMint(p, b, x) ==> M.WantOf(r) !in b.permissions
  {
    var n := Narrow();
    WidenedState();
    WriteCommits(n, R.Reached(n, Widening()), M.Cross, 0, value, 10);
    hide MemoryWrite, R.Reached;
  }

  // ---- two writes to one key ----

  /** Two writes of two values to one key, the second at this clock reading. */
  function Twice(first: string, second: string, now: int): seq<R.Call> {
    Shadowing() + [WriteCall(0, first, 10)] + [WriteCall(1, second, now)]
  }

  /** The second row carries its own receipt unless the clock was set back. */
  function Rows(first: string, second: string, now: int): seq<MemoryRow> {
    [RowOf(first, 0)] + [RowOf(second, if now < 10 then 0 else 1)]
  }

  function TwoReceipts(first: string, second: string, now: int): seq<Receipt> {
    [ReceiptOf(0, first, 10)] + [ReceiptOf(1, second, now)]
  }

  lemma WriteSteps(n: NodeEnv, s: State, useSeq: nat, value: string, now: int)
    ensures var w := MemoryWrite(n, s, Asks(useSeq), "x", value, At(now));
      w.Some? ==> R.Step(n, s, WriteCall(useSeq, value, now)) == w.value
  {
    hide MemoryWrite;
  }

  lemma MintedHere()
    ensures var s := R.Run(Everyone(), Empty(), Shadowing());
      && s.keys == [RootKey()] && s.memory == [] && s.receipts == [] && Quiet(s.kernel)
      && InForce(s, M.Local, 0) && Sound(Everyone().crypto, s.keys)
  {
    ShadowedState(Empty());
    hide R.Run, Shadowing, Sound;
  }

  lemma NewestOfTwo(a: Receipt, b: Receipt)
    requires a.chainKey == b.chainKey
    ensures Newest([] + [a], a.chainKey) == Some(0)
    ensures Newest([] + [a] + [b], a.chainKey) == Some(if b.ts < a.ts then 0 else 1)
  {
    assert [a][..0] == [] && [a, b][..1] == [a];
    assert Newest([a], a.chainKey) == Some(0);
    assert [] + [a] == [a] && [] + [a] + [b] == [a, b];
  }

  lemma TwiceState(first: string, second: string, now: int)
    requires 1 <= now <= 10
    ensures var s := R.Reached(Everyone(), Twice(first, second, now));
      s.memory == Rows(first, second, now) && s.receipts == TwoReceipts(first, second, now) && s.keys == [RootKey()]
  {
    NewestOfTwo(ReceiptOf(0, first, 10), ReceiptOf(1, second, now));
    TwiceSpelled(first, second, now);
    hide *;
    MintedHere();
    WriteRun(Shadowing(), 0, first, 10);
    WriteRun(Shadowing() + [WriteCall(0, first, 10)], 1, second, now);
  }

  lemma TwiceSpelled(first: string, second: string, now: int)
    ensures Twice(first, second, now) == Shadowing() + [WriteCall(0, first, 10)] + [WriteCall(1, second, now)]
    ensures Rows(first, second, now) == [] + [RowOf(first, 0)] + [RowOf(second, if now < 10 then 0 else 1)]
    ensures TwoReceipts(first, second, now) == [] + [ReceiptOf(0, first, 10)] + [ReceiptOf(1, second, now)]
    ensures ReceiptOf(0, first, 10).chainKey == ReceiptOf(1, second, now).chainKey == ChainKey("r", "a")
    ensures ReceiptOf(0, first, 10).ts == 10 && ReceiptOf(1, second, now).ts == now
  {
  }

  /** A run in which the next write commits. */
  lemma WriteRun(calls: seq<R.Call>, useSeq: nat, value: string, now: int)
    requires var s := R.Run(Everyone(), Empty(), calls);
      Sound(Everyone().crypto, s.keys) && Quiet(s.kernel) && InForce(s, M.Local, useSeq) && useSeq <= 1 && 1 <= now <= 10
    ensures var s, t := R.Run(Everyone(), Empty(), calls), R.Reached(Everyone(), calls + [WriteCall(useSeq, value, now)]);
      && t == R.Run(Everyone(), Empty(), calls + [WriteCall(useSeq, value, now)])
      && Quiet(t.kernel) && InForce(t, M.Local, useSeq + 1) && t.keys == s.keys
      && t.receipts == s.receipts + [ReceiptOf(useSeq, value, now)]
      && t.memory == s.memory + [RowOf(value, Newest(t.receipts, ChainKey("r", "a")).value)]
  {
    var n, s, call := Everyone(), R.Run(Everyone(), Empty(), calls), WriteCall(useSeq, value, now);
    assert R.Reached(n, calls + [call]) == R.Run(n, Empty(), calls + [call]);
    assert Lenient(n);
    hide *;
    WriteCommits(n, s, M.Local, useSeq, value, now);
    RunSnoc(n, Empty(), calls, call);
    WriteSteps(n, s, useSeq, value, now);
  }

  /** The failing input of "each memory row carries its own receipt": two writes to one key, the second while the clock
      reads less, and both rows carry the first's receipt. */
  lemma ReceiptIsShared(first: string, second: string, now: int)
    requires 1 <= now < 10
    ensures var s := R.Reached(Everyone(), Twice(first, second, now));
      && |s.memory| == 2 && s.memory[1].value == second && s.memory[0].receipt == s.memory[1].receipt < |s.receipts|
      && s.receipts[s.memory[1].receipt].hashed == "r:a:" + first
  {
    TwiceState(first, second, now);
    hide R.Reached, Twice;
    assert "r" + ":" + "a" + ":" + first == "r:a:" + first;
  }

  /** The owner proves possession of the active root key. */
  function OwnerAsks(): Recall.Request { Recall.Request("r", "a", "r", 10) }

  /** Both writes commit, and the owner still reads the first value. */
  lemma OverwriteIsNotRecalled(first: string, second: string, now: int)
    requires 1 <= now <= 10
    ensures var n := Everyone();
      var s := R.Reached(n, Twice(first, second, now));
      && s.memory == Rows(first, second, now)
      && Recall.Recall(n, (k, r, x) => true, s, OwnerAsks(), "x", 10) == Recall.Read(first)
  {
    var n := Everyone();
    TwiceState(first, second, now);
    var s := R.Reached(n, Twice(first, second, now));
    hide R.Reached, Twice;
    Spelled();
    hide NameOk;
    FirstOfTwo(first, second, now);
    hide Recall.FirstRow;
    assert s.keys[0] in s.keys && M.ActiveKey(s.keys, "r").Some?;
  }

  lemma FirstOfTwo(first: string, second: string, now: int)
    ensures Recall.FirstRow(Rows(first, second, now), "r", "a") == Some(0)
  {
    var rows := Rows(first, second, now);
    assert rows[..1] == [rows[0]] && [rows[0]][..0] == [];
    assert Recall.FirstRow([], "r", "a").None?;
    assert Recall.FirstRow([rows[0]], "r", "a") == Some(0);
  }
}
