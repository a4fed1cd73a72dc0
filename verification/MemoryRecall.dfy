/** convex/aumlokMemory.ts: the authenticated recall of a memory value, a query that changes nothing. */
module MemoryRecall {
  import opened Names
  import opened RootRegistry
  import opened Authority
  import R = AuthorityRuns
  import M = Manifests
  import K = Kernel

  datatype Request = Request(owner: string, key: string, reader: string, timestamp: int)

  /** Did this public key sign this request in the recall domain? */
  type Signed = (string, Request, string) -> bool

  datatype Answer = Malformed | NotFound | Stale | NoActiveRootKey | CrossPrincipalRefused | ReaderUnproved | Read(value: string)

  const FRESHNESS := 60_000
  const CODEC := "json_action_v1"

  /** The first row of (owner, key), by position. */
  function FirstRow(memory: seq<MemoryRow>, owner: string, key: string): (r: Option<nat>)
    ensures r.Some? ==> r.value < |memory| && memory[r.value].owner == owner && memory[r.value].key == key
    decreases |memory|
  {
    if memory == [] then None
    else
      var n := |memory| - 1;
      var front := FirstRow(memory[..n], owner, key);
      if front.Some? then front
      else if memory[n].owner == owner && memory[n].key == key then Some(n) else None
  }

  /** aumlokMemoryRecall. */
  function Recall(n: NodeEnv, signed: Signed, s: State, r: Request, sig: string, now: int): Answer {
    if !NameOk(r.owner) || !NameOk(r.key) || !NameOk(r.reader) || !M.PosInt(r.timestamp) || sig == "" then Malformed
    else
      var at := FirstRow(s.memory, r.owner, r.key);
      if at.None? then NotFound
      else if now - r.timestamp > FRESHNESS || r.timestamp - now > FRESHNESS then Stale
      else
        var row := s.memory[at.value];
        if r.reader == r.owner then
          var k := M.ActiveKey(s.keys, r.owner);
          if k.None? then NoActiveRootKey
          else if signed(s.keys[k.value].publicKey, r, sig) then Read(row.value)
          else ReaderUnproved
        else if r.reader == row.writer then
          match M.Resolve(n.mft, s.keys, s.mft, row.manifestId, WriteOf(r.owner), CODEC, now)
          case No(_) => CrossPrincipalRefused
          case Yes(ref) =>
            if signed(s.mft.rows[ref].body.subjectPubKey, r, sig) then Read(row.value) else ReaderUnproved
        else CrossPrincipalRefused
  }

  lemma {:induction false} FirstRowStays(a: seq<MemoryRow>, b: seq<MemoryRow>, owner: string, key: string)
    requires a <= b && FirstRow(a, owner, key).Some?
    ensures FirstRow(b, owner, key) == FirstRow(a, owner, key)
    decreases |b|
  {
    if |a| < |b| {
      FirstRowStays(a, b[..|b| - 1], owner, key);
    } else {
      assert a == b;
    }
  }

  /** The reader proves to be the owner, under the root's active key, or the row's writer, under the live manifest. */
  ghost predicate Proven(n: NodeEnv, signed: Signed, s: State, r: Request, sig: string, now: int, row: MemoryRow) {
    if r.reader == r.owner then
      exists k :: k in s.keys && k.rootId == r.owner && k.status == Active && signed(k.publicKey, r, sig)
    else
      r.reader == row.writer
      && exists ref :: ref in s.mft.rows
           && M.Authoritative(n.mft, s.keys, s.mft, ref, row.manifestId, WriteOf(r.owner), CODEC, now)
           && signed(s.mft.rows[ref].body.subjectPubKey, r, sig)
  }

  function WriteOf(owner: string): M.Permission { M.Permission(K.LocalWrite, WRITE, Namespace(owner)) }

  /** Recall gives a value exactly for a well-formed fresh request of a proven reader, and it is that of the first row. */
  lemma RecallExactly(n: NodeEnv, signed: Signed, s: State, r: Request, sig: string, now: int, value: string)
    requires Sound(n.crypto, s.keys)
    ensures Recall(n, signed, s, r, sig, now) == Read(value)
      <==> && NameOk(r.owner) && NameOk(r.key) && NameOk(r.reader) && M.PosInt(r.timestamp) && sig != ""
           && -60_000 <= now - r.timestamp <= 60_000
           && var at := FirstRow(s.memory, r.owner, r.key);
           at.Some? && s.memory[at.value].value == value && Proven(n, signed, s, r, sig, now, s.memory[at.value])
  {
    hide NameOk, FirstRow;
    var at := FirstRow(s.memory, r.owner, r.key);
    if at.Some? {
      ReaderExactly(n, signed, s, r, sig, now, s.memory[at.value]);
      hide Proven, M.Resolve, M.ActiveKey;
    }
  }

  /** The reader's branch of a recall. */
  lemma ReaderExactly(n: NodeEnv, signed: Signed, s: State, r: Request, sig: string, now: int, row: MemoryRow)
    requires Sound(n.crypto, s.keys)
    ensures Proven(n, signed, s, r, sig, now, row)
      <==> if r.reader == r.owner then
             var k := M.ActiveKey(s.keys, r.owner);
             k.Some? && signed(s.keys[k.value].publicKey, r, sig)
           else
             var a := M.Resolve(n.mft, s.keys, s.mft, row.manifestId, WriteOf(r.owner), CODEC, now);
             r.reader == row.writer && a.Yes? && signed(s.mft.rows[a.value].body.subjectPubKey, r, sig)
  {
    if r.reader == r.owner {
      OneActive(n.crypto, s.keys, r.owner);
    } else {
      forall ref
        ensures var a := M.Resolve(n.mft, s.keys, s.mft, row.manifestId, WriteOf(r.owner), CODEC, now);
          (a.Yes? && a.value == ref)
          <==> (ref in s.mft.rows && M.Authoritative(n.mft, s.keys, s.mft, ref, row.manifestId, WriteOf(r.owner), CODEC, now))
      {
        M.ResolveExactly(n.crypto, n.mft, s.keys, s.mft, ref, row.manifestId, WriteOf(r.owner), CODEC, now);
      }
      hide M.Resolve, M.Authoritative, Sound;
    }
  }

  /** The active key found is the only one there is. */
  lemma OneActive(c: Crypto, keys: Keys, owner: string)
    requires Sound(c, keys)
    ensures var at := M.ActiveKey(keys, owner);
      && (at.Some? ==> keys[at.value] in keys)
      && forall k | k in keys && k.rootId == owner && k.status == Active :: at.Some? && k == keys[at.value]
  {
    var at := M.ActiveKey(keys, owner);
    hide M.ActiveKey;
    forall k | k in keys && k.rootId == owner && k.status == Active
      ensures at.Some? && k == keys[at.value]
    {
      var i :| 0 <= i < |keys| && keys[i] == k;
    }
  }

  /** Writes only add rows and recall reads the oldest, so the value once read for a key is the only one ever read. */
  lemma RecallNeverSeesOverwrite(n: NodeEnv, signed: Signed, calls: seq<R.Call>, later: seq<R.Call>,
                                 r: Request, sig: string, now: int, r2: Request, sig2: string, now2: int)
    requires r2.owner == r.owner && r2.key == r.key
    ensures var a := R.Reached(n, calls);
      var x, y := Recall(n, signed, a, r, sig, now), Recall(n, signed, R.Run(n, a, later), r2, sig2, now2);
      x.Read? && y.Read? ==> x == y
  {
    var a := R.Reached(n, calls);
    var b := R.Run(n, a, later);
    MemoryStays(n, calls, later);
    hide *;
    ReadIsFirst(n, signed, a, r, sig, now);
    ReadIsFirst(n, signed, b, r2, sig2, now2);
    if FirstRow(a.memory, r.owner, r.key).Some? { FirstRowStays(a.memory, b.memory, r.owner, r.key); }
  }

  lemma MemoryStays(n: NodeEnv, calls: seq<R.Call>, later: seq<R.Call>)
    ensures var a := R.Reached(n, calls);
      a.memory <= R.Run(n, a, later).memory && Evolves(a.keys, R.Run(n, a, later).keys)
  {
    R.ReachedInv(n, calls);
    R.RunKeeps(n, R.Reached(n, calls), later);
    hide R.Reached, R.Run, R.Inv, Evolves, M.MEvolves, K.KEvolves;
  }

  /** A value written is the one recalled, then and in every later state, exactly when before the write the key had no
      row or its first row already held that value. */
  lemma WrittenIsRecalledExactly(n: NodeEnv, signed: Signed, calls: seq<R.Call>, later: seq<R.Call>, q: M.Request, qsig: string,
                                 value: string, ctx: K.Ctx, r: Request, sig: string, now: int)
    requires MemoryWrite(n, R.Reached(n, calls), q, qsig, value, ctx).Some?
    ensures var s := R.Reached(n, calls);
      var t := MemoryWrite(n, s, q, qsig, value, ctx).value;
      var before, x := FirstRow(s.memory, r.owner, r.key), Recall(n, signed, R.Run(n, t, later), r, sig, now);
      && |t.memory| == |s.memory| + 1
      && var written := t.memory[|s.memory|];
      written.value == value
      && (written.owner == r.owner && written.key == r.key && x.Read? ==>
           (x == Read(value) <==> before.None? || s.memory[before.value].value == value))
  {
    var s := R.Reached(n, calls);
    var t := MemoryWrite(n, s, q, qsig, value, ctx).value;
    var u := R.Run(n, t, later);
    WrittenRow(n, calls, later, q, qsig, value, ctx);
    hide *;
    var row := t.memory[|s.memory|];
    if row.owner == r.owner && row.key == r.key {
      FirstRowSnoc(s.memory, row);
      FirstRowStays(t.memory, u.memory, r.owner, r.key);
      ReadIsFirst(n, signed, u, r, sig, now);
    }
  }

  /** A committed write adds one row with its value, for good. */
  lemma WrittenRow(n: NodeEnv, calls: seq<R.Call>, later: seq<R.Call>, q: M.Request, qsig: string, value: string, ctx: K.Ctx)
    requires MemoryWrite(n, R.Reached(n, calls), q, qsig, value, ctx).Some?
    ensures var s := R.Reached(n, calls);
      var t := MemoryWrite(n, s, q, qsig, value, ctx).value;
      && |t.memory| == |s.memory| + 1 && t.memory == s.memory + [t.memory[|s.memory|]]
      && t.memory[|s.memory|].value == value && t.memory <= R.Run(n, t, later).memory
  {
    var s := R.Reached(n, calls);
    var t := MemoryWrite(n, s, q, qsig, value, ctx).value;
    R.ReachedInv(n, calls);
    R.WriteSpendsOne(n, s, q, qsig, value, ctx);
    R.WriteKeeps(n, s, q, qsig, value, ctx);
    R.RunKeeps(n, t, later);
    hide MemoryWrite, M.Consume, R.Reached, R.Run, R.Inv;
  }

  lemma FirstRowSnoc(memory: seq<MemoryRow>, row: MemoryRow)
    ensures var before := FirstRow(memory, row.owner, row.key);
      FirstRow(memory + [row], row.owner, row.key) == if before.Some? then before else Some(|memory|)
  {
    assert (memory + [row])[..|memory|] == memory;
  }

  lemma ReadIsFirst(n: NodeEnv, signed: Signed, s: State, r: Request, sig: string, now: int)
    ensures var x, at := Recall(n, signed, s, r, sig, now), FirstRow(s.memory, r.owner, r.key);
      x.Read? ==> at.Some? && x == Read(s.memory[at.value].value)
  {
    hide NameOk, FirstRow, M.Resolve, M.ActiveKey;
  }

  /** Revocation severs the readers for good: a root without an active key reads nothing of its own, and the writer
      reads nothing through a manifest of the row's id that is signed under a revoked local key. */
  lemma RevocationSeversReaders(n: NodeEnv, signed: Signed, calls: seq<R.Call>, later: seq<R.Call>, i: nat,
                                r: Request, sig: string, now: int)
    ensures var a := R.Reached(n, calls);
      var b := R.Run(n, a, later);
      var x := Recall(n, signed, b, r, sig, now);
      && (Dead(a.keys, r.owner) && r.reader == r.owner ==> !x.Read?)
      && (i < |a.keys| && a.keys[i].status == Revoked && r.reader != r.owner && x.Read? ==>
           exists ref :: ref in b.mft.rows && ref.id == b.memory[FirstRow(b.memory, r.owner, r.key).value].manifestId
             && !R.SignedUnder(b.mft.rows[ref].body, a.keys[i]) && signed(b.mft.rows[ref].body.subjectPubKey, r, sig))
  {
    var a := R.Reached(n, calls);
    var b := R.Run(n, a, later);
    MemoryStays(n, calls, later);
    DeadHasNoActive(a.keys, b.keys, r.owner);
    hide R.Reached, R.Run, NameOk, Evolves, M.ActiveKey;
    if i < |a.keys| && a.keys[i].status == Revoked && r.reader != r.owner && Recall(n, signed, b, r, sig, now).Read? {
      var row := b.memory[FirstRow(b.memory, r.owner, r.key).value];
      var want := WriteOf(r.owner);
      var ref := M.Resolve(n.mft, b.keys, b.mft, row.manifestId, want, CODEC, now);
      R.RevocationIsFinal(n, calls, later, i, ref.value, row.manifestId, want, CODEC, now);
      hide *;
      assert !R.SignedUnder(b.mft.rows[ref.value].body, a.keys[i]);
    }
    hide R.Reached, R.Run, R.Inv, R.Wears, M.Resolve, NameOk, FirstRow, Evolves;
  }

  lemma DeadHasNoActive(a: Keys, b: Keys, owner: string)
    requires Evolves(a, b)
    ensures Dead(a, owner) ==> M.ActiveKey(b, owner).None?
  {
    var at := M.ActiveKey(b, owner);
    assert at.Some? ==> b[at.value] in b;
    assert Dead(a, owner) ==> Dead(b, owner);
  }
}
