/** What every run of the witness keeps, whatever events it is fed. */
module WitnessRuns {
  import opened Hashing
  import opened Witness
  import MerkleLog
  import MerkleProofs
  import MerkleTheorems

  // ---- safety: marks only move forward ----

  /** b may follow a: same baseline, no smaller, and the same head at the same size. */
  predicate Follows(a: Mark, b: Mark) {
    a.baseline == b.baseline && a.size <= b.size
    && (a.size == b.size ==> a.root == b.root && a.headHash == b.headHash)
  }

  /** A step changes a mark only through an accepted observation of that key. */
  lemma StepMarks(w: World, st: State, a: Action, now: int, key: Key)
    requires key in st.marks
    ensures var st' := Step(w, st, a, now).0;
      key in st'.marks && Follows(st.marks[key], st'.marks[key])
  {
  }

  /** Over any run: a mark never disappears, never shrinks, never changes its baseline, and two different
      (root, headHash) pairs are never accepted at one size. */
  lemma {:induction false} MarksOnlyAdvance(w: World, st: State, events: seq<Event>, key: Key)
    requires key in st.marks
    ensures var end := Run(w, st, events);
      key in end.marks && Follows(st.marks[key], end.marks[key])
    decreases |events|
  {
    if events != [] {
      StepMarks(w, st, events[0].action, events[0].at, key);
      MarksOnlyAdvance(w, Step(w, st, events[0].action, events[0].at).0, events[1..], key);
    }
  }

  /** Findings are only ever added. */
  lemma {:induction false} FindingsOnlyGrow(w: World, st: State, events: seq<Event>)
    ensures st.findings <= Run(w, st, events).findings
    decreases |events|
  {
    if events != [] {
      FindingsOnlyGrow(w, Step(w, st, events[0].action, events[0].at).0, events[1..]);
    }
  }

  // ---- safety: what a finding shows ----

  /** The pinned key of this peer signed the head, for this chain. */
  predicate SignedFor(w: World, pins: map<(string, string), Bytes>, key: Key, head: SignedHead) {
    (key.peer, key.kid) in pins && w.headSigned(pins[(key.peer, key.kid)], head) && w.chainId(head.chainKey) == key.chainId
  }

  /** The stored head is the one the mark speaks of. */
  predicate ShowsHead(m: Mark) { m.head.size == m.size && m.head.root == m.root && m.head.headHash == m.headHash }

  /** Two heads no append-only log has both. */
  predicate Contradict(a: SignedHead, b: SignedHead) { a.size == b.size && (a.root != b.root || a.headHash != b.headHash) }

  /** What the kind of a finding says of its two heads. Two heads of one honestly growing log can meet the first and the
      last. */
  predicate AsKind(f: Finding) {
    match f.kind
    case Regression => f.headB.size < f.headA.size
    case Fork => Contradict(f.headA, f.headB)
    case Rewrite => f.headB.size > f.headA.size
  }

  /** Every mark shows a head its peer signed, and every finding two of them. */
  predicate Evident(w: World, st: State) {
    && (forall key | key in st.marks :: ShowsHead(st.marks[key]) && SignedFor(w, st.pins, key, st.marks[key].head))
    && (forall f | f in st.findings ::
          SignedFor(w, st.pins, f.key, f.headA) && SignedFor(w, st.pins, f.key, f.headB) && AsKind(f))
  }

  lemma GateSigned(w: World, pins: map<(string, string), Bytes>, env: Envelope)
    ensures var g := CheckGates(w, pins, env); g.Pass? ==> SignedFor(w, pins, g.key, g.head)
  {
  }

  /** What one observation can write: the mark of its own chain, with the head observed, or a finding that pairs the
      mark's head with the one observed. */
  lemma ObserveWrites(w: World, st: State, env: Envelope, proof: Option<seq<Bytes>>, digest: Option<Bytes>, now: int)
    ensures var st', g := Observe(w, st, env, proof, digest, now).0, CheckGates(w, st.pins, env);
      && st'.pins == st.pins && (g.Stop? ==> st' == st)
      && (g.Pass? ==>
           var m, f := if g.key in st'.marks then Some(st'.marks[g.key]) else None,
                       if st'.findings != [] then Some(st'.findings[|st'.findings| - 1]) else None;
           || st' == st
           || (m.Some? && ShowsHead(m.value) && m.value.head == g.head && st' == st.(marks := st.marks[g.key := m.value]))
           || (f.Some? && f.value.key == g.key && g.key in st.marks && f.value.headA == st.marks[g.key].head && f.value.headB == g.head
               && (ShowsHead(st.marks[g.key]) ==> AsKind(f.value)) && st' == st.(findings := st.findings + [f.value])))
  {
    hide CheckGates, MerkleProofs.VerifyConsistency, MerkleProofs.AllDigests;
  }

  lemma ObserveEvident(w: World, st: State, env: Envelope, proof: Option<seq<Bytes>>, digest: Option<Bytes>, now: int)
    requires Evident(w, st)
    ensures Evident(w, Observe(w, st, env, proof, digest, now).0)
  {
    ObserveWrites(w, st, env, proof, digest, now);
    GateSigned(w, st.pins, env);
    hide Observe, CheckGates, SignedFor, ShowsHead, AsKind;
  }

  /** A pin is never overwritten. */
  lemma StepPins(w: World, st: State, a: Action, now: int)
    ensures forall id | id in st.pins :: id in Step(w, st, a, now).0.pins && Step(w, st, a, now).0.pins[id] == st.pins[id]
  {
    hide CheckGates, MerkleProofs.VerifyConsistency, MerkleProofs.AllDigests;
  }

  /** A peer's key is pinned exactly by the first call that names it. */
  lemma PinnedExactly(w: World, st: State, a: Action, now: int)
    ensures Step(w, st, a, now).0.pins
      == if a.PinTrust? && (a.peer, a.kid) !in st.pins then st.pins[(a.peer, a.kid) := a.publicKey] else st.pins
  {
    hide CheckGates, MerkleProofs.VerifyConsistency, MerkleProofs.AllDigests, Deliver;
  }

  lemma StepEvident(w: World, st: State, a: Action, now: int)
    requires Evident(w, st)
    ensures Evident(w, Step(w, st, a, now).0)
  {
    StepPins(w, st, a, now);
    if !(a.PinTrust? || a.PinChannel? || a.UnpinChannel?) {
      var d := Deliver(w, st.channelPins, a);
      if d.Delivered? { ObserveEvident(w, st, d.env, d.proof, d.digest, now); }
      hide Observe, Deliver, Evident;
    }
  }

  /** Over any run from an evident state, so from the empty one: each mark shows a head signed under the pinned key, and
      each finding pairs such a head with a second one signed under the same key, for a fork one that contradicts it, for
      a regression a smaller one, for a rewrite a larger one. That only a fork convicts: HonestHeadExactly. */
  lemma {:induction false} FindingsAreEvidence(w: World, st: State, events: seq<Event>)
    requires Evident(w, st)
    ensures Evident(w, Run(w, st, events))
    decreases |events|
  {
    if events != [] {
      StepEvident(w, st, events[0].action, events[0].at);
      hide Evident, Step;
      FindingsAreEvidence(w, Step(w, st, events[0].action, events[0].at).0, events[1..]);
    }
  }

  // ---- completeness: every contradiction is caught ----

  /** The head of the envelope, as far as it has one. */
  predicate Carries(env: Envelope, key: Key, chainKey: string, d: SignedHead) {
    && env.Envelope? && env.envelopeVersion == "env-v1" && env.surface == "receipt-head" && env.headVersion == "v4"
    && env.head == Head(Some(key.peer), Some(key.kid), Some(chainKey), Some(d.size), d.root, d.headHash, d.signedAt, Some(d.sig))
    && d.chainKey == chainKey
  }

  /** What a head must be to be looked at: exported, of two digests, signed under a pinned key; and the witness can sign. */
  predicate Presentable(w: World, pins: map<(string, string), Bytes>, env: Envelope, key: Key, d: SignedHead) {
    && Carries(env, key, d.chainKey, d) && w.exportOk(env) && w.seedSet
    && |d.root| == HASH_SIZE && |d.headHash| == HASH_SIZE && SignedFor(w, pins, key, d)
  }

  lemma GatesExactly(w: World, pins: map<(string, string), Bytes>, env: Envelope, key: Key, d: SignedHead)
    ensures CheckGates(w, pins, env) == Pass(key, d) <==> Presentable(w, pins, env, key, d)
  {
  }

  /** A proof the core looks at. */
  ghost predicate WellFormed(proof: Option<seq<Bytes>>) { proof.Some? && proof.value != [] && MerkleProofs.AllDigests(proof.value) }

  /** What this head, with this proof, is against the mark. */
  ghost function Offence(w: World, m: Mark, d: SignedHead, proof: Option<seq<Bytes>>): Option<FindingKind> {
    if d.size < m.size then Some(Regression)
    else if d.size == m.size && (d.root != m.root || d.headHash != m.headHash) then Some(Fork)
    else if d.size > m.size && WellFormed(proof)
         && !MerkleProofs.VerifyConsistency(w.h, m.size, d.size, proof.value, m.root, d.root) then Some(Rewrite)
    else None
  }

  /** The findings grow exactly when a presentable head of a marked chain is smaller than the one held, contradicts it at
      its size, or is larger with a well-formed proof that fails. Then the head is refused as that, the finding pairs it
      with the one held, and no mark moves. */
  lemma OffenceIsRecorded(w: World, st: State, env: Envelope, proof: Option<seq<Bytes>>, digest: Option<Bytes>, now: int, key: Key, d: SignedHead)
    requires Presentable(w, st.pins, env, key, d) && key in st.marks
    ensures var (st', v) := Observe(w, st, env, proof, digest, now);
      var o := Offence(w, st.marks[key], d, proof);
      && (o.Some? ==>
           v == Equivocation(o.value)
           && st' == st.(findings := st.findings + [Finding(key, o.value, st.marks[key].head, d, digest, now)]))
      && (o.None? ==> !v.Equivocation? && st'.findings == st.findings)
  {
    GatesExactly(w, st.pins, env, key, d);
    hide CheckGates, MerkleProofs.VerifyConsistency, Presentable;
  }

  /** Nothing else is ever recorded, and nothing else than such a head is ever accepted. */
  lemma OnlyPresentableCount(w: World, st: State, env: Envelope, proof: Option<seq<Bytes>>, digest: Option<Bytes>, now: int)
    ensures var (st', v) := Observe(w, st, env, proof, digest, now);
      v.Accepted? || v.Equivocation? || st' != st ==>
        exists key, d :: Presentable(w, st.pins, env, key, d) && (v.Equivocation? ==> key in st.marks)
                         && (v.Accepted? ==> v.size == d.size && v.root == d.root && key in st'.marks && st'.marks[key].head == d)
                         && (v.Accepted? && key !in st.marks ==> st'.marks[key].baseline == Baseline(d.size, d.root, d.headHash, now))
  {
    var g := CheckGates(w, st.pins, env);
    if g.Pass? { GatesExactly(w, st.pins, env, g.key, g.head); }
    hide CheckGates, MerkleProofs.VerifyConsistency, Presentable;
  }

  /** What an action hands to the observation core, if it hands it anything. */
  function Handed(w: World, st: State, a: Action): Delivery {
    if a.PinTrust? || a.PinChannel? || a.UnpinChannel? then Withheld(NoObservation) else Deliver(w, st.channelPins, a)
  }

  /** Two different heads of one size are never both swallowed. Once one is accepted, a second one that gets through to
      the core, at any later time and after whatever else, leaves a fork on record for good, or a regression if the log
      has been seen to grow in between; and the mark stays where it was. */
  lemma SplitViewIsCaught(w: World, st: State, between: seq<Event>, e: Event, after: seq<Event>, key: Key, d: SignedHead)
    requires key in st.marks && d.size == st.marks[key].size
    requires d.root != st.marks[key].root || d.headHash != st.marks[key].headHash
    requires var s := Run(w, st, between);
      Handed(w, s, e.action).Delivered? && Presentable(w, s.pins, Handed(w, s, e.action).env, key, d)
    ensures key in Run(w, st, between).marks
    ensures var s := Run(w, st, between);
      var t := Step(w, s, e.action, e.at).0;
      var kind := if s.marks[key].size == d.size then Fork else Regression;
      && t.marks == s.marks && Step(w, s, e.action, e.at).1 == Some(Equivocation(kind))
      && s.findings + [Finding(key, kind, s.marks[key].head, d, Handed(w, s, e.action).digest, e.at)] <= Run(w, t, after).findings
  {
    var s := Run(w, st, between);
    MarksOnlyAdvance(w, st, between, key);
    var g := Handed(w, s, e.action);
    OffenceIsRecorded(w, s, g.env, g.proof, g.digest, e.at, key, d);
    DeliveredStep(w, s, e.action, e.at);
    FindingsOnlyGrow(w, Step(w, s, e.action, e.at).0, after);
    hide Run, Step, Handed, Observe, Presentable, WellFormed, MerkleProofs.VerifyConsistency;
  }

  lemma DeliveredStep(w: World, st: State, a: Action, now: int)
    requires Handed(w, st, a).Delivered?
    ensures var g := Handed(w, st, a);
      var (st', v) := Observe(w, st, g.env, g.proof, g.digest, now);
      Step(w, st, a, now) == (st', Some(v))
  {
    hide Observe, Deliver;
  }

  // ---- safety: the accepted logs are prefixes of one another ----

  /** A reading of accepted (size, root) pairs as leaf lists. */
  type Reading = (nat, Bytes) -> seq<Bytes>

  ghost predicate Commits(w: World, logs: Reading, m: Mark) {
    |logs(m.size, m.root)| == m.size && MerkleLog.MerkleRoot(w.h, logs(m.size, m.root)) == m.root
  }

  /** Every string hashed when the mark moves from a to b on this proof, and in the two trees. */
  ghost function MoveInputs(w: World, logs: Reading, a: Mark, b: Mark, proof: seq<Bytes>): set<Bytes> {
    MerkleProofs.ConsistencyInputs(w.h, a.size, b.size, proof, a.root)
    + MerkleLog.MerkleInputs(w.h, logs(a.size, a.root)) + MerkleLog.MerkleInputs(w.h, logs(b.size, b.root))
  }

  function ProofOf(w: World, st: State, a: Action): seq<Bytes> {
    if a.PinTrust? || a.PinChannel? || a.UnpinChannel? then []
    else
      var d := Deliver(w, st.channelPins, a);
      if d.Delivered? && d.proof.Some? then d.proof.value else []
  }

  /** Along the run the mark of this key always commits to its reading, and nothing hashed on the way collides. */
  ghost predicate Readable(w: World, logs: Reading, st: State, events: seq<Event>, key: Key)
    requires key in st.marks
    decreases |events|
  {
    Commits(w, logs, st.marks[key])
    && (events != [] ==>
          var next := Step(w, st, events[0].action, events[0].at).0;
          key in next.marks
          && CollisionFree(w.h, MoveInputs(w, logs, st.marks[key], next.marks[key], ProofOf(w, st, events[0].action)))
          && Readable(w, logs, next, events[1..], key))
  }

  lemma StepPrefix(w: World, logs: Reading, st: State, a: Action, now: int, key: Key)
    requires key in st.marks
    requires var next := Step(w, st, a, now).0;
      key in next.marks && Commits(w, logs, st.marks[key]) && Commits(w, logs, next.marks[key])
      && CollisionFree(w.h, MoveInputs(w, logs, st.marks[key], next.marks[key], ProofOf(w, st, a)))
    ensures var m, m' := st.marks[key], Step(w, st, a, now).0.marks[key];
      logs(m.size, m.root) <= logs(m'.size, m'.root)
  {
    hide MerkleProofs.VerifyConsistency, MerkleProofs.ConsistencyInputs, MerkleLog.MerkleInputs, MerkleLog.MerkleRoot, Step, ProofOf;
    var m, m' := st.marks[key], Step(w, st, a, now).0.marks[key];
    StepMarks(w, st, a, now, key);
    if m.size < m'.size {
      GrowthIsProved(w, st, a, now, key);
      MerkleTheorems.ConsistencySound(w.h, logs(m.size, m.root), logs(m'.size, m'.root), ProofOf(w, st, a));
    }
  }

  /** A mark grows only on a proof the consistency check accepts. */
  lemma GrowthIsProved(w: World, st: State, a: Action, now: int, key: Key)
    requires key in st.marks
    requires var next := Step(w, st, a, now).0;
      key in next.marks && st.marks[key].size < next.marks[key].size
    ensures var m, m' := st.marks[key], Step(w, st, a, now).0.marks[key];
      MerkleProofs.VerifyConsistency(w.h, m.size, m'.size, ProofOf(w, st, a), m.root, m'.root)
  {
    hide MerkleProofs.VerifyConsistency, MerkleProofs.AllDigests;
  }

  /** Over any run, the log accepted at the start is a prefix of the log accepted at the end. As a run can
      be cut anywhere, every earlier accepted log is a prefix of every later one, and all extend the first. */
  lemma {:induction false} LogsOnlyExtend(w: World, logs: Reading, st: State, events: seq<Event>, key: Key)
    requires key in st.marks && Readable(w, logs, st, events, key)
    ensures var end := Run(w, st, events);
      key in end.marks
      && logs(st.marks[key].size, st.marks[key].root) <= logs(end.marks[key].size, end.marks[key].root)
    decreases |events|
  {
    if events != [] {
      var next := Step(w, st, events[0].action, events[0].at).0;
      StepPrefix(w, logs, st, events[0].action, events[0].at, key);
      LogsOnlyExtend(w, logs, next, events[1..], key);
    }
  }

  // ---- completeness: an honest peer is always accepted ----

  /** An honest peer: one growing list of leaves, one head per size, signatures that verify. */
  datatype Peer = Peer(peer: string, kid: string, chainKey: string, leaves: seq<Bytes>, headAt: nat -> Bytes, sigAt: nat -> Bytes, timeAt: nat -> int)

  function PeerKey(w: World, p: Peer): Key { Key(p.peer, p.kid, w.chainId(p.chainKey)) }

  function PeerRoot(w: World, p: Peer, n: nat): Bytes
    requires n <= |p.leaves|
  {
    MerkleLog.MerkleRoot(w.h, p.leaves[..n])
  }

  function PeerEnvelope(w: World, p: Peer, n: nat): Envelope
    requires n <= |p.leaves|
  {
    Envelope("env-v1", "receipt-head", "v4",
      Head(Some(p.peer), Some(p.kid), Some(p.chainKey), Some(n), PeerRoot(w, p, n), p.headAt(n), p.timeAt(n), Some(p.sigAt(n))))
  }

  function PeerHead(w: World, p: Peer, n: nat): SignedHead
    requires n <= |p.leaves|
  {
    SignedHead(p.chainKey, p.timeAt(n), n, p.headAt(n), PeerRoot(w, p, n), p.sigAt(n))
  }

  /** The peer proves its size-n log consistent with the size the witness holds. */
  function PeerProof(w: World, p: Peer, held: nat, n: nat): Option<seq<Bytes>>
    requires held <= n <= |p.leaves|
  {
    var b := MerkleLog.ConsistencyProof(w.h, MerkleLog.LeafHashes(w.h, p.leaves[..n]), held, n);
    if b.Proof? then Some(b.hashes) else None
  }

  ghost predicate Trusted(w: World, st: State, p: Peer) {
    w.seedSet && (p.peer, p.kid) in st.pins
    && (forall n: nat {:trigger p.headAt(n)} | n <= |p.leaves| ::
          |p.headAt(n)| == HASH_SIZE && w.exportOk(PeerEnvelope(w, p, n))
          && w.headSigned(st.pins[(p.peer, p.kid)], PeerHead(w, p, n)))
  }

  /** The witness holds nothing of this chain of the peer, or its head of some size of at least one leaf. */
  ghost predicate Holds(w: World, st: State, p: Peer) {
    PeerKey(w, p) in st.marks ==>
      var m := st.marks[PeerKey(w, p)];
      1 <= m.size <= |p.leaves| && m.root == PeerRoot(w, p, m.size) && m.headHash == p.headAt(m.size)
  }

  lemma RootWide(w: World, p: Peer, n: nat)
    requires n <= |p.leaves|
    ensures |PeerRoot(w, p, n)| == HASH_SIZE
  {
    MerkleLog.RootWidth(w.h, MerkleLog.LeafHashes(w.h, p.leaves[..n]));
  }

  lemma PeerProofAccepted(w: World, p: Peer, held: nat, n: nat)
    requires 1 <= held < n <= |p.leaves|
    ensures var proof := PeerProof(w, p, held, n);
      proof.Some? && proof.value != [] && MerkleProofs.AllDigests(proof.value)
      && MerkleProofs.VerifyConsistency(w.h, held, n, proof.value, PeerRoot(w, p, held), PeerRoot(w, p, n))
  {
    var hs := MerkleLog.LeafHashes(w.h, p.leaves[..n]);
    assert MerkleLog.LeafHashes(w.h, p.leaves[..held]) == hs[..held];
    MerkleTheorems.ConsistencyComplete(w.h, hs, held);
    MerkleTheorems.BuiltProof(w.h, hs, held, MerkleLog.Sub(w.h, held, hs, true));
  }

  /** The peer's head of size n, not below the size held, with the consistency proof from there when it grew. */
  ghost predicate Honest(w: World, st: State, p: Peer, env: Envelope, proof: Option<seq<Bytes>>, n: nat) {
    && 1 <= n <= |p.leaves| && env == PeerEnvelope(w, p, n)
    && (PeerKey(w, p) in st.marks ==>
         var held := st.marks[PeerKey(w, p)].size;
         held <= n && (held < n ==> proof == PeerProof(w, p, held, n)))
  }

  lemma HonestStep(w: World, st: State, p: Peer, n: nat, env: Envelope, proof: Option<seq<Bytes>>, digest: Option<Bytes>, now: int)
    requires Trusted(w, st, p) && Holds(w, st, p) && Honest(w, st, p, env, proof, n)
    ensures var (st', v) := Observe(w, st, env, proof, digest, now);
      v.Accepted? && st'.findings == st.findings && Holds(w, st', p)
  {
    RootWide(w, p, n);
    assert |p.headAt(n)| == HASH_SIZE;
    assert CheckGates(w, st.pins, env) == Pass(PeerKey(w, p), PeerHead(w, p, n));
    hide CheckGates;
    if PeerKey(w, p) in st.marks {
      var held := st.marks[PeerKey(w, p)].size;
      if held < n { PeerProofAccepted(w, p, held, n); }
      hide PeerProof;
    }
    hide MerkleProofs.VerifyConsistency, MerkleProofs.AllDigests, PeerRoot;
  }

  /** Every string hashed in the peer's logs of two sizes and in this proof between them. */
  ghost function GrowthInputs(w: World, p: Peer, held: nat, n: nat, proof: seq<Bytes>): set<Bytes>
    requires held <= n <= |p.leaves|
  {
    MerkleProofs.ConsistencyInputs(w.h, held, n, proof, PeerRoot(w, p, held))
    + MerkleLog.MerkleInputs(w.h, p.leaves[..held]) + MerkleLog.MerkleInputs(w.h, p.leaves[..n])
  }

  /** Between two heads of the peer only its own proof is accepted. */
  lemma OnlyPeerProof(w: World, p: Peer, held: nat, n: nat, proof: seq<Bytes>)
    requires 1 <= held < n <= |p.leaves| && CollisionFree(w.h, GrowthInputs(w, p, held, n, proof))
    ensures MerkleProofs.VerifyConsistency(w.h, held, n, proof, PeerRoot(w, p, held), PeerRoot(w, p, n))
      <==> PeerProof(w, p, held, n) == Some(proof)
  {
    PeerProofAccepted(w, p, held, n);
    var older, newer := p.leaves[..held], p.leaves[..n];
    hide MerkleProofs.VerifyConsistency, MerkleLog.MerkleRoot, MerkleProofs.ConsistencyInputs, MerkleLog.MerkleInputs;
    if MerkleProofs.VerifyConsistency(w.h, held, n, proof, PeerRoot(w, p, held), PeerRoot(w, p, n)) {
      MerkleTheorems.ConsistencySound(w.h, older, newer, proof);
    }
  }

  /** What a signed head of an honest peer earns, whoever brings it and with whatever proof. It is never a fork. It is a
      regression exactly when it is older than the one held, so a replay of the peer's own head convicts it. It is a
      rewrite exactly when it is newer and comes with a well-formed proof other than the peer's. */
  lemma HonestHeadExactly(w: World, st: State, p: Peer, n: nat, proof: Option<seq<Bytes>>, digest: Option<Bytes>, now: int)
    requires Trusted(w, st, p) && Holds(w, st, p) && PeerKey(w, p) in st.marks && 1 <= n <= |p.leaves|
    ensures var held, v := st.marks[PeerKey(w, p)].size, Observe(w, st, PeerEnvelope(w, p, n), proof, digest, now).1;
      && v != Equivocation(Fork)
      && (v == Equivocation(Regression) <==> n < held)
      && (v == Equivocation(Rewrite)
          <==> held < n && WellFormed(proof)
               && !MerkleProofs.VerifyConsistency(w.h, held, n, proof.value, PeerRoot(w, p, held), PeerRoot(w, p, n)))
      && (held < n && WellFormed(proof) && CollisionFree(w.h, GrowthInputs(w, p, held, n, proof.value)) ==>
            (v == Equivocation(Rewrite) <==> proof != PeerProof(w, p, held, n)))
  {
    var held := st.marks[PeerKey(w, p)].size;
    RootWide(w, p, n);
    assert |p.headAt(n)| == HASH_SIZE;
    assert CheckGates(w, st.pins, PeerEnvelope(w, p, n)) == Pass(PeerKey(w, p), PeerHead(w, p, n));
    hide CheckGates;
    if held < n {
      PeerProofAccepted(w, p, held, n);
      if WellFormed(proof) && CollisionFree(w.h, GrowthInputs(w, p, held, n, proof.value)) {
        OnlyPeerProof(w, p, held, n, proof.value);
      }
    }
    hide MerkleProofs.VerifyConsistency, MerkleProofs.AllDigests, PeerRoot, PeerProof, GrowthInputs;
  }

  /** A fork does convict: no honest peer has both heads. */
  lemma ForkConvicts(w: World, p: Peer, f: Finding, n: nat, m: nat)
    requires f.kind == Fork && AsKind(f) && n <= |p.leaves| && m <= |p.leaves|
    ensures !(f.headA == PeerHead(w, p, n) && f.headB == PeerHead(w, p, m))
  {
    hide PeerRoot;
  }

  // ---- a replay that convicts an honest peer ----

  /** Everything is exported and signed. */
  function OpenWorld(): World {
    World((x: Bytes) => Zeros(x), true, e => true, (k, d) => true, c => [], (p, k, pin, s) => None, (p, k, e, ct, s, v) => [])
  }

  function TwoLeaves(): Peer { Peer("p", "k", "c", [[], []], n => Zeros([]), n => [], n => 0) }

  /** Its head of size 2, then its own earlier one again. */
  function Replay(): seq<Event> {
    [Event(PinTrust("p", "k", []), 0),
     Event(Plain(PeerEnvelope(OpenWorld(), TwoLeaves(), 2), None), 0),
     Event(Plain(PeerEnvelope(OpenWorld(), TwoLeaves(), 1), None), 0)]
  }

  /** The failing input of "a finding shows that the peer contradicted itself": one peer, one log of two leaves, one head
      per size, and a regression on record. */
  lemma ReplayedHeadIsFlagged()
    ensures var w, p := OpenWorld(), TwoLeaves();
      var fs := Run(w, State(map[], map[], map[], []), Replay()).findings;
      |fs| == 1 && fs[0].kind == Regression && fs[0].headA == PeerHead(w, p, 2) && fs[0].headB == PeerHead(w, p, 1)
  {
    var w, p, es := OpenWorld(), TwoLeaves(), Replay();
    RootWide(w, p, 1);
    RootWide(w, p, 2);
    hide PeerRoot;
    var st0 := State(map[], map[], map[], []);
    var st1 := Step(w, st0, es[0].action, 0).0;
    var st2 := Step(w, st1, es[1].action, 0).0;
    var st3 := Step(w, st2, es[2].action, 0).0;
    assert es[1..][1..] == [es[2]] && [es[2]][1..] == [];
    assert Run(w, st0, es) == Run(w, st1, es[1..]) == Run(w, st2, [es[2]]) == Run(w, st3, []) == st3;
  }

  // ---- and over a run it honestly sends ----

  /** The action brings a head of this chain, past every gate. */
  predicate Concerns(w: World, st: State, key: Key, a: Action) {
    var d := Handed(w, st, a);
    d.Delivered? && CheckGates(w, st.pins, d.env).Pass? && CheckGates(w, st.pins, d.env).key == key
  }

  /** Along the run whatever arrives for the peer's chain is what the peer honestly sent, by whichever entry point and
      at whatever time; anything at all may happen in between. */
  ghost predicate HonestAlong(w: World, st: State, p: Peer, events: seq<Event>)
    decreases |events|
  {
    events != [] ==>
      var a := events[0].action;
      && (Concerns(w, st, PeerKey(w, p), a) ==> exists n: nat :: Honest(w, st, p, Handed(w, st, a).env, Handed(w, st, a).proof, n))
      && HonestAlong(w, Step(w, st, a, events[0].at).0, p, events[1..])
  }

  /** Along the run every delivery for this chain is accepted. */
  ghost predicate AcceptedAlong(w: World, st: State, key: Key, events: seq<Event>)
    decreases |events|
  {
    events != [] ==>
      var (next, v) := Step(w, st, events[0].action, events[0].at);
      && (Concerns(w, st, key, events[0].action) ==> v.Some? && v.value.Accepted?)
      && AcceptedAlong(w, next, key, events[1..])
  }

  function FindingsOf(fs: seq<Finding>, key: Key): seq<Finding> {
    if fs == [] then []
    else FindingsOf(fs[..|fs| - 1], key) + if fs[|fs| - 1].key == key then [fs[|fs| - 1]] else []
  }

  /** An observation of one chain leaves the mark and the findings of every other alone. */
  lemma ObserveElsewhere(w: World, st: State, env: Envelope, proof: Option<seq<Bytes>>, digest: Option<Bytes>, now: int, key: Key)
    requires CheckGates(w, st.pins, env).Pass? ==> CheckGates(w, st.pins, env).key != key
    ensures var st' := Observe(w, st, env, proof, digest, now).0;
      FindingsOf(st'.findings, key) == FindingsOf(st.findings, key)
      && (key in st'.marks <==> key in st.marks) && (key in st.marks ==> st'.marks[key] == st.marks[key])
  {
    ObserveWrites(w, st, env, proof, digest, now);
    hide Observe, CheckGates;
    var fs, gs := st.findings, Observe(w, st, env, proof, digest, now).0.findings;
    if |gs| > |fs| { assert gs[..|gs| - 1] == fs; }
  }

  lemma TrustedStays(w: World, st: State, a: Action, now: int, p: Peer)
    requires Trusted(w, st, p)
    ensures Trusted(w, Step(w, st, a, now).0, p)
  {
    StepPins(w, st, a, now);
    var id, t := (p.peer, p.kid), Step(w, st, a, now).0;
    hide Step, PeerEnvelope, PeerHead;
    assert id in t.pins && t.pins[id] == st.pins[id];
    forall n: nat | n <= |p.leaves|
      ensures |p.headAt(n)| == HASH_SIZE && w.exportOk(PeerEnvelope(w, p, n)) && w.headSigned(t.pins[id], PeerHead(w, p, n))
    {
      assert |p.headAt(n)| == HASH_SIZE;
    }
  }

  /** One step of such a run. */
  lemma PeerStep(w: World, st: State, p: Peer, a: Action, now: int)
    requires Trusted(w, st, p) && Holds(w, st, p)
    requires Concerns(w, st, PeerKey(w, p), a) ==> exists n: nat :: Honest(w, st, p, Handed(w, st, a).env, Handed(w, st, a).proof, n)
    ensures var (st', v) := Step(w, st, a, now);
      && Holds(w, st', p) && FindingsOf(st'.findings, PeerKey(w, p)) == FindingsOf(st.findings, PeerKey(w, p))
      && (Concerns(w, st, PeerKey(w, p), a) ==> v.Some? && v.value.Accepted?)
  {
    var d := Handed(w, st, a);
    if d.Delivered? {
      if Concerns(w, st, PeerKey(w, p), a) {
        var n: nat :| Honest(w, st, p, d.env, d.proof, n);
        HonestStep(w, st, p, n, d.env, d.proof, d.digest, now);
      } else {
        ObserveElsewhere(w, st, d.env, d.proof, d.digest, now, PeerKey(w, p));
      }
    }
    hide Observe, CheckGates, Honest, FindingsOf, Deliver, PeerRoot, Trusted;
  }

  /** A peer with one append-only log of at least one leaf earns no finding, and every head of it that arrives is
      accepted, over any run in which what arrives for that chain is honest. The entry points, the times, the channel,
      other chains and peers, and pins and unpins in between are free. */
  lemma {:induction false} HonestPeerNeverFlagged(w: World, st: State, p: Peer, events: seq<Event>)
    requires Trusted(w, st, p) && Holds(w, st, p) && HonestAlong(w, st, p, events)
    ensures FindingsOf(Run(w, st, events).findings, PeerKey(w, p)) == FindingsOf(st.findings, PeerKey(w, p))
    ensures AcceptedAlong(w, st, PeerKey(w, p), events)
    decreases |events|
  {
    if events != [] {
      var e := events[0];
      PeerStep(w, st, p, e.action, e.at);
      TrustedStays(w, st, e.action, e.at, p);
      hide Trusted, Holds, Step, Concerns, Honest, Handed, FindingsOf;
      HonestPeerNeverFlagged(w, Step(w, st, e.action, e.at).0, p, events[1..]);
    }
  }

  /** The floor of one leaf is exact: a witness that took an empty baseline accepts no growth, whatever
      the proof, and a well-formed proof makes it record a rewrite against the peer. */
  lemma EmptyBaselineNeverGrows(w: World, st: State, env: Envelope, proof: Option<seq<Bytes>>, digest: Option<Bytes>, now: int)
    requires var g := CheckGates(w, st.pins, env);
      g.Pass? && g.head.size > 0 && g.key in st.marks && st.marks[g.key].size == 0
    ensures var (st', v) := Observe(w, st, env, proof, digest, now);
      st'.marks == st.marks
      && (if proof.Some? && proof.value != [] && MerkleProofs.AllDigests(proof.value) then v == Equivocation(Rewrite) else v.Refused?)
  {
  }

  /** So an empty baseline stays empty over every run. */
  lemma {:induction false} EmptyMarkStaysEmpty(w: World, st: State, events: seq<Event>, key: Key)
    requires key in st.marks && st.marks[key].size == 0
    ensures key in Run(w, st, events).marks && Run(w, st, events).marks[key].size == 0
    decreases |events|
  {
    if events != [] {
      var a, now := events[0].action, events[0].at;
      var next := Step(w, st, a, now).0;
      StepMarks(w, st, a, now, key);
      if next.marks[key].size > 0 {
        GrowthIsProved(w, st, a, now, key);
        MerkleTheorems.ConsistencyFromEmpty(w.h, next.marks[key].size, ProofOf(w, st, a), st.marks[key].root, next.marks[key].root);
        assert false;
      }
      EmptyMarkStaysEmpty(w, next, events[1..], key);
    }
  }

  // ---- strip neutrality: the sealed channel adds confidentiality and nothing else ----

  /** Forget how each observation arrived. */
  function EraseMark(m: Mark): Mark { m.(channelProof := None) }

  function EraseFindings(fs: seq<Finding>): (r: seq<Finding>)
    ensures |r| == |fs| && forall i | 0 <= i < |r| :: r[i] == fs[i].(channelProof := None)
  {
    seq(|fs|, i requires 0 <= i < |fs| => fs[i].(channelProof := None))
  }

  function Erase(st: State): State {
    State(st.pins, map[], map k | k in st.marks :: EraseMark(st.marks[k]), EraseFindings(st.findings))
  }

  lemma ObserveErased(w: World, st: State, env: Envelope, proof: Option<seq<Bytes>>, digest: Option<Bytes>, now: int)
    ensures var (st1, v1) := Observe(w, st, env, proof, digest, now);
      var (st2, v2) := Observe(w, Erase(st), env, proof, None, now);
      v1 == v2 && Erase(st1) == st2
  {
    hide MerkleProofs.VerifyConsistency, MerkleProofs.AllDigests, EraseFindings;
    var g := CheckGates(w, st.pins, env);
    if g.Pass? {
      var d := g.head;
      if g.key in st.marks {
        var m := st.marks[g.key];
        var kept := if digest.Some? then digest else m.channelProof;
        EraseUpdate(st, g.key, m.(head := d, channelProof := kept, observedAt := now));
        EraseUpdate(st, g.key, Mark(d.size, d.root, d.headHash, m.baseline, d, kept, now));
        EraseAppend(st, Finding(g.key, Regression, m.head, d, digest, now));
        EraseAppend(st, Finding(g.key, Fork, m.head, d, digest, now));
        EraseAppend(st, Finding(g.key, Rewrite, m.head, d, digest, now));
      } else {
        EraseUpdate(st, g.key, Mark(d.size, d.root, d.headHash, Baseline(d.size, d.root, d.headHash, now), d, digest, now));
      }
    }
  }

  lemma EraseUpdate(st: State, key: Key, m: Mark)
    ensures Erase(st.(marks := st.marks[key := m])) == Erase(st).(marks := Erase(st).marks[key := EraseMark(m)])
  {
    assert Erase(st.(marks := st.marks[key := m])).marks == Erase(st).marks[key := EraseMark(m)];
  }

  lemma EraseAppend(st: State, f: Finding)
    ensures Erase(st.(findings := st.findings + [f])) == Erase(st).(findings := Erase(st).findings + [f.(channelProof := None)])
  {
    assert EraseFindings(st.findings + [f]) == EraseFindings(st.findings) + [f.(channelProof := None)];
  }

  /** The same events with the channel taken away: what was delivered arrives as plaintext. */
  function Strip(w: World, st: State, a: Action): Option<Action> {
    if a.PinTrust? then Some(a)
    else if a.PinChannel? || a.UnpinChannel? then None
    else
      var d := Deliver(w, st.channelPins, a);
      if d.Delivered? then Some(Plain(d.env, d.proof)) else None
  }

  function StripAll(w: World, st: State, events: seq<Event>): seq<Event>
    decreases |events|
  {
    if events == [] then []
    else
      var rest := StripAll(w, Step(w, st, events[0].action, events[0].at).0, events[1..]);
      var a := Strip(w, st, events[0].action);
      if a.None? then rest else [Event(a.value, events[0].at)] + rest
  }

  lemma StepErased(w: World, st: State, a: Action, now: int)
    ensures var (st', v) := Step(w, st, a, now);
      var s := Strip(w, st, a);
      if s.None? then Erase(st') == Erase(st)
      else Step(w, Erase(st), s.value, now) == (Erase(st'), v)
  {
    if !(a.PinTrust? || a.PinChannel? || a.UnpinChannel?) {
      var d := Deliver(w, st.channelPins, a);
      if d.Delivered? { ObserveErased(w, st, d.env, d.proof, d.digest, now); }
    }
  }

  /** What a run answers, event by event. */
  function Answers(w: World, st: State, events: seq<Event>): seq<Option<Verdict>>
    decreases |events|
  {
    if events == [] then []
    else
      var (next, v) := Step(w, st, events[0].action, events[0].at);
      [v] + Answers(w, next, events[1..])
  }

  /** The same without the events that stripping takes away: channel pins, and deliveries withheld at the channel. */
  function KeptAnswers(w: World, st: State, events: seq<Event>): seq<Option<Verdict>>
    decreases |events|
  {
    if events == [] then []
    else
      var (next, v) := Step(w, st, events[0].action, events[0].at);
      (if Strip(w, st, events[0].action).Some? then [v] else []) + KeptAnswers(w, next, events[1..])
  }

  /** A run through the channel and the same deliveries as plaintext give the same verdicts in the same order, and end in
      the same marks and findings. */
  lemma {:induction false} ChannelIsStripNeutral(w: World, st: State, events: seq<Event>)
    ensures Erase(Run(w, st, events)) == Run(w, Erase(st), StripAll(w, st, events))
    ensures KeptAnswers(w, st, events) == Answers(w, Erase(st), StripAll(w, st, events))
    decreases |events|
  {
    if events != [] {
      var e := events[0];
      var st' := Step(w, st, e.action, e.at).0;
      StepErased(w, st, e.action, e.at);
      ChannelIsStripNeutral(w, st', events[1..]);
      var rest := StripAll(w, st', events[1..]);
      if Strip(w, st, e.action).Some? {
        assert ([Event(Strip(w, st, e.action).value, e.at)] + rest)[1..] == rest;
      }
      hide Step, Strip, Erase;
    }
  }

  /** The envelope names this peer and this key as its sender. */
  predicate From(env: Envelope, peer: string, kid: string) {
    env.Envelope? && env.head.peer == Some(peer) && env.head.kid == Some(kid)
  }

  /** What reaches the core with a channel digest is from the peer and key of a pinned channel, opened under that pin or
      recorded for its current epoch, and the digest is of that peer, key and epoch and of the frame presented. */
  lemma DigestNamesChannel(w: World, pins: map<(string, string), ChannelPin>, a: Action)
    requires a.Plain? || a.Ingest? || a.RecordOpened?
    requires Deliver(w, pins, a).Delivered? && Deliver(w, pins, a).digest.Some?
    ensures !a.Plain? && (a.peer, a.kid) in pins
    ensures var d, pin := Deliver(w, pins, a), pins[(a.peer, a.kid)];
      && From(d.env, a.peer, a.kid)
      && (a.Ingest? ==>
           a.channel.Some? && w.open(a.peer, a.kid, pin, a.channel.value) == Some(Opened(d.env, d.proof))
           && var f := a.channel.value.frame;
           d.digest == Some(w.digest(a.peer, a.kid, pin.epoch, a.channel.value.ct, f.salt, f.wireVersion)))
      && (a.RecordOpened? ==>
           a.epoch == pin.epoch && d.env == a.env && d.proof == a.proof
           && d.digest == Some(w.digest(a.peer, a.kid, pin.epoch, a.ct, a.salt, a.wireVersion)))
  {
  }

  /** A channel is pinned exactly by a bound key of a pinned peer, at a higher epoch or as the same key again. */
  lemma ChannelPinnedExactly(w: World, st: State, a: Action, now: int, id: (string, string))
    ensures var t := Step(w, st, a, now).0;
      var taken := a.PinChannel? && id == (a.peer, a.kid) && a.bindingOk && id in st.pins
                   && (id in st.channelPins ==>
                         a.epoch > st.channelPins[id].epoch || st.channelPins[id] == ChannelPin(a.publicKey, a.epoch));
      && (taken ==> id in t.channelPins && t.channelPins[id] == ChannelPin(a.publicKey, a.epoch))
      && (!taken && a != UnpinChannel(id.0, id.1) ==>
            (id in t.channelPins <==> id in st.channelPins) && (id in st.channelPins ==> t.channelPins[id] == st.channelPins[id]))
      && (a == UnpinChannel(id.0, id.1) ==> id !in t.channelPins)
  {
    assert id == (id.0, id.1);
    hide CheckGates, MerkleProofs.VerifyConsistency, MerkleProofs.AllDigests, Deliver;
  }

  /** A mark that was ever seen through the channel keeps a channel digest, over every run. */
  lemma {:induction false} DigestIsKept(w: World, st: State, events: seq<Event>, key: Key)
    requires key in st.marks && st.marks[key].channelProof.Some?
    ensures key in Run(w, st, events).marks && Run(w, st, events).marks[key].channelProof.Some?
    decreases |events|
  {
    if events != [] {
      var next := Step(w, st, events[0].action, events[0].at).0;
      StepKeepsDigest(w, st, events[0].action, events[0].at, key);
      DigestIsKept(w, next, events[1..], key);
    }
  }

  lemma StepKeepsDigest(w: World, st: State, a: Action, now: int, key: Key)
    requires key in st.marks && st.marks[key].channelProof.Some?
    ensures var t := Step(w, st, a, now).0; key in t.marks && t.marks[key].channelProof.Some?
  {
    hide CheckGates, MerkleProofs.VerifyConsistency, MerkleProofs.AllDigests, Deliver;
  }

  /** While a peer is channel-capable nothing of it is processed without a channel digest. */
  lemma NoPlaintextDowngrade(w: World, st: State, a: Action)
    requires a.Plain? || a.Ingest? || a.RecordOpened?
    requires var d := Deliver(w, st.channelPins, a);
      d.Delivered? && ChannelCapable(st.channelPins, d.env)
    ensures Deliver(w, st.channelPins, a).digest.Some?
  {
  }

  // ---- channel key rotation ----

  predicate PinFollows(a: ChannelPin, b: ChannelPin) {
    a.epoch <= b.epoch && (a.epoch == b.epoch ==> a == b)
  }

  /** Without an unpin, a peer's channel epoch never goes back and never changes its key in place. */
  lemma {:induction false} EpochsOnlyAdvance(w: World, st: State, events: seq<Event>, id: (string, string))
    requires id in st.channelPins
    requires forall i | 0 <= i < |events| :: events[i].action != UnpinChannel(id.0, id.1)
    ensures var end := Run(w, st, events);
      id in end.channelPins && PinFollows(st.channelPins[id], end.channelPins[id])
    decreases |events|
  {
    if events != [] {
      var st' := Step(w, st, events[0].action, events[0].at).0;
      assert id in st'.channelPins && PinFollows(st.channelPins[id], st'.channelPins[id]);
      EpochsOnlyAdvance(w, st', events[1..], id);
    }
  }

  /** With one, it can: from every pinned channel an unpin and a new pin reach every lower epoch, with any key. */
  lemma UnpinReopensOldEpochs(w: World, st: State, id: (string, string), key: Bytes, epoch: int, at: int)
    requires id in st.pins && id in st.channelPins && epoch < st.channelPins[id].epoch
    ensures var events := [Event(UnpinChannel(id.0, id.1), at), Event(PinChannel(id.0, id.1, key, epoch, true), at)];
      Run(w, st, events) == st.(channelPins := st.channelPins[id := ChannelPin(key, epoch)])
  {
    var unpin, repin := Event(UnpinChannel(id.0, id.1), at), Event(PinChannel(id.0, id.1, key, epoch, true), at);
    var events := [unpin, repin];
    var st1 := Step(w, st, unpin.action, at).0;
    var st2 := Step(w, st1, repin.action, at).0;
    assert events[1..] == [repin] && [repin][1..] == [];
    assert Run(w, st, events) == Run(w, st1, [repin]) == Run(w, st2, []) == st2;
    assert st2.channelPins == st.channelPins[id := ChannelPin(key, epoch)];
  }
}
