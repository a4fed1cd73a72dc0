/** convex/aukoraWitness.ts: what the witness stores and what one observation does to it.
    Signatures, frame opening and the export check are ideal predicates; hex strings are byte strings, so
    the 64-hex check is a length check. */
module Witness {
  import opened Hashing
  import MerkleProofs

  datatype Option<+T> = None | Some(value: T)

  /** The fields of an exported head. A string field is None when it is not a string, the count is None
      when it is not a safe integer. */
  datatype Head = Head(
    peer: Option<string>, kid: Option<string>, chainKey: Option<string>,
    count: Option<int>, root: Bytes, headHash: Bytes, signedAt: int, sig: Option<Bytes>)

  datatype Envelope = NotAnEnvelope | Envelope(envelopeVersion: string, surface: string, headVersion: string, head: Head)

  /** One row per pinned peer key and chain. */
  datatype Key = Key(peer: string, kid: string, chainId: Bytes)

  datatype SignedHead = SignedHead(chainKey: string, signedAt: int, size: nat, headHash: Bytes, root: Bytes, sig: Bytes)

  datatype Baseline = Baseline(size: nat, root: Bytes, headHash: Bytes, observedAt: int)

  datatype Mark = Mark(size: nat, root: Bytes, headHash: Bytes, baseline: Baseline, head: SignedHead,
                       channelProof: Option<Bytes>, observedAt: int)

  datatype FindingKind = Regression | Fork | Rewrite

  datatype Finding = Finding(key: Key, kind: FindingKind, headA: SignedHead, headB: SignedHead,
                             channelProof: Option<Bytes>, observedAt: int)

  datatype ChannelPin = ChannelPin(publicKey: Bytes, epoch: int)

  datatype Acceptance = First | Stable | Extension

  datatype Reason =
    | MalformedEnvelope | WrongSurface | EnvelopeInvalid | MalformedHead | UnpinnedPeer | HeadSigInvalid | SeedUnset
    | MissingProof | MalformedProof | ChannelRequired | ChannelRefused | PeerMismatch | NoObservation
    | NotChannelCapable | EpochMismatch

  datatype Verdict = Refused(reason: Reason) | Equivocation(kind: FindingKind) | Accepted(how: Acceptance, size: nat, root: Bytes)

  /** A sealed delivery, and the digest fields a caller of witnessRecordOpened asserts. */
  datatype Frame = Frame(body: Bytes, salt: Bytes, wireVersion: string)
  datatype Sealed = Sealed(ct: Bytes, secret: Bytes, frame: Frame)
  datatype Opened = Opened(envelope: Envelope, proof: Option<seq<Bytes>>)

  /** What the witness cannot see inside: hash, signature checks, frame opening, digests, its own seed. */
  datatype World = World(
    h: Hash,
    seedSet: bool,
    exportOk: Envelope -> bool,
    headSigned: (Bytes, SignedHead) -> bool,
    chainId: string -> Bytes,
    open: (string, string, ChannelPin, Sealed) -> Option<Opened>,
    digest: (string, string, int, Bytes, Bytes, string) -> Bytes)

  datatype State = State(
    pins: map<(string, string), Bytes>,
    channelPins: map<(string, string), ChannelPin>,
    marks: map<Key, Mark>,
    findings: seq<Finding>)

  // ---- the checks before the state is looked at ----

  /** A head that passed every gate: who signed what. */
  datatype Gate = Stop(reason: Reason) | Pass(key: Key, head: SignedHead)

  function CheckGates(w: World, pins: map<(string, string), Bytes>, env: Envelope): Gate {
    if env.NotAnEnvelope? then Stop(MalformedEnvelope)
    else if env.envelopeVersion != "env-v1" || env.surface != "receipt-head" || env.headVersion != "v4" then Stop(WrongSurface)
    else if !w.exportOk(env) then Stop(EnvelopeInvalid)
    else
      var d := env.head;
      if d.peer.None? || d.kid.None? || d.chainKey.None? then Stop(MalformedHead)
      else if (d.peer.value, d.kid.value) !in pins then Stop(UnpinnedPeer)
      else if d.count.None? || d.count.value < 0 || |d.root| != HASH_SIZE || |d.headHash| != HASH_SIZE then Stop(MalformedHead)
      else if d.sig.None? then Stop(HeadSigInvalid)
      else
        var signed := SignedHead(d.chainKey.value, d.signedAt, d.count.value, d.headHash, d.root, d.sig.value);
        if !w.headSigned(pins[(d.peer.value, d.kid.value)], signed) then Stop(HeadSigInvalid)
        else if !w.seedSet then Stop(SeedUnset)
        else Pass(Key(d.peer.value, d.kid.value, w.chainId(d.chainKey.value)), signed)
  }

  // ---- one observation, as a function ----

  function Conflict(st: State, key: Key, kind: FindingKind, head: SignedHead, digest: Option<Bytes>, now: int): (State, Verdict)
    requires key in st.marks
  {
    (st.(findings := st.findings + [Finding(key, kind, st.marks[key].head, head, digest, now)]), Equivocation(kind))
  }

  function Observe(w: World, st: State, env: Envelope, proof: Option<seq<Bytes>>, digest: Option<Bytes>, now: int): (State, Verdict) {
    match CheckGates(w, st.pins, env)
    case Stop(reason) => (st, Refused(reason))
    case Pass(key, d) =>
      if key !in st.marks then
        var base := Baseline(d.size, d.root, d.headHash, now);
        (st.(marks := st.marks[key := Mark(d.size, d.root, d.headHash, base, d, digest, now)]), Accepted(First, d.size, d.root))
      else
        var m := st.marks[key];
        var kept := if digest.Some? then digest else m.channelProof;
        if d.size < m.size then Conflict(st, key, Regression, d, digest, now)
        else if d.size == m.size then
          if d.root == m.root && d.headHash == m.headHash then
            (st.(marks := st.marks[key := m.(head := d, channelProof := kept, observedAt := now)]), Accepted(Stable, d.size, d.root))
          else Conflict(st, key, Fork, d, digest, now)
        else if proof.None? || proof.value == [] then (st, Refused(MissingProof))
        else if !MerkleProofs.AllDigests(proof.value) then (st, Refused(MalformedProof))
        else if !MerkleProofs.VerifyConsistency(w.h, m.size, d.size, proof.value, m.root, d.root) then
          Conflict(st, key, Rewrite, d, digest, now)
        else
          (st.(marks := st.marks[key := Mark(d.size, d.root, d.headHash, m.baseline, d, kept, now)]),
           Accepted(Extension, d.size, d.root))
  }

  // ---- the entry points ----

  datatype Action =
    | Plain(env: Envelope, proof: Option<seq<Bytes>>)
    | Ingest(peer: string, kid: string, plaintext: Option<Opened>, channel: Option<Sealed>)
    | RecordOpened(peer: string, kid: string, env: Envelope, proof: Option<seq<Bytes>>, ct: Bytes, epoch: int,
                   salt: Bytes, wireVersion: string)
    | PinTrust(peer: string, kid: string, publicKey: Bytes)
    | PinChannel(peer: string, kid: string, publicKey: Bytes, epoch: int, bindingOk: bool)
    | UnpinChannel(peer: string, kid: string)

  predicate HeadIdMatches(env: Envelope, peer: string, kid: string) {
    env.Envelope? && env.head.peer == Some(peer) && env.head.kid == Some(kid)
  }

  predicate ChannelCapable(channelPins: map<(string, string), ChannelPin>, env: Envelope) {
    env.Envelope? && env.head.peer.Some? && env.head.kid.Some? && (env.head.peer.value, env.head.kid.value) in channelPins
  }

  /** What an entry point hands to the observation core, if it gets that far. */
  datatype Delivery = Withheld(reason: Reason) | Delivered(env: Envelope, proof: Option<seq<Bytes>>, digest: Option<Bytes>)

  function Deliver(w: World, channelPins: map<(string, string), ChannelPin>, a: Action): Delivery
    requires a.Plain? || a.Ingest? || a.RecordOpened?
  {
    match a
    case Plain(env, proof) =>
      if ChannelCapable(channelPins, env) then Withheld(ChannelRequired) else Delivered(env, proof, None)
    case Ingest(peer, kid, plaintext, channel) =>
      if (peer, kid) in channelPins then
        if channel.None? then Withheld(ChannelRequired)
        else
          var pin := channelPins[(peer, kid)];
          var inner := w.open(peer, kid, pin, channel.value);
          if inner.None? then Withheld(ChannelRefused)
          else if !HeadIdMatches(inner.value.envelope, peer, kid) then Withheld(PeerMismatch)
          else
            var frame := channel.value.frame;
            var digest := w.digest(peer, kid, pin.epoch, channel.value.ct, frame.salt, frame.wireVersion);
            Delivered(inner.value.envelope, inner.value.proof, Some(digest))
      else if plaintext.None? then Withheld(NoObservation)
      else if !HeadIdMatches(plaintext.value.envelope, peer, kid) then Withheld(PeerMismatch)
      else Delivered(plaintext.value.envelope, plaintext.value.proof, None)
    case RecordOpened(peer, kid, env, proof, ct, epoch, salt, wireVersion) =>
      if (peer, kid) !in channelPins then Withheld(NotChannelCapable)
      else if epoch != channelPins[(peer, kid)].epoch then Withheld(EpochMismatch)
      else if !HeadIdMatches(env, peer, kid) then Withheld(PeerMismatch)
      else Delivered(env, proof, Some(w.digest(peer, kid, epoch, ct, salt, wireVersion)))
  }

  function Repin(channelPins: map<(string, string), ChannelPin>, pins: map<(string, string), Bytes>, a: Action): map<(string, string), ChannelPin>
    requires a.PinChannel?
  {
    var id := (a.peer, a.kid);
    if id !in pins || !a.bindingOk then channelPins
    else if id in channelPins && a.epoch < channelPins[id].epoch then channelPins
    else if id in channelPins && a.epoch == channelPins[id].epoch && a.publicKey != channelPins[id].publicKey then channelPins
    else channelPins[id := ChannelPin(a.publicKey, a.epoch)]
  }

  function Step(w: World, st: State, a: Action, now: int): (State, Option<Verdict>) {
    match a
    case PinTrust(peer, kid, publicKey) =>
      (if (peer, kid) in st.pins then st else st.(pins := st.pins[(peer, kid) := publicKey]), None)
    case PinChannel(_, _, _, _, _) => (st.(channelPins := Repin(st.channelPins, st.pins, a)), None)
    case UnpinChannel(peer, kid) => (st.(channelPins := st.channelPins - {(peer, kid)}), None)
    case _ =>
      match Deliver(w, st.channelPins, a)
      case Withheld(reason) => (st, Some(Refused(reason)))
      case Delivered(env, proof, digest) =>
        var (st', v) := Observe(w, st, env, proof, digest, now);
        (st', Some(v))
  }

  datatype Event = Event(action: Action, at: int)

  function Run(w: World, st: State, events: seq<Event>): State
    decreases |events|
  {
    if events == [] then st
    else Run(w, Step(w, st, events[0].action, events[0].at).0, events[1..])
  }

  // ---- the tables, updated in place ----

  class Store {
    const world: World
    var pins: map<(string, string), Bytes>
    var channelPins: map<(string, string), ChannelPin>
    var marks: map<Key, Mark>
    var findings: seq<Finding>

    constructor (w: World)
      ensures world == w && Snapshot() == State(map[], map[], map[], [])
    {
      world := w;
      pins, channelPins, marks, findings := map[], map[], map[], [];
    }

    function Snapshot(): State
      reads this
    {
      State(pins, channelPins, marks, findings)
    }

    method RecordEquivocation(key: Key, kind: FindingKind, head: SignedHead, digest: Option<Bytes>, now: int)
      requires key in marks
      modifies this`findings
      ensures findings == old(findings) + [Finding(key, kind, marks[key].head, head, digest, now)]
    {
      findings := findings + [Finding(key, kind, marks[key].head, head, digest, now)];
    }

    method ObserveCore(env: Envelope, proof: Option<seq<Bytes>>, digest: Option<Bytes>, now: int) returns (v: Verdict)
      modifies this`marks, this`findings
      ensures (Snapshot(), v) == Observe(world, old(Snapshot()), env, proof, digest, now)
    {
      var gate := CheckGates(world, pins, env);
      if gate.Stop? { return Refused(gate.reason); }
      var key, d := gate.key, gate.head;
      if key !in marks {
        marks := marks[key := Mark(d.size, d.root, d.headHash, Baseline(d.size, d.root, d.headHash, now), d, digest, now)];
        return Accepted(First, d.size, d.root);
      }
      var m := marks[key];
      var kept := if digest.Some? then digest else m.channelProof;
      if d.size < m.size {
        RecordEquivocation(key, Regression, d, digest, now);
        return Equivocation(Regression);
      }
      if d.size == m.size {
        if d.root == m.root && d.headHash == m.headHash {
          marks := marks[key := m.(head := d, channelProof := kept, observedAt := now)];
          return Accepted(Stable, d.size, d.root);
        }
        RecordEquivocation(key, Fork, d, digest, now);
        return Equivocation(Fork);
      }
      if proof.None? || proof.value == [] { return Refused(MissingProof); }
      if !MerkleProofs.AllDigests(proof.value) { return Refused(MalformedProof); }
      var consistent := MerkleProofs.CheckConsistency(world.h, m.size, d.size, proof.value, m.root, d.root);
      if !consistent {
        RecordEquivocation(key, Rewrite, d, digest, now);
        return Equivocation(Rewrite);
      }
      marks := marks[key := Mark(d.size, d.root, d.headHash, m.baseline, d, kept, now)];
      return Accepted(Extension, d.size, d.root);
    }

    method Perform(a: Action, now: int) returns (v: Option<Verdict>)
      modifies this
      ensures (Snapshot(), v) == Step(world, old(Snapshot()), a, now)
    {
      match a {
        case PinTrust(peer, kid, publicKey) =>
          if (peer, kid) !in pins { pins := pins[(peer, kid) := publicKey]; }
          return None;
        case PinChannel(peer, kid, publicKey, epoch, bindingOk) =>
          var id := (peer, kid);
          if id !in pins || !bindingOk { return None; }
          if id in channelPins {
            if epoch < channelPins[id].epoch { return None; }
            if epoch == channelPins[id].epoch && publicKey != channelPins[id].publicKey { return None; }
          }
          channelPins := channelPins[id := ChannelPin(publicKey, epoch)];
          return None;
        case UnpinChannel(peer, kid) =>
          channelPins := channelPins - {(peer, kid)};
          return None;
        case _ =>
          var d := Deliver(world, channelPins, a);
          if d.Withheld? { return Some(Refused(d.reason)); }
          var verdict := ObserveCore(d.env, d.proof, d.digest, now);
          return Some(verdict);
      }
    }
  }
}
