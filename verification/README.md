# Aukora kernel: models and proofs in Dafny

This project models the parts of the Aukora node that decide what is true and who may act, and proves what they keep
over every input and every run. `dafny verify dfyconfig.toml` checks all of it.

- **Merkle log** (`Bits`, `MerkleLog`, `MerkleWalk`, `MerkleProofs`, `MerkleTheorems`). The proof builders of RFC 6962
  split a tree from the top; the verifiers walk bits (XOR, bit length, population count, trailing zeros). The two are
  connected for all sizes: every built proof is accepted, and an accepted proof means what it seems to mean.
- **Witness** (`Witness`, `WitnessRuns`). A high-water mark over a peer's signed heads, which moves only on a consistency
  proof. Safety over whole runs uses the Merkle theorems.
- **Receipts** (`Receipts`, `ReceiptTheorems`). The hash chain, its signed head and its Merkle root, the fresh-chain
  import, the row walk, the paged walk and the recorded high-water mark.
- **Authority** (`RootRegistry`, `Kernel`, `Manifests`, `Authority`, `AuthorityRuns`, `AuthorityReplays`, `AuthorityTokens`,
  `AuthorityLedger`, `MemoryRecall`, `AuthorityExamples`, `RateLimit`). Root keys, delegation manifests, grants, intents,
  decision tokens, the atomic memory write, its recall, and the token bucket.
- **Evidence** (`CanonicalJson`, `JsonWire`, `Catalogue`). The canonical JSON printer with a full JSON parser as its
  inverse, and the two linear secret scanners with their step counter.
- **Council** (`Council`, `WorkerPool`). The spend meter across rounds and repairs, lineage weights, and the worker pool
  as interleaved steps.

## How the model reads the code

- A database mutation is one atomic step; an exception leaves every table as it was. The classes (`Witness.Store`,
  `Receipts.Store`, `RootRegistry.Registry`, `Kernel.Engine`, `Manifests.Manifold`, `Authority.Node`,
  `Council.SpendMeter`, `WorkerPool.Pool`) hold the tables and update them in place; each method is proved equal to a
  function of the old state, and the theorems over runs are about those functions.
- Time is a parameter of every mutation, and no theorem assumes that it moves forward unless it says so.
- Signatures, MACs, key shapes, the sacred-target matcher and the input checks of the engine are functions of the
  environment. Nothing is assumed of them but what a theorem's `requires` states.
- The hash is any function with 32-byte results. That such a function has collisions is a triviality, so soundness is
  stated with `CollisionFree(h, s)`, where `s` is the finite set of strings the two computations really hash.
- Amounts of money and tokens are exact reals. Hex strings are byte strings. A JSON number is an integral value, minus
  zero, or another number; how its token becomes a number is a parameter, of which only safe integers are constrained.
- Fields named `uses`, `redeemed`, `trail`, `settled` and `claims` are bookkeeping of the model: they record what was
  committed, so that conservation can be stated, and nothing branches on them.

## What the proofs found

- A signed memory write does not commit at most once. Minting a local manifest looks for its id among local manifests
  only, so it can take the id of a promoted one, and its uses are numbered from 0 again. A committed request commits a
  second time exactly when its first use was of a promoted manifest, a local manifest of that id has been minted since,
  and that one grants it too; a request first used on a local manifest never does (`WriteReplaysExactly`). The failing
  run from empty tables is `ShadowedWriteReplays`.
- A permission that is used need not have been signed by any root. A promotion stores the permissions that came beside
  the signed body, and the operator's approval covers the body's hash only. What is used on a local manifest was in a
  body signed by a then active key of its root and by the subject; on a promoted one this holds exactly when it is in
  the body presented (`UsesSignedExactly`), and for everything the row grants exactly when the stored permissions are all in that
  body (`PromotionWidensExactly`). In `UnsignedPermissionWrites` a write commits under one that no signed body grants.
- Two memory rows can carry one receipt. The write reads its receipt back by clock, so a row carries the receipt it
  wrote exactly when no receipt of that chain had a later clock reading (`OwnReceiptExactly`, `ReadsBackExactly`). In
  `ReceiptIsShared` two writes, the second while the clock reads less, leave two rows with the first one's receipt; a
  receipt imported with a later clock reading does the same.
- The value of a memory write is not part of what the subject signed: what commits with one value commits with any other
  (`WriteIgnoresValue`).
- A finding does not show that the peer contradicted itself, unless it is a fork (`ForkConvicts`). A signed head of an
  honest peer is recorded as a regression exactly when it is older than the one held, and as a rewrite exactly when it is
  newer and comes with a well-formed proof that fails, so any but the peer's own; it is never a fork
  (`HonestHeadExactly`). So whoever replays a peer's own older head convicts it (`ReplayedHeadIsFlagged`), and
  convex/aukoraWitness.ts:404 takes a regression for self-verifying and rejects the peer's imports.
- Nothing on this node ends a promoted manifest. Both revocations look among local manifests only, so its status stays
  live over every run (`PromotedStaysLive`); only its origin's revocation view stops it.
- A witness whose baseline is an empty log (size 0) never accepts any growth, over any run (`EmptyBaselineNeverGrows`,
  `EmptyMarkStaysEmpty`).
- Unpinning and pinning again reopens every lower channel epoch, with any key (`UnpinReopensOldEpochs`).
- The full receipt verifier takes the newest rows in clock order. It accepts an untouched chain exactly when the newest
  rows by append order, as many as it takes, were stamped in order and no earlier than any row before them
  (`CoreVerifiesExactly`); the links of the whole scan hold exactly when no timestamp went backwards
  (`WalkAcceptsIffClockMonotone`). Two appends across a clock step back are reported truncated
  (`ClockStepBackTruncates`).
- The paged walk agrees with a whole walk except when the last page is empty and the head row is missing
  (`PagedAgreesIff`), and then it verifies a chain whose head was deleted (`DeletedHeadPasses`); from genesis it accepts
  what the full verifier accepts when the first row claims no predecessor, and otherwise the two never both accept
  (`PagedIsCore`).
- The URL scanner's negated character classes hold of the NaN that `charCodeAt` gives past the end, so a scan can run up
  to 512 steps beyond the text. Its comment says the opposite. The steps are at most `2n` plus that overrun, and the
  overrun is not zero exactly on the texts of `RunsOff` without credentials (`ScanUrlUserinfo`). For the bound `2n`
  alone this is one direction: a text that does not run off keeps it, a short one that does can exceed it
  (`OverrunOnShortText`), and a long one that does may still keep it.
- A clock that swings back and forth refills a bucket on every forward swing (`SwingingClockRefills`).
- A memory key spelled `rev` makes a chain key with the reserved suffix, so it can never be written
  (`ReservedExactly`, `WriteExactly`).
- A memory write spends the oldest fitting grant among the writer's first fifty active ones. The one-shot grant it
  inserts is spent only when no older one fits, and otherwise stays usable until it expires; behind fifty active grants
  it is not seen at all and the write fails (`FoundWithFresh`, `FreshGrantSpentExactly`).
- Recall reads the oldest row of a key. A value written is the one recalled, then and ever after, exactly when the key
  had no row before the write or its first row already held that value (`WrittenIsRecalledExactly`); a run with two
  committed writes and a read of the first is `OverwriteIsNotRecalled`.
- A pool asked for no worker resolves at once with every slot empty (`CompleteIffWorkerAsked`).

## Model

| member | source | states |
|---|---|---|
| Bits.Len64 | convex/aukoraMerkleLog.ts:111 | the shift loop counts binary digits |
| Bits.OnesCount | convex/aukoraMerkleLog.ts:112 | the mask-and-shift loop is the population count |
| Bits.CountTrailingZeros | convex/aukoraMerkleLog.ts:115 | the loop counts trailing zero bits, 0 for 0 |
| MerkleLog.ComputeSplitPoint | convex/aukoraMerkleLog.ts:51-55 | the doubling loop gives the split point |
| MerkleLog.SplitUnique | convex/aukoraMerkleLog.ts:51-55 | the split point is the only power of two k with k < n <= 2k |
| MerkleLog.RootCommits | convex/aukoraMerkleLog.ts:60-66 | equal tree hashes of equally many leaf hashes, nothing hashed colliding, mean equal leaf hashes |
| MerkleLog.MerkleRootCommits | convex/aukoraMerkleLog.ts:32-76 | equal Merkle roots over any two lists of leaves, nothing hashed colliding, mean equal lists, their lengths included: an inner node is never read as a leaf |
| MerkleLog.RootIsTreeHash | convex/aukoraMerkleLog.ts:37-76 | the Merkle root is MTH of section 2.1 of RFC 6962, with its prefix bytes and its largest power of two |
| MerkleWalk.WalkIsBitWalk | convex/aukoraMerkleLog.ts:120-143 | the verifiers' inner and border chains over the index bits rebuild exactly what the recursive walk from the root rebuilds, for every size and position |
| MerkleWalk.WalkLenIsBitCount | convex/aukoraMerkleLog.ts:120-124 | the bit lengths and counts of decompInclProof add up to the length of that walk, and inner is never below the shift |
| MerkleWalk.WalkHeight | convex/aukoraMerkleLog.ts:120-124 | no proof is longer than the height of the tree |
| MerkleProofs.DecompInclProof | convex/aukoraMerkleLog.ts:120-124 | computes the two parts of a proof |
| MerkleProofs.ChainInner | convex/aukoraMerkleLog.ts:125-131 | the fold evaluates the term the index bits prescribe |
| MerkleProofs.ChainInnerRight | convex/aukoraMerkleLog.ts:132-138 | the fold for the older root takes left siblings only |
| MerkleProofs.ChainBorderRight | convex/aukoraMerkleLog.ts:139-143 | the fold over the right border |
| MerkleProofs.RootFromInclusionProof | convex/aukoraMerkleLog.ts:146-155 | rebuilds the root, or nothing on an index out of range or a wrong length |
| MerkleProofs.RootFromConsistencyProof | convex/aukoraMerkleLog.ts:158-179 | rebuilds both roots and gives the newer one exactly when the older one matches; its subtraction cannot underflow |
| MerkleProofs.CheckInclusion | convex/aukoraMerkleLog.ts:182-191 | the verifier's verdict |
| MerkleProofs.CheckConsistency | convex/aukoraMerkleLog.ts:194-203 | the verifier's verdict, including the cases of size 0 and equal sizes |
| MerkleTheorems.InclusionComplete | convex/aukoraMerkleLog.ts:80-91 | every built inclusion proof is accepted and at most ceil(log2 n) long |
| MerkleTheorems.InclusionSound | convex/aukoraMerkleLog.ts:146-191 | an accepted proof against the root of D forces the leaf to be D[index] and the proof to be the built one |
| MerkleTheorems.ConsistencyComplete | convex/aukoraMerkleLog.ts:94-108 | every built consistency proof between a log and its prefix is accepted, has the verifier's length, and is at most ceil(log2 n) + 1 long |
| MerkleTheorems.ConsistencySound | convex/aukoraMerkleLog.ts:158-203 | an accepted proof between two Merkle roots means the older log is a prefix of the newer and the proof is the built one |
| MerkleTheorems.ConsistencyFromEmpty | convex/aukoraMerkleLog.ts:194-203 | size 0 is consistent with itself only |
| Witness.Store.ObserveCore | convex/aukoraWitness.ts:55-136 | one observation: gates, baseline, regression, fork, stability and proved extension, with the new tables stated whole |
| Witness.Store.Perform | convex/aukoraWitness.ts:154-309 | every entry point (plain, ingest, pins, unpin, recorded opening) is the modelled step, with the channel digest over peer, key, epoch, ciphertext, salt and wire version |
| WitnessRuns.MarksOnlyAdvance | convex/aukoraWitness.ts:96-135 | over any run a mark never disappears, shrinks or changes its baseline, and one size keeps one head |
| WitnessRuns.GrowthIsProved | convex/aukoraWitness.ts:124-135 | a mark grows only on a proof the consistency check accepts |
| WitnessRuns.LogsOnlyExtend | convex/aukoraWitness.ts:96-135 | over any run the log accepted first is a prefix of the log accepted last |
| WitnessRuns.FindingsOnlyGrow | convex/aukoraWitness.ts:108-135 | findings are never lost |
| WitnessRuns.FindingsAreEvidence | convex/aukoraWitness.ts:55-136 | in every run each mark shows a head signed under the pinned key, and each finding pairs such a head with a second one signed under the same key: for a fork of the same size with another root or head hash, for a regression smaller, for a rewrite larger |
| WitnessRuns.GatesExactly | convex/aukoraWitness.ts:55-94 | a head is looked at exactly when it is an exported head of two digests, signed under a pinned key, and the witness can sign |
| WitnessRuns.OffenceIsRecorded | convex/aukoraWitness.ts:108-135 | findings grow exactly when such a head is smaller than the one held, contradicts it at its size, or is larger with a well-formed proof that fails; the finding pairs the two, the verdict says so, and no mark moves |
| WitnessRuns.OnlyPresentableCount | convex/aukoraWitness.ts:55-136 | nothing else is recorded or accepted, and a first acceptance is the baseline |
| WitnessRuns.SplitViewIsCaught | convex/aukoraWitness.ts:108-121 | over any run, once a head is accepted, a different one of its size that gets through leaves a fork on record for good, or a regression where the log has grown |
| WitnessRuns.HonestHeadExactly | convex/aukoraWitness.ts:108-135 | what a signed head of an honest peer earns: never a fork, a regression exactly when it is older than the one held, a rewrite exactly when it is newer with a well-formed proof that fails, which, nothing hashed colliding, is any but the peer's own |
| WitnessRuns.ForkConvicts | convex/aukoraWitness.ts:111-121 | the two heads of a fork are never both of one append-only log |
| WitnessRuns.ReplayedHeadIsFlagged | convex/aukoraWitness.ts:108-109 | a run from empty tables in which an honest peer's own older head puts a regression on record |
| WitnessRuns.HonestPeerNeverFlagged | convex/aukoraWitness.ts:108-135 | over any run in which what arrives for the peer's chain is its own head, of nondecreasing size and with built proofs, each such delivery is accepted and the chain earns no finding, whatever entry points, times, channels, pins and other chains come in between |
| WitnessRuns.EmptyBaselineNeverGrows | convex/aukoraWitness.ts:96-135 | an observation against an empty mark is refused or recorded as a rewrite |
| WitnessRuns.EmptyMarkStaysEmpty | convex/aukoraWitness.ts:96-135 | an empty mark stays empty over every run |
| WitnessRuns.ChannelIsStripNeutral | convex/aukoraWitness.ts:209-245 | a run through the channel and the same deliveries in plaintext give the same verdicts in the same order and the same marks and findings |
| WitnessRuns.NoPlaintextDowngrade | convex/aukoraWitness.ts:154-163 | nothing of a channel-capable peer is processed without a channel digest |
| WitnessRuns.DigestNamesChannel | convex/aukoraWitness.ts:209-309 | what arrives with a channel digest is from the peer of a pinned channel, opened under that pin or recorded for its epoch, and the digest is of that peer, key, epoch and frame |
| WitnessRuns.DigestIsKept | convex/aukoraWitness.ts:96-135 | a mark once seen through the channel keeps a channel digest over every run |
| WitnessRuns.ChannelPinnedExactly | convex/aukoraWitness.ts:173-194 | a channel is pinned exactly by a bound key of a pinned peer, at a higher epoch or as the same key again |
| WitnessRuns.EpochsOnlyAdvance | convex/aukoraWitness.ts:173-194 | without an unpin a channel epoch never goes back nor changes its key in place |
| WitnessRuns.UnpinReopensOldEpochs | convex/aukoraWitness.ts:276-284 | with an unpin, every lower epoch is reached again, with any key |
| Receipts.VerifyRows | convex/aukoraCore.ts:556-567 | the walk gives the first row whose hash does not follow from its payload and predecessor |
| Receipts.Store.AppendReceiptAndSignHead | convex/aukoraReceipts.ts:106-175 | the row, the head and its signature, or nothing on a size mismatch |
| Receipts.Store.ImportEnvelope | convex/nodeB.ts:28-69 | every check on trust, signature, freshness, hashes, proof metadata, revocation and duplicates, then row, head and registry entry together, or nothing |
| Receipts.Store.ImportRevocation | convex/nodeB.ts:71-84 | a revocation signed under the pinned key, of the source's own delegation, is recorded |
| ReceiptTheorems.ImportsExactly | convex/nodeB.ts:28-69 | exactly when an import is accepted, and what it inserts |
| ReceiptTheorems.RevokesExactly | convex/nodeB.ts:71-84 | exactly when a revocation is recorded |
| ReceiptTheorems.ForeignSigned | convex/nodeB.ts:28-84 | in every run each imported receipt and each recorded revocation was signed by its source under the key pinned for it |
| ReceiptTheorems.ImportsConserved | convex/nodeB.ts:53-66 | in every run an envelope or receipt of a source is imported at most once, and never after its delegation was revoked |
| Receipts.Store.VerifyAndRecord | convex/aukoraReceipts.ts:389-414 | raises the mark on a verified head only |
| ReceiptTheorems.RecordsExactly | convex/aukoraReceipts.ts:389-414 | the mark is raised exactly on a verified head that counts more |
| ReceiptTheorems.VerifiesExactly | convex/aukoraReceipts.ts:278-359 | whatever the tables hold, the verifier accepts exactly an unbroken window whose end is the head's hash, with signing a head whose fields this kernel's key signed and whose root and count are those of the stored hashes, at the mark or beyond it |
| ReceiptTheorems.FirstFailure | convex/aukoraReceipts.ts:336-352 | which failure is reported first |
| ReceiptTheorems.PagesVerifyExactly | convex/aukoraReceipts.ts:428-510 | the same for the paged walk |
| ReceiptTheorems.MarksAreSigned | convex/aukoraReceipts.ts:389-414 | with signing, whatever is done to receipts and heads in between, no mark is ever raised on a head that this kernel's key did not sign |
| ReceiptTheorems.MarkExactly | convex/aukoraSignedHead.ts:275-280 | fewer receipts than the mark are a rollback, as many under another hash a fork |
| ReceiptTheorems.LogIsAppendOrder | convex/aukoraReceipts.ts:35-46 | the Merkle log is read in append order whatever the clock did |
| ReceiptTheorems.AppendKeeps | convex/aukoraReceipts.ts:106-175 | an append to a sound chain succeeds and keeps all chains sound |
| ReceiptTheorems.ChainsStayOk | convex/aukoraReceipts.ts:106-175 | under any interleaving: a head exactly where there are rows, count, numbering 1..n, links from genesis, last hash, Merkle root |
| ReceiptTheorems.SizeMismatchUnreachable | convex/aukoraReceipts.ts:155-156 | the tree-size exception is never thrown |
| ReceiptTheorems.SignedAppendChecks | convex/aukoraSignedHead.ts:245-262 | a head just signed passes its own signature check |
| ReceiptTheorems.HonestChainVerifies | convex/aukoraReceipts.ts:278-359 | an honestly written chain with nondecreasing timestamps verifies for every window |
| ReceiptTheorems.CoreVerifiesExactly | convex/aukoraReceipts.ts:278-359 | for every window size an untouched chain verifies exactly when its newest rows, as many as the window takes, were stamped in order and no earlier than any row before them |
| ReceiptTheorems.WindowIsNewestExactly | convex/aukoraReceipts.ts:279-284 | the newest n rows by clock are the newest n by append order, in that order, under exactly that condition |
| ReceiptTheorems.ClockStepBackTruncates | convex/aukoraReceipts.ts:290-301 | two appends across a clock step back are reported truncated, for every window |
| ReceiptTheorems.WalkAcceptsIffClockMonotone | convex/aukoraReceipts.ts:279-288 | the links of the whole chain in clock order are unbroken exactly when its clock never went backwards |
| ReceiptTheorems.SignedHeadFixesHashes | convex/aukoraReceipts.ts:308-319 | two tables that verify under one signed root hold the same chain hashes in sequence order, outside the window too |
| ReceiptTheorems.SameHeadSamePayloads | convex/aukoraCore.ts:556-567 | two intact walks from genesis that end on one hash hold the same payloads in the same order |
| ReceiptTheorems.PagedIsWhole | convex/aukoraReceipts.ts:428-510 | the paged walk breaks exactly when the whole walk does and ends on the same tail |
| ReceiptTheorems.PagedAgreesIff | convex/aukoraReceipts.ts:428-510 | the two verdicts agree exactly outside one case: an empty last page and a missing head |
| ReceiptTheorems.DeletedHeadPasses | convex/aukoraReceipts.ts:428-510 | that case: one append, its head deleted, an empty last page, and the paged walk verifies where the whole walk reports the missing head |
| ReceiptTheorems.PagedIsCore | convex/aukoraReceipts.ts:278-359 | the paged walk from genesis accepts what the full verifier accepts when the first row claims no predecessor, and otherwise never both do |
| ReceiptTheorems.HighWaterNeverFalls | convex/aukoraReceipts.ts:389-414 | the recorded mark never falls nor changes its hash at one count, even if the tables are tampered with between recordings |
| ReceiptTheorems.VerifiedIsAtTheMark | convex/aukoraSignedHead.ts:275-280 | a chain that verifies is at the mark or beyond it |
| RateLimit.RateLimits.Consume | convex/aukoraRateLimit.ts:44-62 | one bucket step on the row of the key, and only that row |
| RateLimit.StepPays | convex/aukoraRateLimit.ts:27-36 | tokens stay within 0 and the capacity, and an allowed call is paid from tokens held and elapsed time |
| RateLimit.DeniedExactly | convex/aukoraRateLimit.ts:27-36 | a call is denied exactly when tokens and refill make less than one, and then none is lost |
| RateLimit.FreshBurstExactly | convex/aukoraRateLimit.ts:27-36 | a fresh key lets exactly its configured number of calls through at one instant |
| RateLimit.AllowedAtMost | convex/aukoraRateLimit.ts:27-62 | over any calls: allowed + left is at most held + rate times the clock's forward movement |
| RateLimit.FreshAllowedAtMost | convex/aukoraRateLimit.ts:27-62 | from a fresh key, at most capacity plus that refill |
| RateLimit.TwiceCapacityPerWindow | convex/aukoraRateLimit.ts:27-62 | under a nondecreasing clock at most twice the capacity in any window |
| RateLimit.SwingingClockRefills | convex/aukoraRateLimit.ts:27-36 | the clock condition is needed |
| CanonicalJson.CheckSurrogates | src/evidence/canonical.ts:20-27 | the loop accepts exactly the texts without a lone surrogate |
| CanonicalJson.SortKeys | src/evidence/canonical.ts:43 | the keys, each once, ascending by code unit |
| CanonicalJson.KeyListUnique | src/evidence/canonical.ts:43 | there is only one such list |
| CanonicalJson.LessExactly | src/evidence/canonical.ts:43 | the key order is by the first code unit that differs (section 3.2.3 of RFC 8785) |
| CanonicalJson.WellFormedExactly | src/evidence/canonical.ts:20-27 | a text passes exactly when no surrogate in it lacks its other half |
| CanonicalJson.PrintsExactly | src/evidence/canonical.ts:29-52 | the printer accepts exactly the values made of safe integers, texts without lone surrogates, keys included, and JSON structure |
| CanonicalJson.CanonicalString | src/evidence/canonical.ts:29-52 | the output loops print the canonical text, or fail where the source throws |
| JsonWire.CheckCanonicalWire | src/evidence/canonical.ts:64-71 | the strict wire check, over a full parser |
| JsonWire.PrintedIsShortest | src/evidence/canonical.ts:20-27 | the printed string is the shortest JSON text of its value, and the only one as short in lower-case hex (section 3.2.2.2 of RFC 8785) |
| JsonWire.ParseInvertsCanon | src/evidence/canonical.ts:29-52 | parsing the canonical text of any accepted value gives that value back |
| JsonWire.CanonInjective | src/evidence/canonical.ts:29-52 | two accepted values with one canonical text are one value |
| JsonWire.WireAcceptsExactlyCanonical | src/evidence/canonical.ts:64-71 | the wire check accepts a text exactly when it is the canonical text of some accepted value |
| JsonWire.ReaderExists | src/evidence/canonical.ts:64-71 | the one assumption on number tokens can be met |
| Catalogue.CharClasses | src/evidence/catalogue.ts:132-142 | the character classes of the two patterns, and that the negated ones hold of the NaN past the end |
| Catalogue.ScanJwt | src/evidence/catalogue.ts:181-203 | true exactly when a token of the three run lengths occurs anywhere, in at most 3n steps |
| Catalogue.FailureCoversRun | src/evidence/catalogue.ts:181-203 | when the first candidate of a run fails every later one in the run fails, so the jump misses nothing |
| Catalogue.ScanUrlUserinfo | src/evidence/catalogue.ts:152-173 | true exactly when credentials in a URL occur within the window sizes; steps at most 2n plus an exactly characterized overrun |
| Catalogue.ScanStepBudget | src/evidence/catalogue.ts:207-212 | both scans together are linear |
| Catalogue.OverrunOnShortText | src/evidence/catalogue.ts:152-173 | a text on which 2n steps are exceeded |
| Council.SpendMeter.EstimateBatch | src/council/aukoraFuCouncil.ts:356-358 | the reduction sums the floored price of each seat |
| Council.SpendMeter.GuardPass | src/council/aukoraFuCouncil.ts:369-378 | passes exactly when the projection fits both ceilings |
| Council.SpendMeter.Reserve | src/council/aukoraFuCouncil.ts:391-400 | reserves exactly when spent plus reserved fits both ceilings, otherwise changes nothing |
| Council.SpendMeter.Reconcile | src/council/aukoraFuCouncil.ts:404-408 | releases a reservation and books the bill to the pass and the day |
| Council.ReconcileReleases | src/council/aukoraFuCouncil.ts:404-408 | what is reserved never turns negative, and a reservation is given back once |
| Council.FanOut | src/council/aukoraFuCouncil.ts:607-642 | a batch and at most one repair of the seats that ask for it; a refused repair is passed over |
| Council.RunCouncil | src/council/aukoraFuCouncil.ts:595-704 | a whole pass as the meter sees it |
| Council.RepairWithinBatch | src/council/aukoraFuCouncil.ts:630-633 | a repair is never estimated above the batch it repairs |
| Council.TokenCapCovers | src/council/aukoraFuCouncil.ts:351-353 | a reply within multiplier times the token cap is billed within its reservation |
| Council.PassBooksBills | src/council/aukoraFuCouncil.ts:391-408 | every pass ends with nothing reserved and exactly its bills booked, once to the pass and once to the day |
| Council.BudgetHolds | src/council/aukoraFuCouncil.ts:595-704 | with covered bills both ceilings hold at every point, round 1, its repair and round 2 are never refused, and the synthesis only if both rounds were repaired |
| Council.PassFollowsRounds | src/council/aukoraFuCouncil.ts:595-704 | what is skipped in a pass is exactly what its rounds, repairs and quorum do not reach |
| Council.SecondRepairRefused | src/council/aukoraFuCouncil.ts:598-600 | the second repair can be refused |
| Council.SynthesisRefused | src/council/aukoraFuCouncil.ts:598-600 | after two repairs the synthesis can be refused |
| Council.LineageWeights | src/council/aukoraFuCouncil.ts:254-267 | each vote weighs one over the number of votes of its family |
| Council.FamilyExactly | src/council/aukoraFuCouncil.ts:254-267 | the family of a vote is that of the last seat of its id |
| Council.WeightsSumToFamilies | src/council/aukoraFuCouncil.ts:254-267 | the weights of the votes sum to the number of voting families |
| WorkerPool.Pool.GoOn | apps/fu/run-council.ts:247-252 | one worker up to its next await |
| WorkerPool.RunWithConcurrency | apps/fu/run-council.ts:244-255 | the pool under any schedule is the modelled run |
| WorkerPool.RunInv | apps/fu/run-council.ts:244-255 | under every schedule each task is unstarted, held by exactly one worker, or settled with its value in its slot (or rejected with its worker lost) |
| WorkerPool.ClaimedOnce | apps/fu/run-council.ts:248-249 | tasks are started in order and each at most once, under every interleaving |
| WorkerPool.FlightBound | apps/fu/run-council.ts:253 | under every schedule at most min(concurrency, n) tasks are in flight, and some schedule reaches it |
| WorkerPool.ResolvedIsComplete | apps/fu/run-council.ts:244-255 | a pool that resolves has started every task once, none rejected, and results[i] is the value of task i |
| WorkerPool.StuckIsResolved | apps/fu/run-council.ts:244-255 | without rejections a pool that cannot go on has resolved |
| WorkerPool.RunsEnd | apps/fu/run-council.ts:247-252 | no run is longer than three steps a task and one a worker |
| WorkerPool.CompleteIffWorkerAsked | apps/fu/run-council.ts:253 | resolving implies full results exactly when a worker was asked for or there is nothing to do |
| RootRegistry.Registry.MintRow | convex/aumlokRootRegistry.ts:101-109 | once per root, a well-shaped key, a fingerprint nobody uses |
| RootRegistry.Registry.RotateRoot | convex/aumlokRootRegistry.ts:137-181 | all checks in order, then old retired and new active together, or nothing |
| RootRegistry.Registry.RevokeRoot | convex/aumlokRootRegistry.ts:187-202 | an active or retired key becomes revoked |
| RootRegistry.GenesisExactly | convex/aumlokRootRegistry.ts:117-131 | exactly when the operator can bear a root |
| RootRegistry.CeremonyExactly | convex/aumlokCeremony.ts:74-130 | exactly when a ceremony bears one, given its challenge |
| RootRegistry.KeyHasOrigin | convex/aumlokRootRegistry.ts:101-181 | every key in every reachable table was brought by one call: genesis, ceremony, or a rotation signed by the key active then |
| RootRegistry.RotateExactly | convex/aumlokRootRegistry.ts:137-181 | a rotation commits exactly when the root's active key signed it for a fresh, well-shaped, rightly fingerprinted key, and then changes just those two rows |
| RootRegistry.RunKeeps | convex/aumlokRootRegistry.ts:101-202 | every run keeps the table sound and only wears it out |
| RootRegistry.RegistryLifecycle | convex/aumlokRootRegistry.ts:101-202 | at most one active key per root, unique fingerprints, revoked terminal, a root without active key never regains one |
| RootRegistry.DiesExactlyByRevocation | convex/aumlokRootRegistry.ts:187-202 | a root loses its active key exactly by an accepted revocation of it |
| Kernel.RunsExactly | convex/aukoraCore.ts:351-503 | decision and execution together let through exactly the intents of MayRun: no sacred target, no uncleared self-modify |
| Kernel.FindActiveGrant | convex/aukoraRuntime.ts:130-154 | the loop finds the first fitting candidate |
| Kernel.FoundExactly | convex/aukoraRuntime.ts:130-154 | the grant found is the oldest fitting one, with fewer than fifty active ones older still |
| Kernel.Engine.SubmitIntent | convex/aukoraRuntime.ts:188-346 | entry checks, rate limit, decision, grant use, chain hold, log row and token |
| Kernel.Engine.VerifyAndConsume | convex/aukoraToken.ts:42-104 | marks the token consumed exactly when every check on the log row passes |
| Kernel.Engine.IssueGrant | convex/aukoraRuntime.ts:372-425 | a clamped grant, or nothing |
| Kernel.Engine.RevokeGrantByKey | convex/aukoraRuntime.ts:427-439 | the first grant of that key becomes revoked, if there is one |
| Kernel.Engine.SetSalama | convex/aukoraRuntime.ts:444-461 | the operator's hold |
| Kernel.Engine.SetKillSwitch | convex/aukoraRuntime.ts:464-488 | the kill switch |
| Kernel.TokenMintedExactly | convex/aukoraRuntime.ts:188-346 | exactly when a submission yields a decision token |
| Kernel.SubmitOutcomes | convex/aukoraRuntime.ts:188-346 | exactly when a submission throws, is limited or is logged, and what that does to the tables |
| Kernel.HoldsMoveExactly | convex/aukoraCore.ts:362-400 | a hold moves exactly by an authorized clear or trigger on its own chain |
| Kernel.IssuesExactly | convex/aukoraRuntime.ts:372-425 | exactly when a grant is issued, for whom, for how long and how often |
| Kernel.SubmitKeeps | convex/aukoraRuntime.ts:188-346 | a submission keeps use counts, row invariants and token accounting |
| Kernel.RedeemKeeps | convex/aukoraToken.ts:42-104 | a redemption keeps them |
| Manifests.Manifold.Mint | convex/aumlokManifests.ts:213-264 | a row for a valid body signed by an active root key and the subject, once per id |
| Manifests.Manifold.RevokeByRoot | convex/aumlokManifests.ts:271-294 | revocation by the root's current active key |
| Manifests.Manifold.RevokeBySubject | convex/aumlokManifests.ts:300-322 | revocation or pause by the subject |
| Manifests.Manifold.ResolveNow | convex/aumlokManifests.ts:158-196 | the row that gives the authority, or the first failing check, with the foreign branch |
| Manifests.Manifold.ConsumeUse | convex/aumlokManifests.ts:334-369 | one use, or nothing; a refused request leaves bucket and row alone |
| Manifests.ResolveExactly | convex/aumlokManifests.ts:158-196 | resolution finds exactly the live authority for what is wanted |
| Manifests.ConsumeExactly | convex/aumlokManifests.ts:158-196 | a use is granted exactly on live authority for the request, signed by the subject within a minute, with the next sequence number and room in every limit |
| Manifests.MintsExactly | convex/aumlokManifests.ts:213-264 | exactly when a manifest is minted |
| Manifests.PromotesExactly | convex/nodeImport.ts:214-256 | exactly when a foreign manifest is promoted |
| Manifests.PayRateExactly | convex/aumlokManifests.ts:334-369 | a limited manifest is out of uses exactly when its bucket holds less than one token, refilled at capacity per window |
| Manifests.ConsumeKeeps | convex/aumlokManifests.ts:334-369 | a consume keeps the uses numbered 0, 1, ... and within maxUses |
| Manifests.NoReplay | convex/aumlokManifests.ts:360 | a request that committed on a row never commits again on that row |
| Manifests.RevokedKeyNeverResolves | convex/aumlokManifests.ts:173-177 | no manifest under a revoked local key resolves, and the foreign branch is no way around it |
| Authority.Node.Write | convex/aumlokMemory.ts:48-83 | the memory write is one transaction: all of its effects or none, with the receipt read back by clock from its chain |
| Authority.Node.Note | convex/aukoraReceipts.ts:182-206 | another action's receipt: no reserved chain, an intent that consumed its token |
| Authority.Node.Bring | convex/nodeB.ts:28-69 | all an import can do to these receipts: begin a chain, with the clock reading of its origin |
| AuthorityRuns.ReservedExactly | convex/aukoraReceipts.ts:186-196 | a memory chain key is reserved exactly for the key "rev" |
| AuthorityRuns.FoundWithFresh | convex/aukoraRuntime.ts:130-154 | which grant a write finds once it has inserted its own |
| AuthorityRuns.AuthorizeExactly | convex/aumlokMemory.ts:71-73 | submit and redeem succeed together, exactly when the engine is open and a grant is found |
| AuthorityRuns.WriteExactly | convex/aumlokMemory.ts:48-83 | exactly when a memory write commits |
| AuthorityRuns.WriteSpendsOne | convex/aumlokMemory.ts:60-80 | a write spends one manifest use, one grant use and one token and leaves one receipt and one row, which carries the receipt the chain gives by clock; nothing else changes |
| AuthorityRuns.FreshGrantSpentExactly | convex/aumlokMemory.ts:69-71 | the inserted grant is for the writer, the namespace, one use and one minute, and is the one spent exactly when no older one fitted |
| AuthorityRuns.RunKeeps | convex/aumlokMemory.ts:48-83 | every run of registry, manifest, engine, token and memory mutations keeps all invariants and takes nothing back |
| AuthorityRuns.UsesConserved | convex/aumlokManifests.ts:334-369 | in every reachable state the committed uses of a row carried 0, 1, ..., usedCount - 1 in order, at most maxUses (none for a negative limit), on local and promoted rows |
| AuthorityRuns.GrantsConserved | convex/aukoraRuntime.ts:254-264 | in every reachable state a grant's usedCount is the number of allowed intents naming it, at most maxUses, each asking for what it gives before it expired |
| AuthorityRuns.TokensConserved | convex/aukoraToken.ts:65-94 | each token consumed at most once, only from an allowed accepted moga intent that moves no hold, backed by a grant unless it observes; no forbidden intent is ever allowed |
| AuthorityTokens.RedeemedExactly | convex/aukoraToken.ts:42-104 | a token is consumed exactly when the engine runs, the signature presented is that row's, and ring, action, resource, actor and age fit an allowed, unconsumed moga row |
| AuthorityTokens.TokenSpentExactly | convex/aukoraToken.ts:42-104 | in every run a row's token turns consumed exactly by such a redemption, and a new row is born consumed exactly by a committed memory write |
| AuthorityTokens.TokenHasOrigin | convex/aukoraToken.ts:42-104 | every consumed token in every reachable state has that one call |
| AuthorityTokens.OnlyTheFounder | convex/aukoraRuntime.ts:372-488 | operator calls by anyone else change nothing |
| AuthorityTokens.RevokedNeverFound | convex/aukoraRuntime.ts:427-439 | after a founder's revocation the first grant of that key is never found again |
| AuthorityTokens.FounderHalts | convex/aukoraRuntime.ts:444-488 | the founder's switch and hold stop the engine, and lifting both lets it run |
| AuthorityTokens.HaltLasts | convex/aukoraRuntime.ts:107-126 | over every run a stopped engine stays stopped until the founder lifts it, and meanwhile logs, redeems and writes nothing |
| AuthorityRuns.MemoryConserved | convex/aumlokMemory.ts:58-80 | each memory row has a receipt, a use, a grant use and a token of its own, and carries the receipt its chain gave by clock at its write |
| AuthorityRuns.ReadsBackExactly | convex/aumlokMemory.ts:78 | a receipt just written is the one read back exactly when none of its chain has a later clock reading |
| AuthorityRuns.OwnReceiptExactly | convex/aumlokMemory.ts:77-80 | in every reachable state a memory row carries its own receipt exactly when no receipt of the chain had a later clock reading at its write |
| AuthorityExamples.ReceiptIsShared | convex/aumlokMemory.ts:78 | a run from empty tables after which two memory rows carry one receipt |
| AuthorityRuns.WriteIgnoresValue | convex/aumlokMemory.ts:48-83 | a request that commits with one value commits with any other |
| AuthorityRuns.WriteNeverReplays | convex/aumlokMemory.ts:48-83 | a signed write request never commits twice on one row |
| AuthorityReplays.CommitsExactly | convex/aumlokMemory.ts:48-83 | a write commits on a given manifest row exactly under conditions that can be checked before the call |
| AuthorityReplays.WriteReplaysExactly | convex/aumlokManifests.ts:251 | a committed request commits again exactly when it was first used on a promoted manifest, a local one of its id was minted since, and that one grants it; never after a first use on a local manifest |
| AuthorityExamples.ShadowedWriteReplays | convex/aumlokManifests.ts:251 | a run from empty tables in which the identical request commits twice |
| AuthorityReplays.RowsHaveOrigin | convex/aumlokManifests.ts:241-260 | every manifest row in every reachable state was put there by one call: a local one by a mint signed by a then active key of its root and by its subject, a promoted one by a promotion whose body was signed by the pinned key and the subject and differs at most in permissions and codecs |
| AuthorityReplays.UsesSignedExactly | convex/nodeImport.ts:227-256 | every committed use of a local manifest was of a permission its root and subject had signed; one of a promoted manifest was of a stored permission, signed exactly when it is in the body presented |
| AuthorityReplays.PromotionWidensExactly | convex/nodeImport.ts:249 | everything a promoted row grants was signed exactly when the permissions stored beside the body are all in it |
| AuthorityExamples.UnsignedPermissionWrites | convex/nodeImport.ts:249 | a run from empty tables in which a memory write commits under a permission that no signed body grants |
| AuthorityRuns.RevocationIsFinal | convex/aumlokManifests.ts:158-196 | after a key's revocation no later state resolves a manifest under it; a paused or revoked row is never live again |
| AuthorityLedger.StatusMovesExactly | convex/aumlokManifests.ts:271-322 | in every run a manifest's status moves exactly by a statement its root's active key or its subject signed, to what it says |
| AuthorityLedger.PromotedStaysLive | convex/aumlokManifests.ts:271-322 | the status of a promoted manifest never moves |
| AuthorityLedger.ReservedChainExactly | convex/aukoraReceipts.ts:186-196 | the chains a protected action may not write to are those ending in :rev or starting with id: or mft: |
| AuthorityLedger.ReceiptHasOrigin | convex/aukoraReceipts.ts:182-206 | every receipt in every reachable state was written by a memory write, by another action off the reserved chains under a consumed token, or by an import that began its chain |
| AuthorityRuns.HaltIsTotal | convex/aukoraRuntime.ts:107-126 | under the kill switch or the hold nothing is logged, redeemed or written |
| MemoryRecall.RecallExactly | convex/aumlokMemory.ts:91-117 | a value is read exactly by a fresh well-formed request of the proven owner, or of the writer under live authority, and it is the first row's |
| MemoryRecall.RecallNeverSeesOverwrite | convex/aumlokMemory.ts:98 | the value read for a key never changes, even after later writes to it |
| MemoryRecall.WrittenIsRecalledExactly | convex/aumlokMemory.ts:98 | a value written is the one recalled from then on exactly when the key had no row before or its first row already held that value |
| AuthorityExamples.OverwriteIsNotRecalled | convex/aumlokMemory.ts:98 | a run from empty tables with two committed writes to one key, after which the owner reads the first |
| MemoryRecall.RevocationSeversReaders | convex/aumlokMemory.ts:103-114 | a dead root reads nothing any more, and a writer reads only through a manifest of the row's id that is not under a revoked key |

## Left out

- Signed witness audit records and peer consequences (applyConsequence, clearConsequence): a finding is recorded, what an operator does about it is not modelled.
- advanceChannelEpoch of the node's own channel, and the frame encryption: a frame opens to a delivery or does not.
- The intent gates and the payload fields of writeReceiptRow inside the receipt tables: `Receipts` keeps one opaque body, and `Authority` models the gates where the memory write meets them.
- The receipts in `Authority` carry a clock reading and what they bind, and no hashes: the hash chain and signed head they are appended to are the subject of `Receipts`. Identity, manifest and revocation receipts are on reserved chains that no memory write reads back, and are not in that table.
- Uniqueness of logId (twelve hex digits of a hash over a random nonce) and of grantKey: rows are named by position, which assumes both are fresh.
- The hash links between intent-log rows: they are never read back by a decision.
- recordRevocationView, importForeignManifest and importForeignMemory (convex/nodeImport.ts): in `Manifests` the pins and revocation views are inputs that any step may change, and only promotion to a cross-grant is modelled. `Receipts` models pins without their root binding.
- The checks of aumlokCeremonyMint (convex/aumlokCeremony.ts) on its challenge, summary, freshness, replay and rate: they are one input of the model's ceremony.
- Object hygiene of request bodies (unknown and missing fields): requests are typed, and only the memory key may be absent.
- Retention pruning of grants and logs: rows are never deleted in the model.
- The demo ceremonies that insert grants of their own (convex/ceremony.ts, convex/nodeA.ts, convex/memory.ts, convex/popResolver.ts).
- Floating point in the meter, the weights and the bucket: the bounds are those of exact arithmetic.
- The text of council packets: which results are votes, ask for repair or meet the quorum is an input of a pass, as are the bills.
- Two passes sharing one meter at the same time: beginPass clears the other's reservations, and the ceilings are proved for one pass at a time.
- Prototypes, accessors and sparse arrays of JavaScript values in the printer: an object is its own enumerable string keys with their values.
- The evidence validator (src/evidence/validate.ts), artifact custody chains (convex/aukoraArtifactCustody.ts) and the identity dictionary (convex/aukoraAumlokDictionary.ts): these parts are not modelled.
- Secret patterns given as regular expressions, Unicode confusables, and the sacred-target matcher: the matcher is a parameter.
