/** convex/aukoraCore.ts, convex/aukoraRuntime.ts and convex/aukoraToken.ts: deciding an intent, finding and
    spending a grant, logging, and redeeming the single-use decision token. */
module Kernel {
  import RateLimit
  import opened RootRegistry

  // ---- deciding ----

  datatype Ring = Observe | LocalWrite | External | SelfModify

  function RingRank(r: Ring): nat {
    match r case Observe => 0 case LocalWrite => 1 case External => 2 case SelfModify => 3
  }

  /** A grant covers its ring and below. */
  predicate Covers(granted: Ring, requested: Ring) { RingRank(granted) >= RingRank(requested) }

  datatype Claim = Moga | Di | Padi | Intu | Salama | OtherClaim

  datatype Verdict = Accepted | Downgraded | Refused | Halted

  datatype Intent = Intent(ring: Ring, claim: Claim, action: string, resource: string, requiresAuthorization: bool,
                           authorizationGranted: bool, humanClearance: bool, triggerSalama: bool, clearSalama: bool)

  /** The decision, and whether the chain is held afterwards. */
  datatype Evaluation = Evaluation(verdict: Verdict, claim: Claim, held: bool)

  /** The Ring 0 matcher. */
  type Sacred = (string, string) -> bool

  /** evaluateAukoraIntent; submitIntentCore passes no proofs, so a di claim is always downgraded. */
  function Evaluate(sacred: Sacred, i: Intent, held: bool): Evaluation {
    if i.clearSalama then
      if !i.authorizationGranted then Evaluation(Refused, Salama, held) else Evaluation(Accepted, Salama, false)
    else if held then Evaluation(Halted, Salama, held)
    else if i.triggerSalama then
      if !i.authorizationGranted then Evaluation(Refused, Salama, held) else Evaluation(Accepted, Salama, true)
    else if sacred(i.action, i.resource) then Evaluation(Refused, i.claim, held)
    else if i.ring == SelfModify && !i.humanClearance then Evaluation(Refused, i.claim, held)
    else if i.requiresAuthorization && !i.authorizationGranted then Evaluation(Refused, Moga, held)
    else
      match i.claim
      case Moga => Evaluation(Accepted, Moga, held)
      case Di => Evaluation(Downgraded, Intu, held)
      case Padi => Evaluation(Accepted, Padi, held)
      case Intu => Evaluation(Accepted, Intu, held)
      case _ => Evaluation(Refused, Intu, held)
  }

  /** executeAukoraIntent: does the intent run? */
  predicate Execute(sacred: Sacred, i: Intent, e: Evaluation) {
    if sacred(i.action, i.resource) then false
    else if e.held then false
    else if e.verdict != Accepted then false
    else if i.ring == Observe then true
    else if !(i.requiresAuthorization && i.authorizationGranted) then false
    else e.claim == Moga
  }

  /** Which intents are meant to run: no sacred target and no uncleared self-modify intent, whatever the claim,
      grant or flags; past observing, only authorized moga; and of the salama flags only an authorized clear on
      the observe ring. */
  predicate MayRun(sacred: Sacred, i: Intent, held: bool) {
    && !sacred(i.action, i.resource)
    && (i.clearSalama ==> i.authorizationGranted && i.ring == Observe)
    && (!i.clearSalama ==>
         && !held && !i.triggerSalama && (i.requiresAuthorization ==> i.authorizationGranted)
         && (i.ring == Observe ==> i.claim in {Moga, Padi, Intu})
         && (i.ring != Observe ==> i.requiresAuthorization && i.claim == Moga)
         && (i.ring == SelfModify ==> i.humanClearance))
  }

  lemma RunsExactly(sacred: Sacred, i: Intent, held: bool)
    ensures Execute(sacred, i, Evaluate(sacred, i, held)) <==> MayRun(sacred, i, held)
  {
  }

  // ---- grants ----

  datatype GrantStatus = GActive | GRevoked | GUsed

  /** The empty string stands for an action or resource that was not given. */
  datatype Grant = Grant(key: string, actor: string, ring: Ring, action: string, resource: string, expiresAt: int,
                         maxUses: Option<int>, usedCount: nat, status: GrantStatus)

  /** grantUsability. */
  predicate Usable(g: Grant, now: int) {
    g.status == GActive && now <= g.expiresAt && (g.maxUses.Some? ==> g.usedCount < g.maxUses.value)
  }

  /** What an intent asks of a grant. */
  datatype Ask = Ask(actor: string, ring: Ring, action: string, resource: string)

  predicate Fits(g: Grant, a: Ask, now: int) {
    Covers(g.ring, a.ring) && g.action != "" && g.action == a.action && g.resource != "" && g.resource == a.resource
    && Usable(g, now)
  }

  predicate Candidate(g: Grant, actor: string) { g.actor == actor && g.status == GActive }

  const TAKE := 50

  /** The positions of the actor's active grants, in creation order. */
  function Candidates(grants: seq<Grant>, actor: string): (c: seq<nat>)
    ensures forall p | 0 <= p < |c| :: c[p] < |grants| && Candidate(grants[c[p]], actor)
  {
    if grants == [] then []
    else
      var n := |grants| - 1;
      Candidates(grants[..n], actor) + if Candidate(grants[n], actor) then [n] else []
  }

  /** Positions into a table of n rows. */
  predicate Within(c: seq<nat>, n: nat) { forall p | 0 <= p < |c| :: c[p] < n }

  function FirstFit(grants: seq<Grant>, c: seq<nat>, a: Ask, now: int): (r: Option<nat>)
    requires Within(c, |grants|)
    ensures r.Some? ==> (exists p: nat :: p < |c| && c[p] == r.value) && r.value < |grants| && Fits(grants[r.value], a, now)
  {
    if c == [] then None
    else if Fits(grants[c[0]], a, now) then
      assert c[0] == c[0];
      Some(c[0])
    else FirstFit(grants, c[1..], a, now)
  }

  function Window(c: seq<nat>): seq<nat> {
    if |c| <= TAKE then c else c[..TAKE]
  }

  function FindGrant(grants: seq<Grant>, a: Ask, now: int): (r: Option<nat>)
    ensures r.Some? ==> r.value < |grants| && Candidate(grants[r.value], a.actor) && Fits(grants[r.value], a, now)
  {
    FirstFit(grants, Window(Candidates(grants, a.actor)), a, now)
  }

  /** The loop of findActiveGrant. */
  method FindActiveGrant(grants: seq<Grant>, a: Ask, now: int) returns (r: Option<nat>)
    ensures r == FindGrant(grants, a, now)
  {
    var c := Window(Candidates(grants, a.actor));
    var i := 0;
    while i < |c|
      invariant 0 <= i <= |c|
      invariant FindGrant(grants, a, now) == FirstFit(grants, c[i..], a, now)
    {
      var g := grants[c[i]];
      assert c[i..][0] == c[i] && c[i..][1..] == c[i + 1..];
      if Covers(g.ring, a.ring) && g.action != "" && g.action == a.action && g.resource != "" && g.resource == a.resource {
        if Usable(g, now) { return Some(c[i]); }
      }
      i := i + 1;
    }
    return None;
  }

  /** How many active grants of the actor were created before grant g. */
  function Older(grants: seq<Grant>, actor: string, g: nat): nat
    requires g <= |grants|
  {
    |Candidates(grants[..g], actor)|
  }

  lemma {:induction false} CandidatesAt(grants: seq<Grant>, actor: string, g: nat)
    requires g < |grants| && Candidate(grants[g], actor)
    ensures Older(grants, actor, g) < |Candidates(grants, actor)|
    ensures Candidates(grants, actor)[Older(grants, actor, g)] == g
    decreases |grants|
  {
    var n := |grants| - 1;
    if g < n {
      CandidatesAt(grants[..n], actor, g);
      assert grants[..n][..g] == grants[..g];
    }
  }

  predicate Ascending(c: seq<nat>) { forall i, j | 0 <= i < j < |c| :: c[i] < c[j] }

  lemma {:induction false} CandidatesAscend(grants: seq<Grant>, actor: string)
    ensures Ascending(Candidates(grants, actor))
    decreases |grants|
  {
    if grants != [] { CandidatesAscend(grants[..|grants| - 1], actor); }
  }

  /** A position tells its grant, and a grant its position. */
  lemma PositionIsOlder(grants: seq<Grant>, actor: string, g: nat, p: nat)
    requires g < |grants| && Candidate(grants[g], actor) && p < |Candidates(grants, actor)|
    ensures Candidates(grants, actor)[p] == g <==> p == Older(grants, actor, g)
    ensures p < Older(grants, actor, g) ==> Candidates(grants, actor)[p] < g
    ensures Older(grants, actor, g) < p ==> g < Candidates(grants, actor)[p]
  {
    CandidatesAt(grants, actor, g);
    CandidatesAscend(grants, actor);
  }

  /** p is the first position of c whose grant fits. */
  predicate FirstAt(grants: seq<Grant>, c: seq<nat>, a: Ask, now: int, p: nat)
    requires Within(c, |grants|)
  {
    p < |c| && Fits(grants[c[p]], a, now) && forall q | 0 <= q < p :: !Fits(grants[c[q]], a, now)
  }

  lemma {:induction false} FirstFitAt(grants: seq<Grant>, c: seq<nat>, a: Ask, now: int)
    requires Within(c, |grants|)
    ensures forall p: nat :: FirstAt(grants, c, a, now, p) ==> FirstFit(grants, c, a, now) == Some(c[p])
    ensures var r := FirstFit(grants, c, a, now); r.Some? ==> exists p: nat :: FirstAt(grants, c, a, now, p) && c[p] == r.value
    decreases |c|
  {
    if c != [] {
      var t := c[1..];
      FirstFitAt(grants, t, a, now);
      if Fits(grants[c[0]], a, now) {
        assert FirstAt(grants, c, a, now, 0);
      } else {
        forall p: nat | FirstAt(grants, c, a, now, p)
          ensures FirstFit(grants, c, a, now) == Some(c[p])
        {
          assert p > 0 && forall q | 0 <= q < p - 1 :: t[q] == c[q + 1];
          assert FirstAt(grants, t, a, now, p - 1);
        }
        if FirstFit(grants, c, a, now).Some? {
          var p: nat :| FirstAt(grants, t, a, now, p) && t[p] == FirstFit(grants, t, a, now).value;
          assert forall q | 0 < q < p + 1 :: c[q] == t[q - 1];
          assert FirstAt(grants, c, a, now, p + 1);
        }
      }
    }
  }

  /** The oldest fitting grant of the actor, with fewer than fifty active grants older still. */
  predicate OldestFit(grants: seq<Grant>, a: Ask, now: int, g: nat) {
    && g < |grants| && Candidate(grants[g], a.actor) && Fits(grants[g], a, now) && Older(grants, a.actor, g) < 50
    && forall h | 0 <= h < g && Candidate(grants[h], a.actor) :: !Fits(grants[h], a, now)
  }

  /** The grant spent is the oldest fitting one among the actor's first fifty; the rest of the table is never
      looked at. */
  lemma FoundExactly(grants: seq<Grant>, a: Ask, now: int, g: nat)
    ensures FindGrant(grants, a, now) == Some(g) <==> OldestFit(grants, a, now, g)
  {
    if FindGrant(grants, a, now) == Some(g) { FoundIsOldest(grants, a, now, g); }
    if OldestFit(grants, a, now, g) { OldestIsFound(grants, a, now, g); }
  }

  lemma FoundIsOldest(grants: seq<Grant>, a: Ask, now: int, g: nat)
    requires FindGrant(grants, a, now) == Some(g)
    ensures OldestFit(grants, a, now, g)
  {
    hide Fits, FirstFit, Candidates;
    var w := Window(Candidates(grants, a.actor));
    FirstFitAt(grants, w, a, now);
    var p: nat :| FirstAt(grants, w, a, now, p) && w[p] == g;
    PositionIsOlder(grants, a.actor, g, p);
    forall h | 0 <= h < g && Candidate(grants[h], a.actor)
      ensures !Fits(grants[h], a, now)
    {
      CandidatesAt(grants, a.actor, h);
      PositionIsOlder(grants, a.actor, h, p);
      assert w[Older(grants, a.actor, h)] == h;
    }
  }

  lemma OldestIsFound(grants: seq<Grant>, a: Ask, now: int, g: nat)
    requires OldestFit(grants, a, now, g)
    ensures FindGrant(grants, a, now) == Some(g)
  {
    hide Fits, FirstFit, Candidates;
    var w := Window(Candidates(grants, a.actor));
    FirstFitAt(grants, w, a, now);
    CandidatesAt(grants, a.actor, g);
    var p := Older(grants, a.actor, g);
    forall q | 0 <= q < p
      ensures !Fits(grants[w[q]], a, now)
    {
      PositionIsOlder(grants, a.actor, g, q);
    }
    assert FirstAt(grants, w, a, now, p);
  }

  // ---- the engine ----

  datatype LogRow = LogRow(stateKey: string, intent: Intent, verdict: Verdict, claim: Claim, allowed: bool,
                           actor: string, grantRef: Option<nat>, ts: int, consumedAt: Option<int>)

  /** The tables of the engine: grants and intent logs in creation order, the salama hold of each chain, the kill
      switch and the rate-limit buckets. redeemed is model-only: the log rows whose token was consumed, in order. */
  datatype KState = KState(grants: seq<Grant>, logs: seq<LogRow>, held: map<string, bool>, killSwitch: bool,
                           buckets: map<string, RateLimit.Bucket>, redeemed: seq<nat>)

  const OPERATOR := "auma_operator"
  const TOKEN_TTL := 300_000

  predicate HeldOn(held: map<string, bool>, key: string) { key in held && held[key] }

  /** The whole engine is stopped. */
  predicate Halts(k: KState) { k.killSwitch || HeldOn(k.held, OPERATOR) }

  datatype RateArgs = RateArgs(key: string, cfg: RateLimit.Config)

  datatype Args = Args(actor: string, ring: Ring, claim: Claim, action: string, resource: string,
                       requiresAuthorization: bool, stateKey: Option<string>, humanClearance: bool,
                       triggerSalama: bool, clearSalama: bool, rate: Option<RateArgs>)

  /** The Ring 0 matcher, the length and ASCII checks on inputs, and the token signature of a log row. */
  datatype Gate = Gate(sacred: Sacred, inputsOk: Args -> bool, mac: nat -> string)

  /** The clock of a mutation and whether the server has a token secret. */
  datatype Ctx = Ctx(now: int, secret: bool)

  datatype Outcome = Threw | Limited | Logged(logId: nat, allowed: bool, token: Option<string>)

  function StateKey(a: Args): string { if a.stateKey.Some? then a.stateKey.value else "actor:" + a.actor }

  function IntentOf(a: Args, granted: bool): Intent {
    Intent(a.ring, a.claim, a.action, a.resource, a.requiresAuthorization, granted, a.humanClearance, a.triggerSalama, a.clearSalama)
  }

  function AskOf(a: Args): Ask { Ask(a.actor, a.ring, a.action, a.resource) }

  function SpentGrant(g: Grant): Grant {
    g.(usedCount := g.usedCount + 1,
       status := if g.maxUses.Some? && g.usedCount + 1 >= g.maxUses.value then GUsed else g.status)
  }

  /** submitIntentCore past its entry checks. */
  function Decide(e: Gate, k: KState, a: Args, ctx: Ctx): (KState, Outcome) {
    var key := StateKey(a);
    var found := if a.requiresAuthorization then FindGrant(k.grants, AskOf(a), ctx.now) else None;
    var i := IntentOf(a, found.Some?);
    var ev := Evaluate(e.sacred, i, HeldOn(k.held, key));
    var ok := Execute(e.sacred, i, ev);
    var grants := if found.Some? && ok then k.grants[found.value := SpentGrant(k.grants[found.value])] else k.grants;
    var row := LogRow(key, i, ev.verdict, ev.claim, ok, a.actor, found, ctx.now, None);
    (k.(grants := grants, held := k.held[key := ev.held], logs := k.logs + [row]),
     Logged(|k.logs|, ok, if ok && ctx.secret then Some(e.mac(|k.logs|)) else None))
  }

  function Submit(e: Gate, k: KState, a: Args, ctx: Ctx): (KState, Outcome) {
    if Halts(k) || !e.inputsOk(a) || (a.requiresAuthorization && !ctx.secret) then (k, Threw)
    else
      match a.rate
      case None => Decide(e, k, a, ctx)
      case Some(r) =>
        var step := RateLimit.BucketConsume(RateLimit.Row(k.buckets, r.key), r.cfg, ctx.now as real);
        var paid := k.(buckets := k.buckets[r.key := step.next]);
        if step.allowed then Decide(e, paid, a, ctx) else (paid, Limited)
  }

  /** A token as presented, with what its holder wants to do. The empty actor binds to nobody. */
  datatype Presented = Presented(logId: nat, sig: string, action: string, resource: string, ring: Ring, actor: string,
                                 maxAge: Option<int>)

  /** verifyAndConsumeDecisionToken's checks on the log row. */
  predicate Redeemable(row: LogRow, t: Presented, now: int) {
    && (t.actor == "" || row.actor == t.actor)
    && row.allowed
    && row.verdict == Accepted && row.claim == Moga
    && (row.intent.requiresAuthorization ==> row.intent.authorizationGranted)
    && row.intent.ring == t.ring && row.intent.action == t.action && row.intent.resource == t.resource
    && row.consumedAt.None?
    && var age := now - row.ts;
    0 <= age <= if t.maxAge.Some? then t.maxAge.value else TOKEN_TTL
  }

  /** None where the source throws. */
  function Redeem(e: Gate, k: KState, t: Presented, ctx: Ctx): Option<KState> {
    if Halts(k) || !ctx.secret then None
    else if t.logId >= |k.logs| || t.sig != e.mac(t.logId) then None
    else if !Redeemable(k.logs[t.logId], t, ctx.now) then None
    else
      var row := k.logs[t.logId].(consumedAt := Some(ctx.now));
      Some(k.(logs := k.logs[t.logId := row], redeemed := k.redeemed + [t.logId]))
  }

  // ---- operator mutations ----

  const DEFAULT_GRANT_TTL := 300_000
  const MAX_GRANT_TTL := 86_400_000
  const MAX_GRANT_USES := 1000

  function Clamp(x: int, hi: int): int
    requires 1 <= hi
  {
    if x < 1 then 1 else if x > hi then hi else x
  }

  /** forActor is trimmed; key is the fresh random grant key. */
  datatype IssueArgs = IssueArgs(founder: Option<string>, forActor: Option<string>, ring: Ring, action: string, resource: string,
                                 maxUses: Option<int>, ttl: Option<int>, key: string, rate: RateLimit.Config)

  function Issue(k: KState, a: IssueArgs, ctx: Ctx): Option<KState> {
    if a.founder.None? then None
    else
      var bucket := "grant:" + a.founder.value;
      var step := RateLimit.BucketConsume(RateLimit.Row(k.buckets, bucket), a.rate, ctx.now as real);
      if !step.allowed || a.forActor == Some("") then None
      else
        var ttl := Clamp(if a.ttl.Some? then a.ttl.value else DEFAULT_GRANT_TTL, MAX_GRANT_TTL);
        var uses := if a.maxUses.Some? then Some(Clamp(a.maxUses.value, MAX_GRANT_USES)) else None;
        var actor := if a.forActor.Some? then a.forActor.value else a.founder.value;
        Some(k.(buckets := k.buckets[bucket := step.next],
                grants := k.grants + [Grant(a.key, actor, a.ring, a.action, a.resource, ctx.now + ttl, uses, 0, GActive)]))
  }

  function KeyAt(grants: seq<Grant>, key: string): (r: Option<nat>)
    ensures r.Some? ==> r.value < |grants| && grants[r.value].key == key
  {
    if grants == [] then None
    else
      var n := |grants| - 1;
      var front := KeyAt(grants[..n], key);
      if front.Some? then front else if grants[n].key == key then Some(n) else None
  }

  lemma {:induction false} KeyAtComplete(grants: seq<Grant>, key: string)
    ensures KeyAt(grants, key).Some? <==> exists g :: g in grants && g.key == key
    decreases |grants|
  {
    if grants != [] {
      var n := |grants| - 1;
      KeyAtComplete(grants[..n], key);
      assert grants == grants[..n] + [grants[n]];
    }
  }

  function RevokeGrant(k: KState, founder: bool, key: string): KState {
    var at := KeyAt(k.grants, key);
    if !founder || at.None? then k
    else k.(grants := k.grants[at.value := k.grants[at.value].(status := GRevoked)])
  }

  function SetHold(k: KState, founder: bool, on: bool): KState {
    if founder then k.(held := k.held[OPERATOR := on]) else k
  }

  function SetKill(k: KState, founder: bool, on: bool): KState {
    if founder then k.(killSwitch := on) else k
  }

  class Engine {
    const e: Gate
    var grants: seq<Grant>
    var logs: seq<LogRow>
    var held: map<string, bool>
    var killSwitch: bool
    var buckets: map<string, RateLimit.Bucket>
    ghost var redeemed: seq<nat>

    ghost function View(): KState
      reads this
    {
      KState(grants, logs, held, killSwitch, buckets, redeemed)
    }

    constructor (e: Gate)
      ensures this.e == e && View() == KState([], [], map[], false, map[], [])
    {
      this.e := e;
      grants, logs, held, killSwitch, buckets, redeemed := [], [], map[], false, map[], [];
    }

    method ConsumeRateLimit(key: string, cfg: RateLimit.Config, now: int) returns (ok: bool)
      modifies this`buckets
      ensures var step := RateLimit.BucketConsume(RateLimit.Row(old(buckets), key), cfg, now as real);
        ok == step.allowed && buckets == old(buckets)[key := step.next]
    {
      var step := RateLimit.BucketConsume(RateLimit.Row(buckets, key), cfg, now as real);
      buckets := buckets[key := step.next];
      ok := step.allowed;
    }

    /** submitIntentCore. */
    method SubmitIntent(a: Args, ctx: Ctx) returns (out: Outcome)
      modifies this
      ensures (View(), out) == Submit(e, old(View()), a, ctx)
    {
      if killSwitch { return Threw; }
      if HeldOn(held, OPERATOR) { return Threw; }
      if !e.inputsOk(a) { return Threw; }
      if a.requiresAuthorization && !ctx.secret { return Threw; }
      if a.rate.Some? {
        var paid := ConsumeRateLimit(a.rate.value.key, a.rate.value.cfg, ctx.now);
        if !paid { return Limited; }
      }
      var key := StateKey(a);
      var found: Option<nat> := None;
      if a.requiresAuthorization { found := FindActiveGrant(grants, AskOf(a), ctx.now); }
      var i := IntentOf(a, found.Some?);
      var ev := Evaluate(e.sacred, i, HeldOn(held, key));
      var ok := Execute(e.sacred, i, ev);
      if found.Some? && ok { grants := grants[found.value := SpentGrant(grants[found.value])]; }
      var logId := |logs|;
      held := held[key := ev.held];
      logs := logs + [LogRow(key, i, ev.verdict, ev.claim, ok, a.actor, found, ctx.now, None)];
      out := Logged(logId, ok, if ok && ctx.secret then Some(e.mac(logId)) else None);
    }

    /** verifyAndConsumeDecisionToken. */
    method VerifyAndConsume(t: Presented, ctx: Ctx) returns (ok: bool)
      modifies this
      ensures var r := Redeem(e, old(View()), t, ctx);
        ok == r.Some? && View() == if ok then r.value else old(View())
    {
      if killSwitch || HeldOn(held, OPERATOR) || !ctx.secret { return false; }
      if t.logId >= |logs| { return false; }
      if t.sig != e.mac(t.logId) { return false; }
      var row := logs[t.logId];
      if t.actor != "" && row.actor != t.actor { return false; }
      if !row.allowed { return false; }
      if row.verdict != Accepted || row.claim != Moga { return false; }
      if row.intent.requiresAuthorization && !row.intent.authorizationGranted { return false; }
      if row.intent.ring != t.ring || row.intent.action != t.action || row.intent.resource != t.resource { return false; }
      if row.consumedAt.Some? { return false; }
      var maxAge := if t.maxAge.Some? then t.maxAge.value else TOKEN_TTL;
      if ctx.now - row.ts < 0 || ctx.now - row.ts > maxAge { return false; }
      logs := logs[t.logId := row.(consumedAt := Some(ctx.now))];
      redeemed := redeemed + [t.logId];
      return true;
    }

    method InsertGrant(g: Grant)
      modifies this`grants
      ensures grants == old(grants) + [g]
    {
      grants := grants + [g];
    }

    /** issueGrant; a throw takes the spent rate-limit token back. */
    method IssueGrant(a: IssueArgs, ctx: Ctx) returns (ok: bool)
      modifies this
      ensures var r := Issue(old(View()), a, ctx);
        ok == r.Some? && View() == if ok then r.value else old(View())
    {
      if a.founder.None? { return false; }
      var saved := buckets;
      var paid := ConsumeRateLimit("grant:" + a.founder.value, a.rate, ctx.now);
      if !paid || a.forActor == Some("") {
        buckets := saved;
        return false;
      }
      var ttl := Clamp(if a.ttl.Some? then a.ttl.value else DEFAULT_GRANT_TTL, MAX_GRANT_TTL);
      var uses := if a.maxUses.Some? then Some(Clamp(a.maxUses.value, MAX_GRANT_USES)) else None;
      var actor := if a.forActor.Some? then a.forActor.value else a.founder.value;
      InsertGrant(Grant(a.key, actor, a.ring, a.action, a.resource, ctx.now + ttl, uses, 0, GActive));
      return true;
    }

    method RevokeGrantByKey(founder: bool, key: string) returns (found: bool)
      modifies this
      ensures View() == RevokeGrant(old(View()), founder, key)
      ensures found <==> founder && exists g :: g in old(grants) && g.key == key
    {
      if !founder { return false; }
      var at := KeyAt(grants, key);
      KeyAtComplete(grants, key);
      if at.None? { return false; }
      grants := grants[at.value := grants[at.value].(status := GRevoked)];
      return true;
    }

    method SetSalama(founder: bool, on: bool)
      modifies this
      ensures View() == SetHold(old(View()), founder, on)
    {
      if founder { held := held[OPERATOR := on]; }
    }

    method SetKillSwitch(founder: bool, on: bool)
      modifies this
      ensures View() == SetKill(old(View()), founder, on)
    {
      if founder { killSwitch := on; }
    }

    /** The database's rollback of an aborted mutation. */
    method Restore(k: KState)
      modifies this
      ensures View() == k
    {
      grants, logs, held, killSwitch, buckets := k.grants, k.logs, k.held, k.killSwitch, k.buckets;
      redeemed := k.redeemed;
    }
  }

  // ---- what every run keeps ----

  /** The number of allowed intents that name grant g. */
  function Uses(logs: seq<LogRow>, g: nat): nat {
    if logs == [] then 0
    else
      var n := |logs| - 1;
      Uses(logs[..n], g) + if logs[n].allowed && logs[n].grantRef == Some(g) then 1 else 0
  }

  predicate GrantOk(g: Grant, uses: nat) {
    && g.usedCount == uses
    && (g.maxUses.Some? ==> g.usedCount <= g.maxUses.value && 1 <= g.maxUses.value)
    && (g.status == GUsed ==> g.maxUses.Some? && g.usedCount == g.maxUses.value)
  }

  /** The grant gives what the row asked for, and had not expired then. */
  predicate Backs(g: Grant, row: LogRow) {
    g.actor == row.actor && Covers(g.ring, row.intent.ring) && row.ts <= g.expiresAt
    && g.action == row.intent.action != "" && g.resource == row.intent.resource != ""
  }

  ghost predicate RowOk(sacred: Sacred, grants: seq<Grant>, row: LogRow) {
    && (row.intent.authorizationGranted <==> row.grantRef.Some?)
    && (row.grantRef.Some? ==> row.grantRef.value < |grants| && Backs(grants[row.grantRef.value], row))
    && (row.allowed ==> MayRun(sacred, row.intent, false) && row.verdict == Accepted)
    && (row.allowed && row.intent.ring != Observe ==> row.claim == Moga && row.grantRef.Some?)
    && (row.claim == Moga && row.verdict == Accepted ==> !row.intent.clearSalama && !row.intent.triggerSalama)
    && (row.consumedAt.Some? ==> row.allowed && row.claim == Moga)
  }

  ghost predicate RedeemedOk(k: KState) {
    && (forall i, j | 0 <= i < j < |k.redeemed| :: k.redeemed[i] != k.redeemed[j])
    && (forall i | 0 <= i < |k.redeemed| :: k.redeemed[i] < |k.logs|)
    && (forall l: nat | l < |k.logs| :: l in k.redeemed <==> k.logs[l].consumedAt.Some?)
  }

  ghost predicate KInv(sacred: Sacred, k: KState) {
    && (forall g: nat | g < |k.grants| :: GrantOk(k.grants[g], Uses(k.logs, g)))
    && (forall l | 0 <= l < |k.logs| :: RowOk(sacred, k.grants, k.logs[l]))
    && RedeemedOk(k)
  }

  /** Grants and log rows stay, keep what they say, and only wear out: use counts grow, a grant that is not active
      never is again, a consumed token stays consumed. */
  ghost predicate KEvolves(a: KState, b: KState) {
    && |a.grants| <= |b.grants| && |a.logs| <= |b.logs| && a.redeemed <= b.redeemed
    && (forall g | 0 <= g < |a.grants| :: GrantAges(a.grants[g], b.grants[g]))
    && (forall l | 0 <= l < |a.logs| :: RowAges(a.logs[l], b.logs[l]))
  }

  predicate GrantAges(x: Grant, y: Grant) {
    x.(usedCount := y.usedCount, status := y.status) == y && x.usedCount <= y.usedCount && (x.status != GActive ==> y.status != GActive)
  }

  predicate RowAges(x: LogRow, y: LogRow) {
    x.(consumedAt := y.consumedAt) == y && (x.consumedAt.Some? ==> y == x)
  }

  lemma {:induction false} UsesOfNoRef(logs: seq<LogRow>, g: nat)
    requires forall l | 0 <= l < |logs| :: logs[l].grantRef != Some(g)
    ensures Uses(logs, g) == 0
    decreases |logs|
  {
    if logs != [] { UsesOfNoRef(logs[..|logs| - 1], g); }
  }

  lemma UsesSnoc(logs: seq<LogRow>, row: LogRow, g: nat)
    ensures Uses(logs + [row], g) == Uses(logs, g) + if row.allowed && row.grantRef == Some(g) then 1 else 0
  {
    assert (logs + [row])[..|logs|] == logs;
  }

  /** Marking a token consumed does not change what is counted. */
  lemma {:induction false} UsesMarked(logs: seq<LogRow>, l: nat, row: LogRow, g: nat)
    requires l < |logs| && row.allowed == logs[l].allowed && row.grantRef == logs[l].grantRef
    ensures Uses(logs[l := row], g) == Uses(logs, g)
    decreases |logs|
  {
    var n := |logs| - 1;
    if l < n {
      assert logs[l := row][..n] == logs[..n][l := row];
      UsesMarked(logs[..n], l, row, g);
    } else {
      assert logs[l := row][..n] == logs[..n];
    }
  }

  lemma BacksAges(sacred: Sacred, a: seq<Grant>, b: seq<Grant>, row: LogRow)
    requires RowOk(sacred, a, row) && |a| <= |b| && forall g | 0 <= g < |a| :: GrantAges(a[g], b[g])
    ensures RowOk(sacred, b, row)
  {
  }

  /** The rate limit of a submission, if it has one, lets it through. */
  predicate RateAllows(k: KState, a: Args, now: int) {
    a.rate.Some? ==> RateLimit.BucketConsume(RateLimit.Row(k.buckets, a.rate.value.key), a.rate.value.cfg, now as real).allowed
  }

  /** A decision token is minted exactly for an intent that may run, with a grant where one is required, submitted to
      a running engine that has a secret, accepts the inputs and is within the rate limit. */
  lemma TokenMintedExactly(e: Gate, k: KState, a: Args, ctx: Ctx)
    ensures var out := Submit(e, k, a, ctx).1;
      out.Logged? && out.token.Some?
      <==> !Halts(k) && e.inputsOk(a) && ctx.secret && RateAllows(k, a, ctx.now)
           && MayRun(e.sacred, IntentOf(a, a.requiresAuthorization && FindGrant(k.grants, AskOf(a), ctx.now).Some?),
                     HeldOn(k.held, StateKey(a)))
  {
    hide FindGrant, RateLimit.BucketConsume, StateKey;
    RunsExactly(e.sacred, IntentOf(a, a.requiresAuthorization && FindGrant(k.grants, AskOf(a), ctx.now).Some?), HeldOn(k.held, StateKey(a)));
    hide MayRun, Evaluate, Execute;
  }

  /** A submission throws, leaving everything as it was, exactly when the engine is stopped, refuses the inputs or has no
      secret for an intent that needs authorization. It is limited, having still looked at the bucket, exactly when those
      checks pass and the rate limit does not. Otherwise the intent is logged. */
  lemma SubmitOutcomes(e: Gate, k: KState, a: Args, ctx: Ctx)
    ensures var (t, out) := Submit(e, k, a, ctx);
      && (out.Threw? <==> Halts(k) || !e.inputsOk(a) || (a.requiresAuthorization && !ctx.secret))
      && (out.Limited? <==> !out.Threw? && !RateAllows(k, a, ctx.now))
      && (out.Threw? ==> t == k)
      && (out.Limited? ==> t == k.(buckets := t.buckets))
      && (out.Logged? ==> out.logId == |k.logs| && |t.logs| == |k.logs| + 1 && k.logs <= t.logs)
      && (!out.Threw? ==>
            t.buckets == if a.rate.None? then k.buckets
                         else k.buckets[a.rate.value.key :=
                                RateLimit.BucketConsume(RateLimit.Row(k.buckets, a.rate.value.key), a.rate.value.cfg, ctx.now as real).next])
  {
    hide FindGrant, RateLimit.BucketConsume, StateKey, Evaluate, Execute;
  }

  /** What a submission does to the holds: an authorized clear lifts the hold of its own chain, an authorized trigger sets
      it where there is none, and nothing else moves any hold. */
  lemma HoldsMoveExactly(e: Gate, k: KState, a: Args, ctx: Ctx, key: string)
    ensures var (t, out) := Submit(e, k, a, ctx);
      var granted := a.requiresAuthorization && FindGrant(k.grants, AskOf(a), ctx.now).Some?;
      HeldOn(t.held, key)
      == if out.Logged? && key == StateKey(a) && granted && a.clearSalama then false
         else if out.Logged? && key == StateKey(a) && granted && a.triggerSalama then true
         else HeldOn(k.held, key)
  {
    hide FindGrant, RateLimit.BucketConsume, StateKey, Execute;
  }

  /** A grant is issued exactly to a founder within the rate limit and for an actor that is named if at all. It is for
      that actor or the founder, lives from one millisecond to a day, and allows, where limited, one to a thousand uses. */
  lemma IssuesExactly(k: KState, a: IssueArgs, ctx: Ctx)
    ensures var r := Issue(k, a, ctx);
      && (r.Some? <==>
            a.founder.Some? && a.forActor != Some("")
            && RateLimit.BucketConsume(RateLimit.Row(k.buckets, "grant:" + a.founder.value), a.rate, ctx.now as real).allowed)
      && (r.Some? ==>
           && |r.value.grants| == |k.grants| + 1 && k.grants <= r.value.grants
           && r.value == k.(grants := r.value.grants, buckets := r.value.buckets)
           && var g := r.value.grants[|k.grants|];
           && g.key == a.key && (a.forActor.Some? ==> g.actor == a.forActor.value) && (a.forActor.None? ==> g.actor == a.founder.value)
           && g.ring == a.ring && g.action == a.action && g.resource == a.resource && g.status == GActive && g.usedCount == 0
           && 1 <= g.expiresAt - ctx.now <= 86_400_000
           && (a.ttl.Some? && 1 <= a.ttl.value <= 86_400_000 ==> g.expiresAt == ctx.now + a.ttl.value)
           && (a.ttl.None? ==> g.expiresAt == ctx.now + 300_000)
           && (a.ttl.Some? && a.ttl.value < 1 ==> g.expiresAt == ctx.now + 1)
           && (a.ttl.Some? && a.ttl.value > 86_400_000 ==> g.expiresAt == ctx.now + 86_400_000)
           && (g.maxUses.Some? <==> a.maxUses.Some?)
           && (g.maxUses.Some? ==>
                 g.maxUses.value == if a.maxUses.value < 1 then 1 else if a.maxUses.value > 1000 then 1000 else a.maxUses.value))
  {
    hide RateLimit.BucketConsume;
  }

  lemma DecideRow(e: Gate, k: KState, a: Args, ctx: Ctx)
    ensures var (t, out) := Decide(e, k, a, ctx);
      && out.Logged? && out.logId == |k.logs| && t.buckets == k.buckets && t.killSwitch == k.killSwitch && t.redeemed == k.redeemed
      && |t.logs| == |k.logs| + 1 && t.logs[..|k.logs|] == k.logs
      && var row := t.logs[|k.logs|];
      && row.consumedAt.None? && out.allowed == row.allowed && RowOk(e.sacred, k.grants, row)
      && (row.grantRef.Some? ==> Usable(k.grants[row.grantRef.value], ctx.now))
      && t.grants == if row.grantRef.Some? && row.allowed
                     then k.grants[row.grantRef.value := SpentGrant(k.grants[row.grantRef.value])] else k.grants
  {
    var found := if a.requiresAuthorization then FindGrant(k.grants, AskOf(a), ctx.now) else None;
    var i := IntentOf(a, found.Some?);
    hide FindGrant;
    RunsExactly(e.sacred, i, HeldOn(k.held, StateKey(a)));
  }

  lemma DecideKeeps(e: Gate, k: KState, a: Args, ctx: Ctx)
    requires KInv(e.sacred, k)
    ensures var t := Decide(e, k, a, ctx).0; KInv(e.sacred, t) && KEvolves(k, t)
  {
    DecideRow(e, k, a, ctx);
    var t := Decide(e, k, a, ctx).0;
    var row := t.logs[|k.logs|];
    hide Decide, MayRun;
    assert t.logs == k.logs + [row];
    forall g: nat | g < |k.grants|
      ensures GrantAges(k.grants[g], t.grants[g]) && GrantOk(t.grants[g], Uses(t.logs, g))
    {
      UsesSnoc(k.logs, row, g);
      assert GrantOk(k.grants[g], Uses(k.logs, g));
    }
    forall l | 0 <= l < |t.logs|
      ensures RowOk(e.sacred, t.grants, t.logs[l])
    {
      assert l < |k.logs| ==> t.logs[l] == k.logs[l];
      BacksAges(e.sacred, k.grants, t.grants, t.logs[l]);
    }
    assert RedeemedOk(t);
  }

  lemma SubmitKeeps(e: Gate, k: KState, a: Args, ctx: Ctx)
    requires KInv(e.sacred, k)
    ensures var t := Submit(e, k, a, ctx).0; KInv(e.sacred, t) && KEvolves(k, t)
  {
    if a.rate.Some? {
      var step := RateLimit.BucketConsume(RateLimit.Row(k.buckets, a.rate.value.key), a.rate.value.cfg, ctx.now as real);
      var paid := k.(buckets := k.buckets[a.rate.value.key := step.next]);
      hide Decide, GrantOk, RowOk;
      assert KInv(e.sacred, paid) && KEvolves(k, paid);
      DecideKeeps(e, paid, a, ctx);
      KEvolvesTransitive(k, paid, Decide(e, paid, a, ctx).0);
    } else {
      DecideKeeps(e, k, a, ctx);
      hide Decide, GrantOk, RowOk;
    }
  }

  lemma KEvolvesTransitive(a: KState, b: KState, c: KState)
    requires KEvolves(a, b) && KEvolves(b, c)
    ensures KEvolves(a, c)
  {
  }

  lemma RedeemKeeps(e: Gate, k: KState, t: Presented, ctx: Ctx)
    requires KInv(e.sacred, k) && Redeem(e, k, t, ctx).Some?
    ensures var u := Redeem(e, k, t, ctx).value; KInv(e.sacred, u) && KEvolves(k, u)
  {
    var u, l := Redeem(e, k, t, ctx).value, t.logId;
    forall g: nat | g < |k.grants|
      ensures Uses(u.logs, g) == Uses(k.logs, g)
    {
      UsesMarked(k.logs, l, u.logs[l], g);
    }
    hide Uses, GrantOk, MayRun;
    assert RowOk(e.sacred, k.grants, k.logs[l]);
    assert l !in k.redeemed;
    assert u.redeemed == k.redeemed + [l];
  }

  lemma IssueKeeps(sacred: Sacred, k: KState, a: IssueArgs, ctx: Ctx)
    requires KInv(sacred, k) && Issue(k, a, ctx).Some?
    ensures var u := Issue(k, a, ctx).value; KInv(sacred, u) && KEvolves(k, u)
  {
    var u, n := Issue(k, a, ctx).value, |k.grants|;
    AddGrantKeeps(sacred, k, u, u.grants[n]);
  }

  /** A new grant, unused and with room for a use. */
  lemma AddGrantKeeps(sacred: Sacred, k: KState, u: KState, g: Grant)
    requires KInv(sacred, k) && g.usedCount == 0 && g.status == GActive && (g.maxUses.Some? ==> 1 <= g.maxUses.value)
    requires u.logs == k.logs && u.redeemed == k.redeemed && u.grants == k.grants + [g]
    ensures KInv(sacred, u) && KEvolves(k, u)
  {
    var n := |k.grants|;
    forall l | 0 <= l < |k.logs|
      ensures k.logs[l].grantRef != Some(n)
    {
      assert RowOk(sacred, k.grants, k.logs[l]);
    }
    UsesOfNoRef(k.logs, n);
    forall l | 0 <= l < |k.logs|
      ensures RowOk(sacred, u.grants, u.logs[l])
    {
      BacksAges(sacred, k.grants, u.grants, k.logs[l]);
    }
    hide Uses, MayRun;
  }

  lemma RevokeGrantKeeps(sacred: Sacred, k: KState, founder: bool, key: string)
    requires KInv(sacred, k)
    ensures var u := RevokeGrant(k, founder, key); KInv(sacred, u) && KEvolves(k, u)
  {
    var u := RevokeGrant(k, founder, key);
    hide KeyAt, Uses, MayRun;
    forall l | 0 <= l < |k.logs|
      ensures RowOk(sacred, u.grants, u.logs[l])
    {
      BacksAges(sacred, k.grants, u.grants, k.logs[l]);
    }
  }
}
