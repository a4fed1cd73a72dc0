/** convex/aukoraRateLimit.ts: the persistent token bucket, over exact reals. */
module RateLimit {
  datatype Option<+T> = None | Some(value: T)

  datatype Bucket = Bucket(tokens: real, updatedAt: real)
  datatype Config = Config(capacity: real, windowMs: real)
  datatype StepResult = StepResult(allowed: bool, next: Bucket)

  function Clamp(x: real): real { if x.Floor < 1 then 1.0 else x.Floor as real }

  function Capacity(cfg: Config): real { Clamp(cfg.capacity) }

  function Window(cfg: Config): real { Clamp(cfg.windowMs) }

  function Rate(cfg: Config): (r: real)
    ensures r > 0.0
  {
    Capacity(cfg) / Window(cfg)
  }

  /** Tokens refilled over d milliseconds. */
  function Refill(cfg: Config, d: real): real { d * Rate(cfg) }

  function Max(x: real, y: real): real { if x >= y then x else y }

  function Min(x: real, y: real): real { if x <= y then x else y }

  /** A missing bucket is a full one. */
  function BucketConsume(state: Option<Bucket>, cfg: Config, now: real): StepResult {
    var prev := if state.None? then Bucket(Capacity(cfg), now) else state.value;
    var elapsed := Max(0.0, now - prev.updatedAt);
    var tokens := Min(Capacity(cfg), prev.tokens + Refill(cfg, elapsed));
    if tokens < 1.0 then StepResult(false, Bucket(tokens, now)) else StepResult(true, Bucket(tokens - 1.0, now))
  }

  /** One bucket row per key. */
  class RateLimits {
    var buckets: map<string, Bucket>

    constructor ()
      ensures buckets == map[]
    {
      buckets := map[];
    }

    method Consume(key: string, cfg: Config, now: real) returns (allowed: bool)
      modifies this
      ensures var r := BucketConsume(Row(old(buckets), key), cfg, now);
        allowed == r.allowed && buckets == old(buckets)[key := r.next]
    {
      var row := if key in buckets then Some(buckets[key]) else None;
      var r := BucketConsume(row, cfg, now);
      buckets := buckets[key := r.next];
      return r.allowed;
    }
  }

  function Row(buckets: map<string, Bucket>, key: string): Option<Bucket> {
    if key in buckets then Some(buckets[key]) else None
  }

  // ---- call sequences ----

  datatype Tally = Tally(allowed: nat, end: Option<Bucket>)

  function Calls(state: Option<Bucket>, cfg: Config, times: seq<real>): Tally
    decreases |times|
  {
    if times == [] then Tally(0, state)
    else
      var r := BucketConsume(state, cfg, times[0]);
      var rest := Calls(Some(r.next), cfg, times[1..]);
      Tally(rest.allowed + (if r.allowed then 1 else 0), rest.end)
  }

  /** The clock's forward movement, backward steps not counted. */
  function Forward(from: real, times: seq<real>): (d: real)
    ensures d >= 0.0
    decreases |times|
  {
    if times == [] then 0.0 else Max(0.0, times[0] - from) + Forward(times[0], times[1..])
  }

  predicate InRange(b: Bucket, cfg: Config) { 0.0 <= b.tokens <= Capacity(cfg) }

  lemma RefillNonnegative(cfg: Config, d: real)
    requires d >= 0.0
    ensures Refill(cfg, d) >= 0.0
  {
    var rate := Rate(cfg);
    hide Rate;
    assert d * rate >= 0.0;
  }

  lemma RefillAdds(cfg: Config, x: real, y: real)
    ensures Refill(cfg, x + y) == Refill(cfg, x) + Refill(cfg, y)
  {
    hide Rate;
  }

  lemma CapacityAtLeastOne(cfg: Config)
    ensures Capacity(cfg) >= 1.0 && Window(cfg) >= 1.0
  {
  }

  /** A step keeps the tokens in range, and pays for an allowed call out of old tokens and elapsed time. */
  lemma StepPays(state: Option<Bucket>, cfg: Config, now: real)
    requires state.Some? ==> state.value.tokens >= 0.0
    ensures var r := BucketConsume(state, cfg, now);
      InRange(r.next, cfg) && r.next.updatedAt == now
      && r.next.tokens + (if r.allowed then 1.0 else 0.0) <= Capacity(cfg)
      && (state.Some? ==>
            r.next.tokens + (if r.allowed then 1.0 else 0.0)
            <= state.value.tokens + Refill(cfg, Max(0.0, now - state.value.updatedAt)))
  {
    hide Refill, Clamp;
    if state.Some? { RefillNonnegative(cfg, Max(0.0, now - state.value.updatedAt)); } else { RefillNonnegative(cfg, 0.0); }
    CapacityAtLeastOne(cfg);
  }

  /** A call is denied exactly when the key has a bucket whose tokens and refill since its last call make less than one;
      and then none of them is lost but what exceeds the capacity. */
  lemma DeniedExactly(state: Option<Bucket>, cfg: Config, now: real)
    ensures var r := BucketConsume(state, cfg, now);
      && (!r.allowed <==>
            state.Some? && state.value.tokens + Refill(cfg, Max(0.0, now - state.value.updatedAt)) < 1.0)
      && (!r.allowed ==> r.next.tokens == state.value.tokens + Refill(cfg, Max(0.0, now - state.value.updatedAt)))
  {
    CapacityAtLeastOne(cfg);
    RefillNonnegative(cfg, 0.0);
    hide Refill, Capacity, Window;
  }

  /** The whole tokens of a bucket that was just looked at are all granted at that instant, and no more. */
  lemma {:induction false} WholeTokensGranted(b: Bucket, cfg: Config, times: seq<real>)
    requires forall i | 0 <= i < |times| :: times[i] == b.updatedAt
    requires 0.0 <= b.tokens <= Capacity(cfg)
    ensures Calls(Some(b), cfg, times).allowed == if |times| <= b.tokens.Floor then |times| else b.tokens.Floor
    decreases |times|
  {
    if times != [] {
      assert Refill(cfg, 0.0) == 0.0 by { RefillAdds(cfg, 0.0, 0.0); }
      var r := BucketConsume(Some(b), cfg, times[0]);
      hide Refill, Capacity;
      assert r == if b.tokens < 1.0 then StepResult(false, b) else StepResult(true, b.(tokens := b.tokens - 1.0));
      hide BucketConsume;
      WholeTokensGranted(r.next, cfg, times[1..]);
      assert b.tokens >= 1.0 ==> (b.tokens - 1.0).Floor == b.tokens.Floor - 1;
    }
  }

  /** A key never seen lets exactly its configured number of calls through at one instant, at least one. */
  lemma FreshBurstExactly(cfg: Config, now: real, n: nat)
    ensures Calls(None, cfg, seq(n, i => now)).allowed
      == var most := if cfg.capacity.Floor < 1 then 1 else cfg.capacity.Floor;
         if n <= most then n else most
  {
    var times := seq(n, i => now);
    var full := Bucket(Capacity(cfg), now);
    CapacityAtLeastOne(cfg);
    WholeTokensGranted(full, cfg, times);
    hide Refill;
    if n > 0 {
      assert BucketConsume(None, cfg, times[0]) == BucketConsume(Some(full), cfg, times[0]);
      assert Calls(None, cfg, times).allowed == Calls(Some(full), cfg, times).allowed;
    }
  }

  /** For any sequence of calls, whatever the clock does: allowed calls are paid by the tokens held plus
      the refill over the clock's forward movement. */
  lemma {:induction false} AllowedAtMost(b: Bucket, cfg: Config, times: seq<real>)
    requires b.tokens >= 0.0
    ensures var t := Calls(Some(b), cfg, times);
      t.end.Some? && t.end.value.tokens >= 0.0
      && t.allowed as real + t.end.value.tokens <= b.tokens + Refill(cfg, Forward(b.updatedAt, times))
    decreases |times|
  {
    if times != [] {
      StepPays(Some(b), cfg, times[0]);
      hide BucketConsume, Refill, Max, Capacity;
      var next := BucketConsume(Some(b), cfg, times[0]).next;
      AllowedAtMost(next, cfg, times[1..]);
      RefillAdds(cfg, Max(0.0, times[0] - b.updatedAt), Forward(times[0], times[1..]));
    } else {
      RefillNonnegative(cfg, 0.0);
    }
  }

  /** From a fresh key: at most the capacity plus the refill over the forward movement. */
  lemma FreshAllowedAtMost(cfg: Config, times: seq<real>)
    requires times != []
    ensures Calls(None, cfg, times).allowed as real <= Capacity(cfg) + Refill(cfg, Forward(times[0], times))
  {
    var full := Bucket(Capacity(cfg), times[0]);
    assert BucketConsume(None, cfg, times[0]) == BucketConsume(Some(full), cfg, times[0]);
    assert Calls(None, cfg, times).allowed == Calls(Some(full), cfg, times).allowed;
    AllowedAtMost(full, cfg, times);
  }

  predicate Nondecreasing(times: seq<real>) {
    forall i, j | 0 <= i < j < |times| :: times[i] <= times[j]
  }

  lemma {:induction false} ForwardIsSpan(from: real, times: seq<real>)
    requires Nondecreasing([from] + times)
    ensures Forward(from, times) == (if times == [] then 0.0 else times[|times| - 1] - from)
    decreases |times|
  {
    if times != [] {
      var rest := times[1..];
      assert from == ([from] + times)[0] <= ([from] + times)[1] == times[0];
      forall i, j | 0 <= i < j < |times|
        ensures ([times[0]] + rest)[i] <= ([times[0]] + rest)[j]
      {
        assert ([from] + times)[i + 1] <= ([from] + times)[j + 1];
      }
      assert Nondecreasing([times[0]] + rest);
      hide Nondecreasing;
      ForwardIsSpan(times[0], rest);
      assert rest != [] ==> rest[|rest| - 1] == times[|times| - 1];
    }
  }

  /** Under a clock that does not run backwards, any window of one windowMs lets through at most twice the
      capacity, from whatever state earlier calls left behind. */
  lemma TwiceCapacityPerWindow(state: Option<Bucket>, cfg: Config, times: seq<real>)
    requires state.Some? ==> state.value.tokens >= 0.0
    requires times != [] && Nondecreasing(times) && times[|times| - 1] <= times[0] + Window(cfg)
    ensures Calls(state, cfg, times).allowed as real <= 2.0 * Capacity(cfg)
  {
    StepPays(state, cfg, times[0]);
    hide BucketConsume, Refill, Max, Capacity, Window, Forward;
    var r := BucketConsume(state, cfg, times[0]);
    var rest := times[1..];
    assert [times[0]] + rest == times;
    AllowedAtMost(r.next, cfg, rest);
    ForwardIsSpan(times[0], rest);
    if rest != [] { assert rest[|rest| - 1] == times[|times| - 1]; }
    WithinWindow(cfg, Forward(times[0], rest));
  }

  lemma WithinWindow(cfg: Config, d: real)
    requires 0.0 <= d <= Window(cfg)
    ensures Refill(cfg, d) <= Capacity(cfg)
  {
    RefillNonnegative(cfg, Window(cfg) - d);
    RefillAdds(cfg, Window(cfg) - d, d);
    assert Refill(cfg, Window(cfg)) == Capacity(cfg);
    hide Refill, Capacity, Window;
  }

  /** The clock condition is needed: a clock that swings between two readings refills on every forward swing,
      so a one-token bucket lets three calls through inside one window. */
  lemma SwingingClockRefills()
    ensures Calls(None, Config(1.0, 1.0), [0.0, 1.0, 0.0, 1.0]).allowed == 3
  {
    var cfg := Config(1.0, 1.0);
    assert 1.0.Floor == 1 && Rate(cfg) == 1.0;
    var a := BucketConsume(None, cfg, 0.0);
    var b := BucketConsume(Some(a.next), cfg, 1.0);
    var c := BucketConsume(Some(b.next), cfg, 0.0);
    var d := BucketConsume(Some(c.next), cfg, 1.0);
    assert a.allowed && b.allowed && !c.allowed && d.allowed;
    var t1, t2, t3: seq<real> := [1.0, 0.0, 1.0], [0.0, 1.0], [1.0];
    assert Calls(Some(d.next), cfg, []).allowed == 0;
    assert t3[1..] == [] && Calls(Some(c.next), cfg, t3).allowed == 1;
    assert t2[1..] == t3 && Calls(Some(b.next), cfg, t2).allowed == 1;
    assert t1[1..] == t2 && Calls(Some(a.next), cfg, t1).allowed == 2;
    assert [0.0, 1.0, 0.0, 1.0][1..] == t1;
  }
}
