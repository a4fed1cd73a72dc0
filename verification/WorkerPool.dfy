/** apps/fu/run-council.ts: runWithConcurrency, a pool of workers sharing one cursor. Between two awaits a
    worker runs alone, so the cursor test and its increment are one step; any worker may take the next one. */
module WorkerPool {
  datatype Option<+T> = None | Some(value: T)

  /** How the promise of a task settles. */
  datatype Task<+T> = Value(value: T) | Rejects

  datatype Worker = Ready | Running(index: nat) | Finished | Crashed(index: nat)

  /** settled holds the indices whose promise has settled, claims the tasks in the order they were started. */
  datatype State<T> = State(next: nat, workers: seq<Worker>, results: seq<Option<T>>, settled: set<nat>, claims: seq<nat>)

  /** Array.from({ length: Math.min(concurrency, n) }), where a negative length is no worker. */
  function PoolSize(concurrency: int, n: nat): nat {
    var k := if concurrency < n then concurrency else n;
    if k < 0 then 0 else k
  }

  function Start<T>(n: nat, concurrency: int): State<T> {
    State(0, seq(PoolSize(concurrency, n), i => Ready), seq(n, i => None), {}, [])
  }

  predicate Enabled<T>(s: State<T>, w: nat) {
    w < |s.workers| && (s.workers[w].Ready? || s.workers[w].Running?)
  }

  /** Every running worker runs a task there is. */
  predicate InBounds<T>(n: nat, s: State<T>) {
    |s.results| == n && forall w | 0 <= w < |s.workers| && s.workers[w].Running? :: s.workers[w].index < n
  }

  /** Worker w goes on: a ready one tests the cursor, a running one sees its task settle. */
  function Step<T>(tasks: seq<Task<T>>, s: State<T>, w: nat): State<T>
    requires InBounds(|tasks|, s)
  {
    if !Enabled(s, w) then s
    else
      match s.workers[w]
      case Ready =>
        if s.next < |tasks| then
          s.(workers := s.workers[w := Running(s.next)], next := s.next + 1, claims := s.claims + [s.next])
        else s.(workers := s.workers[w := Finished])
      case Running(i) =>
        match tasks[i] {
          case Value(v) =>
            s.(workers := s.workers[w := Ready], results := s.results[i := Some(v)], settled := s.settled + {i})
          case Rejects => s.(workers := s.workers[w := Crashed(i)], settled := s.settled + {i})
        }
      case _ => s
  }

  // ---- the invariant ----

  predicate Shape<T>(tasks: seq<Task<T>>, s: State<T>) {
    && s.next <= |tasks| == |s.results| && |s.claims| == s.next
    && (forall k | 0 <= k < s.next :: s.claims[k] == k)
  }

  predicate WorkersOk<T>(tasks: seq<Task<T>>, s: State<T>) {
    forall w | 0 <= w < |s.workers| ::
      match s.workers[w] {
        case Ready => true
        case Running(i) => i < s.next && i !in s.settled
        case Finished => s.next == |tasks|
        case Crashed(i) => i < |tasks| && tasks[i].Rejects?
      }
  }

  predicate NoSharing<T>(s: State<T>) {
    forall v, w | 0 <= v < w < |s.workers| && s.workers[v].Running? && s.workers[w].Running? ::
      s.workers[v].index != s.workers[w].index
  }

  predicate Holds<T>(s: State<T>, i: nat) { exists w :: 0 <= w < |s.workers| && s.workers[w] == Running(i) }
  predicate CrashedOn<T>(s: State<T>, i: nat) { exists w :: 0 <= w < |s.workers| && s.workers[w] == Crashed(i) }

  /** A task not started, in flight, or settled with its own value in its own slot, or rejected with its worker lost. */
  ghost predicate TaskOk<T>(tasks: seq<Task<T>>, s: State<T>, i: nat)
    requires Shape(tasks, s) && i < |tasks|
  {
    if i in s.settled then
      i < s.next && match tasks[i] {
        case Value(v) => s.results[i] == Some(v)
        case Rejects => s.results[i].None? && CrashedOn(s, i)
      }
    else s.results[i].None? && (i < s.next ==> Holds(s, i))
  }

  ghost predicate Inv<T>(tasks: seq<Task<T>>, s: State<T>) {
    && Shape(tasks, s) && WorkersOk(tasks, s) && NoSharing(s)
    && (forall i | 0 <= i < |tasks| :: TaskOk(tasks, s, i))
    && (forall i | i in s.settled :: i < |tasks|)
  }

  lemma StartInv<T>(tasks: seq<Task<T>>, concurrency: int)
    ensures Inv(tasks, Start(|tasks|, concurrency))
  {
  }

  /** A task other than the one worker w deals with is as it was. */
  lemma Untouched<T>(s: State<T>, t: State<T>, w: nat, i: nat)
    requires w < |s.workers| == |t.workers| && t.workers == s.workers[w := t.workers[w]]
    requires s.workers[w] != Running(i) && s.workers[w] != Crashed(i)
    ensures Holds(s, i) ==> Holds(t, i)
    ensures CrashedOn(s, i) ==> CrashedOn(t, i)
  {
    if Holds(s, i) {
      var v :| 0 <= v < |s.workers| && s.workers[v] == Running(i);
      assert t.workers[v] == Running(i);
    }
    if CrashedOn(s, i) {
      var v :| 0 <= v < |s.workers| && s.workers[v] == Crashed(i);
      assert t.workers[v] == Crashed(i);
    }
  }

  lemma StepInv<T>(tasks: seq<Task<T>>, s: State<T>, w: nat)
    requires Inv(tasks, s)
    ensures Inv(tasks, Step(tasks, s, w))
  {
    if Enabled(s, w) {
      match s.workers[w] {
        case Ready => if s.next < |tasks| { ClaimInv(tasks, s, w); } else { FinishInv(tasks, s, w); }
        case Running(i) => SettleInv(tasks, s, w);
        case _ =>
      }
    }
  }

  lemma ClaimInv<T>(tasks: seq<Task<T>>, s: State<T>, w: nat)
    requires Inv(tasks, s) && w < |s.workers| && s.workers[w].Ready? && s.next < |tasks|
    ensures Inv(tasks, Step(tasks, s, w))
  {
    var t := Step(tasks, s, w);
    assert t.workers[w] == Running(s.next);
    assert TaskOk(tasks, s, s.next);
    forall i | 0 <= i < |tasks|
      ensures TaskOk(tasks, t, i)
    {
      assert TaskOk(tasks, s, i);
      Untouched(s, t, w, i);
    }
  }

  lemma FinishInv<T>(tasks: seq<Task<T>>, s: State<T>, w: nat)
    requires Inv(tasks, s) && w < |s.workers| && s.workers[w].Ready? && s.next >= |tasks|
    ensures Inv(tasks, Step(tasks, s, w))
  {
    var t := Step(tasks, s, w);
    forall i | 0 <= i < |tasks|
      ensures TaskOk(tasks, t, i)
    {
      assert TaskOk(tasks, s, i);
      Untouched(s, t, w, i);
    }
  }

  lemma SettleInv<T>(tasks: seq<Task<T>>, s: State<T>, w: nat)
    requires Inv(tasks, s) && w < |s.workers| && s.workers[w].Running?
    ensures Inv(tasks, Step(tasks, s, w))
  {
    var t, k := Step(tasks, s, w), s.workers[w].index;
    assert TaskOk(tasks, s, k);
    assert t.workers[w] == if tasks[k].Rejects? then Crashed(k) else Ready;
    forall i | 0 <= i < |tasks|
      ensures TaskOk(tasks, t, i)
    {
      assert TaskOk(tasks, s, i);
      if i != k { Untouched(s, t, w, i); }
    }
  }

  // ---- runs ----

  /** The state after the workers have gone on in the order of the schedule. */
  function Run<T>(tasks: seq<Task<T>>, concurrency: int, schedule: seq<nat>): (s: State<T>)
    ensures InBounds(|tasks|, s)
  {
    if schedule == [] then Start(|tasks|, concurrency)
    else Step(tasks, Run(tasks, concurrency, schedule[..|schedule| - 1]), schedule[|schedule| - 1])
  }

  /** Every schedule keeps the invariant. */
  lemma {:induction false} RunInv<T>(tasks: seq<Task<T>>, concurrency: int, schedule: seq<nat>)
    ensures Inv(tasks, Run(tasks, concurrency, schedule))
    decreases |schedule|
  {
    if schedule == [] {
      StartInv(tasks, concurrency);
    } else {
      var n := |schedule| - 1;
      RunInv(tasks, concurrency, schedule[..n]);
      StepInv(tasks, Run(tasks, concurrency, schedule[..n]), schedule[n]);
      hide Inv, Step;
    }
  }

  /** Promise.all resolves when every worker has finished, and rejects when one has crashed. */
  predicate Resolved<T>(s: State<T>) { forall w | 0 <= w < |s.workers| :: s.workers[w].Finished? }

  ghost predicate Stuck<T>(s: State<T>) { forall w: nat :: !Enabled(s, w) }

  class Pool<T> {
    const tasks: seq<Task<T>>
    var next: nat
    var workers: seq<Worker>
    var results: seq<Option<T>>
    ghost var settled: set<nat>
    ghost var claims: seq<nat>

    ghost function View(): State<T>
      reads this
    {
      State(next, workers, results, settled, claims)
    }

    constructor (tasks: seq<Task<T>>, concurrency: int)
      ensures this.tasks == tasks && View() == Start(|tasks|, concurrency)
    {
      this.tasks := tasks;
      next, settled, claims := 0, {}, [];
      workers, results := seq(PoolSize(concurrency, |tasks|), i => Ready), seq(|tasks|, i => None);
    }

    /** One worker up to its next await. */
    method GoOn(w: nat)
      requires InBounds(|tasks|, View())
      modifies this
      ensures View() == Step(tasks, old(View()), w)
    {
      if w >= |workers| { return; }
      match workers[w] {
        case Ready =>
          if next < |tasks| {
            var i := next;
            next := next + 1;
            claims := claims + [i];
            workers := workers[w := Running(i)];
          } else {
            workers := workers[w := Finished];
          }
        case Running(i) =>
          settled := settled + {i};
          match tasks[i] {
            case Value(v) =>
              results := results[i := Some(v)];
              workers := workers[w := Ready];
            case Rejects => workers := workers[w := Crashed(i)];
          }
        case _ =>
      }
    }
  }

  method RunWithConcurrency<T>(tasks: seq<Task<T>>, concurrency: int, schedule: seq<nat>) returns (pool: Pool<T>)
    ensures fresh(pool) && pool.tasks == tasks && pool.View() == Run(tasks, concurrency, schedule)
  {
    pool := new Pool(tasks, concurrency);
    for k := 0 to |schedule|
      invariant fresh(pool) && pool.tasks == tasks && pool.View() == Run(tasks, concurrency, schedule[..k])
    {
      assert schedule[..k + 1][..k] == schedule[..k];
      pool.GoOn(schedule[k]);
    }
    assert schedule[..|schedule|] == schedule;
  }

  lemma {:induction false} RunWorkers<T>(tasks: seq<Task<T>>, concurrency: int, schedule: seq<nat>)
    ensures |Run(tasks, concurrency, schedule).workers| == PoolSize(concurrency, |tasks|)
    decreases |schedule|
  {
    if schedule != [] { RunWorkers(tasks, concurrency, schedule[..|schedule| - 1]); }
  }

  // ---- the main results ----

  /** Under every interleaving the tasks are started in order, each at most once. */
  lemma ClaimedOnce<T>(tasks: seq<Task<T>>, concurrency: int, schedule: seq<nat>, j: nat, k: nat)
    ensures var c := Run(tasks, concurrency, schedule).claims;
      |c| <= |tasks| && (j < k < |c| ==> c[j] != c[k]) && (k < |c| ==> c[k] == k)
  {
    RunInv(tasks, concurrency, schedule);
  }

  /** The tasks started and not settled. */
  function InFlight<T>(s: State<T>): set<nat> { set i | i in s.claims && i !in s.settled }

  /** What was asked for, as far as there are tasks. */
  function Limit(concurrency: int, n: nat): nat {
    if concurrency < 0 then 0 else if concurrency < n then concurrency else n
  }

  /** Under every schedule at most the number asked for are in flight at once, and some schedule reaches it. */
  lemma FlightBound<T>(tasks: seq<Task<T>>, concurrency: int)
    ensures forall schedule :: |InFlight(Run(tasks, concurrency, schedule))| <= Limit(concurrency, |tasks|)
    ensures exists schedule :: |InFlight(Run(tasks, concurrency, schedule))| == Limit(concurrency, |tasks|)
  {
    forall schedule
      ensures |InFlight(Run(tasks, concurrency, schedule))| <= Limit(concurrency, |tasks|)
    {
      FlightAtMost(tasks, concurrency, schedule);
    }
    var k := Limit(concurrency, |tasks|);
    RoundRobin(tasks, concurrency, k);
    hide Run;
    var s := Run(tasks, concurrency, FirstWorkers(k));
    Counted(s.claims);
    assert InFlight(s) == set i | i in s.claims;
  }

  lemma FlightAtMost<T>(tasks: seq<Task<T>>, concurrency: int, schedule: seq<nat>)
    ensures |InFlight(Run(tasks, concurrency, schedule))| <= Limit(concurrency, |tasks|)
  {
    var s := Run(tasks, concurrency, schedule);
    RunInv(tasks, concurrency, schedule);
    RunWorkers(tasks, concurrency, schedule);
    forall i | i in InFlight(s)
      ensures Running(i) in s.workers
    {
      assert TaskOk(tasks, s, i);
    }
    Pigeonhole(InFlight(s), s.workers);
  }

  /** Each of the first k workers once. */
  function FirstWorkers(k: nat): seq<nat> { seq(k, i requires 0 <= i < k => i) }

  /** Started one after the other, they all hold a task. */
  lemma {:induction false} RoundRobin<T>(tasks: seq<Task<T>>, concurrency: int, k: nat)
    requires k <= Limit(concurrency, |tasks|)
    ensures var s := Run(tasks, concurrency, FirstWorkers(k));
      && s.next == k == |s.claims| && s.settled == {} && (forall i | 0 <= i < k :: s.claims[i] == i)
      && |s.workers| == PoolSize(concurrency, |tasks|) && forall w | k <= w < |s.workers| :: s.workers[w].Ready?
  {
    if k > 0 {
      RoundRobin(tasks, concurrency, k - 1);
      RunInv(tasks, concurrency, FirstWorkers(k - 1));
      assert FirstWorkers(k)[..k - 1] == FirstWorkers(k - 1);
    }
  }

  lemma {:induction false} Counted(c: seq<nat>)
    requires forall i | 0 <= i < |c| :: c[i] == i
    ensures |set i | i in c| == |c|
    decreases |c|
  {
    if c != [] {
      var n := |c| - 1;
      Counted(c[..n]);
      assert c == c[..n] + [n];
      assert (set i | i in c) == (set i | i in c[..n]) + {n};
    }
  }

  lemma {:induction false} Pigeonhole(held: set<nat>, workers: seq<Worker>)
    requires forall i | i in held :: Running(i) in workers
    ensures |held| <= |workers|
    decreases |workers|
  {
    if workers == [] {
      assert held == {};
    } else {
      var w := workers[0];
      var rest := if w.Running? then held - {w.index} else held;
      assert workers == [w] + workers[1..];
      Pigeonhole(rest, workers[1..]);
      assert held <= rest + if w.Running? then {w.index} else {};
      assert |held| <= |rest| + 1;
    }
  }

  /** When the pool resolves, no task has rejected, every task was started exactly once, and results[i] holds
      the value of task i, provided there is a worker at all. */
  lemma ResolvedIsComplete<T>(tasks: seq<Task<T>>, concurrency: int, schedule: seq<nat>)
    requires concurrency >= 1
    ensures var s := Run(tasks, concurrency, schedule);
      Resolved(s) ==>
      && |s.claims| == |tasks|
      && (forall i | 0 <= i < |tasks| :: s.claims[i] == i && tasks[i].Value? && s.results[i] == Some(tasks[i].value))
  {
    var s := Run(tasks, concurrency, schedule);
    RunInv(tasks, concurrency, schedule);
    RunWorkers(tasks, concurrency, schedule);
    if Resolved(s) && tasks != [] {
      assert s.workers[0].Finished?;
      forall i | 0 <= i < |tasks|
        ensures tasks[i].Value? && s.results[i] == Some(tasks[i].value)
      {
        assert TaskOk(tasks, s, i);
      }
    }
  }

  /** Without a rejecting task nothing is ever lost: a pool that cannot go on has resolved. */
  lemma StuckIsResolved<T>(tasks: seq<Task<T>>, concurrency: int, schedule: seq<nat>)
    requires forall i | 0 <= i < |tasks| :: tasks[i].Value?
    ensures var s := Run(tasks, concurrency, schedule); Stuck(s) <==> Resolved(s)
  {
    var s := Run(tasks, concurrency, schedule);
    RunInv(tasks, concurrency, schedule);
    if Stuck(s) {
      forall w | 0 <= w < |s.workers|
        ensures s.workers[w].Finished?
      {
        assert !Enabled(s, w);
      }
    }
  }

  function Weight(w: Worker): nat {
    match w case Ready => 1 case Running(_) => 2 case _ => 0
  }

  function Weights(ws: seq<Worker>): nat {
    if ws == [] then 0 else Weight(ws[0]) + Weights(ws[1..])
  }

  /** What is left to do. */
  function Work<T>(n: nat, s: State<T>): int { 3 * (n - s.next) + Weights(s.workers) }

  lemma {:induction false} WeightsUpdate(ws: seq<Worker>, w: nat, x: Worker)
    requires w < |ws|
    ensures Weights(ws[w := x]) == Weights(ws) - Weight(ws[w]) + Weight(x)
    decreases |ws|
  {
    if w == 0 {
      assert ws[0 := x][1..] == ws[1..];
    } else {
      assert ws[w := x][1..] == ws[1..][w - 1 := x];
      WeightsUpdate(ws[1..], w - 1, x);
    }
  }

  lemma StepWorks<T>(tasks: seq<Task<T>>, s: State<T>, w: nat)
    requires Inv(tasks, s) && Enabled(s, w)
    ensures Work(|tasks|, Step(tasks, s, w)) < Work(|tasks|, s)
  {
    var t := Step(tasks, s, w);
    WeightsUpdate(s.workers, w, t.workers[w]);
    assert t.workers == s.workers[w := t.workers[w]];
    hide Weights;
  }

  lemma {:induction false} WeightsReady(ws: seq<Worker>)
    requires forall w | w in ws :: w.Ready?
    ensures Weights(ws) == |ws|
    decreases |ws|
  {
    if ws != [] { WeightsReady(ws[1..]); }
  }

  /** Every worker scheduled could go on when its turn came. */
  predicate Fair<T>(tasks: seq<Task<T>>, concurrency: int, schedule: seq<nat>) {
    forall k | 0 <= k < |schedule| :: Enabled(Run(tasks, concurrency, schedule[..k]), schedule[k])
  }

  lemma {:induction false} RunWork<T>(tasks: seq<Task<T>>, concurrency: int, schedule: seq<nat>)
    requires schedule != []
    requires var n := |schedule| - 1; Enabled(Run(tasks, concurrency, schedule[..n]), schedule[n])
    ensures Work(|tasks|, Run(tasks, concurrency, schedule)) < Work(|tasks|, Run(tasks, concurrency, schedule[..|schedule| - 1]))
  {
    hide Inv, Work, Step, Enabled;
    var n := |schedule| - 1;
    RunInv(tasks, concurrency, schedule[..n]);
    StepWorks(tasks, Run(tasks, concurrency, schedule[..n]), schedule[n]);
  }

  lemma FairFront<T>(tasks: seq<Task<T>>, concurrency: int, schedule: seq<nat>)
    requires schedule != [] && Fair(tasks, concurrency, schedule)
    ensures var n := |schedule| - 1;
      Fair(tasks, concurrency, schedule[..n]) && Enabled(Run(tasks, concurrency, schedule[..n]), schedule[n])
  {
    var n := |schedule| - 1;
    hide Run, Enabled;
    forall k | 0 <= k < n
      ensures Enabled(Run(tasks, concurrency, schedule[..n][..k]), schedule[..n][k])
    {
      assert schedule[..n][..k] == schedule[..k];
    }
  }

  lemma {:induction false} StepsCost<T>(tasks: seq<Task<T>>, concurrency: int, schedule: seq<nat>)
    requires Fair(tasks, concurrency, schedule)
    ensures |schedule| + Work(|tasks|, Run(tasks, concurrency, schedule)) <= 3 * |tasks| + PoolSize(concurrency, |tasks|)
    decreases |schedule|
  {
    if schedule == [] {
      WeightsReady(Start<T>(|tasks|, concurrency).workers);
    } else {
      hide *;
      FairFront(tasks, concurrency, schedule);
      RunWork(tasks, concurrency, schedule);
      StepsCost(tasks, concurrency, schedule[..|schedule| - 1]);
    }
  }

  /** No run goes on for ever: each task costs at most three steps and each worker one more. */
  lemma RunsEnd<T>(tasks: seq<Task<T>>, concurrency: int, schedule: seq<nat>)
    requires Fair(tasks, concurrency, schedule)
    ensures |schedule| <= 3 * |tasks| + PoolSize(concurrency, |tasks|)
  {
    StepsCost(tasks, concurrency, schedule);
    RunInv(tasks, concurrency, schedule);
    hide Run, Weights, Fair;
  }

  predicate ResolvesFull<T>(s: State<T>) {
    Resolved(s) ==> forall i | 0 <= i < |s.results| :: s.results[i].Some?
  }

  /** A pool asked for no worker resolves at once with every slot still empty: the results are all there after
      every run that resolves exactly when a worker was asked for or there was nothing to do. */
  lemma CompleteIffWorkerAsked<T>(tasks: seq<Task<T>>, concurrency: int)
    ensures (forall schedule :: ResolvesFull(Run(tasks, concurrency, schedule))) <==> concurrency >= 1 || tasks == []
  {
    if concurrency >= 1 {
      forall schedule
        ensures ResolvesFull(Run(tasks, concurrency, schedule))
      {
        ResolvedIsComplete(tasks, concurrency, schedule);
      }
    } else if tasks == [] {
      forall schedule
        ensures ResolvesFull(Run(tasks, concurrency, schedule))
      {
        assert |Run(tasks, concurrency, schedule).results| == 0;
      }
    } else {
      var idle: seq<nat> := [];
      var s := Run(tasks, concurrency, idle);
      assert s == Start(|tasks|, concurrency);
      assert Resolved(s) && s.results[0].None?;
      assert !ResolvesFull(Run(tasks, concurrency, idle));
    }
  }
}
