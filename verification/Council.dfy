/** src/council/aukoraFuCouncil.ts: the spend meter, one council pass as the meter sees it, and the lineage
    weights. Amounts are exact reals. */
module Council {
  datatype Option<+T> = None | Some(value: T)

  datatype Seat = Seat(id: nat, family: nat, costPer1M: real)

  datatype Limits = Limits(perPass: real, perDay: real)

  /** The private constants of a meter. */
  datatype Rates = Rates(priceFloor: real, multiplier: real)

  /** The changing fields of a meter. */
  datatype Meter = Meter(spent: real, reserved: real, day: real) {
    function Committed(): real { spent + reserved }
  }

  const SYNTHESIS_PRICE := 4.0
  const MILLION := 1_000_000.0

  function Max(a: real, b: real): real { if a < b then b else a }

  // ---- estimates ----

  function PerCall(r: Rates, price: real, toks: nat): real {
    Max(price, r.priceFloor) / MILLION * toks as real * r.multiplier
  }

  function BatchEstimate(r: Rates, seats: seq<Seat>, toks: nat): real {
    if seats == [] then 0.0
    else BatchEstimate(r, seats[..|seats| - 1], toks) + PerCall(r, seats[|seats| - 1].costPer1M, toks)
  }

  function SynthesisEstimate(r: Rates, toks: nat): real { PerCall(r, SYNTHESIS_PRICE, toks) }

  function PassEstimate(r: Rates, seats: seq<Seat>, rounds: nat, toks: nat, synthesisToks: nat): real {
    BatchEstimate(r, seats, toks) * rounds as real + SynthesisEstimate(r, synthesisToks)
  }

  /** No price is negative once floored. */
  predicate Sane(r: Rates) { r.priceFloor >= 0.0 && r.multiplier >= 0.0 }

  // ---- the meter ----

  predicate GuardPasses(l: Limits, m: Meter, est: real) { est <= l.perPass && m.day + est <= l.perDay }

  predicate ReserveOk(l: Limits, m: Meter, est: real) {
    m.Committed() + est <= l.perPass && m.day + m.reserved + est <= l.perDay
  }

  function Reserved(m: Meter, est: real): Meter { m.(reserved := m.reserved + est) }

  function Reconciled(m: Meter, est: real, actual: real): Meter {
    Meter(m.spent + actual, Max(0.0, m.reserved - est), m.day + actual)
  }

  class SpendMeter {
    const limits: Limits
    const rates: Rates
    var passSpent: real
    var reserved: real
    var dayToDate: real

    constructor (limits: Limits, dayToDate: real, rates: Rates)
      ensures this.limits == limits && this.rates == rates && View() == Meter(0.0, 0.0, dayToDate)
    {
      this.limits, this.rates := limits, rates;
      this.passSpent, this.reserved, this.dayToDate := 0.0, 0.0, dayToDate;
    }

    ghost function View(): Meter
      reads this
    {
      Meter(passSpent, reserved, dayToDate)
    }

    method EstimateBatch(seats: seq<Seat>, toks: nat) returns (sum: real)
      ensures sum == BatchEstimate(rates, seats, toks)
    {
      sum := 0.0;
      for i := 0 to |seats|
        invariant sum == BatchEstimate(rates, seats[..i], toks)
      {
        assert seats[..i + 1][..i] == seats[..i];
        sum := sum + PerCall(rates, seats[i].costPer1M, toks);
      }
      assert seats[..|seats|] == seats;
    }

    method GuardPass(seats: seq<Seat>, rounds: nat, toks: nat, synthesisToks: nat) returns (ok: bool, est: real)
      ensures est == PassEstimate(rates, seats, rounds, toks, synthesisToks)
      ensures ok == GuardPasses(limits, View(), est)
    {
      var batch := EstimateBatch(seats, toks);
      est := batch * rounds as real + SynthesisEstimate(rates, synthesisToks);
      if est > limits.perPass { return false, est; }
      ok := !(dayToDate + est > limits.perDay);
    }

    method BeginPass()
      modifies this
      ensures View() == old(View()).(spent := 0.0, reserved := 0.0)
    {
      passSpent, reserved := 0.0, 0.0;
    }

    method Reserve(est: real) returns (ok: bool)
      modifies this
      ensures ok == ReserveOk(limits, old(View()), est)
      ensures View() == if ok then Reserved(old(View()), est) else old(View())
    {
      if passSpent + reserved + est > limits.perPass { return false; }
      if dayToDate + reserved + est > limits.perDay { return false; }
      reserved := reserved + est;
      ok := true;
    }

    method Reconcile(est: real, actual: real)
      modifies this
      ensures View() == Reconciled(old(View()), est, actual)
    {
      reserved := if reserved - est < 0.0 then 0.0 else reserved - est;
      passSpent, dayToDate := passSpent + actual, dayToDate + actual;
    }

    /** One dispatch: reserve, call, reconcile; nothing happens when the reservation is refused. */
    method Dispatch(est: real, actual: real) returns (ok: bool)
      modifies this
      ensures ok == ReserveOk(limits, old(View()), est)
      ensures View() == Dispatched(limits, old(View()), est, actual)
    {
      ok := Reserve(est);
      if ok { Reconcile(est, actual); }
    }
  }

  function Dispatched(l: Limits, m: Meter, est: real, actual: real): Meter {
    if ReserveOk(l, m, est) then Reconciled(Reserved(m, est), est, actual) else m
  }

  /** A reconciliation gives its reservation back and no more: what is reserved never turns negative, whatever was
      reserved before. */
  lemma ReconcileReleases(m: Meter, est: real, actual: real)
    ensures var t := Reconciled(m, est, actual);
      && t.reserved >= 0.0 && (est <= m.reserved ==> t.reserved + est == m.reserved) && (est > m.reserved ==> t.reserved == 0.0)
      && t.spent == m.spent + actual && t.day == m.day + actual
  {
  }

  // ---- a pass ----

  /** What the outside world answers during a pass: the bill of each dispatch, which results of each round ask
      for a format repair, and whether the votes make a quorum. */
  datatype World = World(bill1: real, needs1: seq<bool>, rebill1: real, bill2: real, needs2: seq<bool>, rebill2: real,
                         quorum: bool, billSynthesis: real)

  /** One dispatch: not called for, refused by reserve, or sent; peak is the meter while it is out. */
  datatype Slot = Skipped | Refused | Sent(est: real, bill: real, peak: Meter, after: Meter)

  datatype Pass = Pass(guarded: bool, round1: Slot, repair1: Slot, round2: Slot, repair2: Slot, synthesis: Slot, meter: Meter)

  function Try(l: Limits, m: Meter, est: real, bill: real): Slot {
    if ReserveOk(l, m, est) then Sent(est, bill, Reserved(m, est), Reconciled(Reserved(m, est), est, bill)) else Refused
  }

  function After(m: Meter, slot: Slot): Meter { if slot.Sent? then slot.after else m }

  /** The seats whose result asks for a repair. */
  function Picked(seats: seq<Seat>, needs: seq<bool>): seq<Seat> {
    if seats == [] || needs == [] then []
    else if needs[0] then [seats[0]] + Picked(seats[1..], needs[1..])
    else Picked(seats[1..], needs[1..])
  }

  function RepairEstimate(r: Rates, seats: seq<Seat>, needs: seq<bool>, toks: nat): Option<real> {
    var again := Picked(seats, needs);
    if again == [] then None else Some(BatchEstimate(r, again, toks))
  }

  /** A pass past its guard, from the estimates alone. A refused round ends it; a refused repair or synthesis
      is passed over. */
  function RunOn(l: Limits, batch: real, again1: Option<real>, again2: Option<real>, synthesis: real, w: World, m0: Meter): Pass {
    var r1 := Try(l, m0, batch, w.bill1);
    var m1 := After(m0, r1);
    var p1 := if r1.Sent? && again1.Some? then Try(l, m1, again1.value, w.rebill1) else Skipped;
    var m2 := After(m1, p1);
    var r2 := if r1.Sent? then Try(l, m2, batch, w.bill2) else Skipped;
    var m3 := After(m2, r2);
    var p2 := if r2.Sent? && again2.Some? then Try(l, m3, again2.value, w.rebill2) else Skipped;
    var m4 := After(m3, p2);
    var s := if r2.Sent? && w.quorum then Try(l, m4, synthesis, w.billSynthesis) else Skipped;
    Pass(true, r1, p1, r2, p2, s, After(m4, s))
  }

  function RunPass(l: Limits, r: Rates, seats: seq<Seat>, toks: nat, w: World, m: Meter): Pass {
    if GuardPasses(l, m, PassEstimate(r, seats, 3, toks, toks)) then
      RunOn(l, BatchEstimate(r, seats, toks), RepairEstimate(r, seats, w.needs1, toks),
            RepairEstimate(r, seats, w.needs2, toks), SynthesisEstimate(r, toks), w, m.(spent := 0.0, reserved := 0.0))
    else Pass(false, Skipped, Skipped, Skipped, Skipped, Skipped, m)
  }

  method Filter(seats: seq<Seat>, needs: seq<bool>) returns (out: seq<Seat>)
    ensures out == Picked(seats, needs)
  {
    out := [];
    var i := 0;
    while i < |seats| && i < |needs|
      invariant 0 <= i <= |seats| && i <= |needs|
      invariant Picked(seats, needs) == out + Picked(seats[i..], needs[i..])
    {
      assert seats[i..][1..] == seats[i + 1..] && needs[i..][1..] == needs[i + 1..];
      if needs[i] { out := out + [seats[i]]; }
      i := i + 1;
    }
  }

  /** fanOut: a batch and, where some results ask for it, its repair batch. */
  method FanOut(meter: SpendMeter, seats: seq<Seat>, needs: seq<bool>, toks: nat, bill: real, rebill: real)
    returns (ok: bool, ghost round: Slot, ghost repair: Slot)
    modifies meter
    ensures var m, again := old(meter.View()), RepairEstimate(meter.rates, seats, needs, toks);
      round == Try(meter.limits, m, BatchEstimate(meter.rates, seats, toks), bill)
      && ok == round.Sent?
      && repair == (if ok && again.Some? then Try(meter.limits, After(m, round), again.value, rebill) else Skipped)
      && meter.View() == After(After(m, round), repair)
  {
    var est := meter.EstimateBatch(seats, toks);
    round, repair := Try(meter.limits, meter.View(), est, bill), Skipped;
    ok := meter.Dispatch(est, bill);
    if !ok { return; }
    var again := Filter(seats, needs);
    if again == [] { return; }
    var estAgain := meter.EstimateBatch(again, toks);
    repair := Try(meter.limits, meter.View(), estAgain, rebill);
    var repaired := meter.Dispatch(estAgain, rebill);
  }

  /** runAukoraFuCouncil as the meter sees it. */
  method RunCouncil(meter: SpendMeter, seats: seq<Seat>, toks: nat, w: World) returns (ok: bool, ghost pass: Pass)
    modifies meter
    ensures pass == RunPass(meter.limits, meter.rates, seats, toks, w, old(meter.View()))
    ensures meter.View() == pass.meter
    ensures ok <==> pass.guarded && pass.round1.Sent? && pass.round2.Sent?
  {
    ghost var m := meter.View();
    var guarded, est := meter.GuardPass(seats, 3, toks, toks);
    if !guarded { return false, Pass(false, Skipped, Skipped, Skipped, Skipped, Skipped, m); }
    hide PassEstimate, BatchEstimate, SynthesisEstimate, RepairEstimate, Try, GuardPasses;
    meter.BeginPass();
    ghost var r1, p1, r2, p2, s;
    ok, r1, p1 := FanOut(meter, seats, w.needs1, toks, w.bill1, w.rebill1);
    if !ok { return false, Pass(true, r1, p1, Skipped, Skipped, Skipped, meter.View()); }
    ok, r2, p2 := FanOut(meter, seats, w.needs2, toks, w.bill2, w.rebill2);
    s := Skipped;
    if ok && w.quorum {
      var synthesis := SynthesisEstimate(meter.rates, toks);
      s := Try(meter.limits, meter.View(), synthesis, w.billSynthesis);
      DispatchIsTry(meter.limits, meter.View(), synthesis, w.billSynthesis);
      var rendered := meter.Dispatch(synthesis, w.billSynthesis);
    }
    pass := Pass(true, r1, p1, r2, p2, s, meter.View());
  }

  lemma DispatchIsTry(l: Limits, m: Meter, est: real, bill: real)
    ensures Dispatched(l, m, est, bill) == After(m, Try(l, m, est, bill))
  {
  }

  // ---- what the estimates promise ----

  lemma PerCallNonNegative(r: Rates, price: real, toks: nat)
    requires Sane(r)
    ensures PerCall(r, price, toks) >= 0.0
  {
    var a := Max(price, r.priceFloor) / MILLION;
    NonNegative(a, toks as real);
    NonNegative(a * toks as real, r.multiplier);
  }

  lemma NonNegative(a: real, b: real)
    requires a >= 0.0 && b >= 0.0
    ensures a * b >= 0.0
  {
  }

  lemma {:induction false} BatchFront(r: Rates, seats: seq<Seat>, toks: nat)
    requires seats != []
    ensures BatchEstimate(r, seats, toks) == PerCall(r, seats[0].costPer1M, toks) + BatchEstimate(r, seats[1..], toks)
    decreases |seats|
  {
    var n := |seats| - 1;
    hide PerCall;
    if n > 0 {
      BatchFront(r, seats[..n], toks);
      assert seats[..n][1..] == seats[1..][..n - 1];
    } else {
      assert seats[..0] == [] && seats[1..] == [];
    }
  }

  /** A repair batch is never dearer than the batch it repairs. */
  lemma {:induction false} RepairWithinBatch(r: Rates, seats: seq<Seat>, needs: seq<bool>, toks: nat)
    requires Sane(r)
    ensures 0.0 <= BatchEstimate(r, Picked(seats, needs), toks) <= BatchEstimate(r, seats, toks)
    decreases |seats|
  {
    if seats != [] {
      BatchFront(r, seats, toks);
      PerCallNonNegative(r, seats[0].costPer1M, toks);
      RepairWithinBatch(r, seats[1..], if needs == [] then [] else needs[1..], toks);
      if needs != [] && needs[0] {
        var p := Picked(seats, needs);
        assert p[1..] == Picked(seats[1..], needs[1..]);
        BatchFront(r, p, toks);
      }
    }
  }

  /** A seat's reply whose provider sends no cost and counts at most multiplier times the token cap is billed
      no more than its share of the reservation. */
  lemma TokenCapCovers(r: Rates, price: real, toks: nat, outputToks: nat)
    requires Sane(r) && outputToks as real <= toks as real * r.multiplier
    ensures Max(price, 0.0) / MILLION * outputToks as real <= PerCall(r, price, toks)
  {
    var a, b := Max(price, 0.0) / MILLION, Max(price, r.priceFloor) / MILLION;
    var x, y := outputToks as real, toks as real * r.multiplier;
    ProductMonotone(a, b, x, y);
    assert PerCall(r, price, toks) == b * y by { Regroup(b, toks as real, r.multiplier); }
  }

  lemma ProductMonotone(a: real, b: real, x: real, y: real)
    requires 0.0 <= a <= b && 0.0 <= x <= y
    ensures a * x <= b * y
  {
    NonNegative(b - a, x);
    NonNegative(b, y - x);
  }

  lemma Regroup(a: real, b: real, c: real)
    ensures a * b * c == a * (b * c)
  {
  }

  // ---- the main results ----

  /** A dispatch that was sent is billed at most its reservation. */
  predicate Covered(slot: Slot) { slot.Sent? ==> slot.bill <= slot.est }

  predicate AllCovered(p: Pass) {
    Covered(p.round1) && Covered(p.repair1) && Covered(p.round2) && Covered(p.repair2) && Covered(p.synthesis)
  }

  predicate WithinCeilings(l: Limits, m: Meter) { m.Committed() <= l.perPass && m.day + m.reserved <= l.perDay }

  predicate SlotWithin(l: Limits, slot: Slot) {
    slot.Sent? ==> WithinCeilings(l, slot.peak) && WithinCeilings(l, slot.after)
  }

  function BillOf(slot: Slot): real { if slot.Sent? then slot.bill else 0.0 }

  function Billed(p: Pass): real {
    BillOf(p.round1) + BillOf(p.repair1) + BillOf(p.round2) + BillOf(p.repair2) + BillOf(p.synthesis)
  }

  /** Conservation: no reservation outlives its dispatch, and a pass books exactly what it was billed, once to
      the pass and once to the day. */
  lemma PassBooksBills(l: Limits, r: Rates, seats: seq<Seat>, toks: nat, w: World, m: Meter)
    requires Sane(r)
    ensures var p := RunPass(l, r, seats, toks, w, m);
      p.meter == if p.guarded then Meter(Billed(p), 0.0, m.day + Billed(p)) else m
  {
    EstimatesBounded(r, seats, toks, w);
    hide BatchEstimate, RepairEstimate, SynthesisEstimate, PassEstimate, ReserveOk, GuardPasses;
    var b, s, m0 := BatchEstimate(r, seats, toks), SynthesisEstimate(r, toks), m.(spent := 0.0, reserved := 0.0);
    RunOnBooks(l, b, RepairEstimate(r, seats, w.needs1, toks), RepairEstimate(r, seats, w.needs2, toks), s, w, m0);
    hide RunOn;
  }

  lemma RunOnBooks(l: Limits, b: real, e1: Option<real>, e2: Option<real>, s: real, w: World, m: Meter)
    requires 0.0 <= b && (e1.Some? ==> 0.0 <= e1.value) && (e2.Some? ==> 0.0 <= e2.value) && 0.0 <= s
    requires m.spent == 0.0 && m.reserved == 0.0
    ensures var p := RunOn(l, b, e1, e2, s, w, m);
      p.guarded && p.meter == Meter(Billed(p), 0.0, m.day + Billed(p))
  {
    var p := RunOn(l, b, e1, e2, s, w, m);
    var m1 := After(m, p.round1);
    var m2 := After(m1, p.repair1);
    var m3 := After(m2, p.round2);
    var m4 := After(m3, p.repair2);
    TryStep(l, m, b, w.bill1);
    if e1.Some? { TryStep(l, m1, e1.value, w.rebill1); }
    TryStep(l, m2, b, w.bill2);
    if e2.Some? { TryStep(l, m3, e2.value, w.rebill2); }
    TryStep(l, m4, s, w.billSynthesis);
    hide Try, SlotWithin;
  }

  lemma EstimatesBounded(r: Rates, seats: seq<Seat>, toks: nat, w: World)
    requires Sane(r)
    ensures var b, e1, e2 := BatchEstimate(r, seats, toks), RepairEstimate(r, seats, w.needs1, toks),
                             RepairEstimate(r, seats, w.needs2, toks);
      0.0 <= b && (e1.Some? ==> 0.0 <= e1.value <= b) && (e2.Some? ==> 0.0 <= e2.value <= b)
    ensures 0.0 <= SynthesisEstimate(r, toks)
  {
    RepairWithinBatch(r, seats, w.needs1, toks);
    RepairWithinBatch(r, seats, w.needs2, toks);
    PerCallNonNegative(r, SYNTHESIS_PRICE, toks);
  }

  /** The rounds in order: what is not reached is skipped, and nothing else is. Round 2 follows a sent round 1, a repair a
      sent round that has a seat asking for one, the synthesis a sent round 2 with a quorum. */
  lemma PassFollowsRounds(l: Limits, r: Rates, seats: seq<Seat>, toks: nat, w: World, m: Meter)
    ensures var p := RunPass(l, r, seats, toks, w, m);
      && (p.guarded <==> GuardPasses(l, m, PassEstimate(r, seats, 3, toks, toks)))
      && (p.round1.Skipped? <==> !p.guarded)
      && (p.repair1.Skipped? <==> !(p.round1.Sent? && Asks(seats, w.needs1)))
      && (p.round2.Skipped? <==> !p.round1.Sent?)
      && (p.repair2.Skipped? <==> !(p.round2.Sent? && Asks(seats, w.needs2)))
      && (p.synthesis.Skipped? <==> !(p.round2.Sent? && w.quorum))
  {
    PickedExactly(seats, w.needs1);
    PickedExactly(seats, w.needs2);
    hide BatchEstimate, SynthesisEstimate, PassEstimate, ReserveOk, Picked, Asks;
  }

  /** Some seat asks for a repair. */
  predicate Asks(seats: seq<Seat>, needs: seq<bool>) {
    exists i: nat :: i < |seats| && i < |needs| && needs[i]
  }

  lemma {:induction false} PickedExactly(seats: seq<Seat>, needs: seq<bool>)
    ensures Picked(seats, needs) != [] <==> Asks(seats, needs)
    decreases |seats|
  {
    if seats != [] && needs != [] {
      PickedExactly(seats[1..], needs[1..]);
      if Asks(seats[1..], needs[1..]) {
        var i: nat :| i < |seats[1..]| && i < |needs[1..]| && needs[1..][i];
        assert needs[i + 1];
      }
      if Asks(seats, needs) && !needs[0] {
        var i: nat :| i < |seats| && i < |needs| && needs[i];
        assert needs[1..][i - 1];
      }
    }
  }

  /** The budget theorem. Once the guard lets a pass start and every dispatch stays within its reservation,
      both ceilings hold while each dispatch is out and after it is booked; round 1, its repair and round 2
      are never refused; the synthesis is refused only when both rounds sent repairs. */
  lemma BudgetHolds(l: Limits, r: Rates, seats: seq<Seat>, toks: nat, w: World, m: Meter)
    requires Sane(r)
    requires var p := RunPass(l, r, seats, toks, w, m); p.guarded && AllCovered(p)
    ensures var p := RunPass(l, r, seats, toks, w, m);
      && SlotWithin(l, p.round1) && SlotWithin(l, p.repair1) && SlotWithin(l, p.round2) && SlotWithin(l, p.repair2)
      && SlotWithin(l, p.synthesis) && WithinCeilings(l, p.meter)
      && p.round1.Sent? && !p.repair1.Refused? && p.round2.Sent?
      && (p.synthesis.Refused? ==> p.repair1.Sent? && p.repair2.Sent?)
  {
    EstimatesBounded(r, seats, toks, w);
    assert PassEstimate(r, seats, 3, toks, toks) == 3.0 * BatchEstimate(r, seats, toks) + SynthesisEstimate(r, toks);
    hide BatchEstimate, RepairEstimate, SynthesisEstimate, PassEstimate;
    RunOnWithin(l, BatchEstimate(r, seats, toks), RepairEstimate(r, seats, w.needs1, toks),
                RepairEstimate(r, seats, w.needs2, toks), SynthesisEstimate(r, toks), w, m.(spent := 0.0, reserved := 0.0));
  }

  lemma RunOnWithin(l: Limits, b: real, e1: Option<real>, e2: Option<real>, s: real, w: World, m: Meter)
    requires 0.0 <= b && (e1.Some? ==> 0.0 <= e1.value <= b) && (e2.Some? ==> 0.0 <= e2.value <= b) && 0.0 <= s
    requires m.spent == 0.0 && m.reserved == 0.0 && GuardPasses(l, m, 3.0 * b + s)
    requires AllCovered(RunOn(l, b, e1, e2, s, w, m))
    ensures var p := RunOn(l, b, e1, e2, s, w, m);
      && SlotWithin(l, p.round1) && SlotWithin(l, p.repair1) && SlotWithin(l, p.round2) && SlotWithin(l, p.repair2)
      && SlotWithin(l, p.synthesis) && WithinCeilings(l, p.meter)
      && p.round1.Sent? && !p.repair1.Refused? && p.round2.Sent?
      && (p.synthesis.Refused? ==> p.repair1.Sent? && p.repair2.Sent?)
  {
    var p := RunOn(l, b, e1, e2, s, w, m);
    var m1 := After(m, p.round1);
    var m2 := After(m1, p.repair1);
    var m3 := After(m2, p.round2);
    var m4 := After(m3, p.repair2);
    TryStep(l, m, b, w.bill1);
    if e1.Some? { TryStep(l, m1, e1.value, w.rebill1); }
    TryStep(l, m2, b, w.bill2);
    if e2.Some? { TryStep(l, m3, e2.value, w.rebill2); }
    TryStep(l, m4, s, w.billSynthesis);
    hide Try;
  }

  /** One dispatch on a meter with nothing reserved. */
  lemma TryStep(l: Limits, m: Meter, est: real, bill: real)
    requires 0.0 <= est
    ensures var slot, m2 := Try(l, m, est, bill), After(m, Try(l, m, est, bill));
      m.reserved == 0.0 ==>
      && (slot.Refused? <==> m.spent + est > l.perPass || m.day + est > l.perDay)
      && !slot.Skipped? && (slot.Sent? ==> slot.est == est && slot.bill == bill)
      && m2 == (if slot.Sent? then Meter(m.spent + bill, 0.0, m.day + bill) else m)
      && (slot.Sent? && bill <= est ==> SlotWithin(l, slot))
  {
  }

  /** Both escapes are real. The guard plans for one repair batch only, so a second one of two dear seats is
      refused. */
  lemma SecondRepairRefused()
    ensures var p := RunPass(Limits(28.0, 100.0), Rates(5.0, 8.0), [Seat(0, 0, 1.0), Seat(1, 1, 1.0)], 100_000,
                             World(8.0, [true, true], 8.0, 8.0, [true, true], 8.0, true, 4.0), Meter(0.0, 0.0, 0.0));
      p.guarded && AllCovered(p) && p.repair2.Refused? && p.synthesis.Sent?
  {
    TwoSeatEstimates();
    var l, w, m := Limits(28.0, 100.0), World(8.0, [true, true], 8.0, 8.0, [true, true], 8.0, true, 4.0), Meter(0.0, 0.0, 0.0);
    assert RunPass(l, Rates(5.0, 8.0), [Seat(0, 0, 1.0), Seat(1, 1, 1.0)], 100_000, w, m)
        == RunOn(l, 8.0, Some(8.0), Some(8.0), 4.0, w, m);
    hide BatchEstimate, RepairEstimate, SynthesisEstimate, RunPass;
    FullRepairs(l, 8.0, 4.0, w, m);
  }

  /** After a second repair of one cheap seat it is the synthesis that is refused. */
  lemma SynthesisRefused()
    ensures var p := RunPass(Limits(16.0, 100.0), Rates(5.0, 8.0), [Seat(0, 0, 1.0)], 100_000,
                             World(4.0, [true], 4.0, 4.0, [true], 4.0, true, 4.0), Meter(0.0, 0.0, 0.0));
      p.guarded && AllCovered(p) && p.repair2.Sent? && p.synthesis.Refused?
  {
    TwoSeatEstimates();
    var l, w, m := Limits(16.0, 100.0), World(4.0, [true], 4.0, 4.0, [true], 4.0, true, 4.0), Meter(0.0, 0.0, 0.0);
    assert RunPass(l, Rates(5.0, 8.0), [Seat(0, 0, 1.0)], 100_000, w, m) == RunOn(l, 4.0, Some(4.0), Some(4.0), 4.0, w, m);
    hide BatchEstimate, RepairEstimate, SynthesisEstimate, RunPass;
    FullRepairs(l, 4.0, 4.0, w, m);
  }

  /** A pass whose every batch is repaired in full and billed in full, on a pass ceiling of just its estimate. */
  lemma FullRepairs(l: Limits, b: real, s: real, w: World, m: Meter)
    requires 0.0 < s <= b && m == Meter(0.0, 0.0, 0.0) && l.perPass == 3.0 * b + s && l.perPass + b + s <= l.perDay
    requires w.bill1 == b && w.rebill1 == b && w.bill2 == b && w.rebill2 == b && w.billSynthesis == s && w.quorum
    ensures var p := RunOn(l, b, Some(b), Some(b), s, w, m);
      AllCovered(p) && (if s < b then p.repair2.Refused? && p.synthesis.Sent? else p.repair2.Sent? && p.synthesis.Refused?)
  {
    hide Try, SlotWithin, ReserveOk;
    TryStep(l, m, b, b);
    TryStep(l, Meter(b, 0.0, b), b, b);
    TryStep(l, Meter(2.0 * b, 0.0, 2.0 * b), b, b);
    TryStep(l, Meter(3.0 * b, 0.0, 3.0 * b), b, b);
    TryStep(l, Meter(if s < b then 3.0 * b else 4.0 * b, 0.0, if s < b then 3.0 * b else 4.0 * b), s, s);
    var p := RunOn(l, b, Some(b), Some(b), s, w, m);
    assert p.round1.Sent? && After(m, p.round1) == Meter(b, 0.0, b);
    assert p.repair1.Sent? && After(Meter(b, 0.0, b), p.repair1) == Meter(2.0 * b, 0.0, 2.0 * b);
    assert p.round2.Sent? && After(Meter(2.0 * b, 0.0, 2.0 * b), p.round2) == Meter(3.0 * b, 0.0, 3.0 * b);
  }

  lemma TwoSeatEstimates()
    ensures var r, a, b := Rates(5.0, 8.0), Seat(0, 0, 1.0), Seat(1, 1, 1.0);
      && BatchEstimate(r, [a], 100_000) == 4.0 && BatchEstimate(r, [a, b], 100_000) == 8.0
      && RepairEstimate(r, [a], [true], 100_000) == Some(4.0)
      && RepairEstimate(r, [a, b], [true, true], 100_000) == Some(8.0)
      && SynthesisEstimate(r, 100_000) == 4.0
  {
    var r, a, b, t := Rates(5.0, 8.0), Seat(0, 0, 1.0), Seat(1, 1, 1.0), [true, true];
    assert PerCall(r, 1.0, 100_000) == 4.0 && PerCall(r, SYNTHESIS_PRICE, 100_000) == 4.0;
    hide PerCall;
    assert [a][..0] == [] && [a, b][..1] == [a];
    assert BatchEstimate(r, [a], 100_000) == 4.0;
    assert [a, b][1..] == [b] && t[1..] == [true] && [b][1..] == [] && [a][1..] == [];
    assert Picked([], []) == [] && [true][1..] == [];
    assert Picked([b], [true]) == [b];
    assert Picked([a], [true]) == [a];
    assert Picked([a, b], t) == [a, b];
  }

  // ---- lineage weights ----

  /** new Map(seats.map(s => [s.id, s.family])).get(id): the last seat of that id wins. */
  function FamilyOf(seats: seq<Seat>, id: nat): Option<nat> {
    if seats == [] then None
    else if seats[|seats| - 1].id == id then Some(seats[|seats| - 1].family)
    else FamilyOf(seats[..|seats| - 1], id)
  }

  /** Seat i is the last of its id. */
  predicate LastOf(seats: seq<Seat>, id: nat, i: nat) {
    i < |seats| && seats[i].id == id && forall j | i < j < |seats| :: seats[j].id != id
  }

  lemma {:induction false} FamilyExactly(seats: seq<Seat>, id: nat, i: nat)
    requires LastOf(seats, id, i)
    ensures FamilyOf(seats, id) == Some(seats[i].family)
    decreases |seats|
  {
    if i < |seats| - 1 { FamilyExactly(seats[..|seats| - 1], id, i); }
  }

  function Families(seats: seq<Seat>, votes: seq<nat>): (fs: seq<Option<nat>>)
    ensures |fs| == |votes|
  {
    seq(|votes|, i requires 0 <= i < |votes| => FamilyOf(seats, votes[i]))
  }

  function Count<T(==)>(s: seq<T>, x: T): nat {
    if s == [] then 0 else Count(s[..|s| - 1], x) + if s[|s| - 1] == x then 1 else 0
  }

  lemma {:induction false} CountPositive<T>(s: seq<T>, x: T)
    ensures x in s <==> Count(s, x) > 0
    decreases |s|
  {
    if s != [] {
      CountPositive(s[..|s| - 1], x);
      assert s == s[..|s| - 1] + [s[|s| - 1]];
    }
  }

  /** x is one divided by how many voting seats share the family f. */
  predicate Weighs(fs: seq<Option<nat>>, f: Option<nat>, x: real) {
    Count(fs, f) > 0 && x == 1.0 / Count(fs, f) as real
  }

  /** The two loops over the votes, given by seat id: count each family, then weigh each vote. */
  method LineageWeights(votes: seq<nat>, seats: seq<Seat>) returns (w: map<nat, real>)
    ensures w.Keys == set v | v in votes
    ensures forall v | v in votes :: Weighs(Families(seats, votes), FamilyOf(seats, v), w[v])
  {
    var familyCount: map<Option<nat>, nat> := map[];
    ghost var fs := Families(seats, votes);
    for i := 0 to |votes|
      invariant forall f :: (if f in familyCount then familyCount[f] else 0) == Count(fs[..i], f)
    {
      assert fs[..i + 1][..i] == fs[..i];
      var fam := FamilyOf(seats, votes[i]);
      familyCount := familyCount[fam := (if fam in familyCount then familyCount[fam] else 0) + 1];
    }
    assert fs[..|votes|] == fs;
    w := map[];
    for i := 0 to |votes|
      invariant w.Keys == set v | v in votes[..i]
      invariant forall v | v in votes[..i] :: Weighs(fs, FamilyOf(seats, v), w[v])
    {
      var fam := FamilyOf(seats, votes[i]);
      assert fs[i] == fam;
      CountPositive(fs, fam);
      w := w[votes[i] := 1.0 / (if fam in familyCount then familyCount[fam] else 1) as real];
      assert votes[..i + 1] == votes[..i] + [votes[i]];
    }
    assert votes[..|votes|] == votes;
  }

  function Total(s: seq<real>): real {
    if s == [] then 0.0 else s[0] + Total(s[1..])
  }

  /** The weights of the votes, in order. */
  function WeightsOf(votes: seq<nat>, w: map<nat, real>): seq<real>
    requires forall v | v in votes :: v in w
  {
    seq(|votes|, i requires 0 <= i < |votes| => w[votes[i]])
  }

  function SumOver<T(==)>(s: seq<T>, w: map<T, real>): real
    requires forall x | x in s :: x in w
  {
    if s == [] then 0.0 else w[s[0]] + SumOver(s[1..], w)
  }

  function Without<T(==)>(s: seq<T>, x: T): (r: seq<T>)
    ensures |r| <= |s| && forall y | y in r :: y in s && y != x
    ensures forall y | y in s && y != x :: y in r
    ensures x in s ==> |r| < |s|
  {
    if s == [] then []
    else if s[0] == x then Without(s[1..], x)
    else [s[0]] + Without(s[1..], x)
  }

  lemma {:induction false} CountFront<T>(s: seq<T>, x: T)
    requires s != []
    ensures Count(s, x) == Count(s[1..], x) + if s[0] == x then 1 else 0
    decreases |s|
  {
    var n := |s| - 1;
    if n > 0 {
      CountFront(s[..n], x);
      assert s[..n][1..] == s[1..][..n - 1];
    }
  }

  lemma {:induction false} WithoutCounts<T>(s: seq<T>, x: T, y: T)
    requires y != x
    ensures Count(Without(s, x), y) == Count(s, y)
    decreases |s|
  {
    if s != [] {
      CountFront(s, y);
      WithoutCounts(s[1..], x, y);
      var r := Without(s, x);
      if s[0] != x {
        assert r[1..] == Without(s[1..], x);
        CountFront(r, y);
      }
    }
  }

  function Times(n: nat, c: real): real { n as real * c }

  lemma TimesSuc(n: nat, c: real)
    ensures Times(n + 1, c) == Times(n, c) + c && Times(0, c) == 0.0
  {
  }

  lemma {:induction false} SumSplits<T>(s: seq<T>, w: map<T, real>, x: T)
    requires x in w && forall y | y in s :: y in w
    ensures SumOver(s, w) == Times(Count(s, x), w[x]) + SumOver(Without(s, x), w)
    decreases |s|
  {
    if s == [] {
      TimesSuc(0, w[x]);
    } else {
      CountFront(s, x);
      SumSplits(s[1..], w, x);
      TimesSuc(Count(s[1..], x), w[x]);
      hide Count, Times;
      assert s[0] != x ==> Without(s, x)[1..] == Without(s[1..], x);
    }
  }

  /** Weights reciprocal to the counts sum to the number of different elements. */
  lemma {:induction false} ReciprocalsSum<T>(s: seq<T>, w: map<T, real>)
    requires forall x | x in s :: x in w && Times(Count(s, x), w[x]) == 1.0
    ensures SumOver(s, w) == |set x | x in s| as real
    decreases |s|
  {
    hide Times, Count;
    if s == [] {
      assert (set x | x in s) == {};
    } else {
      var x := s[0];
      var r := Without(s, x);
      SumSplits(s, w, x);
      forall y | y in r
        ensures Times(Count(r, y), w[y]) == 1.0
      {
        WithoutCounts(s, x, y);
      }
      ReciprocalsSum(r, w);
      hide SumOver, Without;
      assert (set y | y in s) == (set y | y in r) + {x};
    }
  }

  lemma {:induction false} TotalIsSum(votes: seq<nat>, w: map<nat, real>, fs: seq<Option<nat>>, fw: map<Option<nat>, real>)
    requires |fs| == |votes| && (forall v | v in votes :: v in w) && (forall f | f in fs :: f in fw)
    requires forall i | 0 <= i < |votes| :: w[votes[i]] == fw[fs[i]]
    ensures Total(WeightsOf(votes, w)) == SumOver(fs, fw)
    decreases |votes|
  {
    if votes != [] {
      assert WeightsOf(votes, w)[1..] == WeightsOf(votes[1..], w);
      TotalIsSum(votes[1..], w, fs[1..], fw);
    }
  }

  lemma WeighsTimes(n: nat)
    requires n > 0
    ensures Times(n, 1.0 / n as real) == 1.0
  {
  }

  /** Whatever the votes and the seats, the lineage weights of the votes sum to the number of voting families,
      the figure the quorum rule counts. */
  lemma WeightsSumToFamilies(votes: seq<nat>, seats: seq<Seat>, w: map<nat, real>)
    requires forall v | v in votes :: v in w && Weighs(Families(seats, votes), FamilyOf(seats, v), w[v])
    ensures Total(WeightsOf(votes, w)) == |set f | f in Families(seats, votes)| as real
  {
    var fs := Families(seats, votes);
    forall f | f in fs
      ensures Count(fs, f) > 0 && Times(Count(fs, f), 1.0 / Count(fs, f) as real) == 1.0
    {
      CountPositive(fs, f);
      WeighsTimes(Count(fs, f));
    }
    var fw := map f | f in fs :: 1.0 / Count(fs, f) as real;
    assert forall i | 0 <= i < |votes| :: votes[i] in votes && w[votes[i]] == fw[fs[i]];
    hide *;
    TotalIsSum(votes, w, fs, fw);
    ReciprocalsSum(fs, fw);
  }
}
