// The adaptive concurrency limiter: admission by an atomic counter, and the AIMD rule that moves the limit.
module AdaptiveLimiting {
  import opened Sets

  const MINUTE := 60_000_000_000

  // ---- The limit ----

  // `baseline` is 0 until a first measurement. Durations are integer nanoseconds; each conversion back from the
  // float arithmetic truncates.
  datatype Tuning = Tuning(maxConcurrency: int, baseline: nat, ewma: nat, lastDecay: int)

  function Smoothed(ewma: nat, rtt: nat): nat {
    (9 * ewma + rtt) / 10
  }

  predicate BelowThreshold(ewma: nat, baseline: nat) {
    2 * ewma < 3 * baseline
  }

  function Lowered(limit: int): int {
    if 4 * limit < 5 then 1 else 4 * limit / 5
  }

  predicate Decays(t: Tuning, now: int) {
    t.baseline != 0 && now - t.lastDecay > MINUTE
  }

  // What one measured round trip does.
  function Updated(t: Tuning, rtt: nat, now: int): Tuning {
    if t.baseline == 0 then t.(baseline := rtt, ewma := rtt)
    else
      var decayed := if Decays(t, now) then t.baseline * 105 / 100 else t.baseline;
      var baseline := if rtt < decayed then rtt else decayed;
      var ewma := Smoothed(t.ewma, rtt);
      Tuning(if BelowThreshold(ewma, baseline) then t.maxConcurrency + 1 else Lowered(t.maxConcurrency),
             baseline, ewma, if Decays(t, now) then now else t.lastDecay)
  }

  function NewTuning(now: int): Tuning {
    Tuning(10, 0, 0, now)
  }

  class AdaptiveLimiter {
    var currentConcurrency: int
    var maxConcurrency: int
    var minBaselineRTT: nat
    var rttEWMA: nat
    var lastDecayUpdate: int

    function View(): Tuning
      reads this
    {
      Tuning(maxConcurrency, minBaselineRTT, rttEWMA, lastDecayUpdate)
    }

    constructor (now: int)
      ensures View() == NewTuning(now) && currentConcurrency == 0
    {
      currentConcurrency, maxConcurrency := 0, 10;
      minBaselineRTT, rttEWMA, lastDecayUpdate := 0, 0, now;
    }

    method Update(rtt: nat, now: int)
      modifies this`maxConcurrency, this`minBaselineRTT, this`rttEWMA, this`lastDecayUpdate
      ensures View() == Updated(old(View()), rtt, now)
    {
      if minBaselineRTT == 0 {
        minBaselineRTT, rttEWMA := rtt, rtt;
        return;
      }
      if now - lastDecayUpdate > MINUTE {
        minBaselineRTT := minBaselineRTT * 105 / 100;
        lastDecayUpdate := now;
      }
      if rtt < minBaselineRTT {
        minBaselineRTT := rtt;
      }
      rttEWMA := Smoothed(rttEWMA, rtt);
      if BelowThreshold(rttEWMA, minBaselineRTT) {
        maxConcurrency := maxConcurrency + 1;
      } else {
        var newMax := maxConcurrency as real * 0.8;
        if newMax < 1.0 {
          newMax := 1.0;
        }
        TruncatedProduct(maxConcurrency);
        maxConcurrency := newMax.Floor;
      }
    }

    // A call no other overlaps: the counter goes up and comes down again on every path.
    method Execute(rtt: nat, now: int) returns (admitted: bool)
      modifies this
      ensures currentConcurrency == old(currentConcurrency)
      ensures admitted <==> old(currentConcurrency) < old(maxConcurrency)
      ensures View() == if admitted then Updated(old(View()), rtt, now) else old(View())
    {
      currentConcurrency := currentConcurrency + 1;
      var current := currentConcurrency;
      if current > maxConcurrency {
        currentConcurrency := currentConcurrency - 1;
        return false;
      }
      Update(rtt, now);
      currentConcurrency := currentConcurrency - 1;
      return true;
    }
  }

  // Four fifths, truncated, and never below one.
  lemma TruncatedProduct(limit: int)
    ensures var x := limit as real * 0.8;
            (if x < 1.0 then 1.0 else x).Floor == Lowered(limit)
  {
    var x := limit as real * 0.8;
    assert x * 5.0 == (4 * limit) as real;
    var q := 4 * limit / 5;
    assert 5 * q <= 4 * limit < 5 * q + 5;
    assert q as real <= x < q as real + 1.0;
  }

  // ---- Invariants of the rule ----

  lemma LimitStaysPositive(t: Tuning, rtt: nat, now: int)
    requires t.maxConcurrency >= 1
    ensures Updated(t, rtt, now).maxConcurrency >= 1
  {
  }

  predicate Ordered(t: Tuning) {
    t.ewma >= t.baseline
  }

  function DecayedBaseline(t: Tuning, now: int): nat {
    if Decays(t, now) then t.baseline * 105 / 100 else t.baseline
  }

  // What can be checked before an update: it is the first one, or its round trip is no longer than the smoothed one, or
  // the smoothed one it leads to reaches the (possibly decayed) baseline.
  predicate Orders(t: Tuning, rtt: nat, now: int) {
    t.baseline == 0 || rtt <= t.ewma || 9 * t.ewma + rtt >= 10 * DecayedBaseline(t, now)
  }

  // Exactly then the smoothed round trip is at least the baseline afterwards, whatever it was before.
  lemma OrderedIff(t: Tuning, rtt: nat, now: int)
    ensures Ordered(Updated(t, rtt, now)) <==> Orders(t, rtt, now)
  {
  }

  // Once so, only a decay can undo it.
  lemma OrderIsKept(t: Tuning, rtt: nat, now: int)
    requires Ordered(t) && !Decays(t, now)
    ensures Ordered(Updated(t, rtt, now))
  {
  }

  // The integer forms are the float expressions, truncated; a decay is due after more than a minute.
  lemma FloatForms(t: Tuning, rtt: nat, now: int)
    ensures Smoothed(t.ewma, rtt) == (0.9 * t.ewma as real + 0.1 * rtt as real).Floor
    ensures DecayedBaseline(t, now) == if t.baseline != 0 && now - t.lastDecay > 60_000_000_000
                                       then (t.baseline as real * 1.05).Floor else t.baseline
    ensures var u := Updated(t, rtt, now);
            && (t.baseline != 0 ==> u.ewma == Smoothed(t.ewma, rtt))
            && (t.baseline != 0 ==> u.baseline <= rtt && u.baseline <= DecayedBaseline(t, now)
                                    && (u.baseline == rtt || u.baseline == DecayedBaseline(t, now)))
            && u.lastDecay == if DecayedBaseline(t, now) != t.baseline || Decays(t, now) then now else t.lastDecay
  {
    FloorOfQuotient(9 * t.ewma + rtt, 10);
    assert 0.9 * t.ewma as real + 0.1 * rtt as real == (9 * t.ewma + rtt) as real / 10.0;
    FloorOfQuotient(t.baseline * 105, 100);
    assert t.baseline as real * 1.05 == (t.baseline * 105) as real / 100.0;
  }

  lemma FloorOfQuotient(a: nat, b: nat)
    requires b == 10 || b == 100
    ensures (a as real / b as real).Floor == a / b
  {
    var q := a / b;
    assert b * q <= a < b * q + b;
    assert q as real <= a as real / b as real < q as real + 1.0;
  }

  // ---- Which way the limit moves ----

  // After the first measurement, at every limit: a smoothed round trip below 1.5 times the baseline raises the limit by
  // exactly one, any other lowers it to four fifths, rounded down, but not below one.
  lemma LimitMoves(t: Tuning, rtt: nat, now: int)
    requires t.maxConcurrency >= 1
    ensures var u := Updated(t, rtt, now);
            && (t.baseline == 0 ==> u.maxConcurrency == t.maxConcurrency && u.baseline == rtt == u.ewma)
            && (t.baseline != 0 && u.ewma as real < u.baseline as real * 1.5 ==>
                  u.maxConcurrency == t.maxConcurrency + 1)
            && (t.baseline != 0 && u.ewma as real >= u.baseline as real * 1.5 ==>
                  1 <= u.maxConcurrency <= t.maxConcurrency
                  && (u.maxConcurrency == 1 || 5 * u.maxConcurrency <= 4 * t.maxConcurrency < 5 * u.maxConcurrency + 5))
  {
    assert forall e: nat, b: nat :: BelowThreshold(e, b) <==> e as real < b as real * 1.5;
  }

  // A steady round trip at the baseline opens the limit: n updates raise it by exactly n, decays or not.
  lemma {:induction false} SteadySpeedOpensTheLimit(t: Tuning, clock: nat -> int, n: nat)
    requires t.baseline > 0 && BelowThreshold(t.ewma, t.baseline)
    ensures var u := Steady(t, t.baseline, clock, n);
            && u.maxConcurrency == t.maxConcurrency + n
            && u.baseline == t.baseline && BelowThreshold(u.ewma, u.baseline)
  {
    if n > 0 {
      SteadySpeedOpensTheLimit(t, clock, n - 1);
      FastStep(Steady(t, t.baseline, clock, n - 1), clock(n - 1));
      hide Updated, BelowThreshold;
    }
  }

  lemma FastStep(t: Tuning, now: int)
    requires t.baseline > 0 && BelowThreshold(t.ewma, t.baseline)
    ensures var u := Updated(t, t.baseline, now);
            && u.maxConcurrency == t.maxConcurrency + 1
            && u.baseline == t.baseline && BelowThreshold(u.ewma, u.baseline)
  {
  }

  // ---- A steadily slow service drives the limit down to one ----

  // n updates with one and the same round trip, the i-th at clock(i).
  function Steady(t: Tuning, rtt: nat, clock: nat -> int, n: nat): Tuning {
    if n == 0 then t else Updated(Steady(t, rtt, clock, n - 1), rtt, clock(n - 1))
  }

  // Slow means at least twice the baseline; below 20ns truncation could eat the increase.
  predicate Slow(t: Tuning, rtt: nat) {
    20 <= t.baseline && rtt >= 2 * t.baseline && t.ewma >= t.baseline && t.maxConcurrency >= 1
  }

  // No update happens late enough to let the baseline decay.
  ghost predicate NoDecay(t: Tuning, clock: nat -> int) {
    forall i :: clock(i) - t.lastDecay <= MINUTE
  }

  lemma SlowStep(t: Tuning, rtt: nat, now: int)
    requires Slow(t, rtt) && now - t.lastDecay <= MINUTE
    ensures var u := Updated(t, rtt, now);
            && Slow(u, rtt) && u.baseline == t.baseline && u.lastDecay == t.lastDecay
            && (BelowThreshold(t.ewma, t.baseline) ==> u.ewma >= t.ewma + 1)
            && (!BelowThreshold(t.ewma, t.baseline) ==> !BelowThreshold(u.ewma, u.baseline))
            && u.maxConcurrency <= t.maxConcurrency + 1
            && (!BelowThreshold(u.ewma, u.baseline) ==>
                  u.maxConcurrency == Lowered(t.maxConcurrency)
                  && (t.maxConcurrency > 1 ==> u.maxConcurrency < t.maxConcurrency)
                  && (t.maxConcurrency == 1 ==> u.maxConcurrency == 1))
  {
  }

  lemma {:induction false} StaysSlow(t: Tuning, rtt: nat, clock: nat -> int, n: nat)
    requires Slow(t, rtt) && NoDecay(t, clock)
    ensures var u := Steady(t, rtt, clock, n);
            && Slow(u, rtt) && u.baseline == t.baseline && u.lastDecay == t.lastDecay
            && u.maxConcurrency <= t.maxConcurrency + n
  {
    if n > 0 {
      StaysSlow(t, rtt, clock, n - 1);
      SlowStep(Steady(t, rtt, clock, n - 1), rtt, clock(n - 1));
      hide Updated;
    }
  }

  // The smoothed value climbs past 1.5 times the baseline within that many steps, and stays there.
  lemma {:induction false} EwmaRises(t: Tuning, rtt: nat, clock: nat -> int, n: nat)
    requires Slow(t, rtt) && NoDecay(t, clock)
    ensures var u := Steady(t, rtt, clock, n); u.ewma >= t.ewma + n || !BelowThreshold(u.ewma, u.baseline)
  {
    if n > 0 {
      EwmaRises(t, rtt, clock, n - 1);
      StaysSlow(t, rtt, clock, n - 1);
      SlowStep(Steady(t, rtt, clock, n - 1), rtt, clock(n - 1));
      hide Updated;
    }
  }

  // One step above the threshold, n steps after a limit of `top`.
  lemma OneFall(u: Tuning, rtt: nat, now: int, top: int, n: nat)
    requires Slow(u, rtt) && now - u.lastDecay <= MINUTE && !BelowThreshold(u.ewma, u.baseline)
    requires u.maxConcurrency == 1 || u.maxConcurrency + n <= top
    ensures var v := Updated(u, rtt, now);
            !BelowThreshold(v.ewma, v.baseline) && (v.maxConcurrency == 1 || v.maxConcurrency + n + 1 <= top)
  {
    SlowStep(u, rtt, now);
    hide Updated, Lowered, BelowThreshold;
  }

  // Once above, each further step strictly lowers the limit until it is one.
  lemma {:induction false} LimitFalls(t: Tuning, rtt: nat, clock: nat -> int, m: nat, n: nat)
    requires Slow(t, rtt) && NoDecay(t, clock)
    requires var top := Steady(t, rtt, clock, m); !BelowThreshold(top.ewma, top.baseline)
    ensures var u := Steady(t, rtt, clock, m + n);
            && !BelowThreshold(u.ewma, u.baseline)
            && (u.maxConcurrency == 1 || u.maxConcurrency + n <= Steady(t, rtt, clock, m).maxConcurrency)
  {
    hide Updated, Slow, BelowThreshold;
    if n > 0 {
      var before := m + n - 1;
      LimitFalls(t, rtt, clock, m, n - 1);
      StaysSlow(t, rtt, clock, before);
      assert clock(before) - t.lastDecay <= MINUTE;
      hide NoDecay;
      OneFall(Steady(t, rtt, clock, before), rtt, clock(before), Steady(t, rtt, clock, m).maxConcurrency, n - 1);
      SteadyStep(t, rtt, clock, before);
      hide Steady;
    }
  }

  lemma SteadyStep(t: Tuning, rtt: nat, clock: nat -> int, n: nat)
    ensures Steady(t, rtt, clock, n + 1) == Updated(Steady(t, rtt, clock, n), rtt, clock(n))
  {
    hide Updated;
  }

  // Steps until the limit is certainly one: the climb, then the descent from wherever the climb left it.
  function Horizon(t: Tuning): int {
    2 * t.baseline + (t.maxConcurrency + 2 * t.baseline)
  }

  // With a constant round trip of at least twice the baseline and no decay, the limit is one after Horizon(t) updates
  // and for ever after.
  lemma SteadySlownessClosesTheLimit(t: Tuning, rtt: nat, clock: nat -> int, n: nat)
    requires Slow(t, rtt) && NoDecay(t, clock) && n >= Horizon(t)
    ensures Steady(t, rtt, clock, n).maxConcurrency == 1
    ensures !BelowThreshold(Steady(t, rtt, clock, n).ewma, t.baseline)
  {
    var climb := 2 * t.baseline;
    EwmaRises(t, rtt, clock, climb);
    StaysSlow(t, rtt, clock, climb);
    StaysSlow(t, rtt, clock, n);
    hide Steady;
    var top := Steady(t, rtt, clock, climb);
    assert !BelowThreshold(top.ewma, top.baseline);
    LimitFalls(t, rtt, clock, climb, n - climb);
  }

  // ---- Admission under interleaving ----

  // A caller between its increment and its decrement: it has yet to check the limit, or runs its action, or is on its
  // way out. The ticket is the value its increment returned.
  datatype Phase = Waiting | Active | Leaving

  datatype Caller = Caller(ticket: int, phase: Phase)

  // `peak` is the highest limit published so far.
  datatype Sys = Sys(tuning: Tuning, counter: int, callers: map<nat, Caller>, nextId: nat, peak: int)

  datatype Step =
    | Increment
    | Check(id: nat)
    | Finish(id: nat, rtt: nat, now: int)
    | Decrement(id: nat)

  // Check loads the limit and lets the caller run if its ticket fits; a caller leaves by decrementing, after its
  // action and update or after being refused.
  function Apply(s: Sys, step: Step): Sys {
    match step
    case Increment =>
      s.(counter := s.counter + 1, nextId := s.nextId + 1,
         callers := s.callers[s.nextId := Caller(s.counter + 1, Waiting)])
    case Check(id) =>
      if id in s.callers && s.callers[id].phase == Waiting then
        MoveTo(s, id, if s.callers[id].ticket <= s.tuning.maxConcurrency then Active else Leaving)
      else s
    case Finish(id, rtt, now) =>
      if Finishes(s, step) then
        var t := Updated(s.tuning, rtt, now);
        MoveTo(s, id, Leaving).(tuning := t, peak := if t.maxConcurrency > s.peak then t.maxConcurrency else s.peak)
      else s
    case Decrement(id) =>
      if id in s.callers && s.callers[id].phase == Leaving
      then s.(counter := s.counter - 1, callers := s.callers - {id}) else s
  }

  function MoveTo(s: Sys, id: nat, phase: Phase): Sys
    requires id in s.callers
  {
    s.(callers := s.callers[id := s.callers[id].(phase := phase)])
  }

  // The steps that update the limit.
  predicate Finishes(s: Sys, step: Step) {
    step.Finish? && step.id in s.callers && s.callers[step.id].phase == Active
  }

  function Init(now: int): Sys {
    Sys(NewTuning(now), 0, map[], 0, 10)
  }

  function Exec(now: int, steps: seq<Step>): Sys {
    if steps == [] then Init(now) else Apply(Exec(now, steps[..|steps| - 1]), steps[|steps| - 1])
  }

  // A waiting caller is let in exactly if its ticket fits the limit of that moment.
  lemma CheckedIff(s: Sys, id: nat)
    requires id in s.callers && s.callers[id].phase == Waiting
    ensures var r := Apply(s, Check(id));
            && id in r.callers && r.callers[id].ticket == s.callers[id].ticket
            && (r.callers[id].phase == Active <==> s.callers[id].ticket <= s.tuning.maxConcurrency)
            && (r.callers[id].phase == Leaving <==> s.callers[id].ticket > s.tuning.maxConcurrency)
  {
  }

  // A new caller's ticket is one more than the callers present.
  lemma TicketsCount(now: int, steps: seq<Step>)
    ensures var s := Exec(now, steps);
            var r := Apply(s, Increment);
            && s.nextId !in s.callers && r.callers == s.callers[s.nextId := Caller(|s.callers| + 1, Waiting)]
            && r.counter == |r.callers|
  {
    Reachable(now, steps);
    hide Exec;
    IncrementInv(Exec(now, steps));
  }

  // The callers holding a ticket up to k.
  function Holding(s: Sys, k: int): set<nat> {
    set id | id in s.callers && s.callers[id].ticket <= k
  }

  function Running(s: Sys): set<nat> {
    set id | id in s.callers && s.callers[id].phase == Active
  }

  ghost predicate Inv(s: Sys) {
    && s.counter == |s.callers|
    && (forall id | id in s.callers :: id < s.nextId)
    && (forall k: nat :: |Holding(s, k)| <= k)
    && 1 <= s.tuning.maxConcurrency <= s.peak
    && (forall id | id in s.callers && s.callers[id].phase == Active :: s.callers[id].ticket <= s.peak)
  }

  lemma HoldingAtMostAll(s: Sys, k: int)
    ensures |Holding(s, k)| <= |s.callers|
  {
    SubsetSize(Holding(s, k), s.callers.Keys);
  }

  lemma IncrementInv(s: Sys)
    requires Inv(s)
    ensures Inv(Apply(s, Increment))
  {
    var r := Apply(s, Increment);
    assert s.nextId !in s.callers;
    forall k: nat
      ensures |Holding(r, k)| <= k
    {
      if s.counter + 1 <= k {
        HoldingAtMostAll(r, k);
      } else {
        assert Holding(r, k) == Holding(s, k);
      }
    }
  }

  // Changes that keep tickets and callers where they are.
  lemma SameTickets(s: Sys, r: Sys)
    requires Inv(s) && r.callers.Keys == s.callers.Keys && r.counter == s.counter && r.nextId == s.nextId
    requires forall id | id in s.callers :: r.callers[id].ticket == s.callers[id].ticket
    requires 1 <= r.tuning.maxConcurrency <= r.peak
    requires forall id | id in r.callers && r.callers[id].phase == Active :: r.callers[id].ticket <= r.peak
    ensures Inv(r)
  {
    assert |r.callers| == |r.callers.Keys| == |s.callers.Keys| == |s.callers|;
    forall k: nat
      ensures |Holding(r, k)| <= k
    {
      assert Holding(r, k) == Holding(s, k);
    }
  }

  lemma DecrementInv(s: Sys, id: nat)
    requires Inv(s)
    ensures Inv(Apply(s, Decrement(id)))
  {
    var r := Apply(s, Decrement(id));
    if id in s.callers && s.callers[id].phase == Leaving {
      assert r.callers.Keys == s.callers.Keys - {id};
      assert |r.callers| == |r.callers.Keys| && |s.callers| == |s.callers.Keys|;
      forall k: nat
        ensures |Holding(r, k)| <= k
      {
        SubsetSize(Holding(r, k), Holding(s, k));
      }
    }
  }

  lemma StepInv(s: Sys, step: Step)
    requires Inv(s)
    ensures Inv(Apply(s, step))
  {
    match step
    case Increment => IncrementInv(s);
    case Check(id) => SameTickets(s, Apply(s, step));
    case Finish(id, rtt, now) =>
      LimitStaysPositive(s.tuning, rtt, now);
      hide Updated;
      SameTickets(s, Apply(s, step));
    case Decrement(id) => DecrementInv(s, id);
  }

  lemma {:induction false} Reachable(now: int, steps: seq<Step>)
    ensures Inv(Exec(now, steps))
  {
    if steps == [] {
      forall k: nat
        ensures Holding(Init(now), k) == {}
      {
      }
    } else {
      Reachable(now, steps[..|steps| - 1]);
      StepInv(Exec(now, steps[..|steps| - 1]), steps[|steps| - 1]);
      hide Apply;
    }
  }

  // Under every interleaving of increments, checks, updates and decrements, the running actions never exceed the
  // highest limit ever published, and the limit never falls below one.
  lemma RunningWithinPeak(now: int, steps: seq<Step>)
    ensures var s := Exec(now, steps);
            && |Running(s)| <= s.peak
            && s.tuning.maxConcurrency >= 1
  {
    Reachable(now, steps);
    var s := Exec(now, steps);
    assert |Holding(s, s.peak)| <= s.peak;
    SubsetSize(Running(s), Holding(s, s.peak));
    hide Exec;
  }

  // ---- The order of the smoothed round trip and the baseline, over runs ----

  // A step that does not update leaves the order as it was; one that does sets it by its condition alone.
  lemma OrderedStep(s: Sys, step: Step)
    ensures Ordered(Apply(s, step).tuning) <==>
            if Finishes(s, step) then Orders(s.tuning, step.rtt, step.now) else Ordered(s.tuning)
  {
    if Finishes(s, step) {
      OrderedIff(s.tuning, step.rtt, step.now);
    }
    hide Updated, Orders, Ordered;
  }

  // Where the last update of a run stands, if there was one.
  function LastUpdate(now: int, steps: seq<Step>): (n: nat)
    ensures n <= |steps|
  {
    if steps == [] then 0
    else
      var last := |steps| - 1;
      if Finishes(Exec(now, steps[..last]), steps[last]) then last + 1 else LastUpdate(now, steps[..last])
  }

  // In every reachable state the smoothed round trip is at least the baseline if and only if there was no update yet or
  // the last one met the condition: the order is regained at the first update that meets it.
  lemma {:induction false} OrderedExactly(now: int, steps: seq<Step>)
    ensures var n := LastUpdate(now, steps);
            && (n > 0 ==> Finishes(Exec(now, steps[..n - 1]), steps[n - 1]))
            && (Ordered(Exec(now, steps).tuning) <==>
                n == 0 || Orders(Exec(now, steps[..n - 1]).tuning, steps[n - 1].rtt, steps[n - 1].now))
  {
    if steps != [] {
      var last := |steps| - 1;
      OrderedStep(Exec(now, steps[..last]), steps[last]);
      OrderedExactly(now, steps[..last]);
      var n := LastUpdate(now, steps);
      if n <= last && n > 0 {
        assert steps[..last][..n - 1] == steps[..n - 1];
      }
      hide Apply, Orders, Ordered, Finishes;
    }
  }

  // No update from the n-th step on comes late enough to decay the baseline.
  predicate DecayFree(now: int, steps: seq<Step>, n: nat) {
    forall m | n <= m < |steps| ::
      steps[m].Finish? ==> !Decays(Exec(now, steps[..m]).tuning, steps[m].now)
  }

  // Wherever in a run the order holds, it holds until the next decay; it holds at the start.
  lemma {:induction false} OrderedUntilDecay(now: int, steps: seq<Step>, n: nat)
    requires n <= |steps| && Ordered(Exec(now, steps[..n]).tuning) && DecayFree(now, steps, n)
    ensures Ordered(Exec(now, steps).tuning)
    ensures Ordered(Init(now).tuning)
    decreases |steps|
  {
    if n == |steps| {
      assert steps[..n] == steps;
    } else {
      var last := |steps| - 1;
      var less := steps[..last];
      assert less[..n] == steps[..n];
      assert forall m | n <= m < last :: less[..m] == steps[..m] && less[m] == steps[m];
      OrderedUntilDecay(now, less, n);
      var s := Exec(now, less);
      OrderedStep(s, steps[last]);
      if Finishes(s, steps[last]) {
        OrderIsKept(s.tuning, steps[last].rtt, steps[last].now);
        OrderedIff(s.tuning, steps[last].rtt, steps[last].now);
      }
      hide Apply, Updated, Orders, Ordered, Decays, Exec;
    }
  }

  // A decay does undo it: two calls a minute apart, of 100 and 105ns, leave 100 below a baseline of 105.
  lemma DecayInverts()
    ensures var steps := [Increment, Check(0), Finish(0, 100, 0), Decrement(0),
                          Increment, Check(1), Finish(1, 105, MINUTE + 1)];
            Exec(0, steps).tuning == Tuning(11, 105, 100, MINUTE + 1)
  {
    var a := RunMore([], Increment);
    var b := RunMore(a, Check(0));
    assert Exec(0, b) == Sys(NewTuning(0), 1, map[0 := Caller(1, Active)], 1, 10);
    var c := RunMore(b, Finish(0, 100, 0));
    var d := RunMore(c, Decrement(0));
    assert Exec(0, d) == Sys(Tuning(10, 100, 100, 0), 0, map[], 1, 10);
    SecondCall(d);
    assert d + [Increment, Check(1), Finish(1, 105, MINUTE + 1)]
        == [Increment, Check(0), Finish(0, 100, 0), Decrement(0), Increment, Check(1), Finish(1, 105, MINUTE + 1)];
  }

  lemma SecondCall(d: seq<Step>)
    requires Exec(0, d) == Sys(Tuning(10, 100, 100, 0), 0, map[], 1, 10)
    ensures Exec(0, d + [Increment, Check(1), Finish(1, 105, MINUTE + 1)]).tuning == Tuning(11, 105, 100, MINUTE + 1)
  {
    var e := RunMore(d, Increment);
    var f := RunMore(e, Check(1));
    assert Exec(0, f) == Sys(Tuning(10, 100, 100, 0), 1, map[1 := Caller(1, Active)], 2, 10);
    var g := RunMore(f, Finish(1, 105, MINUTE + 1));
    assert g == d + [Increment, Check(1), Finish(1, 105, MINUTE + 1)];
  }

  lemma RunMore(steps: seq<Step>, step: Step) returns (more: seq<Step>)
    ensures more == steps + [step] && Exec(0, more) == Apply(Exec(0, steps), step)
  {
    more := steps + [step];
    assert more[..|steps|] == steps;
  }
}
