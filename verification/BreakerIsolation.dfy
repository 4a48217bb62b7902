// When overlapping calls cross Half-Open episodes: exactly when a late probe can count, and exactly when late probes
// alone can close an Open breaker.
module BreakerIsolation {
  import opened Outcomes
  import opened Circuit
  import opened BreakerProtocol

  // The probes still running, of whatever episode.
  function Probes(s: Sys): set<nat> {
    set id | id in s.inFlight && s.inFlight[id].captured == HalfOpen
  }

  predicate IsStale(s: Sys, id: nat) {
    id in Probes(s) && s.inFlight[id].episode != Episodes(s.log)
  }

  // A probe of an earlier episode is still running.
  ghost predicate HasStale(s: Sys) {
    exists id :: IsStale(s, id)
  }

  // ---- Credit to a later episode ----

  // What an attempt to start does to the log and to the running calls.
  lemma BeginIs(cfg: Config, s: Sys, d: nat) returns (log: seq<Event>, call: Call, started: bool)
    requires Normal(cfg) && Fits(cfg, s.core.window)
    ensures log == (if TimedOut(cfg, s.core, s.now + d) then s.log + [EnteredHalfOpen] else s.log)
    ensures call.episode == Episodes(log)
    ensures var r := Apply(cfg, s, Begin(d));
            && r.log == (if started then log + [Began(|log|, call)] else log)
            && r.inFlight == (if started then s.inFlight[|log| := call] else s.inFlight)
  {
    log := if TimedOut(cfg, s.core, s.now + d) then s.log + [EnteredHalfOpen] else s.log;
    var (c, admitted) := Admit(cfg, s.core, s.now + d);
    call, started := Call(c.state, Episodes(log)), admitted;
    hide Admit, Episodes, Fits, Normal, TimedOut;
  }

  lemma EpisodesOnlyGrow(cfg: Config, s: Sys, step: Step)
    requires Normal(cfg) && Fits(cfg, s.core.window)
    ensures Episodes(Apply(cfg, s, step).log) >= Episodes(s.log)
    ensures Episodes(Apply(cfg, s, step).log) == Episodes(s.log) ==>
              (step.Begin? || step.Query? ==> !TimedOut(cfg, s.core, s.now + step.delay))
  {
    match step
    case Begin(d) =>
      hide Apply, Fits, Normal, Admit, Episodes, Late, Credited;
      var log, call, started := BeginIs(cfg, s, d);
      LogStep(s.log, EnteredHalfOpen);
      LogStep(log, Began(|log|, call));
    case Query(d) => LogStep(s.log, EnteredHalfOpen);
    case End(id, ok, _, _, _) => if id in s.inFlight { LogStep(s.log, Ended(id, s.inFlight[id], ok)); }
    case Reset => LogStep(s.log, WasReset);
  }

  // A report: the probe, if it is one, leaves, and is late if it is stale.
  lemma EndLeaves(cfg: Config, s: Sys, step: Step)
    requires Normal(cfg) && Fits(cfg, s.core.window) && step.End? && step.id in s.inFlight
    ensures var r := Apply(cfg, s, step);
            && r.inFlight == s.inFlight - {step.id}
            && Probes(r) == Probes(s) - {step.id}
            && Episodes(r.log) == Episodes(s.log)
            && Late(r.log) == Late(s.log) + (if IsStale(s, step.id) then 1 else 0)
  {
    LogStep(s.log, Ended(step.id, s.inFlight[step.id], step.ok));
    hide Report, Fits, Normal;
  }

  // Any other step starts at most a probe of the current episode.
  predicate StaysOrStarts(s: Sys, r: Sys) {
    && (Episodes(r.log) == Episodes(s.log) ==> Late(r.log) == Late(s.log))
    && (Episodes(r.log) > Episodes(s.log) ==> Late(r.log) == 0)
    && (forall id | id in r.inFlight ::
          (id in s.inFlight && r.inFlight[id] == s.inFlight[id]) || r.inFlight[id].episode == Episodes(r.log))
  }

  lemma BeginStarts(cfg: Config, s: Sys, d: nat)
    requires Normal(cfg) && Fits(cfg, s.core.window)
    ensures StaysOrStarts(s, Apply(cfg, s, Begin(d)))
  {
    hide Apply, Fits, Normal, Admit, Episodes, Late, Credited, TimedOut;
    var log, call, started := BeginIs(cfg, s, d);
    LogStep(s.log, EnteredHalfOpen);
    LogStep(log, Began(|log|, call));
  }

  lemma OthersStay(cfg: Config, s: Sys, step: Step)
    requires Normal(cfg) && Fits(cfg, s.core.window) && !(step.End? && step.id in s.inFlight)
    ensures StaysOrStarts(s, Apply(cfg, s, step))
  {
    match step
    case Begin(d) => BeginStarts(cfg, s, d);
    case Query(d) => LogStep(s.log, EnteredHalfOpen);
    case End(_, _, _, _, _) =>
    case Reset => LogStep(s.log, WasReset);
  }

  // Without stale probes, nothing more is credited late before the next episode.
  lemma IsolationStep(cfg: Config, s: Sys, step: Step)
    requires Normal(cfg) && Fits(cfg, s.core.window) && !HasStale(s)
    requires Episodes(Apply(cfg, s, step).log) == Episodes(s.log) || Probes(s) == {}
    ensures !HasStale(Apply(cfg, s, step))
    ensures var r := Apply(cfg, s, step); Late(r.log) == if Episodes(r.log) == Episodes(s.log) then Late(s.log) else 0
  {
    EpisodesOnlyGrow(cfg, s, step);
    var r := Apply(cfg, s, step);
    if step.End? && step.id in s.inFlight {
      EndLeaves(cfg, s, step);
      hide Apply;
      forall id
        ensures !IsStale(r, id)
      {
        assert !IsStale(s, id);
      }
    } else {
      OthersStay(cfg, s, step);
      hide Apply, Late, Episodes;
      forall id
        ensures !IsStale(r, id)
      {
        assert !IsStale(s, id);
      }
    }
  }

  // The run `steps` goes on with `more`.
  function Later(cfg: Config, steps: seq<Step>, more: seq<Step>): (s: Sys)
    requires Normal(cfg)
    ensures Fits(cfg, s.core.window)
  {
    Exec(cfg, steps + more)
  }

  lemma LaterStep(cfg: Config, steps: seq<Step>, more: seq<Step>)
    requires Normal(cfg) && more != []
    ensures var n := |more| - 1;
            Later(cfg, steps, more) == Apply(cfg, Later(cfg, steps, more[..n]), more[n])
  {
    var n := |more| - 1;
    assert (steps + more)[..|steps + more| - 1] == steps + more[..n];
    hide Apply;
  }

  lemma LaterNow(cfg: Config, steps: seq<Step>)
    requires Normal(cfg)
    ensures Later(cfg, steps, []) == Exec(cfg, steps)
  {
    assert steps + [] == steps;
  }

  lemma {:induction false} LaterEpisodes(cfg: Config, steps: seq<Step>, more: seq<Step>)
    requires Normal(cfg)
    ensures Episodes(Later(cfg, steps, more).log) >= Episodes(Exec(cfg, steps).log)
  {
    if more == [] {
      LaterNow(cfg, steps);
    } else {
      var less := more[..|more| - 1];
      LaterEpisodes(cfg, steps, less);
      LaterStep(cfg, steps, more);
      EpisodesOnlyGrow(cfg, Later(cfg, steps, less), more[|more| - 1]);
      hide Apply, Later, Exec;
    }
  }

  lemma {:induction false} StaysIsolated(cfg: Config, steps: seq<Step>, more: seq<Step>)
    requires Normal(cfg) && !HasStale(Exec(cfg, steps))
    requires Episodes(Later(cfg, steps, more).log) == Episodes(Exec(cfg, steps).log)
    ensures Late(Later(cfg, steps, more).log) == Late(Exec(cfg, steps).log) && !HasStale(Later(cfg, steps, more))
  {
    hide HasStale, Apply, Exec, Late, Episodes, Normal;
    if more == [] {
      LaterNow(cfg, steps);
    } else {
      hide Later;
      var less := more[..|more| - 1];
      LaterEpisodes(cfg, steps, less);
      LaterStep(cfg, steps, more);
      EpisodesOnlyGrow(cfg, Later(cfg, steps, less), more[|more| - 1]);
      StaysIsolated(cfg, steps, less);
      IsolationStep(cfg, Later(cfg, steps, less), more[|more| - 1]);
    }
  }

  // Something more is credited late before the next episode begins.
  ghost predicate CanCreditLate(cfg: Config, steps: seq<Step>)
    requires Normal(cfg)
  {
    exists more ::
      && Episodes(Later(cfg, steps, more).log) == Episodes(Exec(cfg, steps).log)
      && Late(Later(cfg, steps, more).log) > Late(Exec(cfg, steps).log)
  }

  // In every reachable state: the current episode can still be credited with a late probe if and only if a probe of an
  // earlier episode is running.
  lemma LateCreditIff(cfg: Config, steps: seq<Step>)
    requires Normal(cfg)
    ensures CanCreditLate(cfg, steps) <==> HasStale(Exec(cfg, steps))
  {
    var s := Exec(cfg, steps);
    hide Apply, Exec, Late, Episodes, Normal;
    if HasStale(s) {
      var id :| IsStale(s, id);
      var step := End(id, true, 0, 0, 0);
      EndLeaves(cfg, s, step);
      LaterNow(cfg, steps);
      LaterStep(cfg, steps, [step]);
      assert [step][..0] == [];
      hide Later;
      assert Late(Later(cfg, steps, [step]).log) > Late(s.log);
    } else {
      forall more | Episodes(Later(cfg, steps, more).log) == Episodes(s.log)
        ensures Late(Later(cfg, steps, more).log) == Late(s.log)
      {
        StaysIsolated(cfg, steps, more);
      }
    }
  }

  // Every episode was entered with no probe running.
  ghost predicate CleanEntries(cfg: Config, steps: seq<Step>)
    requires Normal(cfg)
  {
    forall n | 0 <= n < |steps| ::
      Episodes(Exec(cfg, steps[..n + 1]).log) > Episodes(Exec(cfg, steps[..n]).log) ==>
        Probes(Exec(cfg, steps[..n])) == {}
  }

  // Then every episode is decided by its own probes alone.
  lemma {:induction false} CleanEntriesIsolate(cfg: Config, steps: seq<Step>)
    requires Normal(cfg) && CleanEntries(cfg, steps)
    ensures var s := Exec(cfg, steps);
            && !HasStale(s) && Late(s.log) == 0
            && s.core.halfOpenCompleted == Reported(s.log, Episodes(s.log))
  {
    CreditIsOwnPlusLate(cfg, steps);
    if steps != [] {
      hide Apply, Late, Episodes, Normal, HasStale, Probes, Reported;
      var n := |steps| - 1;
      var less := steps[..n];
      assert steps[..n + 1] == steps;
      assert forall m | 0 <= m <= n :: less[..m] == steps[..m];
      assert Exec(cfg, steps) == Apply(cfg, Exec(cfg, less), steps[n]);
      hide Exec;
      CleanEntriesIsolate(cfg, less);
      EpisodesOnlyGrow(cfg, Exec(cfg, less), steps[n]);
      IsolationStep(cfg, Exec(cfg, less), steps[n]);
    }
  }

  // ---- From Open straight to Closed ----

  // What the running probes could still achieve if all of them succeed.
  predicate CanStillPass(cfg: Config, s: Sys) {
    var n := |Probes(s)|;
    && n > 0
    && s.core.halfOpenCompleted + n >= cfg.halfOpenMaxCalls
    && Rate(s.core.halfOpenFailures, s.core.halfOpenCompleted + n) < cfg.threshold
  }

  lemma RateMonotone(f: nat, g: nat, m: nat, n: nat)
    requires f <= g && 0 < m <= n
    ensures Rate(f, n) <= Rate(g, m)
  {
    var k := n as real;
    var x, y := f as real / k, g as real / m as real;
    assert x * k == f as real && y * m as real == g as real;
    assert y * (k - m as real) >= 0.0;
    assert (x - y) * k == x * k - y * k;
    SignOfProduct(x - y, k);
  }

  lemma SignOfProduct(d: real, k: real)
    requires k > 0.0
    ensures d * k > 0.0 <==> d > 0.0
  {
  }

  // One step of an Open breaker that neither resets it nor enters Half-Open.
  lemma OpenStep(cfg: Config, s: Sys, step: Step)
    requires Normal(cfg) && Fits(cfg, s.core.window) && s.core.state == Open && !step.Reset?
    requires Episodes(Apply(cfg, s, step).log) == Episodes(s.log)
    ensures var r := Apply(cfg, s, step);
            if step.End? && step.id in Probes(s) then
              && Probes(r) == Probes(s) - {step.id}
              && r.core.halfOpenCompleted == s.core.halfOpenCompleted + 1
              && r.core.halfOpenFailures == s.core.halfOpenFailures + (if step.ok then 0 else 1)
              && r.core.state == (if step.ok && DecidesPass(cfg, s.core) then Closed else Open)
            else
              && Probes(r) == Probes(s) && r.core.state == Open
              && r.core.halfOpenCompleted == s.core.halfOpenCompleted
              && r.core.halfOpenFailures == s.core.halfOpenFailures
  {
    EpisodesOnlyGrow(cfg, s, step);
    if step.End? && step.id in s.inFlight {
      EndLeaves(cfg, s, step);
      EndIsReport(cfg, s, step);
      ReportStep(cfg, s.core, s.inFlight[step.id].captured, step.ok, ReportTimes(s, step));
      hide Apply, Report, DecidesPass, Healthy, Fits, Episodes, Late;
    }
  }

  lemma OpenStepPasses(cfg: Config, s: Sys, step: Step)
    requires Normal(cfg) && Fits(cfg, s.core.window) && s.core.state == Open && !step.Reset?
    requires Episodes(Apply(cfg, s, step).log) == Episodes(s.log)
    ensures var r := Apply(cfg, s, step);
            && (r.core.state == Open || (r.core.state == Closed && CanStillPass(cfg, s)))
            && (CanStillPass(cfg, r) ==> CanStillPass(cfg, s))
            && (step.End? && step.id in Probes(s) && step.ok && CanStillPass(cfg, s) ==>
                  |Probes(r)| == |Probes(s)| - 1 && (r.core.state == Closed || CanStillPass(cfg, r)))
  {
    OpenStep(cfg, s, step);
    var r := Apply(cfg, s, step);
    hide Apply, Rate, Episodes, Fits;
    if step.End? && step.id in Probes(s) {
      var n := |Probes(s)|;
      assert |Probes(r)| == n - 1;
      var total := s.core.halfOpenCompleted + n;
      RateMonotone(s.core.halfOpenFailures, r.core.halfOpenFailures, total, total);
      RateMonotone(s.core.halfOpenFailures, s.core.halfOpenFailures, s.core.halfOpenCompleted + 1, total);
    }
    hide Probes;
  }

  predicate NoReset(more: seq<Step>) {
    forall i | 0 <= i < |more| :: !more[i].Reset?
  }

  // The run can go on to Closed with no reset and no Half-Open in between.
  ghost predicate ClosesDirectly(cfg: Config, steps: seq<Step>)
    requires Normal(cfg)
  {
    exists more ::
      && NoReset(more)
      && Episodes(Later(cfg, steps, more).log) == Episodes(Exec(cfg, steps).log)
      && Later(cfg, steps, more).core.state == Closed
  }

  lemma {:induction false} StaysOpen(cfg: Config, steps: seq<Step>, more: seq<Step>)
    requires Normal(cfg) && Exec(cfg, steps).core.state == Open && !CanStillPass(cfg, Exec(cfg, steps))
    requires NoReset(more) && Episodes(Later(cfg, steps, more).log) == Episodes(Exec(cfg, steps).log)
    ensures Later(cfg, steps, more).core.state == Open && !CanStillPass(cfg, Later(cfg, steps, more))
  {
    hide Apply, Exec, Episodes, Normal, CanStillPass;
    if more == [] {
      LaterNow(cfg, steps);
    } else {
      hide Later;
      var less := more[..|more| - 1];
      LaterEpisodes(cfg, steps, less);
      LaterStep(cfg, steps, more);
      EpisodesOnlyGrow(cfg, Later(cfg, steps, less), more[|more| - 1]);
      StaysOpen(cfg, steps, less);
      OpenStepPasses(cfg, Later(cfg, steps, less), more[|more| - 1]);
    }
  }

  // All running probes succeed one after another.
  lemma {:induction false} AllSucceed(cfg: Config, steps: seq<Step>, before: seq<Step>) returns (more: seq<Step>)
    requires Normal(cfg) && NoReset(before)
    requires var s := Later(cfg, steps, before);
             s.core.state == Open && CanStillPass(cfg, s) && Episodes(s.log) == Episodes(Exec(cfg, steps).log)
    ensures NoReset(more)
    ensures var r := Later(cfg, steps, more);
            r.core.state == Closed && Episodes(r.log) == Episodes(Exec(cfg, steps).log)
    decreases |Probes(Later(cfg, steps, before))|
  {
    var s := Later(cfg, steps, before);
    var id :| id in Probes(s);
    var step := End(id, true, 0, 0, 0);
    EndLeaves(cfg, s, step);
    OpenStepPasses(cfg, s, step);
    more := before + [step];
    assert more[..|more| - 1] == before;
    LaterStep(cfg, steps, more);
    hide Apply, Exec, Episodes, Normal, CanStillPass, Later, Probes;
    if Later(cfg, steps, more).core.state != Closed {
      more := AllSucceed(cfg, steps, more);
    }
  }

  // An Open breaker can become Closed with no reset and no Half-Open in between if and only if probes are still running
  // and, were all of them to succeed, they would complete the count below the threshold.
  lemma OpenClosesDirectlyIff(cfg: Config, steps: seq<Step>)
    requires Normal(cfg) && Exec(cfg, steps).core.state == Open
    ensures ClosesDirectly(cfg, steps) <==> CanStillPass(cfg, Exec(cfg, steps))
  {
    hide Apply, Exec, Episodes, Normal, CanStillPass;
    if CanStillPass(cfg, Exec(cfg, steps)) {
      LaterNow(cfg, steps);
      var more := AllSucceed(cfg, steps, []);
      assert ClosesDirectly(cfg, steps);
    } else {
      forall more | NoReset(more) && Episodes(Later(cfg, steps, more).log) == Episodes(Exec(cfg, steps).log)
        ensures Later(cfg, steps, more).core.state == Open
      {
        StaysOpen(cfg, steps, more);
      }
    }
  }

  // ---- Both happen ----

  // A window of one call, two probes an episode, threshold 60 percent.
  function TwoProbes(): Config {
    Config(CountBased, 1, 1, 60.0, 1, 1, 2)
  }

  // One failure opens the breaker; after the timeout two probes start, and the first of them fails.
  function OneProbeFails(): seq<Step> {
    [] + [Begin(0)] + [End(0, false, 0, 0, 0)] + [Begin(2)] + [Begin(0)] + [End(3, false, 0, 0, 0)]
  }

  lemma OneFailureTrips(cfg: Config, c: Core, at: Instants)
    requires cfg == TwoProbes() && c.state == Closed && Fits(cfg, c.window)
    ensures Report(cfg, c, Closed, false, at) == ToOpen(cfg, c, at.trip)
  {
    var recent := c.window.recent + [false];
    assert LastN(1, recent) == [false];
    FailuresOfOne(false);
  }

  lemma AfterFirstFailure() returns (s: Sys)
    ensures s == Exec(TwoProbes(), [] + [Begin(0)] + [End(0, false, 0, 0, 0)])
    ensures s.core == NewCore(TwoProbes()).(state := Open) && s.now == 0 && s.inFlight == map[]
    ensures |s.log| == 2 && Episodes(s.log) == 0
  {
    var cfg := TwoProbes();
    ExecMore(cfg, [], Begin(0));
    ExecMore(cfg, [] + [Begin(0)], End(0, false, 0, 0, 0));
    assert Exec(cfg, []) == Init(cfg);
    hide Exec;
    var a := Apply(cfg, Init(cfg), Begin(0));
    assert a == Sys(NewCore(cfg), 0, map[0 := Call(Closed, 0)], [] + [Began(0, Call(Closed, 0))]);
    s := Apply(cfg, a, End(0, false, 0, 0, 0));
    OneFailureTrips(cfg, a.core, Instants(0, 0, 0));
    LogStep([], Began(0, Call(Closed, 0)));
    LogStep(a.log, Ended(0, Call(Closed, 0), false));
    hide Apply;
  }

  lemma AfterOneProbeFails() returns (s: Sys)
    ensures s == Exec(TwoProbes(), OneProbeFails())
    ensures s.core == Core(Open, 2, ByCount([]), 2, 1, 1) && s.now == 2 && s.inFlight == map[4 := Probe(1)]
    ensures |s.log| == 6 && Episodes(s.log) == 1 && Late(s.log) == 0
  {
    var cfg := TwoProbes();
    var b := AfterFirstFailure();
    var two := [] + [Begin(0)] + [End(0, false, 0, 0, 0)];
    ExecMore(cfg, two, Begin(2));
    ExecMore(cfg, two + [Begin(2)], Begin(0));
    ExecMore(cfg, two + [Begin(2)] + [Begin(0)], End(3, false, 0, 0, 0));
    hide Exec, Late, Episodes;
    var c := Apply(cfg, b, Begin(2));
    LogStep(b.log, EnteredHalfOpen);
    LogStep(b.log + [EnteredHalfOpen], Began(3, Probe(1)));
    assert c == Sys(Core(HalfOpen, 0, ByCount([]), 1, 0, 0), 2, map[3 := Probe(1)],
                    b.log + [EnteredHalfOpen] + [Began(3, Probe(1))]);
    var d := Apply(cfg, c, Begin(0));
    LogStep(c.log, Began(4, Probe(1)));
    assert d == Sys(Core(HalfOpen, 0, ByCount([]), 2, 0, 0), 2, map[3 := Probe(1), 4 := Probe(1)],
                    c.log + [Began(4, Probe(1))]);
    s := Apply(cfg, d, End(3, false, 0, 0, 0));
    LogStep(d.log, Ended(3, Probe(1), false));
    assert map[3 := Probe(1), 4 := Probe(1)] - {3} == map[4 := Probe(1)];
  }

  // Then the second probe succeeds, and the Open breaker is Closed: no reset, no Half-Open in between.
  lemma LateProbeClosesOpenBreaker()
    ensures var s := Exec(TwoProbes(), OneProbeFails());
            && s.core.state == Open && 4 in s.inFlight && s.inFlight[4] == Probe(1)
            && Apply(TwoProbes(), s, End(4, true, 0, 0, 0)).core.state == Closed
  {
    var s := AfterOneProbeFails();
    hide Exec;
  }

  lemma SecondEpisode(s: Sys)
    requires s.core == Core(Open, 2, ByCount([]), 2, 1, 1) && s.now == 2 && s.inFlight == map[4 := Probe(1)]
    requires |s.log| == 6 && Episodes(s.log) == 1
    ensures Normal(TwoProbes()) && Fits(TwoProbes(), s.core.window)
    ensures var t := Apply(TwoProbes(), s, Begin(2));
            && t.core == Core(HalfOpen, 2, ByCount([]), 1, 0, 0)
            && t.inFlight == map[4 := Probe(1), 7 := Probe(2)] && Episodes(t.log) == 2 && Late(t.log) == 0
  {
    hide Exec, Late, Episodes;
    LogStep(s.log, EnteredHalfOpen);
    LogStep(s.log + [EnteredHalfOpen], Began(7, Probe(2)));
  }

  // Or the breaker first enters its second episode, and the probe of the first is counted there: a completion with no
  // report of its own.
  lemma LateProbeCountsInNextEpisode()
    ensures var t := Apply(TwoProbes(), Exec(TwoProbes(), OneProbeFails()), Begin(2));
            var r := Apply(TwoProbes(), t, End(4, true, 0, 0, 0));
            && t.core.state == HalfOpen && Episodes(t.log) == 2 && t.core.halfOpenCompleted == 0
            && r.core.state == HalfOpen && Episodes(r.log) == 2 && r.core.halfOpenCompleted == 1 == Late(r.log)
  {
    hide *;
    var s := AfterOneProbeFails();
    SecondEpisode(s);
    LateCredit(Apply(TwoProbes(), s, Begin(2)));
  }

  lemma LateCredit(t: Sys)
    requires t.core == Core(HalfOpen, 2, ByCount([]), 1, 0, 0)
    requires t.inFlight == map[4 := Probe(1), 7 := Probe(2)] && Episodes(t.log) == 2 && Late(t.log) == 0
    ensures var r := Apply(TwoProbes(), t, End(4, true, 0, 0, 0));
            r.core.state == HalfOpen && Episodes(r.log) == 2 && r.core.halfOpenCompleted == 1 == Late(r.log)
  {
    hide Apply, Exec, Late, Episodes;
    assert IsStale(t, 4);
    EndLeaves(TwoProbes(), t, End(4, true, 0, 0, 0));
    EndIsReport(TwoProbes(), t, End(4, true, 0, 0, 0));
    hide Probes;
  }
}
