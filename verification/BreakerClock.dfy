// The instant the reset timeout is measured from, and who may start when, told by the reports alone.
module BreakerClock {
  import opened Circuit
  import opened BreakerProtocol

  // The clock of the last report that opened the breaker or opened it again: a failed probe, however late, a lost
  // decision, or an unhealthy window while Closed.
  function LastOpening(cfg: Config, steps: seq<Step>): Opening
    requires Normal(cfg)
  {
    if steps == [] then Never
    else
      var less, step := steps[..|steps| - 1], steps[|steps| - 1];
      var s := Exec(cfg, less);
      if CausesOpening(cfg, s, step) then At(ReportTimes(s, step).trip) else LastOpening(cfg, less)
  }

  datatype Opening = Never | At(time: int)

  // Whether the breaker was closed since then, by Reset or by its probes, or never opened at all.
  function ClosedSince(cfg: Config, steps: seq<Step>): bool
    requires Normal(cfg)
  {
    if steps == [] then true
    else
      var less, step := steps[..|steps| - 1], steps[|steps| - 1];
      var s := Exec(cfg, less);
      if CausesOpening(cfg, s, step) then false
      else step.Reset? || EarnsClosing(cfg, s, step) || ClosedSince(cfg, less)
  }

  // ---- One step ----

  // What a step does to the state and to the instant, by its reason.
  ghost predicate Told(cfg: Config, s: Sys, step: Step, r: Sys)
    requires Normal(cfg) && Fits(cfg, s.core.window)
  {
    && s.now <= r.now
    && (CausesOpening(cfg, s, step) ==>
          r.core.state == Open && r.core.openedAt == r.now == ReportTimes(s, step).trip)
    && (!CausesOpening(cfg, s, step) ==>
          && r.core.openedAt == s.core.openedAt
          && (r.core.state == Closed <==> step.Reset? || EarnsClosing(cfg, s, step) || s.core.state == Closed)
          && (r.core.state == HalfOpen ==>
                s.core.state == HalfOpen || (s.core.state == Open && r.now - s.core.openedAt > cfg.resetTimeout)))
  }

  lemma EndTold(cfg: Config, s: Sys, step: Step)
    requires Normal(cfg) && Inv(cfg, s) && step.End? && step.id in s.inFlight
    ensures Told(cfg, s, step, Apply(cfg, s, step))
  {
    InvTells(cfg, s);
    hide Inv, Report, Healthy, RecordIn, Refresh, Rate, Fits, CountersOk;
    assert Apply(cfg, s, step).now == ReportTimes(s, step).trip;
    EndIsReport(cfg, s, step);
    hide Apply;
    ReportStep(cfg, s.core, s.inFlight[step.id].captured, step.ok, ReportTimes(s, step));
    hide Normal;
    Verdicts(cfg, s.core);
    hide DecidesPass, DecidesFail;
  }

  // A probe success cannot decide both ways.
  lemma Verdicts(cfg: Config, c: Core)
    ensures !(DecidesPass(cfg, c) && DecidesFail(cfg, c))
  {
    hide Rate;
  }

  lemma StepTold(cfg: Config, s: Sys, step: Step)
    requires Normal(cfg) && Inv(cfg, s)
    ensures Told(cfg, s, step, Apply(cfg, s, step))
  {
    InvTells(cfg, s);
    hide Inv, Healthy, RecordIn, Refresh, Rate, Fits, CountersOk, Normal;
    if step.End? && step.id in s.inFlight {
      EndTold(cfg, s, step);
      hide Told;
    }
  }

  // ---- Every run ----

  // In every reachable state: Closed exactly if nothing opened the breaker since it was last closed; otherwise the
  // timeout runs from the last opening, and Half-Open means that it has passed.
  ghost predicate Dated(cfg: Config, s: Sys, last: Opening, closed: bool) {
    && (s.core.state == Closed <==> closed)
    && (last.At? ==> s.core.openedAt == last.time <= s.now)
    && (s.core.state != Closed ==> last.At?)
    && (s.core.state == HalfOpen ==> last.At? && s.now - last.time > cfg.resetTimeout)
  }

  lemma {:induction false} OpenedAtIsTheLastOpening(cfg: Config, steps: seq<Step>)
    requires Normal(cfg)
    ensures Dated(cfg, Exec(cfg, steps), LastOpening(cfg, steps), ClosedSince(cfg, steps))
  {
    if steps != [] {
      var less, step := steps[..|steps| - 1], steps[|steps| - 1];
      OpenedAtIsTheLastOpening(cfg, less);
      Reachable(cfg, less);
      hide Inv, Apply;
      StepTold(cfg, Exec(cfg, less), step);
      hide CausesOpening, EarnsClosing, Normal, Fits;
    }
  }

  // Who may start: a call is admitted exactly if the breaker was closed since its last opening, or the reset timeout
  // has passed since then and, once in Half-Open, the episode has a probe slot left.
  lemma AdmittedIff(cfg: Config, steps: seq<Step>, delay: nat)
    requires Normal(cfg)
    ensures var s := Exec(cfg, steps);
            var r := Apply(cfg, s, Begin(delay));
            var last := LastOpening(cfg, steps);
            && (r.inFlight != s.inFlight <==>
                || ClosedSince(cfg, steps)
                || (last.At? && r.now - last.time > cfg.resetTimeout
                    && (s.core.state == HalfOpen ==> Begun(s.log, Episodes(s.log)) < cfg.halfOpenMaxCalls)))
  {
    var s := Exec(cfg, steps);
    OpenedAtIsTheLastOpening(cfg, steps);
    Reachable(cfg, steps);
    InvTells(cfg, s);
    IdIsNew(cfg, s);
    assert s.core.halfOpenCalls == Begun(s.log, Episodes(s.log)) by { hide Exec, Inv, Begun, Episodes; }
    hide Exec, Inv, LastOpening, ClosedSince, CountersOk, Begun, Episodes, Healthy, Fits;
    AdmitTold(cfg, s, delay);
    hide Apply;
  }

  lemma IdIsNew(cfg: Config, s: Sys)
    requires Normal(cfg) && Inv(cfg, s)
    ensures forall id | id in s.inFlight :: id < |s.log|
  {
    hide CountersOk, ProbesOk, Healthy, Fits;
  }

  lemma AdmitTold(cfg: Config, s: Sys, delay: nat)
    requires Normal(cfg) && Fits(cfg, s.core.window) && forall id | id in s.inFlight :: id < |s.log|
    ensures var r := Apply(cfg, s, Begin(delay));
            && r.now == s.now + delay
            && (r.inFlight != s.inFlight <==>
                || s.core.state == Closed
                || (s.core.state == Open && r.now - s.core.openedAt > cfg.resetTimeout)
                || (s.core.state == HalfOpen && s.core.halfOpenCalls < cfg.halfOpenMaxCalls))
  {
    hide Fits, Episodes;
    var p := Polled(cfg, s, delay);
    var (c, admitted) := Admit(cfg, s.core, p.now);
    if admitted {
      assert |p.log| in Apply(cfg, s, Begin(delay)).inFlight && |p.log| !in s.inFlight;
    }
  }
}
