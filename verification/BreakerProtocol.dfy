// Any number of callers sharing one breaker. Execute is two locked sections with the action running unlocked in
// between, so calls admitted in one period may report in a much later one.
module BreakerProtocol {
  import opened Outcomes
  import opened TimeWindow
  import opened Circuit

  // What a running call remembers: the state seen at admission, and which Half-Open episode that was.
  datatype Call = Call(captured: State, episode: nat)

  datatype Event =
    | EnteredHalfOpen
    | Began(id: nat, call: Call)
    | Ended(id: nat, call: Call, ok: bool)
    | WasReset

  // The delays are the time that passes before each clock reading.
  datatype Step =
    | Begin(delay: nat)
    | End(id: nat, ok: bool, record: nat, check: nat, trip: nat)
    | Query(delay: nat)
    | Reset

  datatype Sys = Sys(core: Core, now: int, inFlight: map<nat, Call>, log: seq<Event>)

  // ---- What the log says ----

  function Episodes(log: seq<Event>): nat {
    if log == [] then 0 else Episodes(log[..|log| - 1]) + (if log[|log| - 1].EnteredHalfOpen? then 1 else 0)
  }

  function Probe(ep: nat): Call {
    Call(HalfOpen, ep)
  }

  // Probes of one episode admitted, and reported, over the whole log.
  function Begun(log: seq<Event>, ep: nat): nat {
    if log == [] then 0
    else
      var e := log[|log| - 1];
      Begun(log[..|log| - 1], ep) + (if e.Began? && e.call == Probe(ep) then 1 else 0)
  }

  function Reported(log: seq<Event>, ep: nat): nat {
    if log == [] then 0
    else
      var e := log[|log| - 1];
      Reported(log[..|log| - 1], ep) + (if e.Ended? && e.call == Probe(ep) then 1 else 0)
  }

  // The outcomes of all probes, of whatever episode, reported since Half-Open was last entered.
  function Credited(log: seq<Event>): seq<bool> {
    if log == [] then []
    else
      var e := log[|log| - 1];
      var before := Credited(log[..|log| - 1]);
      match e
      case EnteredHalfOpen => []
      case Ended(_, call, ok) => if call.captured == HalfOpen then before + [ok] else before
      case _ => before
  }

  // How many of those belong to earlier episodes.
  function Late(log: seq<Event>): nat {
    if log == [] then 0
    else
      var e := log[|log| - 1];
      var before := Late(log[..|log| - 1]);
      match e
      case EnteredHalfOpen => 0
      case Ended(_, call, _) =>
        if call.captured == HalfOpen && call.episode != Episodes(log) then before + 1 else before
      case _ => before
  }

  // ---- The system ----

  function Init(cfg: Config): Sys {
    Sys(NewCore(cfg), 0, map[], [])
  }

  function Polled(cfg: Config, s: Sys, delay: nat): Sys {
    var now := s.now + delay;
    s.(now := now, core := Poll(cfg, s.core, now),
       log := if TimedOut(cfg, s.core, now) then s.log + [EnteredHalfOpen] else s.log)
  }

  function Apply(cfg: Config, s: Sys, step: Step): (r: Sys)
    requires Normal(cfg) && Fits(cfg, s.core.window)
    ensures Fits(cfg, r.core.window)
  {
    match step
    case Query(d) => Polled(cfg, s, d)
    case Reset => s.(core := ToClosed(cfg, s.core), log := s.log + [WasReset])
    case Begin(d) =>
      var p := Polled(cfg, s, d);
      var (c, admitted) := Admit(cfg, s.core, p.now);
      if !admitted then p.(core := c)
      else
        var call := Call(c.state, Episodes(p.log));
        p.(core := c, inFlight := p.inFlight[|p.log| := call], log := p.log + [Began(|p.log|, call)])
    case End(id, ok, d1, d2, d3) =>
      if id !in s.inFlight then s
      else
        var call := s.inFlight[id];
        var at := Instants(s.now + d1, s.now + d1 + d2, s.now + d1 + d2 + d3);
        Sys(Report(cfg, s.core, call.captured, ok, at), at.trip, s.inFlight - {id}, s.log + [Ended(id, call, ok)])
  }

  function Exec(cfg: Config, steps: seq<Step>): (s: Sys)
    requires Normal(cfg)
    ensures Fits(cfg, s.core.window)
  {
    if steps == [] then Init(cfg) else Apply(cfg, Exec(cfg, steps[..|steps| - 1]), steps[|steps| - 1])
  }

  // ---- Invariant ----

  function Running(s: Sys, ep: nat): set<nat> {
    set id | id in s.inFlight && s.inFlight[id] == Probe(ep)
  }

  ghost predicate CallsOk(s: Sys) {
    forall id | id in s.inFlight ::
      && id < |s.log|
      && s.inFlight[id].captured != Open
      && s.inFlight[id].episode <= Episodes(s.log)
  }

  // Every admitted probe has either reported once or is still running, and no episode admits too many.
  ghost predicate ProbesOk(cfg: Config, s: Sys) {
    && (forall ep: nat :: Begun(s.log, ep) == Reported(s.log, ep) + |Running(s, ep)|)
    && (forall ep: nat :: Begun(s.log, ep) <= cfg.halfOpenMaxCalls)
    && (forall ep: nat | ep > Episodes(s.log) :: Begun(s.log, ep) == 0)
  }

  ghost predicate CountersOk(cfg: Config, s: Sys) {
    && s.core.halfOpenCalls == Begun(s.log, Episodes(s.log))
    && s.core.halfOpenCompleted == |Credited(s.log)|
    && s.core.halfOpenFailures == Failures(Credited(s.log))
    && |Credited(s.log)| == Reported(s.log, Episodes(s.log)) + Late(s.log)
    && (s.core.state == HalfOpen ==> s.core.halfOpenCompleted < cfg.halfOpenMaxCalls)
  }

  ghost predicate Inv(cfg: Config, s: Sys)
    requires Normal(cfg)
  {
    && Fits(cfg, s.core.window)
    && CallsOk(s)
    && ProbesOk(cfg, s)
    && CountersOk(cfg, s)
    && (s.core.state == Closed ==> Healthy(cfg, s.core.window))
  }

  lemma EmptyIsHealthy(cfg: Config)
    requires Normal(cfg)
    ensures Healthy(cfg, EmptyWindow(cfg))
  {
    if cfg.windowType.TimeBased? {
      EmptySums(true);
      EmptySums(false);
    }
  }

  lemma EmptySums(ok: bool)
    ensures Sum(NoBuckets().cells, ok) == 0
  {
    SumOfTen(NoBuckets().cells, ok);
  }

  lemma InitInv(cfg: Config)
    requires Normal(cfg)
    ensures Inv(cfg, Init(cfg))
  {
    EmptyIsHealthy(cfg);
    forall ep: nat
      ensures Running(Init(cfg), ep) == {}
    {
    }
  }

  // What one more event does to everything read off the log.
  lemma LogStep(log: seq<Event>, e: Event)
    ensures var next := log + [e];
            && Episodes(next) == Episodes(log) + (if e.EnteredHalfOpen? then 1 else 0)
            && Credited(next) == (if e.EnteredHalfOpen? then []
                                  else if e.Ended? && e.call.captured == HalfOpen then Credited(log) + [e.ok]
                                  else Credited(log))
            && Late(next) == (if e.EnteredHalfOpen? then 0
                              else if e.Ended? && e.call.captured == HalfOpen && e.call.episode != Episodes(log)
                              then Late(log) + 1 else Late(log))
  {
    assert (log + [e])[..|log + [e]| - 1] == log;
  }

  lemma LogCounts(log: seq<Event>, e: Event, ep: nat)
    ensures Begun(log + [e], ep) == Begun(log, ep) + (if e.Began? && e.call == Probe(ep) then 1 else 0)
    ensures Reported(log + [e], ep) == Reported(log, ep) + (if e.Ended? && e.call == Probe(ep) then 1 else 0)
  {
    assert (log + [e])[..|log + [e]| - 1] == log;
  }

  lemma RunningOneMore(s: Sys, r: Sys, id: nat, call: Call, ep: nat)
    requires id !in s.inFlight && r.inFlight == s.inFlight[id := call]
    ensures |Running(r, ep)| == |Running(s, ep)| + (if call == Probe(ep) then 1 else 0)
  {
    assert Running(r, ep) == if call == Probe(ep) then Running(s, ep) + {id} else Running(s, ep);
  }

  lemma RunningOneLess(s: Sys, r: Sys, id: nat, ep: nat)
    requires id in s.inFlight && r.inFlight == s.inFlight - {id}
    ensures |Running(r, ep)| == |Running(s, ep)| - (if s.inFlight[id] == Probe(ep) then 1 else 0)
  {
    assert Running(r, ep) == Running(s, ep) - {id};
  }

  // The verdict once one more probe has succeeded: enough outcomes, and their failure rate below the threshold or not.
  predicate DecidesPass(cfg: Config, c: Core) {
    && c.halfOpenCompleted + 1 >= cfg.halfOpenMaxCalls
    && Rate(c.halfOpenFailures, c.halfOpenCompleted + 1) < cfg.threshold
  }

  predicate DecidesFail(cfg: Config, c: Core) {
    && c.halfOpenCompleted + 1 >= cfg.halfOpenMaxCalls
    && Rate(c.halfOpenFailures, c.halfOpenCompleted + 1) >= cfg.threshold
  }

  // Enough outcomes with this success, and their failed share of a hundred below the threshold, or reaching it.
  lemma VerdictInProducts(cfg: Config, c: Core)
    ensures var n := c.halfOpenCompleted + 1;
            && (DecidesPass(cfg, c) <==>
                  n >= cfg.halfOpenMaxCalls && 100.0 * c.halfOpenFailures as real < cfg.threshold * n as real)
            && (DecidesFail(cfg, c) <==>
                  n >= cfg.halfOpenMaxCalls && 100.0 * c.halfOpenFailures as real >= cfg.threshold * n as real)
  {
    RateBelow(c.halfOpenFailures, c.halfOpenCompleted + 1, cfg.threshold);
    hide Rate;
  }

  // When a report closes a breaker that is not Closed.
  predicate MayClose(cfg: Config, c: Core, r: Core, captured: State, ok: bool) {
    c.state != Closed ==>
      && (r.state == Closed <==> captured == HalfOpen && ok && DecidesPass(cfg, c))
      && (r.state == Closed ==> r.window == EmptyWindow(cfg))
  }

  // A report that opens the breaker, or opens it again: a failed probe, a lost decision, or an unhealthy window while
  // Closed.
  predicate Opens(cfg: Config, c: Core, captured: State, ok: bool, at: Instants)
    requires Normal(cfg) && Fits(cfg, c.window)
  {
    if captured == HalfOpen then !ok || DecidesFail(cfg, c)
    else c.state == Closed && !Healthy(cfg, Refresh(cfg, RecordIn(cfg, c.window, ok, at.record), at.check))
  }

  // When a report opens a breaker that is not Open, and the instant it leaves behind.
  predicate MayOpen(cfg: Config, c: Core, r: Core, captured: State, ok: bool, at: Instants)
    requires Normal(cfg) && Fits(cfg, c.window)
  {
    && (c.state != Open ==> (r.state == Open <==> Opens(cfg, c, captured, ok, at)))
    && (Opens(cfg, c, captured, ok, at) ==> r.state == Open)
    && r.openedAt == if Opens(cfg, c, captured, ok, at) then at.trip else c.openedAt
  }

  // What one report does to the breaker, apart from the clock.
  lemma ReportStep(cfg: Config, c: Core, captured: State, ok: bool, at: Instants)
    requires Normal(cfg) && Fits(cfg, c.window)
    requires c.state == Closed ==> Healthy(cfg, c.window)
    ensures var r := Report(cfg, c, captured, ok, at);
            && r.halfOpenCalls == c.halfOpenCalls
            && r.halfOpenCompleted == c.halfOpenCompleted + (if captured == HalfOpen then 1 else 0)
            && r.halfOpenFailures == c.halfOpenFailures + (if captured == HalfOpen && !ok then 1 else 0)
            && (r.state == Closed ==> Healthy(cfg, r.window))
            && (r.state == HalfOpen ==>
                  c.state == HalfOpen && (captured == HalfOpen ==> r.halfOpenCompleted < cfg.halfOpenMaxCalls))
            && MayClose(cfg, c, r, captured, ok) && MayOpen(cfg, c, r, captured, ok, at)
            && (captured == HalfOpen && ok && DecidesPass(cfg, c) ==> r.state == Closed)
  {
    EmptyIsHealthy(cfg);
    hide Healthy, RecordIn, Refresh, Rate;
  }

  // What admission does to the breaker.
  lemma AdmitStep(cfg: Config, c: Core, now: int)
    requires Normal(cfg)
    ensures var (r, admitted) := Admit(cfg, c, now);
            var p := Poll(cfg, c, now);
            && r == (if admitted && p.state == HalfOpen then p.(halfOpenCalls := p.halfOpenCalls + 1) else p)
            && (admitted <==> p.state == Closed || (p.state == HalfOpen && p.halfOpenCalls < cfg.halfOpenMaxCalls))
  {
  }

  // An event that is neither the start nor the end of a call, with the running calls unchanged.
  lemma ProbesUntouched(cfg: Config, s: Sys, r: Sys, e: Event)
    requires ProbesOk(cfg, s) && r.inFlight == s.inFlight && r.log == s.log + [e] && !e.Began? && !e.Ended?
    ensures ProbesOk(cfg, r)
  {
    LogStep(s.log, e);
    hide Episodes, Begun, Reported;
    forall ep: nat
      ensures Begun(r.log, ep) == Begun(s.log, ep) && Reported(r.log, ep) == Reported(s.log, ep)
      ensures Running(r, ep) == Running(s, ep)
    {
      LogCounts(s.log, e, ep);
    }
  }

  lemma PollInv(cfg: Config, s: Sys, delay: nat)
    requires Normal(cfg) && Inv(cfg, s)
    ensures Inv(cfg, Polled(cfg, s, delay))
  {
    var p := Polled(cfg, s, delay);
    if p.log != s.log {
      LogStep(s.log, EnteredHalfOpen);
      LogCounts(s.log, EnteredHalfOpen, Episodes(s.log) + 1);
      ProbesUntouched(cfg, s, p, EnteredHalfOpen);
    } else {
      forall ep: nat
        ensures Running(p, ep) == Running(s, ep)
      {
      }
    }
  }

  lemma BeginInv(cfg: Config, s: Sys, delay: nat)
    requires Normal(cfg) && Inv(cfg, s)
    ensures Inv(cfg, Apply(cfg, s, Begin(delay)))
  {
    var p := Polled(cfg, s, delay);
    PollInv(cfg, s, delay);
    AdmitStep(cfg, s.core, p.now);
    var r := Apply(cfg, s, Begin(delay));
    var (c, admitted) := Admit(cfg, s.core, p.now);
    if admitted {
      var call := Call(c.state, Episodes(p.log));
      assert p.core == Poll(cfg, s.core, p.now);
      assert r == p.(core := c, inFlight := p.inFlight[|p.log| := call], log := p.log + [Began(|p.log|, call)]);
      Joined(cfg, p, r, c, call);
    }
  }

  lemma Joined(cfg: Config, p: Sys, r: Sys, c: Core, call: Call)
    requires Normal(cfg) && Inv(cfg, p) && p.core.state != Open
    requires p.core.state == HalfOpen ==> p.core.halfOpenCalls < cfg.halfOpenMaxCalls
    requires c == if p.core.state == HalfOpen then p.core.(halfOpenCalls := p.core.halfOpenCalls + 1) else p.core
    requires call == Call(c.state, Episodes(p.log))
    requires r == p.(core := c, inFlight := p.inFlight[|p.log| := call], log := p.log + [Began(|p.log|, call)])
    ensures Inv(cfg, r)
  {
    LogStep(p.log, Began(|p.log|, call));
    LogCounts(p.log, Began(|p.log|, call), Episodes(p.log));
    hide Episodes, Begun, Reported, Credited, Late, Failures, Healthy, Fits, Normal, Running;
    assert CallsOk(r) && CountersOk(cfg, r);
    forall ep: nat
      ensures Begun(r.log, ep) == Reported(r.log, ep) + |Running(r, ep)|
      ensures Begun(r.log, ep) <= cfg.halfOpenMaxCalls
      ensures ep > Episodes(r.log) ==> Begun(r.log, ep) == 0
    {
      LogCounts(p.log, Began(|p.log|, call), ep);
      RunningOneMore(p, r, |p.log|, call, ep);
    }
  }

  lemma EndInv(cfg: Config, s: Sys, step: Step)
    requires Normal(cfg) && Inv(cfg, s) && step.End?
    ensures Inv(cfg, Apply(cfg, s, step))
  {
    if step.id in s.inFlight {
      var r := Apply(cfg, s, step);
      var call := s.inFlight[step.id];
      var at := Instants(s.now + step.record, s.now + step.record + step.check,
                         s.now + step.record + step.check + step.trip);
      assert r == Sys(Report(cfg, s.core, call.captured, step.ok, at), at.trip, s.inFlight - {step.id},
                      s.log + [Ended(step.id, call, step.ok)]);
      ReportStep(cfg, s.core, call.captured, step.ok, at);
      Left(cfg, s, r, step.id, step.ok);
    }
  }

  lemma Left(cfg: Config, s: Sys, r: Sys, id: nat, ok: bool)
    requires Normal(cfg) && Inv(cfg, s) && id in s.inFlight && Fits(cfg, r.core.window)
    requires r.inFlight == s.inFlight - {id} && r.log == s.log + [Ended(id, s.inFlight[id], ok)]
    requires var probe := s.inFlight[id].captured == HalfOpen;
             && r.core.halfOpenCalls == s.core.halfOpenCalls
             && r.core.halfOpenCompleted == s.core.halfOpenCompleted + (if probe then 1 else 0)
             && r.core.halfOpenFailures == s.core.halfOpenFailures + (if probe && !ok then 1 else 0)
             && (r.core.state == Closed ==> Healthy(cfg, r.core.window))
             && (r.core.state == HalfOpen ==>
                   s.core.state == HalfOpen && (probe ==> r.core.halfOpenCompleted < cfg.halfOpenMaxCalls))
    ensures Inv(cfg, r)
  {
    hide Episodes, Begun, Reported, Credited, Late, Failures, Healthy, Fits, Normal, Running;
    LogStep(s.log, Ended(id, s.inFlight[id], ok));
    assert CallsOk(r) by { hide CountersOk, ProbesOk; }
    LeftCounters(cfg, s, r, id, ok);
    LeftProbes(cfg, s, r, id, ok);
    hide CallsOk, CountersOk, ProbesOk;
  }

  lemma LeftCounters(cfg: Config, s: Sys, r: Sys, id: nat, ok: bool)
    requires CountersOk(cfg, s) && id in s.inFlight && r.log == s.log + [Ended(id, s.inFlight[id], ok)]
    requires var probe := s.inFlight[id].captured == HalfOpen;
             && r.core.halfOpenCalls == s.core.halfOpenCalls
             && r.core.halfOpenCompleted == s.core.halfOpenCompleted + (if probe then 1 else 0)
             && r.core.halfOpenFailures == s.core.halfOpenFailures + (if probe && !ok then 1 else 0)
             && (r.core.state == HalfOpen ==>
                   s.core.state == HalfOpen && (probe ==> r.core.halfOpenCompleted < cfg.halfOpenMaxCalls))
    ensures CountersOk(cfg, r)
  {
    hide Episodes, Begun, Reported, Credited, Late, Failures;
    var call := s.inFlight[id];
    LogStep(s.log, Ended(id, call, ok));
    FailuresConcat(Credited(s.log), [ok]);
    FailuresOfOne(ok);
    LogCounts(s.log, Ended(id, call, ok), Episodes(s.log));
  }

  lemma LeftProbes(cfg: Config, s: Sys, r: Sys, id: nat, ok: bool)
    requires ProbesOk(cfg, s) && id in s.inFlight
    requires r.inFlight == s.inFlight - {id} && r.log == s.log + [Ended(id, s.inFlight[id], ok)]
    ensures ProbesOk(cfg, r)
  {
    hide Episodes, Begun, Reported, Running;
    LogStep(s.log, Ended(id, s.inFlight[id], ok));
    forall ep: nat
      ensures Begun(r.log, ep) == Reported(r.log, ep) + |Running(r, ep)|
      ensures Begun(r.log, ep) <= cfg.halfOpenMaxCalls
      ensures ep > Episodes(r.log) ==> Begun(r.log, ep) == 0
    {
      LogCounts(s.log, Ended(id, s.inFlight[id], ok), ep);
      RunningOneLess(s, r, id, ep);
    }
  }

  lemma ResetInv(cfg: Config, s: Sys)
    requires Normal(cfg) && Inv(cfg, s)
    ensures Inv(cfg, Apply(cfg, s, Reset))
  {
    LogStep(s.log, WasReset);
    LogCounts(s.log, WasReset, Episodes(s.log));
    EmptyIsHealthy(cfg);
    ProbesUntouched(cfg, s, Apply(cfg, s, Reset), WasReset);
  }

  lemma StepInv(cfg: Config, s: Sys, step: Step)
    requires Normal(cfg) && Inv(cfg, s)
    ensures Inv(cfg, Apply(cfg, s, step))
  {
    match step
    case Begin(d) => BeginInv(cfg, s, d);
    case End(_, _, _, _, _) => EndInv(cfg, s, step);
    case Query(d) => PollInv(cfg, s, d);
    case Reset => ResetInv(cfg, s);
  }

  lemma {:induction false} Reachable(cfg: Config, steps: seq<Step>)
    requires Normal(cfg)
    ensures Inv(cfg, Exec(cfg, steps))
  {
    if steps == [] {
      InitInv(cfg);
    } else {
      Reachable(cfg, steps[..|steps| - 1]);
      StepInv(cfg, Exec(cfg, steps[..|steps| - 1]), steps[|steps| - 1]);
    }
  }

  // ---- Theorems over every run ----

  // In every interleaving: no action starts while the breaker is Open, and a starting action has captured the state
  // it starts in. A call or query leaves Open only strictly after the reset timeout, and Half-Open is entered only
  // that way.
  lemma OpenIsLeftOnlyLate(cfg: Config, steps: seq<Step>, step: Step)
    requires Normal(cfg)
    ensures var s := Exec(cfg, steps);
            var r := Apply(cfg, s, step);
            && (forall id | id in r.inFlight && id !in s.inFlight ::
                  r.core.state != Open && r.inFlight[id].captured == r.core.state)
            && (s.core.state != HalfOpen && r.core.state == HalfOpen ==>
                  s.core.state == Open && r.now - s.core.openedAt > cfg.resetTimeout)
            && (s.core.state == Open && (step.Begin? || step.Query?) && r.now - s.core.openedAt <= cfg.resetTimeout ==>
                  r.core.state == Open && r.inFlight == s.inFlight)
  {
    var s := Exec(cfg, steps);
    Reachable(cfg, steps);
    match step {
      case End(id, ok, d1, d2, d3) =>
        if id in s.inFlight {
          ReportStep(cfg, s.core, s.inFlight[id].captured, ok,
                     Instants(s.now + d1, s.now + d1 + d2, s.now + d1 + d2 + d3));
        }
        hide Report;
      case Begin(d) => AdmitStep(cfg, s.core, s.now + d);
      case Query(_) =>
      case Reset =>
    }
  }

  // No Half-Open episode, past or present, ever admits more than HalfOpenMaxCalls probes, and each admitted probe
  // is reported at most once.
  lemma EpisodesAreBounded(cfg: Config, steps: seq<Step>, ep: nat)
    requires Normal(cfg)
    ensures var s := Exec(cfg, steps);
            && Begun(s.log, ep) <= cfg.halfOpenMaxCalls
            && Begun(s.log, ep) == Reported(s.log, ep) + |Running(s, ep)|
  {
    Reachable(cfg, steps);
  }

  // Why a report closes the breaker, all of it known before the report.
  predicate EarnsClosing(cfg: Config, s: Sys, step: Step) {
    && step.End? && step.id in s.inFlight && s.inFlight[step.id].captured == HalfOpen && step.ok
    && DecidesPass(cfg, s.core)
  }

  // Why a report opens it.
  predicate CausesOpening(cfg: Config, s: Sys, step: Step)
    requires Normal(cfg) && Fits(cfg, s.core.window)
  {
    && step.End? && step.id in s.inFlight
    && (if s.inFlight[step.id].captured == HalfOpen then !step.ok || DecidesFail(cfg, s.core)
        else s.core.state == Closed && TripsOn(cfg, s, step))
  }

  // Recording the outcome leaves the window, read at the report's own clock, unhealthy.
  predicate TripsOn(cfg: Config, s: Sys, step: Step)
    requires Normal(cfg) && Fits(cfg, s.core.window) && step.End?
  {
    !Healthy(cfg, Refresh(cfg, RecordIn(cfg, s.core.window, step.ok, s.now + step.record),
                          s.now + step.record + step.check))
  }

  function ReportTimes(s: Sys, step: Step): Instants
    requires step.End?
  {
    Instants(s.now + step.record, s.now + step.record + step.check, s.now + step.record + step.check + step.trip)
  }

  lemma InvTells(cfg: Config, s: Sys)
    requires Normal(cfg) && Inv(cfg, s)
    ensures Fits(cfg, s.core.window) && CountersOk(cfg, s) && (s.core.state == Closed ==> Healthy(cfg, s.core.window))
  {
    hide CountersOk, Healthy, Fits, CallsOk, ProbesOk;
  }

  lemma EndIsReport(cfg: Config, s: Sys, step: Step)
    requires Normal(cfg) && Fits(cfg, s.core.window) && step.End? && step.id in s.inFlight
    ensures Apply(cfg, s, step).core
         == Report(cfg, s.core, s.inFlight[step.id].captured, step.ok, ReportTimes(s, step))
  {
    hide Report, Fits, Normal;
  }

  lemma ClosingTold(cfg: Config, s: Sys, r: Sys, step: Step)
    requires Normal(cfg) && step.End? && step.id in s.inFlight && s.core.state != Closed
    requires MayClose(cfg, s.core, r.core, s.inFlight[step.id].captured, step.ok)
    ensures r.core.state == Closed <==> EarnsClosing(cfg, s, step)
    ensures r.core.state == Closed ==> r.core.window == EmptyWindow(cfg)
  {
    hide DecidesPass, EmptyWindow;
  }

  lemma OpeningTold(cfg: Config, s: Sys, r: Sys, step: Step)
    requires Normal(cfg) && Fits(cfg, s.core.window)
    requires step.End? && step.id in s.inFlight && s.core.state != Open
    requires MayOpen(cfg, s.core, r.core, s.inFlight[step.id].captured, step.ok, ReportTimes(s, step))
    ensures r.core.state == Open <==> CausesOpening(cfg, s, step)
  {
    hide DecidesFail, Healthy, RecordIn, Refresh, Fits;
    assert CausesOpening(cfg, s, step)
      <==> Opens(cfg, s.core, s.inFlight[step.id].captured, step.ok, ReportTimes(s, step));
  }

  // A report that changes the state.
  lemma EndCause(cfg: Config, s: Sys, step: Step)
    requires Normal(cfg) && Inv(cfg, s) && step.End? && step.id in s.inFlight
    ensures var r := Apply(cfg, s, step);
            && (s.core.state != Closed ==>
                  && (r.core.state == Closed <==> EarnsClosing(cfg, s, step))
                  && (r.core.state == Closed ==> r.core.window == EmptyWindow(cfg)))
            && (s.core.state != Open ==> (r.core.state == Open <==> CausesOpening(cfg, s, step)))
  {
    InvTells(cfg, s);
    hide *;
    var r := Apply(cfg, s, step);
    EndIsReport(cfg, s, step);
    ReportStep(cfg, s.core, s.inFlight[step.id].captured, step.ok, ReportTimes(s, step));
    if s.core.state != Closed {
      ClosingTold(cfg, s, r, step);
    }
    if s.core.state != Open {
      OpeningTold(cfg, s, r, step);
    }
  }

  // Steps that report nothing neither open the breaker nor, short of Reset, close it.
  lemma QuietStep(cfg: Config, s: Sys, step: Step)
    requires Normal(cfg) && Fits(cfg, s.core.window) && !(step.End? && step.id in s.inFlight)
    ensures var r := Apply(cfg, s, step);
            && (r.core.state == Open ==> s.core.state == Open)
            && (r.core.state == Closed ==> s.core.state == Closed || step.Reset?)
  {
  }

  // A breaker that is not Closed becomes Closed, other than by Reset, exactly when a probe succeeds and, with it, at
  // least HalfOpenMaxCalls probe outcomes counted since Half-Open was last entered fail below the threshold. It then
  // starts with an empty window.
  lemma ClosingIsEarned(cfg: Config, steps: seq<Step>, step: Step)
    requires Normal(cfg) && Exec(cfg, steps).core.state != Closed && !step.Reset?
    ensures var s := Exec(cfg, steps);
            var r := Apply(cfg, s, step);
            && (r.core.state == Closed <==> EarnsClosing(cfg, s, step))
            && s.core.halfOpenCompleted == |Credited(s.log)| && s.core.halfOpenFailures == Failures(Credited(s.log))
            && (r.core.state == Closed ==> r.core.window == EmptyWindow(cfg))
  {
    var s := Exec(cfg, steps);
    Reachable(cfg, steps);
    hide Exec;
    InvTells(cfg, s);
    if step.End? && step.id in s.inFlight {
      EndCause(cfg, s, step);
    } else {
      QuietStep(cfg, s, step);
    }
    hide Apply, Inv;
  }

  // A breaker that is not Open becomes Open exactly on one of these reports: a failed probe, a probe that completes
  // the count with too many failures, or a call admitted while Closed that leaves a Closed breaker's window
  // unhealthy.
  lemma OpeningHasACause(cfg: Config, steps: seq<Step>, step: Step)
    requires Normal(cfg) && Exec(cfg, steps).core.state != Open
    ensures var s := Exec(cfg, steps);
            var r := Apply(cfg, s, step);
            r.core.state == Open <==> CausesOpening(cfg, s, step)
  {
    var s := Exec(cfg, steps);
    Reachable(cfg, steps);
    hide Exec;
    if step.End? && step.id in s.inFlight {
      EndCause(cfg, s, step);
      hide CausesOpening;
    } else {
      QuietStep(cfg, s, step);
    }
  }

  // Half-Open never gets stuck: when every probe slot is used, a probe of this very episode is still running; and
  // while none is running, the next call is admitted.
  lemma HalfOpenIsNeverStuck(cfg: Config, steps: seq<Step>, delay: nat)
    requires Normal(cfg)
    requires Exec(cfg, steps).core.state == HalfOpen
    ensures var s := Exec(cfg, steps);
            && s.core.halfOpenCompleted < cfg.halfOpenMaxCalls
            && (Begun(s.log, Episodes(s.log)) == cfg.halfOpenMaxCalls ==> Running(s, Episodes(s.log)) != {})
            && (Running(s, Episodes(s.log)) == {} ==> |s.log| in Apply(cfg, s, Begin(delay)).inFlight)
  {
    Reachable(cfg, steps);
  }

  // Once all probes an episode may admit have reported, the breaker is no longer Half-Open.
  lemma EpisodeIsDecided(cfg: Config, steps: seq<Step>)
    requires Normal(cfg)
    requires var s := Exec(cfg, steps); Reported(s.log, Episodes(s.log)) == cfg.halfOpenMaxCalls
    ensures Exec(cfg, steps).core.state != HalfOpen
  {
    Reachable(cfg, steps);
  }

  // What decides an episode: the probes of the episode itself plus those arriving late from earlier ones.
  lemma CreditIsOwnPlusLate(cfg: Config, steps: seq<Step>)
    requires Normal(cfg)
    ensures var s := Exec(cfg, steps);
            && s.core.halfOpenCompleted == Reported(s.log, Episodes(s.log)) + Late(s.log)
            && s.core.halfOpenFailures == Failures(Credited(s.log))
  {
    Reachable(cfg, steps);
  }

  // Closed means healthy, whoever reports: the window of a Closed breaker, as last read, has too few calls to judge or
  // a failure rate below the threshold.
  lemma ClosedIsHealthy(cfg: Config, steps: seq<Step>)
    requires Normal(cfg)
    requires Exec(cfg, steps).core.state == Closed
    ensures Healthy(cfg, Exec(cfg, steps).core.window)
  {
    Reachable(cfg, steps);
  }

  // Reading the window at `now` empties nothing.
  predicate ReadsAlike(cfg: Config, w: Window, now: int)
    requires Normal(cfg) && Fits(cfg, w)
  {
    w.ByTime? ==>
      Advance(cfg.windowDuration, BucketDuration(cfg.windowDuration), w.buckets, now).cells == w.buckets.cells
  }

  // So it is as of now too while a reading would empty nothing: always for a count window, and for a time window at
  // least until a bucket's length has passed since the last record.
  lemma ClosedIsHealthyNow(cfg: Config, steps: seq<Step>, now: int)
    requires Normal(cfg) && Exec(cfg, steps).core.state == Closed
    ensures var w := Exec(cfg, steps).core.window;
            && (ReadsAlike(cfg, w, now) ==> Healthy(cfg, Refresh(cfg, w, now)))
            && (w.ByCount? || !w.buckets.touched
                || now - w.buckets.last < BucketDuration(cfg.windowDuration) <= cfg.windowDuration ==>
                  ReadsAlike(cfg, w, now))
  {
    ClosedIsHealthy(cfg, steps);
    SameCellsSameHealth(cfg, Exec(cfg, steps).core.window, now);
    hide Exec, Healthy, BucketDuration, ClearArc;
  }

  lemma SameCellsSameHealth(cfg: Config, w: Window, now: int)
    requires Normal(cfg) && Fits(cfg, w)
    ensures ReadsAlike(cfg, w, now) ==> (Healthy(cfg, Refresh(cfg, w, now)) <==> Healthy(cfg, w))
  {
    hide Advance, BucketDuration, Rate, Sum;
  }

  // A count window smaller than MinimumCalls never trips the breaker by rate: only a late probe can open it.
  lemma SmallWindowNeverTrips(cfg: Config, steps: seq<Step>, step: Step)
    requires Normal(cfg) && cfg.windowType.CountBased? && cfg.minimumCalls > cfg.windowSize
    requires Exec(cfg, steps).core.state == Closed && Apply(cfg, Exec(cfg, steps), step).core.state == Open
    ensures step.End? && step.id in Exec(cfg, steps).inFlight
            && Exec(cfg, steps).inFlight[step.id].captured == HalfOpen
  {
    OpeningHasACause(cfg, steps, step);
  }

  lemma ExecMore(cfg: Config, steps: seq<Step>, step: Step)
    requires Normal(cfg)
    ensures Exec(cfg, steps + [step]) == Apply(cfg, Exec(cfg, steps), step)
  {
    assert (steps + [step])[..|steps + [step]| - 1] == steps;
  }
}
