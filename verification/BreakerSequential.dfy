// Calls that do not overlap: the breaker is then the textbook three-state machine.
module BreakerSequential {
  import opened Circuit

  // The textbook keeps only what each state needs.
  datatype Textbook =
    | Serving(window: Window)
    | Tripped(since: int)
    | Probing(successes: nat)

  // One caller's operations; a call carries the clock at admission, its outcome, and the clock at its report.
  datatype Op =
    | Call(now: int, ok: bool, at: Instants)
    | Query(now: int)
    | ManualReset

  datatype Answer = Refused | Returned(ok: bool) | Observed(state: State) | Done

  function Wake(cfg: Config, t: Textbook, now: int): Textbook {
    if t.Tripped? && now - t.since > cfg.resetTimeout then Probing(0) else t
  }

  function NameOf(t: Textbook): State {
    match t
    case Serving(_) => Closed
    case Tripped(_) => Open
    case Probing(_) => HalfOpen
  }

  function Advise(cfg: Config, w: Window, ok: bool, at: Instants): Textbook
    requires Normal(cfg) && Fits(cfg, w)
  {
    var next := Refresh(cfg, RecordIn(cfg, w, ok, at.record), at.check);
    if Circuit.Healthy(cfg, next) then Serving(next) else Tripped(at.trip)
  }

  // What the textbook does with one probe.
  function Probe(cfg: Config, k: nat, ok: bool, at: Instants): Textbook {
    if !ok then Tripped(at.trip)
    else if k + 1 == cfg.halfOpenMaxCalls then Serving(EmptyWindow(cfg))
    else Probing(k + 1)
  }

  // The machine the documentation describes: probe successes are counted in a row, the first failed probe reopens.
  function TextbookStep(cfg: Config, t: Textbook, op: Op): (Textbook, Answer)
    requires Normal(cfg) && (t.Serving? ==> Fits(cfg, t.window))
  {
    match op
    case Query(now) => (Wake(cfg, t, now), Observed(NameOf(Wake(cfg, t, now))))
    case ManualReset => (Serving(EmptyWindow(cfg)), Done)
    case Call(now, ok, at) =>
      match Wake(cfg, t, now)
      case Tripped(since) => (Tripped(since), Refused)
      case Probing(k) => (Probe(cfg, k, ok, at), Returned(ok))
      case Serving(w) => (Advise(cfg, w, ok, at), Returned(ok))
  }

  // The breaker doing the same operation, its two locked sections back to back.
  function BreakerStep(cfg: Config, c: Core, op: Op): (r: (Core, Answer))
    requires Normal(cfg) && Fits(cfg, c.window)
    ensures Fits(cfg, r.0.window)
  {
    match op
    case Query(now) => (Poll(cfg, c, now), Observed(Poll(cfg, c, now).state))
    case ManualReset => (ToClosed(cfg, c), Done)
    case Call(now, ok, at) =>
      var (d, admitted) := Admit(cfg, c, now);
      if admitted then (Report(cfg, d, d.state, ok, at), Returned(ok)) else (d, Refused)
  }

  ghost predicate Alone(cfg: Config, c: Core) {
    && Fits(cfg, c.window)
    && (c.state != Closed ==> c.window == EmptyWindow(cfg))
    && (c.state == HalfOpen ==>
          c.halfOpenFailures == 0 && c.halfOpenCompleted == c.halfOpenCalls < cfg.halfOpenMaxCalls)
  }

  function Abstract(c: Core): Textbook {
    match c.state
    case Closed => Serving(c.window)
    case Open => Tripped(c.openedAt)
    case HalfOpen => Probing(c.halfOpenCompleted)
  }

  // No failures among the probes: the rate is zero, which is below every legal threshold.
  lemma NoFailuresPass(cfg: Config, n: nat)
    requires Normal(cfg) && n > 0
    ensures Rate(0, n) < cfg.threshold
  {
  }

  lemma ServingCall(cfg: Config, c: Core, ok: bool, at: Instants)
    requires Normal(cfg) && Alone(cfg, c) && c.state == Closed
    ensures var r := Report(cfg, c, Closed, ok, at);
            Alone(cfg, r) && Abstract(r) == Advise(cfg, c.window, ok, at)
  {
    hide Circuit.Healthy, RecordIn, Refresh, Rate;
  }

  lemma ProbeCall(cfg: Config, c: Core, ok: bool, at: Instants)
    requires Normal(cfg) && Alone(cfg, c) && c.state == HalfOpen
    ensures var r := Report(cfg, c.(halfOpenCalls := c.halfOpenCalls + 1), HalfOpen, ok, at);
            Alone(cfg, r) && Abstract(r) == Probe(cfg, c.halfOpenCompleted, ok, at)
  {
    NoFailuresPass(cfg, cfg.halfOpenMaxCalls);
    hide Circuit.Healthy, RecordIn, Refresh, Rate;
  }

  lemma OneStep(cfg: Config, c: Core, op: Op)
    requires Normal(cfg) && Alone(cfg, c)
    ensures var (next, answer) := BreakerStep(cfg, c, op);
            && Alone(cfg, next)
            && (Abstract(next), answer) == TextbookStep(cfg, Abstract(c), op)
  {
    if op.Call? {
      var p := Poll(cfg, c, op.now);
      assert Abstract(p) == Wake(cfg, Abstract(c), op.now) && Alone(cfg, p);
      if p.state == Closed {
        ServingCall(cfg, p, op.ok, op.at);
      } else if p.state == HalfOpen {
        ProbeCall(cfg, p, op.ok, op.at);
      }
      hide Report, Advise, Poll, Wake, Fits;
    }
  }

  function RunTextbook(cfg: Config, t: Textbook, ops: seq<Op>): seq<Answer>
    requires Normal(cfg) && (t.Serving? ==> Fits(cfg, t.window))
    decreases |ops|
  {
    if ops == [] then []
    else
      var (next, answer) := TextbookStep(cfg, t, ops[0]);
      [answer] + RunTextbook(cfg, next, ops[1..])
  }

  function RunBreaker(cfg: Config, c: Core, ops: seq<Op>): seq<Answer>
    requires Normal(cfg) && Fits(cfg, c.window)
    decreases |ops|
  {
    if ops == [] then []
    else
      var (next, answer) := BreakerStep(cfg, c, ops[0]);
      [answer] + RunBreaker(cfg, next, ops[1..])
  }

  lemma {:induction false} RunsAgree(cfg: Config, c: Core, ops: seq<Op>)
    requires Normal(cfg) && Alone(cfg, c)
    ensures RunBreaker(cfg, c, ops) == RunTextbook(cfg, Abstract(c), ops)
    decreases |ops|
  {
    if ops != [] {
      OneStep(cfg, c, ops[0]);
      RunsAgree(cfg, BreakerStep(cfg, c, ops[0]).0, ops[1..]);
    }
  }

  // Every sequence of non-overlapping calls gets, call by call, the answers of the textbook machine.
  lemma SequentialRefinement(cfg: Config, ops: seq<Op>)
    requires Normal(cfg)
    ensures RunBreaker(cfg, NewCore(cfg), ops) == RunTextbook(cfg, Serving(EmptyWindow(cfg)), ops)
  {
    RunsAgree(cfg, NewCore(cfg), ops);
  }

  // ---- Recovery takes exactly HalfOpenMaxCalls consecutive successes ----

  function Final(cfg: Config, c: Core, ops: seq<Op>): (r: Core)
    requires Normal(cfg) && Fits(cfg, c.window)
    ensures Fits(cfg, r.window)
    decreases |ops|
  {
    if ops == [] then c else Final(cfg, BreakerStep(cfg, c, ops[0]).0, ops[1..])
  }

  // From Half-Open with k probes done, n further successful calls close the breaker exactly when they complete the
  // count, and the very next failure at any point before that reopens it.
  lemma {:induction false} ProbesCountUp(cfg: Config, c: Core, ops: seq<Op>, fail: Op)
    requires Normal(cfg) && Alone(cfg, c) && c.state == HalfOpen
    requires |ops| <= cfg.halfOpenMaxCalls - c.halfOpenCompleted
    requires forall i | 0 <= i < |ops| :: ops[i].Call? && ops[i].ok
    requires fail.Call? && !fail.ok
    ensures var r := Final(cfg, c, ops);
            if |ops| == cfg.halfOpenMaxCalls - c.halfOpenCompleted
            then r.state == Closed && r.window == EmptyWindow(cfg)
            else
              && r.state == HalfOpen && r.halfOpenCompleted == c.halfOpenCompleted + |ops|
              && BreakerStep(cfg, r, fail).0.state == Open && BreakerStep(cfg, r, fail).0.openedAt == fail.at.trip
    decreases |ops|
  {
    if ops != [] {
      OneStep(cfg, c, ops[0]);
      var d := BreakerStep(cfg, c, ops[0]).0;
      if |ops| > 1 {
        ProbesCountUp(cfg, d, ops[1..], fail);
      }
    }
  }
}
