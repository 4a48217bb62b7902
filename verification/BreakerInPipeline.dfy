// The breaker inside the default pipeline: what callers see while it is Open.
module BreakerInPipeline {
  import opened Wrappers
  import opened Errors
  import opened Pipeline
  import opened Engine
  import Circuit

  // What the breaker layer answers for a breaker in this state at this time: it lets the call on, or refuses.
  function Answer(bcfg: Circuit.Config, core: Circuit.Core, now: int): Option<Err> {
    if Circuit.Admit(bcfg, core, now).1 then None else Some(Simple(CircuitOpen))
  }

  // One layer has refused, nothing was called, and the answer is its error.
  predicate OneRefusal(before: World, after: World, result: Option<Err>) {
    && after.calls == before.calls
    && result.Some?
    && after.refusals == before.refusals + [Refusal(|before.calls|, result.value)]
  }

  predicate AllGates(layers: seq<Layer>) {
    forall i | 0 <= i < |layers| :: layers[i].Gate?
  }

  predicate SomeMayRefuse(layers: seq<Layer>, e: Err) {
    exists i | 0 <= i < |layers| :: layers[i].Gate? && MayRefuse(layers[i].kind, e)
  }

  // One of the gates in front has refused, or each has asked one question and the rest has answered.
  ghost predicate Through(front: seq<Layer>, rest: Handler, w: World, rs: RetryState, r: Option<Err>, v: World) {
    || (OneRefusal(w, v, r) && SomeMayRefuse(front, r.value))
    || (r, v) == rest(w.(asked := w.asked + |front|), rs)
  }

  lemma OneMoreGate(env: Env, kind: GateKind, others: seq<Layer>, next: Handler, rest: Handler, w: World,
                    rs: RetryState)
    requires var x := w.(asked := w.asked + 1); Through(others, rest, x, rs, next(x, rs).0, next(x, rs).1)
    ensures var (r, v) := Guarded(env, kind, next)(w, rs); Through([Gate(kind)] + others, rest, w, rs, r, v)
  {
    var front := [Gate(kind)] + others;
    var (r, v) := Guarded(env, kind, next)(w, rs);
    assert front[0] == Gate(kind) && forall i | 0 <= i < |others| :: front[i + 1] == others[i];
    hide MayRefuse;
    if r.Some? && SomeMayRefuse(others, r.value) {
      var i :| 0 <= i < |others| && others[i].Gate? && MayRefuse(others[i].kind, r.value);
      assert front[i + 1] == others[i];
    }
  }

  lemma {:induction false} ThroughGates(cfg: Config, env: Env, front: seq<Layer>, rest: seq<Layer>, w: World,
                                        rs: RetryState)
    requires AllGates(front)
    ensures var (r, v) := Compose(cfg, env, front + rest)(w, rs);
            Through(front, Compose(cfg, env, rest), w, rs, r, v)
  {
    if front == [] {
      assert front + rest == rest;
    } else {
      var layers := front + rest;
      assert layers[0] == front[0] && layers[1..] == front[1..] + rest && front[0].Gate?;
      assert front == [front[0]] + front[1..];
      assert Compose(cfg, env, layers) == Guarded(env, front[0].kind, Compose(cfg, env, layers[1..]));
      hide Compose, Through, Guarded;
      ThroughGates(cfg, env, front[1..], rest, w.(asked := w.asked + 1), rs);
      OneMoreGate(env, front[0].kind, front[1..], Compose(cfg, env, layers[1..]), Compose(cfg, env, rest), w, rs);
    }
  }

  // What stands between the retry layer and the breaker.
  function BeforeBreaker(c: set<GateKind>): seq<Layer> {
    [Gate(Deadline)] + Optional(Timeout in c, Gate(Timeout))
  }

  function AfterBreaker(c: set<GateKind>): seq<Layer> {
    [Gate(Instrument)] + Optional(RecoverPanics in c, Gate(RecoverPanics)) + Optional(Chaos in c, Gate(Chaos))
  }

  lemma Assoc(a: seq<Layer>, b: seq<Layer>, c: seq<Layer>)
    ensures (a + b) + c == a + (b + c)
  {
  }

  lemma DefaultSplits(c: set<GateKind>)
    requires Breaker in c
    ensures DefaultLayers(c) == OutsideRetry(c) + ([Retry] + (BeforeBreaker(c) + ([Gate(Breaker)] + AfterBreaker(c))))
  {
    var o, d, t := OutsideRetry(c), [Gate(Deadline)], Optional(Timeout in c, Gate(Timeout));
    var i, p := [Gate(Instrument)], Optional(RecoverPanics in c, Gate(RecoverPanics));
    var b, x := [Gate(Breaker)], Optional(Chaos in c, Gate(Chaos));
    assert DefaultLayers(c) == o + [Retry] + d + t + b + i + p + x by { hide OutsideRetry; }
    hide OutsideRetry, Optional, DefaultLayers;
    var z := o + [Retry] + (d + t);
    Assoc(o + [Retry], d, t);
    Assoc(z + b, i, p);
    Assoc(z + b, i + p, x);
    Assoc(z, b, i + p + x);
    Assoc(o + [Retry], d + t, b + (i + p + x));
    Assoc(o, [Retry], d + t + (b + (i + p + x)));
  }

  lemma GatesAround(c: set<GateKind>)
    ensures AllGates(OutsideRetry(c)) && AllGates(BeforeBreaker(c))
  {
    var none: seq<Layer> := [];
    hide Optional;
    MoreGates(none, RateLimit in c, RateLimit);
    var a := none + Optional(RateLimit in c, Gate(RateLimit));
    MoreGates(a, AdaptiveLimit in c, AdaptiveLimit);
    var b := a + Optional(AdaptiveLimit in c, Gate(AdaptiveLimit));
    MoreGates(b, BulkheadGate in c, BulkheadGate);
    MoreGates(b + Optional(BulkheadGate in c, Gate(BulkheadGate)), PriorityBulkheadGate in c, PriorityBulkheadGate);
    MoreGates([Gate(Deadline)], Timeout in c, Timeout);
  }

  lemma MoreGates(layers: seq<Layer>, present: bool, kind: GateKind)
    requires AllGates(layers)
    ensures AllGates(layers + Optional(present, Gate(kind)))
  {
  }

  // The number of the question the breaker layer asks on the first attempt.
  function BreakerAsks(c: set<GateKind>, w: World): nat {
    w.asked + |OutsideRetry(c)| + |BeforeBreaker(c)|
  }

  // Deadline and timeout refuse, if at all, with an error that stops retries.
  lemma BeforeBreakerStops(c: set<GateKind>, e: Err)
    requires SomeMayRefuse(BeforeBreaker(c), e)
    ensures e == Simple(DeadlineExceeded) && Stopping(e)
  {
    assert Is(Simple(DeadlineExceeded), DeadlineExceeded);
  }

  // An attempt that ends at the breaker, or before it.
  lemma AttemptIsRefused(cfg: Config, env: Env, c: set<GateKind>, w: World, rs: RetryState)
    requires env.gate(w.asked + |BeforeBreaker(c)|) == Some(Simple(CircuitOpen))
    ensures var (r, v) := Compose(cfg, env, BeforeBreaker(c) + ([Gate(Breaker)] + AfterBreaker(c)))(w, rs);
            OneRefusal(w, v, r) && Stopping(r.value)
  {
    var inner := [Gate(Breaker)] + AfterBreaker(c);
    GatesAround(c);
    ThroughGates(cfg, env, BeforeBreaker(c), inner, w, rs);
    assert Compose(cfg, env, inner) == Guarded(env, Breaker, Compose(cfg, env, inner[1..]));
    hide Compose, BeforeBreaker, AfterBreaker, SomeMayRefuse, OutsideRetry;
    var (r, v) := Compose(cfg, env, BeforeBreaker(c) + inner)(w, rs);
    BreakerRefuses(env, Compose(cfg, env, inner[1..]), w.(asked := w.asked + |BeforeBreaker(c)|), rs);
    hide Guarded, Stopping;
    if OneRefusal(w, v, r) && SomeMayRefuse(BeforeBreaker(c), r.value) {
      BeforeBreakerStops(c, r.value);
    }
  }

  lemma BreakerRefuses(env: Env, next: Handler, w: World, rs: RetryState)
    requires env.gate(w.asked) == Some(Simple(CircuitOpen))
    ensures var (r, v) := Guarded(env, Breaker, next)(w, rs);
            OneRefusal(w, v, r) && Stopping(r.value)
  {
    assert Is(Simple(CircuitOpen), CircuitOpen);
    hide IsFatal;
  }

  lemma RetryGivesUp(cfg: Config, env: Env, next: Handler, w: World, rs: RetryState)
    requires cfg.maxAttempts > 0
    requires var (r, v) := next(w, Shown(Begin(w, rs))); OneRefusal(w, v, r) && Stopping(r.value)
    ensures var (r, v) := next(w, Shown(Begin(w, rs)));
            Retrying(cfg, env, next)(w, rs) == (Join([r.value]), v)
  {
    var (r, v) := next(w, Shown(Begin(w, rs)));
    StoppingEnds(cfg.policy, r.value);
    assert [] + [r.value] == [r.value];
    hide Ends, Stopping, PauseAfter;
  }

  // One refusal, with an error that stops retries, and the answer joins just that one.
  predicate GivesUp(before: World, after: World, result: Option<Err>) {
    && after.calls == before.calls
    && |after.refusals| == |before.refusals| + 1 && before.refusals <= after.refusals
    && var e := after.refusals[|before.refusals|].error; Stopping(e) && result == Join([e])
  }

  lemma RetryEnds(cfg: Config, env: Env, c: set<GateKind>, w: World, rs: RetryState)
    requires cfg.maxAttempts > 0 && env.gate(w.asked + |BeforeBreaker(c)|) == Some(Simple(CircuitOpen))
    ensures var (r, v) := Compose(cfg, env, [Retry] + (BeforeBreaker(c) + ([Gate(Breaker)] + AfterBreaker(c))))(w, rs);
            GivesUp(w, v, r)
  {
    var inner := BeforeBreaker(c) + ([Gate(Breaker)] + AfterBreaker(c));
    assert ([Retry] + inner)[1..] == inner;
    assert Compose(cfg, env, [Retry] + inner) == Retrying(cfg, env, Compose(cfg, env, inner));
    hide Compose, Retrying, Stopping, BeforeBreaker, AfterBreaker;
    AttemptIsRefused(cfg, env, c, w, Shown(Begin(w, rs)));
    RetryGivesUp(cfg, env, Compose(cfg, env, inner), w, rs);
  }

  // What a refused call leaves behind: one gate outside the retry layer has refused, or the retry layer has given up.
  ghost predicate Refused(c: set<GateKind>, w: World, r: Option<Err>, v: World) {
    (OneRefusal(w, v, r) && SomeMayRefuse(OutsideRetry(c), r.value)) || GivesUp(w, v, r)
  }

  lemma ThroughToRefused(c: set<GateKind>, rest: Handler, w: World, rs: RetryState, r: Option<Err>, v: World)
    requires Through(OutsideRetry(c), rest, w, rs, r, v)
    requires var x := w.(asked := w.asked + |OutsideRetry(c)|); GivesUp(x, rest(x, rs).1, rest(x, rs).0)
    ensures Refused(c, w, r, v)
  {
    hide SomeMayRefuse, OutsideRetry, Stopping;
  }

  lemma RefusalStopsCalls(cfg: Config, env: Env, c: set<GateKind>, w: World, rs: RetryState)
    requires cfg.maxAttempts > 0 && Breaker in c
    requires env.gate(BreakerAsks(c, w)) == Some(Simple(CircuitOpen))
    ensures Refused(c, w, Compose(cfg, env, DefaultLayers(c))(w, rs).0, Compose(cfg, env, DefaultLayers(c))(w, rs).1)
  {
    hide Compose, DefaultLayers, OutsideRetry, BeforeBreaker, AfterBreaker, Refused, Through, GivesUp;
    var rest := [Retry] + (BeforeBreaker(c) + ([Gate(Breaker)] + AfterBreaker(c)));
    var (r, v) := Compose(cfg, env, DefaultLayers(c))(w, rs);
    DefaultSplits(c);
    GatesAround(c);
    ThroughGates(cfg, env, OutsideRetry(c), rest, w, rs);
    RetryEnds(cfg, env, c, w.(asked := w.asked + |OutsideRetry(c)|), rs);
    ThroughToRefused(c, Compose(cfg, env, rest), w, rs, r, v);
  }

  // While the breaker is Open and its reset timeout has not passed, a call through the default pipeline ends after a
  // single refusal: the action is not called, nothing is retried, whatever else is configured.
  lemma OpenBreakerStopsCalls(cfg: Config, env: Env, c: set<GateKind>, bcfg: Circuit.Config, core: Circuit.Core,
                              now: int, w: World, rs: RetryState)
    requires cfg.maxAttempts > 0 && Breaker in c
    requires core.state == Circuit.Open && now - core.openedAt <= bcfg.resetTimeout
    requires env.gate(BreakerAsks(c, w)) == Answer(bcfg, core, now)
    ensures var (r, v) := Compose(cfg, env, DefaultLayers(c))(w, rs);
            Refused(c, w, r, v) && v.calls == w.calls && |v.refusals| == |w.refusals| + 1 && r.Some?
  {
    hide Compose, DefaultLayers, OutsideRetry, BeforeBreaker, AfterBreaker, BreakerAsks, Stopping, SomeMayRefuse;
    RefusalStopsCalls(cfg, env, c, w, rs);
  }
}
