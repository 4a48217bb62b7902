// The onion of middlewares around the action, as functions from the world before a call to the world after it.
module Pipeline {
  import opened Wrappers
  import opened Errors
  import Backoff

  // What the action is shown.
  datatype RetryState = RetryState(attempt: nat, lastError: Option<Err>, maxAttempts: nat)

  datatype Call = Call(state: RetryState, outcome: Option<Err>)

  datatype Nap = Elapsed | CutShort(why: Sentinel)

  // Everything the engine does not decide. The questions it asks are numbered, so the answers may depend on
  // anything that has happened.
  datatype Env = Env(
    action: (nat, RetryState) -> Option<Err>,
    gate: nat -> Option<Err>,
    token: nat -> bool,
    draw: nat -> nat,
    nap: nat -> Nap)

  // A layer refused to call on, after that many calls of the action.
  datatype Refusal = Refusal(after: nat, error: Err)

  datatype World = World(asked: nat, calls: seq<Call>, refusals: seq<Refusal>)

  datatype Config = Config(
    maxAttempts: nat,
    policy: Policy,
    hasBucket: bool,
    base: int,
    cap: int,
    fallback: Option<Err -> Option<Err>>)

  datatype GateKind =
    | RateLimit
    | AdaptiveLimit
    | BulkheadGate
    | PriorityBulkheadGate
    | Deadline
    | Timeout
    | Breaker
    | Instrument
    | RecoverPanics
    | Chaos

  datatype Layer = Retry | Fallback | Gate(kind: GateKind)

  type Handler = (World, RetryState) -> (Option<Err>, World)

  function ContextErr(why: Sentinel): Err {
    Simple(if why == DeadlineExceeded then DeadlineExceeded else Canceled)
  }

  predicate IsContextErr(e: Err) {
    e == Simple(Canceled) || e == Simple(DeadlineExceeded)
  }

  // The errors with which a layer may refuse to call on.
  predicate MayRefuse(kind: GateKind, e: Err) {
    match kind
    case RateLimit => e == Simple(RateLimitExceeded)
    case AdaptiveLimit => e == Simple(ShedLoad)
    case BulkheadGate => e == Simple(BulkheadFull) || IsContextErr(e)
    case PriorityBulkheadGate => e == Simple(BulkheadFull) || e == Simple(ShedLoad) || IsContextErr(e)
    case Deadline => e == Simple(DeadlineExceeded)
    case Breaker => e == Simple(CircuitOpen) || IsContextErr(e)
    case Chaos => true
    case Timeout => false
    case Instrument => false
    case RecoverPanics => false
  }

  function Terminal(env: Env): Handler {
    (w: World, rs: RetryState) =>
      var r := env.action(|w.calls|, rs);
      (r, w.(calls := w.calls + [Call(rs, r)]))
  }

  // A layer that either refuses, or calls on exactly once and hands the answer back.
  function Guarded(env: Env, kind: GateKind, next: Handler): Handler {
    (w: World, rs: RetryState) =>
      var refusal := env.gate(w.asked);
      var asked := w.(asked := w.asked + 1);
      if refusal.Some? && MayRefuse(kind, refusal.value)
      then (refusal, asked.(refusals := w.refusals + [Refusal(|w.calls|, refusal.value)]))
      else next(asked, rs)
  }

  function WithFallback(cfg: Config, next: Handler): Handler {
    (w: World, rs: RetryState) =>
      var (r, v) := next(w, rs);
      if r.Some? && cfg.fallback.Some? then (cfg.fallback.value(r.value), v) else (r, v)
  }

  // ---- The retry loop ----

  // What one execution of the loop does that the shared token bucket can notice.
  datatype Move = Try | Ask(granted: bool) | Succeed

  datatype Attempt = Attempt(state: RetryState, result: Option<Err>)

  // A delay decided on, and how the sleep went if there was one.
  datatype Slept = Slept(delay: int, nap: Option<Nap>)

  // The loop's variables: the world, its error list and the state it passes on; then what it has done so far.
  datatype Progress = Progress(
    world: World,
    errs: seq<Err>,
    state: RetryState,
    attempts: seq<Attempt>,
    drawn: seq<nat>,
    pauses: seq<Slept>,
    moves: seq<Move>)

  datatype Finished = Finished(result: Option<Err>, progress: Progress, cut: Option<Sentinel>)

  function Begin(w: World, rs: RetryState): Progress {
    Progress(w, [], rs, [], [], [], [])
  }

  function Shown(p: Progress): RetryState {
    p.state.(attempt := |p.errs|, lastError := if p.errs != [] then Some(p.errs[|p.errs| - 1]) else p.state.lastError)
  }

  // Between a failed attempt and the next one: the bucket, the backoff, a Retry-After override, and the sleep.
  datatype Pause = GiveUp(progress: Progress) | Cut(progress: Progress, why: Sentinel) | Resume(progress: Progress)

  function Ask1(p: Progress): Progress {
    p.(world := p.world.(asked := p.world.asked + 1))
  }

  function PauseAfter(cfg: Config, env: Env, p: Progress): Pause
    requires p.errs != []
  {
    var e := p.errs[|p.errs| - 1];
    var granted := env.token(p.world.asked);
    var q := if cfg.hasBucket then Ask1(p).(moves := p.moves + [Ask(granted)]) else p;
    if cfg.hasBucket && !granted then GiveUp(q)
    else
      var d := Backoff.Next(cfg.base, cfg.cap, |p.errs| - 1, env.draw(q.world.asked));
      var r := Ask1(q).(drawn := q.drawn + [d]);
      var override := FirstRetryAfter(e);
      if override.Some? && override.value.cancelAll then GiveUp(r)
      else
        var delay := if override.Some? then override.value.delay else d;
        if delay <= 0 then Resume(r.(pauses := r.pauses + [Slept(delay, None)]))
        else
          var nap := env.nap(r.world.asked);
          var s := Ask1(r).(pauses := r.pauses + [Slept(delay, Some(nap))]);
          match nap
          case Elapsed => Resume(s)
          case CutShort(why) => Cut(s, why)
  }

  function RetryFrom(cfg: Config, env: Env, next: Handler, p: Progress): Finished
    decreases cfg.maxAttempts - |p.errs|
  {
    if |p.errs| >= cfg.maxAttempts then Finished(Join(p.errs), p, None)
    else
      var rs := Shown(p);
      var (r, w) := next(p.world, rs);
      var q := p.(world := w, state := rs, attempts := p.attempts + [Attempt(rs, r)], moves := p.moves + [Try]);
      match r
      case None => Finished(None, q.(moves := q.moves + [Succeed]), None)
      case Some(e) =>
        var f := q.(errs := q.errs + [e]);
        if Ends(cfg.policy, e) || |f.errs| >= cfg.maxAttempts then Finished(Join(f.errs), f, None)
        else
          match PauseAfter(cfg, env, f)
          case GiveUp(g) => Finished(Join(g.errs), g, None)
          case Cut(g, why) => Finished(Join(g.errs + [ContextErr(why)]), g, Some(why))
          case Resume(g) => RetryFrom(cfg, env, next, g)
  }

  function Retrying(cfg: Config, env: Env, next: Handler): Handler {
    (w: World, rs: RetryState) =>
      var f := RetryFrom(cfg, env, next, Begin(w, rs));
      (f.result, f.progress.world)
  }

  // ---- Composition ----

  function Wrap(cfg: Config, env: Env, layer: Layer, next: Handler): Handler {
    match layer
    case Retry => Retrying(cfg, env, next)
    case Fallback => WithFallback(cfg, next)
    case Gate(kind) => Guarded(env, kind, next)
  }

  function Compose(cfg: Config, env: Env, layers: seq<Layer>): Handler {
    if layers == [] then Terminal(env) else Wrap(cfg, env, layers[0], Compose(cfg, env, layers[1..]))
  }
}
