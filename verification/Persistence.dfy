// That the engine does go on: how often the action is called when nothing stops it, and what each call is shown.
module Persistence {
  import opened Wrappers
  import opened Errors
  import opened Pipeline
  import opened PipelineTheorems

  // An error that gives no reason to stop and asks for no delay of its own.
  predicate PlainError(e: Err) {
    !Stopping(e) && FirstRetryAfter(e).None?
  }

  lemma {:induction false} NoPushbackIn(es: seq<Err>)
    requires forall e | e in es :: FirstRetryAfter(e).None?
    ensures FirstRetryAfterIn(es).None?
  {
    if es != [] {
      NoPushbackIn(es[1..]);
    }
  }

  lemma JoinIsPlain(errs: seq<Err>)
    requires errs != [] && forall e | e in errs :: PlainError(e)
    ensures Join(errs).Some? && PlainError(Join(errs).value)
  {
    JoinStops(errs);
    NoPushbackIn(errs);
    hide Stopping;
  }

  // No layer refuses, no sleep is cut short, no bucket is asked, and the default retry condition is in force.
  ghost predicate Undisturbed(cfg: Config, env: Env) {
    && cfg.policy == Policy(None, None) && !cfg.hasBucket
    && (forall k :: env.gate(k).None?)
    && (forall k :: env.nap(k) == Elapsed)
  }

  lemma PauseResumes(cfg: Config, env: Env, p: Progress)
    requires Undisturbed(cfg, env) && p.errs != [] && FirstRetryAfter(p.errs[|p.errs| - 1]).None?
    ensures var pause := PauseAfter(cfg, env, p);
            pause.Resume? && pause.progress.world.calls == p.world.calls && pause.progress.errs == p.errs
  {
    hide FirstRetryAfter;
  }

  // One failed attempt with a plain error is followed by the next.
  lemma GoesAround(cfg: Config, env: Env, next: Handler, p: Progress) returns (g: Progress)
    requires Undisturbed(cfg, env) && |p.errs| + 1 < cfg.maxAttempts
    requires var (r, w) := next(p.world, Shown(p)); r.Some? && PlainError(r.value)
    ensures var (r, w) := next(p.world, Shown(p));
            && RetryFrom(cfg, env, next, p) == RetryFrom(cfg, env, next, g)
            && g.world.calls == w.calls && g.errs == p.errs + [r.value]
  {
    var rs := Shown(p);
    var (r, w) := next(p.world, rs);
    var f := p.(world := w, state := rs, attempts := p.attempts + [Attempt(rs, r)], moves := p.moves + [Try],
                errs := p.errs + [r.value]);
    EmptyPolicyGoesOn(cfg.policy, r.value);
    PauseResumes(cfg, env, f);
    g := PauseAfter(cfg, env, f).progress;
    hide PauseAfter, Ends, Stopping, FirstRetryAfter, Undisturbed, Shown;
  }

  // The last attempt, failed.
  lemma LastFails(cfg: Config, env: Env, next: Handler, p: Progress)
    requires |p.errs| + 1 == cfg.maxAttempts && next(p.world, Shown(p)).0.Some?
    ensures var (r, w) := next(p.world, Shown(p));
            var f := RetryFrom(cfg, env, next, p);
            f.result == Join(p.errs + [r.value]) && f.progress.world.calls == w.calls
  {
    hide PauseAfter, Ends, Shown;
  }

  // ---- The bound on calls is reached ----

  // The handler always fails with a plain error, after exactly n calls of the action.
  ghost predicate Fails(h: Handler, n: nat) {
    forall w: World, rs: RetryState ::
      h(w, rs).0.Some? && PlainError(h(w, rs).0.value) && |h(w, rs).1.calls| == |w.calls| + n
  }

  lemma {:induction false} RetryMakesAll(cfg: Config, env: Env, next: Handler, n: nat, p: Progress, left: nat)
    requires Undisturbed(cfg, env) && Fails(next, n) && left > 0 && |p.errs| + left == cfg.maxAttempts
    requires forall e | e in p.errs :: PlainError(e)
    ensures var f := RetryFrom(cfg, env, next, p);
            && f.result.Some? && PlainError(f.result.value)
            && |f.progress.world.calls| == |p.world.calls| + left * n
    decreases left
  {
    hide PlainError, Undisturbed, RetryFrom, Shown, Join;
    var (r, w) := next(p.world, Shown(p));
    assert r.Some? && PlainError(r.value) && |w.calls| == |p.world.calls| + n;
    hide Fails;
    OneTimesMore(left, n);
    if left == 1 {
      LastFails(cfg, env, next, p);
      JoinIsPlain(p.errs + [r.value]);
    } else {
      var g := GoesAround(cfg, env, next, p);
      RetryMakesAll(cfg, env, next, n, g, left - 1);
    }
  }

  lemma OneTimesMore(left: nat, n: nat)
    requires left > 0
    ensures left * n == (left - 1) * n + n
    ensures left == 1 ==> left * n == n
  {
  }

  // An action that never succeeds, and never says why to stop.
  ghost predicate AlwaysFails(env: Env) {
    forall n: nat, rs: RetryState :: env.action(n, rs).Some? && PlainError(env.action(n, rs).value)
  }

  lemma RetryFails(cfg: Config, env: Env, next: Handler, n: nat)
    requires Undisturbed(cfg, env) && Fails(next, n) && cfg.maxAttempts > 0
    ensures Fails(Retrying(cfg, env, next), cfg.maxAttempts * n)
  {
    hide RetryFrom, PlainError, Undisturbed;
    forall w: World, rs: RetryState
      ensures var (r, v) := Retrying(cfg, env, next)(w, rs);
              r.Some? && PlainError(r.value) && |v.calls| == |w.calls| + cfg.maxAttempts * n
    {
      RetryMakesAll(cfg, env, next, n, Begin(w, rs), cfg.maxAttempts);
    }
  }

  lemma GateFails(cfg: Config, env: Env, kind: GateKind, next: Handler, n: nat)
    requires Undisturbed(cfg, env) && Fails(next, n)
    ensures Fails(Guarded(env, kind, next), n)
  {
    hide PlainError, MayRefuse;
    forall w: World, rs: RetryState
      ensures var (r, v) := Guarded(env, kind, next)(w, rs);
              r.Some? && PlainError(r.value) && |v.calls| == |w.calls| + n
    {
      var asked := w.(asked := w.asked + 1);
      assert Guarded(env, kind, next)(w, rs) == next(asked, rs);
      assert |asked.calls| == |w.calls|;
    }
  }

  // For any list of layers without a fallback: such an action is called exactly MaxAttempts to the power of the number
  // of retry layers times, so that bound is tight.
  lemma {:induction false} CallBoundIsReached(cfg: Config, env: Env, layers: seq<Layer>)
    requires Undisturbed(cfg, env) && AlwaysFails(env) && NoFallback(layers) && cfg.maxAttempts > 0
    ensures Fails(Compose(cfg, env, layers), Power(cfg.maxAttempts, Retries(layers)))
  {
    hide PlainError, Undisturbed, Retrying, Guarded;
    if layers != [] {
      var next := Compose(cfg, env, layers[1..]);
      var n := Power(cfg.maxAttempts, Retries(layers[1..]));
      ComposeHead(cfg, env, layers);
      assert !layers[0].Fallback?;
      hide Compose, Fails, AlwaysFails;
      CallBoundIsReached(cfg, env, layers[1..]);
      if layers[0].Retry? {
        RetryFails(cfg, env, next, n);
      } else {
        GateFails(cfg, env, layers[0].kind, next, n);
      }
    }
  }

  // ---- Success after failures ----

  // The first k calls from here fail with plain errors, and the next one succeeds.
  ghost predicate SucceedsAfter(env: Env, from: nat, k: nat) {
    forall i: nat, rs: RetryState | from <= i <= from + k ::
      && (env.action(i, rs).None? <==> i == from + k)
      && (env.action(i, rs).Some? ==> PlainError(env.action(i, rs).value))
  }

  lemma AttemptSucceeds(cfg: Config, env: Env, next: Handler, p: Progress)
    requires |p.errs| < cfg.maxAttempts && next(p.world, Shown(p)).0.None?
    ensures var f := RetryFrom(cfg, env, next, p);
            f.result.None? && f.progress.world.calls == next(p.world, Shown(p)).1.calls
  {
    hide PauseAfter, Ends, Shown;
  }

  lemma {:induction false} RetryPersists(cfg: Config, env: Env, p: Progress, k: nat)
    requires Undisturbed(cfg, env) && SucceedsAfter(env, |p.world.calls|, k) && |p.errs| + k < cfg.maxAttempts
    ensures var f := RetryFrom(cfg, env, Terminal(env), p);
            f.result.None? && |f.progress.world.calls| == |p.world.calls| + k + 1
    decreases k
  {
    hide PlainError, Undisturbed, RetryFrom, Shown;
    var (r, w) := Terminal(env)(p.world, Shown(p));
    assert r == env.action(|p.world.calls|, Shown(p)) && |w.calls| == |p.world.calls| + 1;
    if k > 0 {
      assert r.Some? && PlainError(r.value);
      var g := GoesAround(cfg, env, Terminal(env), p);
      assert SucceedsAfter(env, |g.world.calls|, k - 1);
      hide SucceedsAfter, Terminal;
      RetryPersists(cfg, env, g, k - 1);
    } else {
      AttemptSucceeds(cfg, env, Terminal(env), p);
    }
  }

  // With fewer than MaxAttempts plain failures before the first success, a retried action is called just up to that
  // success, and the answer is nil.
  lemma PersistsUntilSuccess(cfg: Config, env: Env, w: World, rs: RetryState, k: nat)
    requires Undisturbed(cfg, env) && SucceedsAfter(env, |w.calls|, k) && k < cfg.maxAttempts
    ensures var (r, v) := Compose(cfg, env, [Retry])(w, rs);
            r.None? && |v.calls| == |w.calls| + k + 1
  {
    RetryPersists(cfg, env, Begin(w, rs), k);
    assert [Retry][1..] == [];
    assert Compose(cfg, env, [Retry]) == Retrying(cfg, env, Terminal(env));
    hide RetryFrom, SucceedsAfter, Undisturbed;
  }

  // ---- What a call is shown ----

  // Every new call is shown this state.
  predicate AllShown(before: seq<Call>, after: seq<Call>, rs: RetryState) {
    before <= after && forall i | |before| <= i < |after| :: after[i].state == rs
  }

  // Layers other than retry pass on the state they are given.
  lemma {:induction false} OthersPassState(cfg: Config, env: Env, layers: seq<Layer>, w: World, rs: RetryState)
    requires Retries(layers) == 0
    ensures AllShown(w.calls, Compose(cfg, env, layers)(w, rs).1.calls, rs)
  {
    if layers != [] {
      OthersPassState(cfg, env, layers[1..], w, rs);
      OthersPassState(cfg, env, layers[1..], w.(asked := w.asked + 1), rs);
      hide RetryFrom, MayRefuse, Retrying;
    }
  }

  // ---- What a fallback answers ----

  // A fallback layer lets nil through, answers any error with its handler's answer if it has one, and calls nothing.
  lemma FallbackAnswers(cfg: Config, env: Env, rest: seq<Layer>, w: World, rs: RetryState)
    ensures var (r, v) := Compose(cfg, env, rest)(w, rs);
            var (answer, after) := Compose(cfg, env, [Fallback] + rest)(w, rs);
            && after == v
            && (r.None? || cfg.fallback.None? ==> answer == r)
            && (r.Some? && cfg.fallback.Some? ==> answer == cfg.fallback.value(r.value))
  {
    assert ([Fallback] + rest)[1..] == rest;
    assert Compose(cfg, env, [Fallback] + rest) == WithFallback(cfg, Compose(cfg, env, rest));
    hide Compose;
  }
}
