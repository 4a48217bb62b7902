// Properties of every composed pipeline, by induction over its layers.
module PipelineTheorems {
  import opened Wrappers
  import opened Errors
  import opened Pipeline

  function Power(b: nat, k: nat): nat {
    if k == 0 then 1 else b * Power(b, k - 1)
  }

  function Retries(layers: seq<Layer>): nat {
    if layers == [] then 0 else Retries(layers[1..]) + (if layers[0].Retry? then 1 else 0)
  }

  predicate NoFallback(layers: seq<Layer>) {
    forall i | 0 <= i < |layers| :: !layers[i].Fallback?
  }

  // ---- What handlers do to the list of action calls ----

  // Calls are only ever added, at most n of them.
  predicate Adds(before: seq<Call>, after: seq<Call>, n: nat) {
    before <= after && |after| <= |before| + n
  }

  ghost predicate CallsAtMost(h: Handler, n: nat) {
    forall w: World, rs: RetryState :: Adds(w.calls, h(w, rs).1.calls, n)
  }

  // Calls and refusals are only ever added, the refusals in step with the calls.
  predicate Grows(before: World, after: World) {
    && before.calls <= after.calls && before.refusals <= after.refusals
    && forall i | |before.refusals| <= i < |after.refusals| ::
         |before.calls| <= after.refusals[i].after <= |after.calls|
  }

  // Nothing comes after a stopping error, whether the action returned it or a layer refused with it: no further call
  // and no further refusal.
  predicate NoneAfter(before: World, after: World) {
    && Grows(before, after)
    && (forall i | |before.calls| <= i < |after.calls| && StopsAt(after.calls[i].outcome) :: NothingSince(after, i))
    && (forall i | |before.refusals| <= i < |after.refusals| && Stopping(after.refusals[i].error) ::
          i == |after.refusals| - 1 && after.refusals[i].after == |after.calls|)
  }

  predicate StopsAt(outcome: Option<Err>) {
    outcome.Some? && Stopping(outcome.value)
  }

  predicate NothingSince(after: World, i: nat) {
    i == |after.calls| - 1 && forall j | 0 <= j < |after.refusals| :: after.refusals[j].after <= i
  }

  // The refusals so far lie within the calls so far.
  predicate Coherent(w: World) {
    forall i | 0 <= i < |w.refusals| :: w.refusals[i].after <= |w.calls|
  }

  // There was a stopping error.
  ghost predicate Stopped(before: World, after: World) {
    || (exists i :: |before.calls| <= i < |after.calls| && StopsAt(after.calls[i].outcome))
    || (exists i :: |before.refusals| <= i < |after.refusals| && Stopping(after.refusals[i].error))
  }

  // Nothing comes after a stopping error, and the answer says that there was one.
  ghost predicate Stops(before: World, after: World, result: Option<Err>) {
    && NoneAfter(before, after)
    && (Stopped(before, after) ==> StopsAt(result))
  }

  ghost predicate StopsCold(h: Handler) {
    forall w: World, rs: RetryState | Coherent(w) :: Stops(w, h(w, rs).1, h(w, rs).0)
  }

  ghost predicate LastWord(h: Handler) {
    forall w: World, rs: RetryState | Coherent(w) :: NoneAfter(w, h(w, rs).1)
  }

  // The answer is nil exactly when the action was called and its last call succeeded, and nothing is called after a
  // success.
  predicate Tells(before: seq<Call>, after: seq<Call>, result: Option<Err>) {
    && before <= after
    && (result.None? <==> |after| > |before| && after[|after| - 1].outcome.None?)
    && forall i | |before| <= i < |after| && after[i].outcome.None? :: i == |after| - 1
  }

  ghost predicate Honest(h: Handler) {
    forall w: World, rs: RetryState :: Tells(w.calls, h(w, rs).1.calls, h(w, rs).0)
  }

  // Every call recorded is what the action answers to that call.
  predicate Scripted(env: Env, before: seq<Call>, after: seq<Call>) {
    && before <= after
    && forall i | |before| <= i < |after| :: after[i].outcome == env.action(i, after[i].state)
  }

  ghost predicate Records(env: Env, h: Handler) {
    forall w: World, rs: RetryState :: Scripted(env, w.calls, h(w, rs).1.calls)
  }

  lemma TellsChain(a: seq<Call>, b: seq<Call>, c: seq<Call>, first: Option<Err>, result: Option<Err>)
    requires Tells(a, b, first) && first.Some? && Tells(b, c, result)
    ensures Tells(a, c, result)
  {
    assert c[..|b|] == b;
  }

  lemma StopsChain(a: World, b: World, c: World, first: Option<Err>, result: Option<Err>)
    requires Stops(a, b, first) && !StopsAt(first) && Stops(b, c, result) && Coherent(a)
    ensures Stops(a, c, result)
  {
    assert c.calls[..|b.calls|] == b.calls && c.refusals[..|b.refusals|] == b.refusals;
    assert Coherent(b) by { GrowsCoherent(a, b); }
    assert !Stopped(a, b);
    assert forall i | |a.calls| <= i < |b.calls| :: !StopsAt(b.calls[i].outcome);
    assert forall i | |a.refusals| <= i < |b.refusals| :: !Stopping(b.refusals[i].error);
    hide Stopping;
  }

  lemma GrowsCoherent(a: World, b: World)
    requires Coherent(a) && Grows(a, b)
    ensures Coherent(b)
  {
    assert b.refusals[..|a.refusals|] == a.refusals;
  }

  // ---- The pause between attempts calls nothing ----

  lemma PauseCallsNothing(cfg: Config, env: Env, p: Progress)
    requires p.errs != []
    ensures var q := PauseAfter(cfg, env, p).progress;
            && q.world.calls == p.world.calls && q.world.refusals == p.world.refusals
            && q.errs == p.errs && q.state == p.state && q.attempts == p.attempts
  {
  }

  // One turn of the retry loop: it ends with the answer of this attempt, or goes on with its error added.
  lemma RetryStep(cfg: Config, env: Env, next: Handler, p: Progress) returns (again: bool, g: Progress)
    requires |p.errs| < cfg.maxAttempts
    ensures var (r, w) := next(p.world, Shown(p));
            var f := RetryFrom(cfg, env, next, p);
            && g.world.calls == w.calls && g.world.refusals == w.refusals
            && (r.None? ==> !again && f.result.None? && g == f.progress)
            && (r.Some? ==> g.errs == p.errs + [r.value])
            && (again ==> r.Some? && f == RetryFrom(cfg, env, next, g) && !Ends(cfg.policy, r.value)
                          && |g.errs| < cfg.maxAttempts)
            && (r.Some? && !again ==>
                  && g == f.progress
                  && f.result == Join(if f.cut.Some? then g.errs + [ContextErr(f.cut.value)] else g.errs)
                  && (f.cut.Some? ==> !Ends(cfg.policy, r.value)))
  {
    var rs := Shown(p);
    var (r, w) := next(p.world, rs);
    var q := p.(world := w, state := rs, attempts := p.attempts + [Attempt(rs, r)], moves := p.moves + [Try]);
    again := false;
    match r
    case None => g := q.(moves := q.moves + [Succeed]);
    case Some(e) =>
      g := q.(errs := q.errs + [e]);
      if !Ends(cfg.policy, e) && |g.errs| < cfg.maxAttempts {
        PauseCallsNothing(cfg, env, g);
        var pause := PauseAfter(cfg, env, g);
        again, g := pause.Resume?, pause.progress;
      }
  }

  // ---- Bound on the number of calls ----

  lemma AddsChain(a: seq<Call>, b: seq<Call>, n: nat, c: seq<Call>, left: nat)
    requires left > 0 && Adds(a, b, n) && (c == b || Adds(b, c, (left - 1) * n))
    ensures Adds(a, c, left * n)
  {
    assert left * n == (left - 1) * n + n;
  }

  lemma {:induction false} RetryCallsAtMost(cfg: Config, env: Env, next: Handler, n: nat, p: Progress, left: nat)
    requires CallsAtMost(next, n) && |p.errs| + left == cfg.maxAttempts
    ensures Adds(p.world.calls, RetryFrom(cfg, env, next, p).progress.world.calls, left * n)
    decreases left
  {
    if left > 0 {
      var again, g := RetryStep(cfg, env, next, p);
      assert Adds(p.world.calls, g.world.calls, n);
      hide RetryFrom, Shown, Ends, Join, CallsAtMost, Adds;
      if again {
        RetryCallsAtMost(cfg, env, next, n, g, left - 1);
      }
      AddsChain(p.world.calls, g.world.calls, n, RetryFrom(cfg, env, next, p).progress.world.calls, left);
    }
  }

  lemma WrapCallsAtMost(cfg: Config, env: Env, layer: Layer, next: Handler, n: nat)
    requires CallsAtMost(next, n)
    ensures CallsAtMost(Wrap(cfg, env, layer, next), if layer.Retry? then cfg.maxAttempts * n else n)
  {
    hide RetryFrom;
    forall w: World, rs: RetryState
      ensures Adds(w.calls, Wrap(cfg, env, layer, next)(w, rs).1.calls, if layer.Retry? then cfg.maxAttempts * n else n)
    {
      if layer.Retry? {
        RetryCallsAtMost(cfg, env, next, n, Begin(w, rs), cfg.maxAttempts);
      }
    }
  }

  // For any list of layers: the action runs at most MaxAttempts to the power of the number of retry layers.
  lemma {:induction false} CallBound(cfg: Config, env: Env, layers: seq<Layer>)
    ensures CallsAtMost(Compose(cfg, env, layers), Power(cfg.maxAttempts, Retries(layers)))
  {
    if layers != [] {
      CallBound(cfg, env, layers[1..]);
      WrapCallsAtMost(cfg, env, layers[0], Compose(cfg, env, layers[1..]),
                      Power(cfg.maxAttempts, Retries(layers[1..])));
      hide Wrap, CallsAtMost;
    }
  }

  // Shed load and exhausted limits are no reason to stop: of the layers that refuse, only the deadline and the breaker,
  // a bulkhead whose context is done, and chaos can end the retries.
  lemma RefusalsThatStop(kind: GateKind, e: Err)
    requires MayRefuse(kind, e) && kind != Chaos
    ensures Stopping(e) <==> e == Simple(CircuitOpen) || IsContextErr(e)
    ensures e == Simple(CircuitOpen) ==> kind == Breaker
    ensures IsContextErr(e) ==> kind in {Deadline, Breaker, BulkheadGate, PriorityBulkheadGate}
    ensures kind == RateLimit ==> e == Simple(RateLimitExceeded)
    ensures kind == AdaptiveLimit ==> e == Simple(ShedLoad)
    ensures kind == BulkheadGate && !IsContextErr(e) ==> e == Simple(BulkheadFull)
    ensures kind == PriorityBulkheadGate && !IsContextErr(e) ==> e in {Simple(BulkheadFull), Simple(ShedLoad)}
  {
    var s :| e == Simple(s);
    assert forall x :: Is(Simple(s), x) <==> x == s;
    assert !IsFatal(Simple(s));
  }

  // ---- Stopping errors stop every enclosing loop ----

  lemma {:induction false} RetryStopsCold(cfg: Config, env: Env, next: Handler, p: Progress)
    requires StopsCold(next) && Coherent(p.world)
    ensures var f := RetryFrom(cfg, env, next, p); Stops(p.world, f.progress.world, f.result)
    decreases cfg.maxAttempts - |p.errs|
  {
    if |p.errs| >= cfg.maxAttempts {
      NothingHappened(p.world, Join(p.errs));
    } else {
      var (r, w) := next(p.world, Shown(p));
      var f := RetryFrom(cfg, env, next, p);
      var again, g := RetryStep(cfg, env, next, p);
      assert Stops(p.world, w, r);
      hide RetryFrom, Shown, Ends, StopsCold, Stopping;
      OnlyAsked(p.world, w, g.world, r);
      if r.Some? {
        assert r.value == g.errs[|g.errs| - 1];
        if StopsAt(r) {
          StoppingEnds(cfg.policy, r.value);
          JoinStops(g.errs);
          assert !again;
        } else if again {
          GrowsCoherent(p.world, g.world);
          RetryStopsCold(cfg, env, next, g);
          StopsChain(p.world, g.world, f.progress.world, r, f.result);
        }
      }
      hide Stops, StopsAt, Coherent;
    }
  }

  lemma NothingHappened(w: World, result: Option<Err>)
    ensures Stops(w, w, result)
  {
  }

  // Questions asked in between are no calls and no refusals.
  lemma OnlyAsked(before: World, w: World, after: World, result: Option<Err>)
    requires after.calls == w.calls && after.refusals == w.refusals
    ensures Stops(before, w, result) ==> Stops(before, after, result)
    ensures NoneAfter(before, w) ==> NoneAfter(before, after)
  {
    hide Stopping;
  }

  lemma GateStops(env: Env, kind: GateKind, next: Handler, w: World, rs: RetryState)
    requires Coherent(w)
    ensures StopsCold(next) ==> Stops(w, Guarded(env, kind, next)(w, rs).1, Guarded(env, kind, next)(w, rs).0)
    ensures LastWord(next) ==> NoneAfter(w, Guarded(env, kind, next)(w, rs).1)
  {
    var asked := w.(asked := w.asked + 1);
    var (r, v) := Guarded(env, kind, next)(w, rs);
    hide Stopping;
    assert Coherent(asked);
    if StopsCold(next) {
      assert Stops(asked, next(asked, rs).1, next(asked, rs).0);
    }
  }

  lemma TerminalStops(env: Env)
    ensures StopsCold(Terminal(env))
  {
    hide Stopping;
  }

  // With no fallback layer: after the action returns, or a layer refuses with, an error whose tree contains a fatal
  // mark, a cancellation, a deadline or an open circuit, no retry layer at any depth calls on again.
  lemma {:induction false} StoppingIsFinal(cfg: Config, env: Env, layers: seq<Layer>)
    requires NoFallback(layers)
    ensures StopsCold(Compose(cfg, env, layers))
  {
    if layers == [] {
      TerminalStops(env);
    } else {
      StoppingIsFinal(cfg, env, layers[1..]);
      var next := Compose(cfg, env, layers[1..]);
      assert !layers[0].Fallback?;
      hide RetryFrom, Stops, StopsCold, Guarded, Stopping, Compose;
      forall w: World, rs: RetryState | Coherent(w)
        ensures Stops(w, Wrap(cfg, env, layers[0], next)(w, rs).1, Wrap(cfg, env, layers[0], next)(w, rs).0)
      {
        if layers[0].Retry? {
          RetryStopsCold(cfg, env, next, Begin(w, rs));
        } else {
          GateStops(env, layers[0].kind, next, w, rs);
        }
      }
      ComposeHead(cfg, env, layers);
      AllStop(Wrap(cfg, env, layers[0], next));
    }
  }

  lemma ComposeHead(cfg: Config, env: Env, layers: seq<Layer>)
    requires layers != []
    ensures Compose(cfg, env, layers) == Wrap(cfg, env, layers[0], Compose(cfg, env, layers[1..]))
  {
  }

  lemma AllStop(h: Handler)
    requires forall w: World, rs: RetryState | Coherent(w) :: Stops(w, h(w, rs).1, h(w, rs).0)
    ensures StopsCold(h)
  {
    hide Stops, Coherent;
  }

  // Fallback layers outside every retry layer, the documented order, change only the answer: still nothing comes after
  // a stopping error.
  lemma {:induction false} StoppingIsFinalUnderFallback(cfg: Config, env: Env, outer: seq<Layer>, inner: seq<Layer>)
    requires Retries(outer) == 0 && NoFallback(inner)
    ensures LastWord(Compose(cfg, env, outer + inner))
  {
    if outer == [] {
      assert outer + inner == inner;
      StoppingIsFinal(cfg, env, inner);
      hide Compose, NoneAfter, Coherent;
    } else {
      var layers := outer + inner;
      assert layers[0] == outer[0] && layers[1..] == outer[1..] + inner;
      StoppingIsFinalUnderFallback(cfg, env, outer[1..], inner);
      var next := Compose(cfg, env, layers[1..]);
      ComposeHead(cfg, env, layers);
      hide Compose, NoneAfter, Guarded, Retrying;
      forall w: World, rs: RetryState | Coherent(w)
        ensures NoneAfter(w, Wrap(cfg, env, layers[0], next)(w, rs).1)
      {
        if layers[0].Gate? {
          GateStops(env, layers[0].kind, next, w, rs);
        }
      }
    }
  }

  // ---- Nil means the action succeeded ----

  lemma {:induction false} RetryIsHonest(cfg: Config, env: Env, next: Handler, p: Progress)
    requires Honest(next) && |p.errs| < cfg.maxAttempts
    ensures var f := RetryFrom(cfg, env, next, p); Tells(p.world.calls, f.progress.world.calls, f.result)
    decreases cfg.maxAttempts - |p.errs|
  {
    var r := next(p.world, Shown(p)).0;
    assert Tells(p.world.calls, next(p.world, Shown(p)).1.calls, r);
    hide RetryFrom, Shown, Ends, Honest, Tells;
    var f := RetryFrom(cfg, env, next, p);
    var again, g := RetryStep(cfg, env, next, p);
    if again {
      RetryIsHonest(cfg, env, next, g);
      TellsChain(p.world.calls, g.world.calls, f.progress.world.calls, r, f.result);
    } else {
      TellsSame(p.world.calls, g.world.calls, r, f.result);
    }
  }

  lemma TellsSame(a: seq<Call>, b: seq<Call>, r: Option<Err>, result: Option<Err>)
    requires Tells(a, b, r) && (r.None? <==> result.None?)
    ensures Tells(a, b, result)
  {
  }

  // With no fallback layer and MaxAttempts at least 1, every pipeline answers nil exactly when the action was called
  // and its last call succeeded.
  lemma {:induction false} NilMeansSuccess(cfg: Config, env: Env, layers: seq<Layer>)
    requires NoFallback(layers) && (cfg.maxAttempts > 0 || Retries(layers) == 0)
    ensures Honest(Compose(cfg, env, layers))
  {
    if layers != [] {
      NilMeansSuccess(cfg, env, layers[1..]);
      var next := Compose(cfg, env, layers[1..]);
      assert !layers[0].Fallback?;
      hide RetryFrom;
      forall w: World, rs: RetryState
        ensures var (r, v) := Wrap(cfg, env, layers[0], next)(w, rs); Tells(w.calls, v.calls, r)
      {
        if layers[0].Retry? {
          RetryIsHonest(cfg, env, next, Begin(w, rs));
        }
      }
    }
  }

  // ---- No call is made up, dropped or altered ----

  lemma {:induction false} RetryRecords(cfg: Config, env: Env, next: Handler, p: Progress)
    requires Records(env, next)
    ensures Scripted(env, p.world.calls, RetryFrom(cfg, env, next, p).progress.world.calls)
    decreases cfg.maxAttempts - |p.errs|
  {
    if |p.errs| < cfg.maxAttempts {
      var again, g := RetryStep(cfg, env, next, p);
      assert Scripted(env, p.world.calls, g.world.calls);
      hide RetryFrom, Shown, Ends, Records;
      if again {
        RetryRecords(cfg, env, next, g);
      }
    }
  }

  // Whatever the layers, the calls seen by the action are its own answers in order.
  lemma {:induction false} CallsAreRecorded(cfg: Config, env: Env, layers: seq<Layer>)
    ensures Records(env, Compose(cfg, env, layers))
  {
    if layers != [] {
      CallsAreRecorded(cfg, env, layers[1..]);
      var next := Compose(cfg, env, layers[1..]);
      hide RetryFrom;
      forall w: World, rs: RetryState
        ensures Scripted(env, w.calls, Wrap(cfg, env, layers[0], next)(w, rs).1.calls)
      {
        RetryRecords(cfg, env, next, Begin(w, rs));
      }
    }
  }

  // That guard is exact: with MaxAttempts 0, any pipeline with a retry layer can answer nil without a call.
  lemma {:induction false} ZeroAttemptsAnswerNil(cfg: Config, env: Env, layers: seq<Layer>, w: World, rs: RetryState)
    requires cfg.maxAttempts == 0 && Retries(layers) > 0
    requires forall k :: env.gate(k).None?
    ensures Compose(cfg, env, layers)(w, rs).0.None? && Compose(cfg, env, layers)(w, rs).1.calls == w.calls
  {
    if !layers[0].Retry? {
      ZeroAttemptsAnswerNil(cfg, env, layers[1..], if layers[0].Gate? then w.(asked := w.asked + 1) else w, rs);
    }
  }

  lemma NilWithoutCall(h: Handler, w: World, rs: RetryState)
    requires h(w, rs).0.None? && h(w, rs).1.calls == w.calls
    ensures !Honest(h)
  {
    assert !Tells(w.calls, h(w, rs).1.calls, h(w, rs).0);
    hide Tells;
  }

  lemma QuietIsNotHonest(cfg: Config, layers: seq<Layer>) returns (quiet: Env)
    requires cfg.maxAttempts == 0 && Retries(layers) > 0
    ensures !Honest(Compose(cfg, quiet, layers))
  {
    quiet := Env((_, _) => None, _ => None, _ => true, _ => 0, _ => Elapsed);
    var w, rs := World(0, [], []), RetryState(0, None, 0);
    ZeroAttemptsAnswerNil(cfg, quiet, layers, w, rs);
    hide *;
    NilWithoutCall(Compose(cfg, quiet, layers), w, rs);
  }

  // So, with no fallback layer, nil means success in every environment if and only if MaxAttempts is at least 1 or no
  // layer retries.
  lemma NilMeansSuccessIff(cfg: Config, layers: seq<Layer>)
    requires NoFallback(layers)
    ensures (forall env: Env :: Honest(Compose(cfg, env, layers))) <==> cfg.maxAttempts > 0 || Retries(layers) == 0
  {
    hide *;
    if cfg.maxAttempts > 0 || Retries(layers) == 0 {
      forall env: Env
        ensures Honest(Compose(cfg, env, layers))
      {
        NilMeansSuccess(cfg, env, layers);
      }
    } else {
      var quiet := QuietIsNotHonest(cfg, layers);
    }
  }
}
