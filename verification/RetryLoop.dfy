// The sequential retry loop: what one execution of it does, and the loop as the imperative code it is.
module RetryLoop {
  import opened Wrappers
  import opened Errors
  import opened Pipeline
  import opened PipelineTheorems
  import Backoff

  // Between two turns: every attempt so far has failed with an error that neither ends the loop nor cancels all
  // retries, was shown its number and the error before it, and was followed by a full pause.
  predicate Tidy(cfg: Config, p: Progress, rs: RetryState) {
    && |p.attempts| == |p.errs| == |p.drawn| == |p.pauses|
    && (p.errs == [] ==> p.state == rs)
    && p.state.maxAttempts == rs.maxAttempts
    && (forall i | 0 <= i < |p.errs| :: p.attempts[i].result == Some(p.errs[i]) && GoesOn(cfg, p.errs[i]))
    && ShownInOrder(p.attempts, rs)
    && AllDrawn(cfg, p.drawn)
    && (forall i | 0 <= i < |p.errs| :: PausedFor(p.errs[i], p.drawn[i], p.pauses[i], Elapsed))
  }

  predicate GoesOn(cfg: Config, e: Err) {
    !Ends(cfg.policy, e) && !CancelsAll(e)
  }

  predicate AllDrawn(cfg: Config, drawn: seq<nat>) {
    forall i | 0 <= i < |drawn| :: Backoff.Possible(cfg.base, cfg.cap, i, drawn[i])
  }

  // The delay is the one the error asks for, or else the one drawn; it is slept if it is positive, and only then.
  predicate PausedFor(e: Err, drawn: nat, s: Slept, nap: Nap) {
    var asked := FirstRetryAfter(e);
    && s.delay == (if asked.Some? then asked.value.delay else drawn)
    && s.nap == if s.delay > 0 then Some(nap) else None
  }

  // Attempt i is shown its own number and the error of attempt i-1.
  predicate ShownAt(attempts: seq<Attempt>, i: nat, rs: RetryState)
    requires i < |attempts|
  {
    && attempts[i].state.attempt == i
    && attempts[i].state.maxAttempts == rs.maxAttempts
    && attempts[i].state.lastError == if i == 0 then rs.lastError else attempts[i - 1].result
  }

  predicate ShownInOrder(attempts: seq<Attempt>, rs: RetryState) {
    forall i | 0 <= i < |attempts| :: ShownAt(attempts, i, rs)
  }

  // The last thing that happened was that the bucket refused a token.
  predicate Denied(cfg: Config, moves: seq<Move>) {
    cfg.hasBucket && moves != [] && moves[|moves| - 1] == Ask(false)
  }

  // What a finished execution looks like from outside. It gives up before MaxAttempts only for the reasons named, and
  // goes on only after an error that allows it and a full pause.
  predicate RetrySpec(cfg: Config, f: Finished, rs: RetryState) {
    var attempts, errs, drawn, pauses := f.progress.attempts, f.progress.errs, f.progress.drawn, f.progress.pauses;
    var n := |attempts|;
    && 1 <= n <= cfg.maxAttempts
    && ShownInOrder(attempts, rs)
    && (forall i | 0 <= i < n - 1 :: attempts[i].result.Some? && GoesOn(cfg, attempts[i].result.value))
    && (f.result.None? <==> attempts[n - 1].result.None?)
    && |errs| == (if f.result.None? then n - 1 else n)
    && (forall i | 0 <= i < |errs| :: attempts[i].result == Some(errs[i]))
    && (f.result.Some? ==> f.result == Join(if f.cut.Some? then errs + [ContextErr(f.cut.value)] else errs))
    && (f.cut.Some? ==> f.result.Some? && n < cfg.maxAttempts && GoesOn(cfg, errs[n - 1]))
    && (f.result.Some? && f.cut.None? && n < cfg.maxAttempts ==>
          Ends(cfg.policy, errs[n - 1]) || CancelsAll(errs[n - 1]) || Denied(cfg, f.progress.moves))
    && |pauses| == (if f.cut.Some? then n else n - 1) <= |drawn| <= |errs|
    && AllDrawn(cfg, drawn)
    && (forall i | 0 <= i < n - 1 :: PausedFor(errs[i], drawn[i], pauses[i], Elapsed))
    && (f.cut.Some? ==> pauses[n - 1].delay > 0
                        && PausedFor(errs[n - 1], drawn[n - 1], pauses[n - 1], CutShort(f.cut.value)))
  }

  lemma {:induction false} FromTidy(cfg: Config, env: Env, next: Handler, p: Progress, rs: RetryState)
    requires Tidy(cfg, p, rs) && |p.errs| < cfg.maxAttempts
    ensures RetrySpec(cfg, RetryFrom(cfg, env, next, p), rs)
    decreases cfg.maxAttempts - |p.errs|
  {
    hide PauseAfter, PausedFor, AllDrawn, ShownInOrder, Shown, Ends, CancelsAll, FirstRetryAfter;
    var shown := Shown(p);
    var (r, w) := next(p.world, shown);
    var q := p.(world := w, state := shown, attempts := p.attempts + [Attempt(shown, r)], moves := p.moves + [Try]);
    ShowNext(cfg, p, rs, r);
    if r.Some? && !Ends(cfg.policy, r.value) && |p.errs| + 1 < cfg.maxAttempts {
      var f := q.(errs := q.errs + [r.value]);
      PauseTells(cfg, env, f);
      var pause := PauseAfter(cfg, env, f);
      if pause.Resume? {
        StillTidy(cfg, p, f, pause.progress, rs);
        hide Tidy, RetrySpec;
        FromTidy(cfg, env, next, pause.progress, rs);
      }
    }
  }

  // A turn that resumes leaves everything in order.
  lemma StillTidy(cfg: Config, p: Progress, f: Progress, g: Progress, rs: RetryState)
    requires Tidy(cfg, p, rs) && |f.errs| == |p.errs| + 1 && p.errs <= f.errs
    requires var e := f.errs[|p.errs|];
             && f.attempts == p.attempts + [Attempt(f.state, Some(e))] && f.drawn == p.drawn && f.pauses == p.pauses
             && f.state.maxAttempts == rs.maxAttempts && ShownInOrder(f.attempts, rs) && GoesOn(cfg, e)
             && g.errs == f.errs && g.state == f.state && g.attempts == f.attempts && AllDrawn(cfg, g.drawn)
             && |g.drawn| == |g.errs| == |g.pauses| && f.drawn <= g.drawn && f.pauses <= g.pauses
             && PausedFor(e, g.drawn[|p.errs|], g.pauses[|p.errs|], Elapsed)
    ensures Tidy(cfg, g, rs)
  {
    hide PausedFor, AllDrawn, ShownInOrder, GoesOn;
    forall i | 0 <= i < |g.errs|
      ensures g.attempts[i].result == Some(g.errs[i]) && GoesOn(cfg, g.errs[i])
      ensures PausedFor(g.errs[i], g.drawn[i], g.pauses[i], Elapsed)
    {
      if i < |p.errs| {
        assert g.errs[i] == p.errs[i] && g.drawn[i] == p.drawn[i] && g.pauses[i] == p.pauses[i];
      }
    }
  }

  // The next attempt sees its number and the error before it.
  lemma ShowNext(cfg: Config, p: Progress, rs: RetryState, r: Option<Err>)
    requires Tidy(cfg, p, rs)
    ensures ShownInOrder(p.attempts + [Attempt(Shown(p), r)], rs)
    ensures Shown(p).maxAttempts == rs.maxAttempts
  {
    var n := |p.errs|;
    var all := p.attempts + [Attempt(Shown(p), r)];
    forall i | 0 <= i < |all|
      ensures ShownAt(all, i, rs)
    {
      if i < n {
        assert ShownAt(p.attempts, i, rs);
      } else if n > 0 {
        assert p.attempts[n - 1].result == Some(p.errs[n - 1]);
      }
    }
  }

  // What the pause has added, and how it went on.
  lemma PauseTells(cfg: Config, env: Env, p: Progress)
    requires p.errs != [] && AllDrawn(cfg, p.drawn) && |p.drawn| == |p.errs| - 1
    ensures var pause := PauseAfter(cfg, env, p);
            var q := pause.progress;
            var e := p.errs[|p.errs| - 1];
            && q.world.calls == p.world.calls && q.errs == p.errs && q.state == p.state && q.attempts == p.attempts
            && AllDrawn(cfg, q.drawn)
            && (pause.GiveUp? ==>
                  && (CancelsAll(e) || Denied(cfg, q.moves)) && q.pauses == p.pauses
                  && p.drawn <= q.drawn && |q.drawn| <= |q.errs|)
            && (!pause.GiveUp? ==>
                  && !CancelsAll(e) && p.drawn <= q.drawn && |q.drawn| == |q.errs|
                  && |q.pauses| == |p.pauses| + 1 && p.pauses <= q.pauses
                  && var x := q.pauses[|p.pauses|];
                  && (pause.Resume? ==> PausedFor(e, q.drawn[|p.drawn|], x, Elapsed))
                  && (pause.Cut? ==> x.delay > 0 && PausedFor(e, q.drawn[|p.drawn|], x, CutShort(pause.why))))
  {
    hide FirstRetryAfter, Backoff.Next, Backoff.MaxDelay;
    var d := Backoff.Next(cfg.base, cfg.cap, |p.errs| - 1,
                          env.draw(if cfg.hasBucket then p.world.asked + 1 else p.world.asked));
    assert Backoff.Possible(cfg.base, cfg.cap, |p.drawn|, d);
    var q := PauseAfter(cfg, env, p).progress;
    assert q.drawn == p.drawn || q.drawn == p.drawn + [d];
    hide Backoff.Possible;
  }

  // The pause question by question: the bucket first, then the draw, then, unless retries are cancelled, the sleep if
  // the delay is positive. Each answer is the environment's.
  lemma PauseAsks(cfg: Config, env: Env, p: Progress)
    requires p.errs != []
    ensures var pause := PauseAfter(cfg, env, p);
            var e := p.errs[|p.errs| - 1];
            var k := p.world.asked;
            var j := if cfg.hasBucket then k + 1 else k;
            var drawn := Backoff.Next(cfg.base, cfg.cap, |p.errs| - 1, env.draw(j));
            var delay := if FirstRetryAfter(e).Some? then FirstRetryAfter(e).value.delay else drawn;
            && (pause.GiveUp? <==> (cfg.hasBucket && !env.token(k)) || CancelsAll(e))
            && (pause.Cut? <==> !pause.GiveUp? && delay > 0 && env.nap(j + 1) != Elapsed)
            && (pause.Cut? ==> env.nap(j + 1) == CutShort(pause.why))
            && (!pause.GiveUp? ==> pause.progress.world.asked == if delay > 0 then j + 2 else j + 1)
  {
    hide FirstRetryAfter, Backoff.Next;
  }

  // The whole specification of one execution with MaxAttempts at least 1, and the bound on all its backoff.
  lemma RetryLoopMeetsSpec(cfg: Config, env: Env, next: Handler, w: World, rs: RetryState)
    requires cfg.maxAttempts > 0
    ensures var f := RetryFrom(cfg, env, next, Begin(w, rs));
            && RetrySpec(cfg, f, rs)
            && (cfg.base >= 0 && cfg.cap >= 0 ==>
                  var n := |f.progress.drawn|;
                  Backoff.Sum(f.progress.drawn) <= n * cfg.cap
                  && Backoff.Sum(f.progress.drawn) <= cfg.base * (Backoff.Pow2(n) - 1))
  {
    assert Tidy(cfg, Begin(w, rs), rs) by { hide RetryFrom; }
    hide RetryFrom, Backoff.Possible, Ends, CancelsAll, PausedFor, ShownInOrder, Tidy;
    FromTidy(cfg, env, next, Begin(w, rs), rs);
    if cfg.base >= 0 && cfg.cap >= 0 {
      Backoff.TotalBackoff(cfg.base, cfg.cap, RetryFrom(cfg, env, next, Begin(w, rs)).progress.drawn);
    }
  }

  // ---- The loop itself ----

  // Between a failed attempt and the next: bucket, backoff, override, sleep.
  method PauseBetween(cfg: Config, env: Env, ghost p: Progress, err: Err, attempt: nat, w0: World)
    returns (ok: bool, cut: Option<Sentinel>, world: World, ghost q: Progress)
    requires p.errs != [] && err == p.errs[|p.errs| - 1] && attempt == |p.errs| - 1 && w0 == p.world
    ensures PauseAfter(cfg, env, p) == (if ok then Resume(q) else if cut.Some? then Cut(q, cut.value) else GiveUp(q))
    ensures q.world == world && (ok ==> cut.None?)
  {
    hide FirstRetryAfter, Backoff.Next;
    q := PauseAfter(cfg, env, p).progress;
    ok, cut, world := false, None, w0;
    if cfg.hasBucket {
      var granted := env.token(world.asked);
      world := world.(asked := world.asked + 1);
      if !granted {
        return;
      }
    }
    var delay: int := Backoff.Next(cfg.base, cfg.cap, attempt, env.draw(world.asked));
    world := world.(asked := world.asked + 1);
    var retryAfter := FirstRetryAfter(err);
    if retryAfter.Some? {
      if retryAfter.value.cancelAll {
        return;
      }
      delay := retryAfter.value.delay;
    }
    if delay > 0 {
      var nap := env.nap(world.asked);
      world := world.(asked := world.asked + 1);
      if nap.CutShort? {
        cut := Some(nap.why);
        return;
      }
    }
    ok := true;
  }

  method RetryMiddleware(cfg: Config, env: Env, next: Handler, w0: World, rs0: RetryState)
    returns (result: Option<Err>, world: World, ghost f: Finished)
    ensures (result, world) == Retrying(cfg, env, next)(w0, rs0)
    ensures f == RetryFrom(cfg, env, next, Begin(w0, rs0)) && f.result == result && f.progress.world == world
    ensures cfg.maxAttempts > 0 ==> RetrySpec(cfg, f, rs0)
  {
    var errs: seq<Err> := [];
    var state := rs0;
    world := w0;
    ghost var p := Begin(w0, rs0);
    f := RetryFrom(cfg, env, next, p);
    if cfg.maxAttempts > 0 {
      RetryLoopMeetsSpec(cfg, env, next, w0, rs0);
    }
    for attempt := 0 to cfg.maxAttempts
      invariant attempt == |errs|
      invariant p.world == world && p.errs == errs && p.state == state
      invariant f == RetryFrom(cfg, env, next, p)
    {
      hide Ends, RetrySpec, PauseAfter;
      state := state.(attempt := attempt);
      if |errs| > 0 {
        state := state.(lastError := Some(errs[|errs| - 1]));
      }
      assert state == Shown(p);
      var (err, after) := next(world, state);
      world := after;
      p := p.(world := world, state := state, attempts := p.attempts + [Attempt(state, err)], moves := p.moves + [Try]);
      if err.None? {
        return None, world, f;
      }
      errs := errs + [err.value];
      p := p.(errs := errs);
      if Ends(cfg.policy, err.value) {
        return Join(errs), world, f;
      }
      if attempt + 1 >= cfg.maxAttempts {
        break;
      }
      PauseCallsNothing(cfg, env, p);
      var ok, cut;
      ok, cut, world, p := PauseBetween(cfg, env, p, err.value, attempt, world);
      if cut.Some? {
        return Join(errs + [ContextErr(cut.value)]), world, f;
      }
      if !ok {
        break;
      }
    }
    result := Join(errs);
  }
}
