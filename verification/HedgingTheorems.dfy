// What every run of the hedged executor guarantees, and the executor's loop itself.
module HedgingTheorems {
  import opened Wrappers
  import opened Errors
  import opened Hedging

  // ---- Safety ----

  // While the call has not returned: every launched attempt is either counted in flight or has left its error in the
  // list, and never more than MaxAttempts are launched.
  lemma AttemptsAreCounted(cfg: Config, steps: seq<Step>)
    ensures var s := Exec(cfg, steps);
            && |s.pool.phases| <= cfg.maxAttempts
            && (!s.loop.at.Exit? ==> |s.loop.errs| + s.loop.inFlight == |s.pool.phases|)
  {
    Reachable(cfg, steps);
    var s := Exec(cfg, steps);
    if !s.loop.at.Exit? {
      ErrsOfAll(s.loop.received);
    }
  }

  // The result channel always has room: an attempt that has finished can hand over its result at once, in every
  // reachable state, also after the call has returned.
  lemma SendNeverBlocks(cfg: Config, steps: seq<Step>, a: nat)
    requires a < |Exec(cfg, steps).pool.phases| && Exec(cfg, steps).pool.phases[a].Returned?
    ensures Can(cfg, Exec(cfg, steps), Beside(Send(a)))
  {
    Reachable(cfg, steps);
    CountsFit(Exec(cfg, steps).pool.phases, a);
  }

  // A wait is never a deadlock: a result is there, or the context is done, or the timer is armed, or an attempt is
  // still on its way to delivering a result.
  lemma WaitIsNeverStuck(cfg: Config, steps: seq<Step>) returns (a: nat)
    requires Exec(cfg, steps).loop.at.Waiting?
    ensures var s := Exec(cfg, steps);
            || Can(cfg, s, Take) || Can(cfg, s, SeeDone) || Can(cfg, s, Timer)
            || (a < |s.pool.phases| && (s.pool.phases[a].Running? || Can(cfg, s, Beside(Send(a)))))
  {
    Reachable(cfg, steps);
    var s := Exec(cfg, steps);
    a := 0;
    if s.pool.done.None? && !s.loop.at.timer && s.pool.buffer == [] {
      a := Pending(cfg, s);
    }
  }

  // With nothing buffered and the context alive, some attempt has yet to deliver.
  lemma Pending(cfg: Config, s: Hedge) returns (a: nat)
    requires Inv(cfg, s) && s.loop.inFlight > 0 && s.pool.done.None? && s.pool.buffer == []
    ensures a < |s.pool.phases| && (s.pool.phases[a].Running? || PoolCan(cfg, s.pool, Send(a)))
  {
    a := SomeUnreceived(s.pool.phases);
    NoneBuffered(s.pool.phases, a);
  }

  // ---- Results ----

  // The loop has given up launching before MaxAttempts.
  predicate Refused(s: Hedge) {
    |s.pool.phases| < s.loop.attemptsStarted
  }

  // It does so only because the bucket refused a token it was asked for.
  lemma {:induction false} RefusalWasGiven(cfg: Config, steps: seq<Step>) returns (i: nat)
    requires Refused(Exec(cfg, steps))
    ensures i < |steps| && steps[i] == Go(false)
    ensures Exec(cfg, steps[..i]).loop.at.Top? && AsksBucket(cfg, Exec(cfg, steps[..i]).loop)
  {
    i := |steps| - 1;
    var s := Exec(cfg, steps[..i]);
    if Refused(s) {
      i := RefusalWasGiven(cfg, steps[..i]);
      assert steps[..|steps| - 1][..i] == steps[..i];
    } else {
      OnlyGoRefuses(cfg, s, steps[i]);
      hide Do, Can, Refused, AsksBucket;
    }
  }

  lemma OnlyGoRefuses(cfg: Config, s: Hedge, step: Step)
    requires !Refused(s)
    ensures Can(cfg, s, step) && Refused(Do(cfg, s, step)) ==>
              step == Go(false) && s.loop.at.Top? && AsksBucket(cfg, s.loop)
  {
    hide Join, Final;
  }

  // A call that returned did so in one of these ways, whatever the interleaving. `received` are the results in the
  // order the loop took them; each belongs to a different launched attempt.
  lemma ReturnedResult(cfg: Config, steps: seq<Step>)
    requires Exec(cfg, steps).loop.at.Exit? && cfg.maxAttempts > 0
    ensures var s := Exec(cfg, steps);
            var result := s.loop.at.result;
            var n := |s.loop.received|;
            && s.loop.errs == ErrsOf(s.loop.received)
            && (forall i | 0 <= i < n ::
                  s.loop.received[i].attempt < |s.pool.phases|
                  && s.pool.phases[s.loop.received[i].attempt] == Received(s.loop.received[i].outcome))
            && (forall i, j | 0 <= i < j < n :: s.loop.received[i].attempt != s.loop.received[j].attempt)
            && (result.None? <==> n > 0 && s.loop.received[n - 1].outcome.None?)
            && AllErrors(if result.None? then s.loop.received[..n - 1] else s.loop.received)
            && (result.None? ==> AllGoOn(cfg.policy, s.loop.errs))
            && (result.Some? ==>
                  || (s.loop.errs != [] && result == Join(s.loop.errs)
                      && AllGoOn(cfg.policy, s.loop.errs[..|s.loop.errs| - 1])
                      && (Final(cfg.policy, s.loop.errs[|s.loop.errs| - 1])
                          || (|s.loop.errs| == |s.pool.phases| && (|s.pool.phases| == cfg.maxAttempts || Refused(s)))))
                  || (AllGoOn(cfg.policy, s.loop.errs)
                      && exists why | why in {Canceled, DeadlineExceeded} ::
                           result == Join(s.loop.errs + [Simple(why)])))
  {
    Reachable(cfg, steps);
    var s := Exec(cfg, steps);
    hide Exec, Final;
    if s.loop.at.result.Some? && s.loop.at.result == Join(s.loop.errs + [Simple(DeadlineExceeded)]) {
      assert DeadlineExceeded in {Canceled, DeadlineExceeded};
    }
    if s.loop.at.result.Some? && s.loop.at.result == Join(s.loop.errs + [Simple(Canceled)]) {
      assert Canceled in {Canceled, DeadlineExceeded};
    }
  }

  // A context error in the answer is the context's own: it was done, for that reason, before the call returned.
  lemma {:induction false} ContextErrorIsTrue(cfg: Config, steps: seq<Step>)
    ensures var s := Exec(cfg, steps);
            && (s.loop.at.Exit? ==> s.pool.done.Some?)
            && (s.loop.at.Exit? && s.loop.at.result.Some? && s.loop.at.result != Join(s.loop.errs) ==>
                  s.loop.at.result == Join(s.loop.errs + [Simple(s.pool.done.value)]))
            && (s.pool.done.Some? ==>
                  || s.loop.at.Exit?
                  || exists i | 0 <= i < |steps| :: steps[i] == Beside(CancelContext(s.pool.done.value)))
  {
    if steps != [] {
      var less, step := steps[..|steps| - 1], steps[|steps| - 1];
      ContextErrorIsTrue(cfg, less);
      var s, r := Exec(cfg, less), Exec(cfg, steps);
      if s.pool.done.Some? && !s.loop.at.Exit? {
        var i :| 0 <= i < |less| && less[i] == Beside(CancelContext(s.pool.done.value));
        assert steps[i] == less[i];
      }
      if s.pool.done.None? && r.pool.done.Some? && !r.loop.at.Exit? {
        assert steps[|steps| - 1] == Beside(CancelContext(r.pool.done.value)) by { hide Join, Final; }
      }
      hide Join, Final;
    }
  }

  // ---- Going on ----

  // A received error that is not final sends the loop back to its top, with the error kept; so does the timer, with
  // nothing changed.
  lemma GoesOnAfterError(cfg: Config, steps: seq<Step>)
    requires var s := Exec(cfg, steps);
             s.loop.at.Waiting? && s.pool.buffer != [] && s.pool.buffer[0].outcome.Some?
             && !Final(cfg.policy, s.pool.buffer[0].outcome.value)
    ensures var s := Exec(cfg, steps);
            var t := Do(cfg, s, Take);
            && t.loop.at.Top? && t.loop.errs == s.loop.errs + [s.pool.buffer[0].outcome.value]
            && t.loop.attemptsStarted == s.loop.attemptsStarted && |t.pool.phases| == |s.pool.phases|
  {
    hide Exec, Final;
  }

  lemma TimerGoesOn(cfg: Config, s: Hedge)
    requires Can(cfg, s, Timer)
    ensures Do(cfg, s, Timer) == s.(loop := s.loop.(at := Top))
  {
  }

  // From the top, in every reachable state: with attempts left the next one is launched, unless a bucket is set and
  // refuses a token for an attempt after the first. Only when none is launched and none is in flight does the call end.
  lemma NextTurnLaunches(cfg: Config, steps: seq<Step>, granted: bool)
    requires Exec(cfg, steps).loop.at.Top?
    ensures var s := Exec(cfg, steps);
            var r := Do(cfg, s, Go(granted));
            var n := |s.pool.phases|;
            if n == s.loop.attemptsStarted < cfg.maxAttempts && (n == 0 || !cfg.hasBucket || granted)
            then r.pool.phases == s.pool.phases + [Running] && r.loop.at == Waiting(n + 1 < cfg.maxAttempts)
            else
              && r.pool.phases == s.pool.phases
              && r.loop.at == if s.loop.inFlight > 0 then Waiting(false) else Exit(Join(s.loop.errs))
  {
    Reachable(cfg, steps);
    hide Exec, Join, Final, PoolInv, ValueInv, ReceivedInv, AllErrors, AllGoOn;
  }

  // A nil error means an attempt was launched, its action succeeded, and its result was received; and a value was
  // captured from an attempt that succeeded.
  lemma NilMeansSuccess(cfg: Config, steps: seq<Step>)
    requires cfg.maxAttempts > 0 && Exec(cfg, steps).loop.at == Exit(None)
    ensures var s := Exec(cfg, steps);
            && (exists a | 0 <= a < |s.pool.phases| :: s.pool.phases[a] == Received(None))
            && s.pool.value.Some? && s.pool.value.value < |s.pool.phases|
            && Succeeded(s.pool.phases[s.pool.value.value])
  {
    Reachable(cfg, steps);
    ReturnedResult(cfg, steps);
    var s := Exec(cfg, steps);
    var m := s.loop.received[|s.loop.received| - 1];
    assert s.pool.phases[m.attempt] == Received(None);
    assert Succeeded(s.pool.phases[m.attempt]);
  }

  // The guard of that theorem is exact: with MaxAttempts 0 the call returns nil having launched nothing.
  lemma ZeroAttemptsReturnNil(cfg: Config)
    requires cfg.maxAttempts == 0
    ensures var s := Exec(cfg, [Go(true)]);
            s.loop.at == Exit(None) && s.pool.phases == [] && s.pool.value.None?
  {
    assert [Go(true)][..0] == [];
  }

  // Once a value is captured nothing changes it any more, in particular not attempts that finish after the return.
  lemma {:induction false} ValueIsStable(cfg: Config, steps: seq<Step>, more: seq<Step>)
    requires Exec(cfg, steps).pool.value.Some?
    ensures Exec(cfg, steps + more).pool.value == Exec(cfg, steps).pool.value
  {
    if more == [] {
      assert steps + more == steps;
    } else {
      var less := more[..|more| - 1];
      ValueIsStable(cfg, steps, less);
      assert (steps + more)[..|steps + more| - 1] == steps + less;
    }
  }

  // The result of a returned call never changes either.
  lemma {:induction false} ResultIsStable(cfg: Config, steps: seq<Step>, more: seq<Step>)
    requires Exec(cfg, steps).loop.at.Exit?
    ensures Exec(cfg, steps + more).loop == Exec(cfg, steps).loop
  {
    if more == [] {
      assert steps + more == steps;
    } else {
      var less := more[..|more| - 1];
      ResultIsStable(cfg, steps, less);
      assert (steps + more)[..|steps + more| - 1] == steps + less;
    }
  }

  // With a retry bucket, every attempt after the first was paid for with one token.
  lemma RetriesArePaid(cfg: Config, steps: seq<Step>)
    requires cfg.hasBucket && |Exec(cfg, steps).pool.phases| > 0
    ensures |Exec(cfg, steps).pool.phases| == 1 + Exec(cfg, steps).loop.grants
  {
    Reachable(cfg, steps);
  }

  // ---- Termination ----

  function Turns(cfg: Config, l: Loop): int {
    2 * (cfg.maxAttempts - l.attemptsStarted) + l.inFlight
  }

  // One turn of the loop, from its top through the select and back to the top, strictly decreases
  // 2*(MaxAttempts - attemptsStarted) + inFlight; what the attempts do meanwhile does not matter.
  lemma TurnDecreases(cfg: Config, s: Hedge, granted: bool, meanwhile: Pool, wake: Step)
    requires Inv(cfg, s) && s.loop.at.Top?
    requires wake.Take? || wake.Timer?
    requires Can(cfg, Do(cfg, s, Go(granted)).(pool := meanwhile), wake)
    ensures 0 <= Turns(cfg, s.loop)
    ensures Turns(cfg, Do(cfg, Do(cfg, s, Go(granted)).(pool := meanwhile), wake).loop) < Turns(cfg, s.loop)
  {
    hide Inv, Final, Join;
    assert Inv(cfg, s) ==> LoopInv(cfg, s.loop, |s.pool.phases|) by { Opened(cfg, s); }
  }

  lemma Opened(cfg: Config, s: Hedge)
    ensures Inv(cfg, s) ==> LoopInv(cfg, s.loop, |s.pool.phases|)
  {
  }

  function Weight(cfg: Config, s: Hedge): int {
    6 * (cfg.maxAttempts - s.loop.attemptsStarted) + 2 * s.loop.inFlight + Work(s.pool.phases)
    + (match s.loop.at case Top => 2 case Waiting(timer) => (if timer then 3 else 1) case Exit(_) => 0)
    + (if s.pool.done.None? then 1 else 0)
  }

  lemma GoDecreases(cfg: Config, s: Hedge, granted: bool)
    requires LoopInv(cfg, s.loop, |s.pool.phases|) && s.loop.at.Top?
    ensures Weight(cfg, GoOn(cfg, s, granted)) < Weight(cfg, s)
  {
    PhaseAppend(s.pool.phases, Running);
    hide Work, Join, ErrsOf;
  }

  lemma TakeDecreases(cfg: Config, s: Hedge)
    requires Inv(cfg, s) && Can(cfg, s, Take)
    ensures Weight(cfg, Do(cfg, s, Take)) < Weight(cfg, s)
  {
    hide Work, Join, Final, PoolInv, ValueInv, LoopInv, ReceivedInv, AllErrors, AllGoOn;
    HeadIsBuffered(cfg, s.pool);
    var m := s.pool.buffer[0];
    PhaseUpdate(s.pool.phases, m.attempt, Received(m.outcome));
  }

  lemma StepDecreases(cfg: Config, s: Hedge, step: Step)
    requires Inv(cfg, s) && Can(cfg, s, step)
    ensures Weight(cfg, Do(cfg, s, step)) < Weight(cfg, s)
  {
    match step
    case Go(granted) => GoDecreases(cfg, s, granted);
    case Take => TakeDecreases(cfg, s);
    case Timer =>
    case SeeDone =>
    case Beside(p) =>
      if !p.CancelContext? {
        var next := PoolDo(cfg, s.pool, p).phases[p.attempt];
        PhaseUpdate(s.pool.phases, p.attempt, next);
        assert PoolDo(cfg, s.pool, p).phases == s.pool.phases[p.attempt := next];
        hide Work, Inv;
      }
  }

  // How many steps of a list were possible when their turn came.
  function Taken(cfg: Config, steps: seq<Step>): nat {
    if steps == [] then 0
    else
      var less := steps[..|steps| - 1];
      Taken(cfg, less) + (if Can(cfg, Exec(cfg, less), steps[|steps| - 1]) then 1 else 0)
  }

  // Every run of the loop and all its attempts together, under every schedule, ends within 6*MaxAttempts + 3 steps.
  lemma {:induction false} RunsAreBounded(cfg: Config, steps: seq<Step>)
    ensures Taken(cfg, steps) + Weight(cfg, Exec(cfg, steps)) <= 6 * cfg.maxAttempts + 3
    ensures Taken(cfg, steps) <= 6 * cfg.maxAttempts + 3
  {
    Reachable(cfg, steps);
    if steps != [] {
      var less := steps[..|steps| - 1];
      RunsAreBounded(cfg, less);
      Reachable(cfg, less);
      if Can(cfg, Exec(cfg, less), steps[|steps| - 1]) {
        StepDecreases(cfg, Exec(cfg, less), steps[|steps| - 1]);
      }
    }
  }

  // ---- The loop itself ----

  // Everything the loop does not decide: what the bucket answers, what the attempts and the caller's context do while
  // it waits, how an attempt ends that the loop has to wait for, and which case the select takes when several are
  // ready.
  datatype Wish = WantResult | WantTimer | WantDone

  datatype Env = Env(
    grant: nat -> bool,
    meanwhile: nat -> seq<PoolStep>,
    outcome: nat -> Option<Err>,
    wish: nat -> Wish)

  lemma ExecMore(cfg: Config, steps: seq<Step>, step: Step)
    ensures var s := Exec(cfg, steps);
            Exec(cfg, steps + [step]) == if Can(cfg, s, step) then Do(cfg, s, step) else s
  {
    assert (steps + [step])[..|steps + [step]| - 1] == steps;
  }

  // The attempts and the context move while the loop is parked.
  method RunBeside(cfg: Config, ghost l: Loop, p: Pool, moves: seq<PoolStep>, ghost steps: seq<Step>)
    returns (q: Pool, ghost more: seq<Step>)
    requires Exec(cfg, steps) == Hedge(l, p)
    ensures Exec(cfg, more) == Hedge(l, q)
    ensures steps <= more
    ensures forall i | |steps| <= i < |more| :: more[i].Beside? && more[i].step in moves
  {
    q, more := p, steps;
    for k := 0 to |moves|
      invariant Exec(cfg, more) == Hedge(l, q)
      invariant steps <= more
      invariant forall i | |steps| <= i < |more| :: more[i].Beside? && more[i].step in moves
    {
      ExecMore(cfg, more, Beside(moves[k]));
      more := more + [Beside(moves[k])];
      if PoolCan(cfg, q, moves[k]) {
        q := PoolDo(cfg, q, moves[k]);
      }
    }
  }

  predicate Delivers(outcome: nat -> Option<Err>, p: PoolStep) {
    p.Send? || (p.Finish? && p.outcome == outcome(p.attempt))
  }

  // Only what the environment says happens: tokens, cancellations and the attempts' outcomes are all its own.
  ghost predicate Given(env: Env, step: Step) {
    match step
    case Go(granted) => exists k :: granted == env.grant(k)
    case Beside(p) => Delivers(env.outcome, p) || exists k :: p in env.meanwhile(k)
    case _ => true
  }

  ghost predicate AllGiven(env: Env, steps: seq<Step>) {
    forall i | 0 <= i < |steps| :: Given(env, steps[i])
  }

  lemma GiveOwn(env: Env, steps: seq<Step>, step: Step)
    requires AllGiven(env, steps) && (step.Take? || step.Timer? || step.SeeDone?)
    ensures AllGiven(env, steps + [step])
  {
  }

  lemma GiveGo(env: Env, steps: seq<Step>, turn: nat)
    requires AllGiven(env, steps)
    ensures AllGiven(env, steps + [Go(env.grant(turn))])
  {
    assert Given(env, Go(env.grant(turn)));
  }

  predicate Cancels(step: Step) {
    step.Beside? && step.step.CancelContext?
  }

  // A run nobody cancels returns nil or exactly the errors it received.
  lemma {:induction false} UncancelledResult(cfg: Config, steps: seq<Step>)
    requires forall i | 0 <= i < |steps| :: !Cancels(steps[i])
    ensures var s := Exec(cfg, steps);
            if s.loop.at.Exit? then s.loop.at.result.None? || s.loop.at.result == Join(s.loop.errs)
            else s.pool.done.None?
  {
    if steps != [] {
      UncancelledResult(cfg, steps[..|steps| - 1]);
      assert !Cancels(steps[|steps| - 1]);
      hide Join, Final;
    }
  }

  // Wait until the select has a case to take: if it has none, some attempt finishes and delivers.
  method AwaitCase(cfg: Config, ghost l: Loop, timer: bool, p: Pool, outcome: nat -> Option<Err>,
                   ghost steps: seq<Step>)
    returns (q: Pool, ghost more: seq<Step>)
    requires Exec(cfg, steps) == Hedge(l, p) && l.at == Waiting(timer)
    ensures Exec(cfg, more) == Hedge(l, q)
    ensures q.buffer != [] || q.done.Some? || timer
    ensures steps <= more
    ensures forall i | |steps| <= i < |more| :: more[i].Beside? && Delivers(outcome, more[i].step)
  {
    q, more := p, steps;
    if q.buffer != [] || q.done.Some? || timer {
      return;
    }
    Reachable(cfg, steps);
    ghost var owed := Pending(cfg, Hedge(l, p));
    var a := 0;
    while a < |p.phases| && !(p.phases[a].Running? || p.phases[a].Returned?)
      invariant a <= owed
    {
      a := a + 1;
    }
    if q.phases[a].Running? {
      ExecMore(cfg, more, Beside(Finish(a, outcome(a))));
      more := more + [Beside(Finish(a, outcome(a)))];
      q := PoolDo(cfg, q, Finish(a, outcome(a)));
    }
    Reachable(cfg, more);
    CountsFit(q.phases, a);
    ExecMore(cfg, more, Beside(Send(a)));
    more := more + [Beside(Send(a))];
    q := PoolDo(cfg, q, Send(a));
  }

  // The loop parks at its select: others move, and then a case is ready.
  method Park(cfg: Config, env: Env, ghost l: Loop, timer: bool, p: Pool, turn: nat, ghost steps: seq<Step>)
    returns (q: Pool, ghost more: seq<Step>)
    requires Exec(cfg, steps) == Hedge(l, p) && l.at == Waiting(timer) && AllGiven(env, steps)
    ensures Exec(cfg, more) == Hedge(l, q) && AllGiven(env, more)
    ensures q.buffer != [] || q.done.Some? || timer
  {
    q, more := RunBeside(cfg, l, p, env.meanwhile(turn), steps);
    assert AllGiven(env, more) by { hide Exec; }
    ghost var before := more;
    q, more := AwaitCase(cfg, l, timer, q, env.outcome, more);
    hide Exec;
    forall i | 0 <= i < |more|
      ensures Given(env, more[i])
    {
      assert i < |before| ==> more[i] == before[i];
    }
  }

  // The few facts the loop's own statements rely on.
  lemma Bounds(cfg: Config, steps: seq<Step>)
    ensures var s := Exec(cfg, steps);
            && s.loop.attemptsStarted <= cfg.maxAttempts && 0 <= s.loop.inFlight
            && (forall i | 0 <= i < |s.pool.buffer| :: s.pool.buffer[i].attempt < |s.pool.phases|)
            && (s.loop.at.Waiting? && s.pool.buffer != [] ==> s.loop.inFlight > 0)
  {
    Reachable(cfg, steps);
    var s := Exec(cfg, steps);
    if s.loop.at.Waiting? && s.pool.buffer != [] {
      SomeInFlight(cfg, s);
    }
  }

  lemma FinalIs(p: Policy, outcome: Option<Err>)
    ensures outcome.Some? ==>
              (Final(p, outcome.value) <==>
                 Is(outcome.value, CircuitOpen) || CancelsAll(outcome.value) || !ShouldRetry(p, outcome.value))
  {
  }

  method HedgeLoop(cfg: Config, env: Env) returns (result: Option<Err>, ghost steps: seq<Step>)
    ensures Exec(cfg, steps).loop.at == Exit(result)
    ensures AllGiven(env, steps)
    ensures cfg.maxAttempts == 0 ==> result.None?
  {
    var pool := Pool([], [], None, None);
    var attemptsStarted, inFlight, errs := 0, 0, [];
    ghost var received, grants := [], 0;
    steps := [];
    var turn := 0;
    assert Join(errs).None?;
    while true
      invariant 0 <= attemptsStarted <= cfg.maxAttempts && 0 <= inFlight && 0 <= grants
      invariant Exec(cfg, steps) == Hedge(Loop(attemptsStarted, inFlight, errs, received, grants, Top), pool)
      invariant AllGiven(env, steps)
      invariant cfg.maxAttempts == 0 ==> inFlight == 0 && Join(errs).None?
      decreases 2 * (cfg.maxAttempts - attemptsStarted) + inFlight
    {
      hide Exec, Final, Join, CancelsAll, ShouldRetry, Is, Given, AllGiven;
      ghost var granted := env.grant(turn);
      ExecMore(cfg, steps, Go(granted));
      GiveGo(env, steps, turn);
      if attemptsStarted < cfg.maxAttempts {
        var canStart := true;
        if attemptsStarted > 0 && cfg.hasBucket {
          canStart := env.grant(turn);
          grants := grants + (if canStart then 1 else 0);
        }
        if canStart {
          attemptsStarted := attemptsStarted + 1;
          inFlight := inFlight + 1;
          pool := pool.(phases := pool.phases + [Running]);
        } else {
          attemptsStarted := cfg.maxAttempts;
        }
      }
      steps := steps + [Go(granted)];
      if attemptsStarted >= cfg.maxAttempts && inFlight == 0 {
        break;
      }
      var timer := attemptsStarted < cfg.maxAttempts;
      ghost var at := Loop(attemptsStarted, inFlight, errs, received, grants, Waiting(timer));
      pool, steps := Park(cfg, env, at, timer, pool, turn, steps);
      Bounds(cfg, steps);
      var wish := env.wish(turn);
      turn := turn + 1;
      if pool.done.Some? && (wish == WantDone || (pool.buffer == [] && !(timer && wish == WantTimer))) {
        ExecMore(cfg, steps, SeeDone);
        GiveOwn(env, steps, SeeDone);
        steps := steps + [SeeDone];
        result := Join(errs + [Simple(pool.done.value)]);
        return;
      } else if pool.buffer != [] && !(timer && wish == WantTimer) {
        ExecMore(cfg, steps, Take);
        GiveOwn(env, steps, Take);
        steps := steps + [Take];
        var m := pool.buffer[0];
        FinalIs(cfg.policy, m.outcome);
        pool := pool.(buffer := pool.buffer[1..], phases := pool.phases[m.attempt := Received(m.outcome)]);
        inFlight := inFlight - 1;
        received := received + [m];
        if m.outcome.None? {
          return None, steps;
        }
        var err := m.outcome.value;
        errs := errs + [err];
        if Is(err, CircuitOpen) {
          return Join(errs), steps;
        }
        if CancelsAll(err) {
          return Join(errs), steps;
        }
        if !ShouldRetry(cfg.policy, err) {
          return Join(errs), steps;
        }
        if inFlight == 0 && attemptsStarted < cfg.maxAttempts {
          continue;
        }
      } else {
        ExecMore(cfg, steps, Timer);
        GiveOwn(env, steps, Timer);
        steps := steps + [Timer];
      }
    }
    result := Join(errs);
  }

  // ---- What the caller sees ----

  predicate Succeeds(step: Step) {
    step.Beside? && step.step.Finish? && step.step.outcome.None?
  }

  // Some attempt may succeed in this environment.
  ghost predicate MaySucceed(env: Env) {
    || (exists a: nat :: env.outcome(a).None?)
    || (exists k, p :: p in env.meanwhile(k) && p.Finish? && p.outcome.None?)
  }

  // Some attempt may fail with this error.
  ghost predicate MayFail(env: Env, e: Err) {
    || (exists a: nat :: env.outcome(a) == Some(e))
    || (exists k, p :: p in env.meanwhile(k) && p.Finish? && p.outcome == Some(e))
  }

  ghost predicate MayCancel(env: Env) {
    exists k, p :: p in env.meanwhile(k) && p.CancelContext?
  }

  // A value is captured only when an attempt succeeds.
  lemma {:induction false} ValueNeedsSuccess(cfg: Config, steps: seq<Step>) returns (i: nat)
    requires Exec(cfg, steps).pool.value.Some?
    ensures i < |steps| && Succeeds(steps[i])
  {
    i := |steps| - 1;
    if Exec(cfg, steps[..i]).pool.value.Some? {
      i := ValueNeedsSuccess(cfg, steps[..i]);
    }
  }

  // An attempt's outcome is the one it finished with.
  lemma {:induction false} OutcomeWasFinished(cfg: Config, steps: seq<Step>, a: nat) returns (i: nat)
    requires a < |Exec(cfg, steps).pool.phases| && !Exec(cfg, steps).pool.phases[a].Running?
    ensures i < |steps| && steps[i] == Beside(Finish(a, Exec(cfg, steps).pool.phases[a].outcome))
  {
    i := |steps| - 1;
    var s := Exec(cfg, steps[..i]);
    Reachable(cfg, steps[..i]);
    if a < |s.pool.phases| && !s.pool.phases[a].Running? {
      if Can(cfg, s, steps[i]) {
        SameOutcome(cfg, s, steps[i], a);
      }
      hide Inv, Do, Can;
      i := OutcomeWasFinished(cfg, steps[..i], a);
    } else {
      FinishesNow(cfg, s, steps[i], a);
    }
  }

  lemma SameOutcome(cfg: Config, s: Hedge, step: Step, a: nat)
    requires Inv(cfg, s) && Can(cfg, s, step) && a < |s.pool.phases| && !s.pool.phases[a].Running?
    ensures var r := Do(cfg, s, step);
            a < |r.pool.phases| && !r.pool.phases[a].Running? && r.pool.phases[a].outcome == s.pool.phases[a].outcome
  {
    hide Join, Final, ValueInv, LoopInv, ReceivedInv, PlaceInv;
  }

  lemma FinishesNow(cfg: Config, s: Hedge, step: Step, a: nat)
    requires Inv(cfg, s) && Can(cfg, s, step) && (a < |s.pool.phases| ==> s.pool.phases[a].Running?)
    ensures var r := Do(cfg, s, step);
            a < |r.pool.phases| && !r.pool.phases[a].Running? ==>
              step == Beside(Finish(a, r.pool.phases[a].outcome))
  {
    hide Join, Final, ValueInv, LoopInv, ReceivedInv, PlaceInv;
  }

  lemma {:induction false} ErrIsReceived(ms: seq<Message>, e: Err) returns (i: nat)
    requires e in ErrsOf(ms)
    ensures i < |ms| && ms[i].outcome == Some(e)
  {
    i := |ms| - 1;
    if ms[i].outcome != Some(e) {
      i := ErrIsReceived(ms[..i], e);
    }
  }

  // Every error the loop holds is one that an attempt could return.
  lemma ErrorsAreGiven(cfg: Config, env: Env, steps: seq<Step>, e: Err)
    requires AllGiven(env, steps) && e in Exec(cfg, steps).loop.errs
    ensures MayFail(env, e)
  {
    Reachable(cfg, steps);
    var s := Exec(cfg, steps);
    var k := ErrIsReceived(s.loop.received, e);
    var i := OutcomeWasFinished(cfg, steps, s.loop.received[k].attempt);
    hide Exec, Inv;
    assert Given(env, steps[i]);
  }

  lemma NilNeedsSuccess(cfg: Config, env: Env, steps: seq<Step>)
    requires AllGiven(env, steps) && cfg.maxAttempts > 0 && Exec(cfg, steps).loop.at == Exit(None)
    ensures MaySucceed(env)
  {
    NilMeansSuccess(cfg, steps);
    var i := ValueNeedsSuccess(cfg, steps);
    hide Exec;
    assert Given(env, steps[i]);
  }

  lemma ErrorIsJoin(cfg: Config, env: Env, steps: seq<Step>)
    requires AllGiven(env, steps) && !MayCancel(env)
    requires Exec(cfg, steps).loop.at.Exit? && Exec(cfg, steps).loop.at.result.Some?
    ensures var s := Exec(cfg, steps);
            |s.loop.errs| <= cfg.maxAttempts && s.loop.at.result == Join(s.loop.errs)
  {
    forall i | 0 <= i < |steps|
      ensures !Cancels(steps[i])
    {
      assert Given(env, steps[i]);
    }
    UncancelledResult(cfg, steps);
    Reachable(cfg, steps);
    ErrsAtMost(Exec(cfg, steps).loop.received);
    hide Exec;
  }

  lemma {:induction false} ErrsAtMost(ms: seq<Message>)
    ensures |ErrsOf(ms)| <= |ms|
  {
    if ms != [] {
      ErrsAtMost(ms[..|ms| - 1]);
    }
  }

  // Nobody cancels, no bucket is asked, and every attempt fails with an error after which the loop goes on.
  ghost predicate OnlyRetryable(cfg: Config, env: Env) {
    && !cfg.hasBucket && !MayCancel(env) && !MaySucceed(env)
    && forall e | MayFail(env, e) :: !Final(cfg.policy, e)
  }

  lemma AllAttemptsAreMade(cfg: Config, env: Env, steps: seq<Step>)
    requires AllGiven(env, steps) && cfg.maxAttempts > 0 && OnlyRetryable(cfg, env) && Exec(cfg, steps).loop.at.Exit?
    ensures var s := Exec(cfg, steps);
            |s.loop.errs| == cfg.maxAttempts && s.loop.at.result == Join(s.loop.errs)
  {
    hide Exec, Final, Given, AllGiven, MayFail, MaySucceed, MayCancel;
    var s := Exec(cfg, steps);
    ReturnedResult(cfg, steps);
    if s.loop.at.result.None? {
      NilNeedsSuccess(cfg, env, steps);
    } else {
      ErrorIsJoin(cfg, env, steps);
      ErrorsAreGiven(cfg, env, steps, s.loop.errs[|s.loop.errs| - 1]);
      if Refused(s) {
        var i := RefusalWasGiven(cfg, steps);
      }
    }
  }

  // Nil is an answer only if some attempt may succeed (or none is allowed); and when nobody cancels, an error is the
  // join of at most MaxAttempts errors, each of them one an attempt could return. When
  // every attempt can only fail retryably, all MaxAttempts are made.
  method ExecuteHedged(cfg: Config, env: Env) returns (result: Option<Err>)
    ensures cfg.maxAttempts == 0 ==> result.None?
    ensures cfg.maxAttempts > 0 && result.None? ==> MaySucceed(env)
    ensures result.Some? && !MayCancel(env) ==>
              exists errs ::
                0 < |errs| <= cfg.maxAttempts && result == Join(errs) && forall e | e in errs :: MayFail(env, e)
    ensures cfg.maxAttempts > 0 && OnlyRetryable(cfg, env) ==>
              exists errs :: |errs| == cfg.maxAttempts && result == Join(errs)
  {
    ghost var steps;
    result, steps := HedgeLoop(cfg, env);
    if cfg.maxAttempts > 0 && OnlyRetryable(cfg, env) {
      AllAttemptsAreMade(cfg, env, steps);
      hide OnlyRetryable;
    }
    if result.None? {
      if cfg.maxAttempts > 0 {
        NilNeedsSuccess(cfg, env, steps);
      }
    } else if !MayCancel(env) {
      ErrorIsJoin(cfg, env, steps);
      var errs := Exec(cfg, steps).loop.errs;
      forall e | e in errs
        ensures MayFail(env, e)
      {
        ErrorsAreGiven(cfg, env, steps, e);
      }
      hide Exec, MayFail;
      assert Join([]).None?;
    }
  }
}
