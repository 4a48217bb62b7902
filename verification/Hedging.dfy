// The hedged executor: one loop that launches attempts and waits, and the attempts that run beside it.
module Hedging {
  import opened Wrappers
  import opened Errors

  // ---- State ----

  // Where one launched attempt is. An outcome of None is success.
  datatype Phase =
    | Running
    | Returned(outcome: Option<Err>)
    | Buffered(outcome: Option<Err>)
    | Received(outcome: Option<Err>)
    | Dropped(outcome: Option<Err>)

  datatype Message = Message(attempt: nat, outcome: Option<Err>)

  // The attempts, the result channel, whether the shared context is done (and why), and which attempt's value the
  // once-guarded result variable holds.
  datatype Pool = Pool(phases: seq<Phase>, buffer: seq<Message>, done: Option<Sentinel>, value: Option<nat>)

  datatype Place =
    | Top
    | Waiting(timer: bool)
    | Exit(result: Option<Err>)

  // The loop's own variables. `grants` counts the retry tokens it was given.
  datatype Loop = Loop(
    attemptsStarted: nat,
    inFlight: int,
    errs: seq<Err>,
    received: seq<Message>,
    grants: nat,
    at: Place)

  datatype Hedge = Hedge(loop: Loop, pool: Pool)

  datatype Config = Config(maxAttempts: nat, hasBucket: bool, policy: Policy)

  // ---- Steps of the attempts and of the outside world ----

  datatype PoolStep =
    | Finish(attempt: nat, outcome: Option<Err>)
    | Send(attempt: nat)
    | Drop(attempt: nat)
    | CancelContext(why: Sentinel)

  predicate PoolCan(cfg: Config, p: Pool, step: PoolStep) {
    match step
    case Finish(a, _) => a < |p.phases| && p.phases[a].Running?
    case Send(a) => a < |p.phases| && p.phases[a].Returned? && |p.buffer| < cfg.maxAttempts
    case Drop(a) => a < |p.phases| && p.phases[a].Returned? && p.done.Some?
    case CancelContext(why) => p.done.None? && (why == Canceled || why == DeadlineExceeded)
  }

  function PoolDo(cfg: Config, p: Pool, step: PoolStep): Pool
    requires PoolCan(cfg, p, step)
  {
    match step
    case Finish(a, outcome) =>
      p.(phases := p.phases[a := Returned(outcome)],
         value := if outcome.None? && p.value.None? then Some(a) else p.value)
    case Send(a) =>
      p.(phases := p.phases[a := Buffered(p.phases[a].outcome)],
         buffer := p.buffer + [Message(a, p.phases[a].outcome)])
    case Drop(a) => p.(phases := p.phases[a := Dropped(p.phases[a].outcome)])
    case CancelContext(why) => p.(done := Some(why))
  }

  // ---- Steps of the loop ----

  datatype Step =
    | Go(granted: bool)
    | Take
    | Timer
    | SeeDone
    | Beside(step: PoolStep)

  predicate Can(cfg: Config, s: Hedge, step: Step) {
    match step
    case Go(_) => s.loop.at.Top?
    case Take => s.loop.at.Waiting? && s.pool.buffer != []
    case Timer => s.loop.at.Waiting? && s.loop.at.timer
    case SeeDone => s.loop.at.Waiting? && s.pool.done.Some?
    case Beside(p) => PoolCan(cfg, s.pool, p)
  }

  // Leaving the function runs the deferred cancel.
  function Leave(s: Hedge, result: Option<Err>): Hedge {
    Hedge(s.loop.(at := Exit(result)), s.pool.(done := if s.pool.done.None? then Some(Canceled) else s.pool.done))
  }

  predicate AsksBucket(cfg: Config, l: Loop) {
    0 < l.attemptsStarted < cfg.maxAttempts && cfg.hasBucket
  }

  function Launch(cfg: Config, s: Hedge, granted: bool): Hedge {
    var l := s.loop;
    if l.attemptsStarted >= cfg.maxAttempts then s
    else if AsksBucket(cfg, l) && !granted then s.(loop := l.(attemptsStarted := cfg.maxAttempts))
    else
      Hedge(l.(attemptsStarted := l.attemptsStarted + 1, inFlight := l.inFlight + 1,
               grants := l.grants + (if AsksBucket(cfg, l) then 1 else 0)),
            s.pool.(phases := s.pool.phases + [Running]))
  }

  // From the top of the loop to the select.
  function GoOn(cfg: Config, s: Hedge, granted: bool): Hedge {
    var t := Launch(cfg, s, granted);
    if t.loop.attemptsStarted >= cfg.maxAttempts && t.loop.inFlight == 0 then Leave(t, Join(t.loop.errs))
    else t.(loop := t.loop.(at := Waiting(t.loop.attemptsStarted < cfg.maxAttempts)))
  }

  // An error after which the loop gives up.
  predicate Final(p: Policy, e: Err) {
    Is(e, CircuitOpen) || CancelsAll(e) || !ShouldRetry(p, e)
  }

  function TakeOne(cfg: Config, s: Hedge): Hedge
    requires s.pool.buffer != []
  {
    var m := s.pool.buffer[0];
    var phases :=
      if m.attempt < |s.pool.phases| then s.pool.phases[m.attempt := Received(m.outcome)] else s.pool.phases;
    var t := Hedge(s.loop.(inFlight := s.loop.inFlight - 1, received := s.loop.received + [m]),
                   s.pool.(buffer := s.pool.buffer[1..], phases := phases));
    match m.outcome
    case None => Leave(t, None)
    case Some(e) =>
      var u := t.(loop := t.loop.(errs := t.loop.errs + [e]));
      if Final(cfg.policy, e) then Leave(u, Join(u.loop.errs)) else u.(loop := u.loop.(at := Top))
  }

  function Do(cfg: Config, s: Hedge, step: Step): Hedge
    requires Can(cfg, s, step)
  {
    match step
    case Go(granted) => GoOn(cfg, s, granted)
    case Take => TakeOne(cfg, s)
    case Timer => s.(loop := s.loop.(at := Top))
    case SeeDone => Leave(s, Join(s.loop.errs + [Simple(s.pool.done.value)]))
    case Beside(p) => s.(pool := PoolDo(cfg, s.pool, p))
  }

  function Init(): Hedge {
    Hedge(Loop(0, 0, [], [], 0, Top), Pool([], [], None, None))
  }

  // Steps that are not possible when their turn comes are skipped.
  function Exec(cfg: Config, steps: seq<Step>): Hedge {
    if steps == [] then Init()
    else
      var s := Exec(cfg, steps[..|steps| - 1]);
      var step := steps[|steps| - 1];
      if Can(cfg, s, step) then Do(cfg, s, step) else s
  }

  // ---- Invariant ----

  function Buffereds(ps: seq<Phase>): nat {
    if ps == [] then 0 else Buffereds(ps[..|ps| - 1]) + (if ps[|ps| - 1].Buffered? then 1 else 0)
  }

  function Receiveds(ps: seq<Phase>): nat {
    if ps == [] then 0 else Receiveds(ps[..|ps| - 1]) + (if ps[|ps| - 1].Received? then 1 else 0)
  }

  // The work an attempt still has to do: finish, then hand over its result.
  function Work(ps: seq<Phase>): nat {
    if ps == [] then 0
    else
      var p := ps[|ps| - 1];
      Work(ps[..|ps| - 1]) + (if p.Running? then 2 else if p.Returned? then 1 else 0)
  }

  function Phasing(p: Phase): (nat, nat, nat) {
    (if p.Buffered? then 1 else 0, if p.Received? then 1 else 0, if p.Running? then 2 else if p.Returned? then 1 else 0)
  }

  lemma {:induction false} PhaseUpdate(ps: seq<Phase>, a: nat, p: Phase)
    requires a < |ps|
    ensures Buffereds(ps[a := p]) == Buffereds(ps) - Phasing(ps[a]).0 + Phasing(p).0
    ensures Receiveds(ps[a := p]) == Receiveds(ps) - Phasing(ps[a]).1 + Phasing(p).1
    ensures Work(ps[a := p]) == Work(ps) - Phasing(ps[a]).2 + Phasing(p).2
  {
    var init := ps[..|ps| - 1];
    if a == |ps| - 1 {
      assert ps[a := p][..|ps| - 1] == init;
    } else {
      assert ps[a := p][..|ps| - 1] == init[a := p];
      PhaseUpdate(init, a, p);
    }
  }

  lemma PhaseAppend(ps: seq<Phase>, p: Phase)
    ensures Buffereds(ps + [p]) == Buffereds(ps) + Phasing(p).0
    ensures Receiveds(ps + [p]) == Receiveds(ps) + Phasing(p).1
    ensures Work(ps + [p]) == Work(ps) + Phasing(p).2
  {
    assert (ps + [p])[..|ps + [p]| - 1] == ps;
  }

  lemma {:induction false} CountsFit(ps: seq<Phase>, a: nat)
    requires a < |ps|
    ensures Buffereds(ps) + Receiveds(ps) <= |ps|
    ensures !ps[a].Buffered? ==> Buffereds(ps) < |ps|
  {
    if |ps| > 1 {
      CountsFit(ps[..|ps| - 1], if a < |ps| - 1 then a else 0);
    }
  }

  // If not everything was received, something was not.
  lemma {:induction false} SomeUnreceived(ps: seq<Phase>) returns (a: nat)
    requires Receiveds(ps) < |ps|
    ensures a < |ps| && !ps[a].Received?
  {
    if ps[|ps| - 1].Received? {
      a := SomeUnreceived(ps[..|ps| - 1]);
    } else {
      a := |ps| - 1;
    }
  }

  lemma {:induction false} NoneBuffered(ps: seq<Phase>, a: nat)
    requires Buffereds(ps) == 0 && a < |ps|
    ensures !ps[a].Buffered?
  {
    if a < |ps| - 1 {
      NoneBuffered(ps[..|ps| - 1], a);
    }
  }

  function ErrsOf(ms: seq<Message>): seq<Err> {
    if ms == [] then []
    else
      var m := ms[|ms| - 1];
      ErrsOf(ms[..|ms| - 1]) + (if m.outcome.Some? then [m.outcome.value] else [])
  }

  predicate AllErrors(ms: seq<Message>) {
    forall i | 0 <= i < |ms| :: ms[i].outcome.Some?
  }

  predicate AllGoOn(p: Policy, es: seq<Err>) {
    forall i | 0 <= i < |es| :: !Final(p, es[i])
  }

  // How the call may end.
  predicate Ended(cfg: Config, l: Loop, launched: nat, result: Option<Err>) {
    || (cfg.maxAttempts == 0 && result.None? && launched == 0)
    || (&& result.None? && l.received != [] && l.received[|l.received| - 1].outcome.None?
        && AllErrors(l.received[..|l.received| - 1]) && AllGoOn(cfg.policy, l.errs))
    || (&& AllErrors(l.received) && l.errs != [] && result == Join(l.errs)
        && AllGoOn(cfg.policy, l.errs[..|l.errs| - 1])
        && (Final(cfg.policy, l.errs[|l.errs| - 1])
            || (|l.errs| == launched && l.attemptsStarted == cfg.maxAttempts)))
    || (&& AllErrors(l.received) && AllGoOn(cfg.policy, l.errs)
        && (result == Join(l.errs + [Simple(Canceled)]) || result == Join(l.errs + [Simple(DeadlineExceeded)])))
  }

  predicate PoolInv(cfg: Config, p: Pool) {
    && |p.phases| <= cfg.maxAttempts
    && Buffereds(p.phases) == |p.buffer|
    && (forall i | 0 <= i < |p.buffer| ::
          p.buffer[i].attempt < |p.phases| && p.phases[p.buffer[i].attempt] == Buffered(p.buffer[i].outcome))
    && (forall i, j | 0 <= i < j < |p.buffer| :: p.buffer[i].attempt != p.buffer[j].attempt)
    && (p.done.Some? ==> p.done.value == Canceled || p.done.value == DeadlineExceeded)
    && (p.done.None? ==> forall a | 0 <= a < |p.phases| :: !p.phases[a].Dropped?)
  }

  // The once-guarded result: held by an attempt that succeeded, from the first success on.
  predicate ValueInv(p: Pool) {
    && (p.value.Some? ==> p.value.value < |p.phases| && Succeeded(p.phases[p.value.value]))
    && (forall a | 0 <= a < |p.phases| && Succeeded(p.phases[a]) :: p.value.Some?)
  }

  predicate Succeeded(p: Phase) {
    !p.Running? && p.outcome.None?
  }

  predicate LoopInv(cfg: Config, l: Loop, launched: nat) {
    && 0 <= l.inFlight
    && |l.received| + l.inFlight == launched <= l.attemptsStarted <= cfg.maxAttempts
    && (launched == l.attemptsStarted || l.attemptsStarted == cfg.maxAttempts)
    && (l.attemptsStarted > 0 ==> launched > 0)
    && (cfg.hasBucket && launched > 0 ==> launched == 1 + l.grants)
    && (launched == 0 ==> l.grants == 0)
    && l.errs == ErrsOf(l.received)
  }

  predicate ReceivedInv(received: seq<Message>, phases: seq<Phase>) {
    && Receiveds(phases) == |received|
    && (forall i | 0 <= i < |received| ::
          received[i].attempt < |phases| && phases[received[i].attempt] == Received(received[i].outcome))
    && (forall i, j | 0 <= i < j < |received| :: received[i].attempt != received[j].attempt)
  }

  predicate PlaceInv(cfg: Config, l: Loop, launched: nat, done: bool) {
    match l.at
    case Exit(result) => done && Ended(cfg, l, launched, result) && (cfg.maxAttempts > 0 ==> launched > 0)
    case Top => AllErrors(l.received) && AllGoOn(cfg.policy, l.errs)
    case Waiting(timer) =>
      && launched > 0
      && AllErrors(l.received) && AllGoOn(cfg.policy, l.errs)
      && (timer <==> l.attemptsStarted < cfg.maxAttempts)
      && (!timer ==> l.inFlight > 0)
  }

  predicate Inv(cfg: Config, s: Hedge) {
    && PoolInv(cfg, s.pool)
    && ValueInv(s.pool)
    && LoopInv(cfg, s.loop, |s.pool.phases|)
    && ReceivedInv(s.loop.received, s.pool.phases)
    && PlaceInv(cfg, s.loop, |s.pool.phases|, s.pool.done.Some?)
  }

  // An attempt moving on, short of being received, leaves the received ones alone.
  lemma StillReceived(received: seq<Message>, phases: seq<Phase>, a: nat, p: Phase)
    requires ReceivedInv(received, phases) && a < |phases| && !phases[a].Received? && !p.Received?
    ensures ReceivedInv(received, phases[a := p])
  {
    PhaseUpdate(phases, a, p);
    hide Receiveds;
  }

  // An attempt moving on keeps the captured value's facts, if its outcome is new or the same.
  lemma StillCaptured(p: Pool, a: nat, next: Phase, q: Pool)
    requires ValueInv(p) && a < |p.phases| && !next.Running?
    requires p.phases[a].Running? || next.outcome == p.phases[a].outcome
    requires q.phases == p.phases[a := next]
    requires q.value == if next.outcome.None? && p.value.None? then Some(a) else p.value
    ensures ValueInv(q)
  {
  }

  lemma PoolMoves(cfg: Config, p: Pool, step: PoolStep)
    requires PoolInv(cfg, p) && ValueInv(p) && PoolCan(cfg, p, step)
    ensures PoolInv(cfg, PoolDo(cfg, p, step)) && ValueInv(PoolDo(cfg, p, step))
  {
    var q := PoolDo(cfg, p, step);
    match step
    case CancelContext(_) =>
    case Finish(a, outcome) =>
      PhaseUpdate(p.phases, a, Returned(outcome));
      StillCaptured(p, a, Returned(outcome), q);
      hide Buffereds, ValueInv;
    case Send(a) =>
      PhaseUpdate(p.phases, a, Buffered(p.phases[a].outcome));
      StillCaptured(p, a, Buffered(p.phases[a].outcome), q);
      hide Buffereds, ValueInv;
    case Drop(a) =>
      PhaseUpdate(p.phases, a, Dropped(p.phases[a].outcome));
      StillCaptured(p, a, Dropped(p.phases[a].outcome), q);
      hide Buffereds, ValueInv;
  }

  lemma PoolStepInv(cfg: Config, s: Hedge, step: PoolStep)
    requires Inv(cfg, s) && PoolCan(cfg, s.pool, step)
    ensures Inv(cfg, Do(cfg, s, Beside(step)))
  {
    PoolMoves(cfg, s.pool, step);
    if !step.CancelContext? {
      var a := step.attempt;
      StillReceived(s.loop.received, s.pool.phases, a, PoolDo(cfg, s.pool, step).phases[a]);
      assert PoolDo(cfg, s.pool, step).phases == s.pool.phases[a := PoolDo(cfg, s.pool, step).phases[a]];
    }
    hide PoolInv, ValueInv, LoopInv, ReceivedInv, Ended;
  }

  lemma {:induction false} ErrsOfAll(ms: seq<Message>)
    requires AllErrors(ms)
    ensures |ErrsOf(ms)| == |ms|
  {
    if ms != [] {
      ErrsOfAll(ms[..|ms| - 1]);
    }
  }

  // One more attempt beside the loop.
  lemma PhasesGrow(cfg: Config, p: Pool, received: seq<Message>)
    requires PoolInv(cfg, p) && ValueInv(p) && ReceivedInv(received, p.phases) && |p.phases| < cfg.maxAttempts
    ensures var q := p.(phases := p.phases + [Running]);
            PoolInv(cfg, q) && ValueInv(q) && ReceivedInv(received, q.phases)
  {
    PhaseAppend(p.phases, Running);
    hide Buffereds, Receiveds;
  }

  lemma LoopLaunch(cfg: Config, s: Hedge, granted: bool)
    requires LoopInv(cfg, s.loop, |s.pool.phases|)
    ensures var t := Launch(cfg, s, granted);
            && LoopInv(cfg, t.loop, |t.pool.phases|) && t.loop.at == s.loop.at
            && (t.pool == s.pool
                || (t.pool == s.pool.(phases := s.pool.phases + [Running]) && |s.pool.phases| < cfg.maxAttempts))
            && t.loop.received == s.loop.received && t.loop.errs == s.loop.errs
            && (cfg.maxAttempts > 0 ==> |t.pool.phases| > 0)
  {
    hide ErrsOf;
  }

  // Launching changes the loop's counters, and puts at most one more attempt beside it.
  lemma LaunchInv(cfg: Config, s: Hedge, granted: bool)
    requires Inv(cfg, s) && s.loop.at.Top?
    ensures Inv(cfg, Launch(cfg, s, granted)) && Launch(cfg, s, granted).loop.at.Top?
    ensures cfg.maxAttempts > 0 ==> |Launch(cfg, s, granted).pool.phases| > 0
  {
    hide PoolInv, ValueInv, LoopInv, ReceivedInv, AllErrors, AllGoOn, Launch;
    LoopLaunch(cfg, s, granted);
    if Launch(cfg, s, granted).pool != s.pool {
      PhasesGrow(cfg, s.pool, s.loop.received);
    }
  }

  // Breaking out of the loop: everything launched has failed, or nothing was ever to be launched.
  lemma AllSpent(cfg: Config, l: Loop, launched: nat)
    requires LoopInv(cfg, l, launched) && AllErrors(l.received) && AllGoOn(cfg.policy, l.errs)
    requires l.attemptsStarted >= cfg.maxAttempts && l.inFlight == 0
    ensures Ended(cfg, l.(at := Exit(Join(l.errs))), launched, Join(l.errs))
  {
    ErrsOfAll(l.received);
    hide Final, ErrsOf;
    if launched == 0 {
      assert l.errs == [];
    }
  }

  lemma ElsewhereInv(cfg: Config, l: Loop, launched: nat, at: Place)
    requires LoopInv(cfg, l, launched)
    ensures LoopInv(cfg, l.(at := at), launched)
  {
  }

  lemma GoInv(cfg: Config, s: Hedge, granted: bool)
    requires Inv(cfg, s) && s.loop.at.Top?
    ensures Inv(cfg, GoOn(cfg, s, granted))
  {
    LaunchInv(cfg, s, granted);
    var t := Launch(cfg, s, granted);
    var l, n := t.loop, |t.pool.phases|;
    DoneChanges(cfg, t.pool);
    if l.attemptsStarted >= cfg.maxAttempts && l.inFlight == 0 {
      AllSpent(cfg, l, n);
      ElsewhereInv(cfg, l, n, Exit(Join(l.errs)));
      assert PlaceInv(cfg, l.(at := Exit(Join(l.errs))), n, true);
    } else {
      ElsewhereInv(cfg, l, n, Waiting(l.attemptsStarted < cfg.maxAttempts));
      assert PlaceInv(cfg, l.(at := Waiting(l.attemptsStarted < cfg.maxAttempts)), n, t.pool.done.Some?);
    }
    hide ReceivedInv, ValueInv, PoolInv, LoopInv, PlaceInv, Ended, Launch, Join;
  }

  // The attempt whose result is at the head of the channel, once received.
  function Unqueued(p: Pool): Pool
    requires p.buffer != [] && p.buffer[0].attempt < |p.phases|
  {
    var m := p.buffer[0];
    Pool(p.phases[m.attempt := Received(m.outcome)], p.buffer[1..], p.done, p.value)
  }

  lemma HeadIsBuffered(cfg: Config, p: Pool)
    requires PoolInv(cfg, p) && p.buffer != []
    ensures p.buffer[0].attempt < |p.phases| && p.phases[p.buffer[0].attempt] == Buffered(p.buffer[0].outcome)
  {
    hide Buffereds;
  }

  lemma UnqueuedPool(cfg: Config, p: Pool)
    requires PoolInv(cfg, p) && ValueInv(p) && p.buffer != [] && p.buffer[0].attempt < |p.phases|
    ensures PoolInv(cfg, Unqueued(p)) && ValueInv(Unqueued(p))
  {
    var m := p.buffer[0];
    PhaseUpdate(p.phases, m.attempt, Received(m.outcome));
    StillCaptured(p, m.attempt, Received(m.outcome), Unqueued(p));
    hide Buffereds, Receiveds, ValueInv;
  }

  lemma UnqueuedReceived(cfg: Config, p: Pool, received: seq<Message>)
    requires p.buffer != [] && p.buffer[0].attempt < |p.phases| && ReceivedInv(received, p.phases)
    requires p.phases[p.buffer[0].attempt] == Buffered(p.buffer[0].outcome)
    ensures ReceivedInv(received + [p.buffer[0]], Unqueued(p).phases)
  {
    var m := p.buffer[0];
    PhaseUpdate(p.phases, m.attempt, Received(m.outcome));
    hide Receiveds, Buffereds;
  }

  lemma TakePool(cfg: Config, s: Hedge)
    requires Inv(cfg, s) && s.pool.buffer != []
    ensures var p := TakeOne(cfg, s).pool;
            && s.pool.buffer[0].attempt < |s.pool.phases|
            && PoolInv(cfg, p) && ValueInv(p)
            && ReceivedInv(s.loop.received + [s.pool.buffer[0]], p.phases)
  {
    hide PoolInv, ValueInv, ReceivedInv, LoopInv, PlaceInv, Final, Join;
    HeadIsBuffered(cfg, s.pool);
    UnqueuedPool(cfg, s.pool);
    UnqueuedReceived(cfg, s.pool, s.loop.received);
    DoneChanges(cfg, Unqueued(s.pool));
    var p := TakeOne(cfg, s).pool;
    assert p == Unqueued(s.pool) || p == Unqueued(s.pool).(done := Some(Canceled));
  }

  lemma DoneChanges(cfg: Config, p: Pool)
    requires PoolInv(cfg, p) && ValueInv(p)
    ensures PoolInv(cfg, p.(done := Some(Canceled))) && ValueInv(p.(done := Some(Canceled)))
  {
  }

  // What a received result does to the loop's own variables.
  function LoopAfter(cfg: Config, l: Loop, m: Message): Loop {
    var k := l.(inFlight := l.inFlight - 1, received := l.received + [m]);
    match m.outcome
    case None => k.(at := Exit(None))
    case Some(e) =>
      var errs := l.errs + [e];
      k.(errs := errs, at := if Final(cfg.policy, e) then Exit(Join(errs)) else Top)
  }

  lemma TakeIsLoopAfter(cfg: Config, s: Hedge)
    requires s.pool.buffer != []
    ensures var t := TakeOne(cfg, s);
            t.loop == LoopAfter(cfg, s.loop, s.pool.buffer[0]) && (t.loop.at.Exit? ==> t.pool.done.Some?)
  {
    hide Final, Join;
  }

  lemma LoopAfterInv(cfg: Config, l: Loop, m: Message, launched: nat)
    requires LoopInv(cfg, l, launched) && l.inFlight > 0 && AllErrors(l.received) && AllGoOn(cfg.policy, l.errs)
    ensures LoopInv(cfg, LoopAfter(cfg, l, m), launched)
    ensures PlaceInv(cfg, LoopAfter(cfg, l, m), launched, true)
  {
    var r := l.received + [m];
    assert r[..|r| - 1] == l.received;
    if m.outcome.Some? {
      var errs := l.errs + [m.outcome.value];
      assert errs[..|errs| - 1] == l.errs;
      assert AllErrors(r);
    }
    hide Final, Join;
  }

  lemma TakeLoop(cfg: Config, s: Hedge)
    requires Inv(cfg, s) && Can(cfg, s, Take)
    ensures var t := TakeOne(cfg, s);
            LoopInv(cfg, t.loop, |s.pool.phases|) && PlaceInv(cfg, t.loop, |s.pool.phases|, t.pool.done.Some?)
  {
    SomeInFlight(cfg, s);
    hide PoolInv, ValueInv, ReceivedInv, LoopInv, AllErrors, AllGoOn, Ended, TakeOne, Final, Join;
    TakeIsLoopAfter(cfg, s);
    LoopAfterInv(cfg, s.loop, s.pool.buffer[0], |s.pool.phases|);
  }

  // A buffered result belongs to an attempt not yet received, so something is in flight.
  lemma SomeInFlight(cfg: Config, s: Hedge)
    requires Inv(cfg, s) && s.pool.buffer != []
    ensures s.loop.inFlight > 0
  {
    CountsFit(s.pool.phases, s.pool.buffer[0].attempt);
    hide Buffereds, Receiveds;
  }

  lemma TakeInv(cfg: Config, s: Hedge)
    requires Inv(cfg, s) && Can(cfg, s, Take)
    ensures Inv(cfg, TakeOne(cfg, s))
  {
    hide PoolInv, ValueInv, ReceivedInv, LoopInv, PlaceInv, Final, TakeOne;
    TakePool(cfg, s);
    TakeLoop(cfg, s);
    TakeIsLoopAfter(cfg, s);
    TakeKeepsLaunched(cfg, s);
  }

  lemma TakeKeepsLaunched(cfg: Config, s: Hedge)
    requires s.pool.buffer != []
    ensures |TakeOne(cfg, s).pool.phases| == |s.pool.phases|
    ensures TakeOne(cfg, s).loop.received == s.loop.received + [s.pool.buffer[0]]
  {
    hide Final, Join;
  }

  lemma StepInv(cfg: Config, s: Hedge, step: Step)
    requires Inv(cfg, s) && Can(cfg, s, step)
    ensures Inv(cfg, Do(cfg, s, step))
  {
    match step
    case Go(granted) => GoInv(cfg, s, granted);
    case Take => TakeInv(cfg, s);
    case Timer =>
    case SeeDone =>
      DoneChanges(cfg, s.pool);
    case Beside(p) => PoolStepInv(cfg, s, p);
  }

  lemma {:induction false} Reachable(cfg: Config, steps: seq<Step>)
    ensures Inv(cfg, Exec(cfg, steps))
  {
    if steps != [] {
      Reachable(cfg, steps[..|steps| - 1]);
      var s := Exec(cfg, steps[..|steps| - 1]);
      if Can(cfg, s, steps[|steps| - 1]) {
        StepInv(cfg, s, steps[|steps| - 1]);
      }
    }
  }
}
