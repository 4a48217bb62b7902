// The shared token bucket for retries, and what it means for everything that shares it.
module RetryBudget {
  import opened Wrappers
  import opened Errors
  import opened Pipeline
  import Hedging

  datatype Bucket = Bucket(maxCapacity: real, retryCost: real, successRefill: real, tokens: real)

  predicate Sane(b: Bucket) {
    b.maxCapacity >= 0.0 && b.retryCost >= 0.0 && b.successRefill >= 0.0
  }

  function Acquire(b: Bucket): (Bucket, bool) {
    if b.tokens >= b.retryCost then (b.(tokens := b.tokens - b.retryCost), true) else (b, false)
  }

  function Refill(b: Bucket): Bucket {
    b.(tokens := if b.tokens + b.successRefill > b.maxCapacity then b.maxCapacity else b.tokens + b.successRefill)
  }

  class AdaptiveBucket {
    var tokens: real
    const maxCapacity: real
    const retryCost: real
    const successRefill: real

    function View(): Bucket
      reads this
    {
      Bucket(maxCapacity, retryCost, successRefill, tokens)
    }

    constructor (maxCapacity: real, retryCost: real, successRefill: real)
      ensures View() == Bucket(maxCapacity, retryCost, successRefill, maxCapacity)
    {
      this.maxCapacity, this.retryCost, this.successRefill := maxCapacity, retryCost, successRefill;
      tokens := maxCapacity;
    }

    method AcquireRetryToken() returns (ok: bool)
      modifies this
      ensures (View(), ok) == Acquire(old(View()))
    {
      if tokens >= retryCost {
        tokens := tokens - retryCost;
        return true;
      }
      return false;
    }

    method AddSuccessToken()
      modifies this
      ensures View() == Refill(old(View()))
    {
      tokens := tokens + successRefill;
      if tokens > maxCapacity {
        tokens := maxCapacity;
      }
    }
  }

  // ---- One run as the bucket sees it ----

  // How many attempts it has made, how many tokens it was granted, and whether it is over.
  datatype Run = Run(attempts: nat, grants: nat, over: bool)

  const FRESH := Run(0, 0, false)

  // The first attempt is free; every later one needs a token granted before it. Success is reported at most once.
  predicate MayMove(r: Run, m: Move) {
    !r.over
    && match m
       case Try => r.attempts < 1 + r.grants
       case Ask(_) => r.attempts > 0
       case Succeed => r.attempts > 0
  }

  function Moved(r: Run, m: Move): Run {
    match m
    case Try => r.(attempts := r.attempts + 1)
    case Ask(granted) => if granted then r.(grants := r.grants + 1) else r
    case Succeed => r.(over := true)
  }

  predicate Disciplined(r: Run, moves: seq<Move>)
    decreases |moves|
  {
    moves == [] || (MayMove(r, moves[0]) && Disciplined(Moved(r, moves[0]), moves[1..]))
  }

  function After(r: Run, moves: seq<Move>): Run
    decreases |moves|
  {
    if moves == [] then r else After(Moved(r, moves[0]), moves[1..])
  }

  lemma {:induction false} OneMoreMove(r: Run, moves: seq<Move>, m: Move)
    requires Disciplined(r, moves)
    ensures Disciplined(r, moves + [m]) <==> MayMove(After(r, moves), m)
    ensures After(r, moves + [m]) == Moved(After(r, moves), m)
    decreases |moves|
  {
    if moves == [] {
      assert [] + [m] == [m] && [m][1..] == [];
    } else {
      assert (moves + [m])[1..] == moves[1..] + [m];
      OneMoreMove(Moved(r, moves[0]), moves[1..], m);
    }
  }

  // ---- The sequential retry loop is disciplined ----

  // Between two turns of a loop with a bucket, every attempt so far has been followed by one granted token.
  predicate Paid(p: Progress) {
    && |p.attempts| == |p.errs|
    && Disciplined(FRESH, p.moves) && After(FRESH, p.moves) == Run(|p.errs|, |p.errs|, false)
  }

  // What the bucket sees of a finished loop is disciplined and true: it counts exactly the attempts made, and reports
  // success exactly if the last one succeeded.
  predicate ToldTruly(f: Finished) {
    var r := After(FRESH, f.progress.moves);
    && Disciplined(FRESH, f.progress.moves)
    && r.attempts == |f.progress.attempts|
    && (r.over <==> f.result.None? && f.progress.attempts != [])
  }

  lemma {:induction false} LoopIsDisciplined(cfg: Config, env: Env, next: Handler, p: Progress)
    requires cfg.hasBucket && Paid(p)
    ensures ToldTruly(RetryFrom(cfg, env, next, p))
    decreases cfg.maxAttempts - |p.errs|
  {
    if |p.errs| < cfg.maxAttempts {
      var rs := Shown(p);
      var (r, w) := next(p.world, rs);
      OneMoreMove(FRESH, p.moves, Try);
      var q := p.(world := w, state := rs, attempts := p.attempts + [Attempt(rs, r)], moves := p.moves + [Try]);
      OneMoreMove(FRESH, q.moves, Succeed);
      if r.Some? {
        var f := q.(errs := q.errs + [r.value]);
        OneMoreMove(FRESH, f.moves, Ask(env.token(f.world.asked)));
        if !Ends(cfg.policy, r.value) && |f.errs| < cfg.maxAttempts {
          PauseAsksOnce(cfg, env, f);
          var pause := PauseAfter(cfg, env, f);
          if pause.Resume? {
            LoopIsDisciplined(cfg, env, next, pause.progress);
          }
        }
      }
      hide PauseAfter, Shown, Disciplined, After, Ends;
    }
  }

  lemma PauseAsksOnce(cfg: Config, env: Env, f: Progress)
    requires cfg.hasBucket && f.errs != []
    ensures var pause := PauseAfter(cfg, env, f);
            var granted := env.token(f.world.asked);
            && pause.progress.moves == f.moves + [Ask(granted)]
            && pause.progress.errs == f.errs && pause.progress.attempts == f.attempts
            && (pause.Resume? ==> granted)
  {
    hide FirstRetryAfter;
  }

  // ---- So is the hedged executor ----

  function RunOf(s: Hedging.Hedge): Run {
    Run(|s.pool.phases|, s.loop.grants, s.loop.at == Hedging.Exit(None) && s.pool.phases != [])
  }

  // What one step of the hedged executor is to the bucket: a first launch, an answered request with its launch, a
  // refusal, a success, or nothing.
  function MovesOf(cfg: Hedging.Config, s: Hedging.Hedge, step: Hedging.Step): seq<Move> {
    match step
    case Go(granted) =>
      if s.loop.attemptsStarted >= cfg.maxAttempts then []
      else if !Hedging.AsksBucket(cfg, s.loop) then [Try]
      else if granted then [Ask(true), Try] else [Ask(false)]
    case Take => if s.pool.buffer != [] && s.pool.buffer[0].outcome.None? then [Succeed] else []
    case _ => []
  }

  // Leaving at the top of the loop after launches, the executor has an error to return.
  lemma GoLeavesWithError(cfg: Hedging.Config, s: Hedging.Hedge, granted: bool)
    requires Hedging.Inv(cfg, s) && s.loop.at.Top?
    ensures var t := Hedging.GoOn(cfg, s, granted);
            t.loop.at == Hedging.Exit(None) ==> t.pool.phases == []
  {
    Hedging.ErrsOfAll(s.loop.received);
    hide Hedging.ErrsOf, Hedging.PoolInv, Hedging.ValueInv, Hedging.ReceivedInv;
  }

  lemma HedgeStepIsDisciplined(cfg: Hedging.Config, s: Hedging.Hedge, step: Hedging.Step)
    requires cfg.hasBucket && Hedging.Inv(cfg, s) && Hedging.Can(cfg, s, step)
    ensures var moves := MovesOf(cfg, s, step);
            Disciplined(RunOf(s), moves) && After(RunOf(s), moves) == RunOf(Hedging.Do(cfg, s, step))
  {
    match step {
      case Go(granted) => GoMoves(cfg, s, granted);
      case Take => TakeMoves(cfg, s);
      case Timer =>
      case SeeDone =>
      case Beside(p) => assert |Hedging.PoolDo(cfg, s.pool, p).phases| == |s.pool.phases|;
    }
    hide Hedging.Inv, Join;
  }

  lemma GoMoves(cfg: Hedging.Config, s: Hedging.Hedge, granted: bool)
    requires cfg.hasBucket && Hedging.Inv(cfg, s) && s.loop.at.Top?
    ensures var moves := MovesOf(cfg, s, Hedging.Go(granted));
            Disciplined(RunOf(s), moves) && After(RunOf(s), moves) == RunOf(Hedging.GoOn(cfg, s, granted))
  {
    assert [Ask(true), Try][1..] == [Try] && [Try][1..] == [];
    GoLeavesWithError(cfg, s, granted);
    hide Hedging.ErrsOf, Join, Hedging.PoolInv, Hedging.ValueInv, Hedging.ReceivedInv, Hedging.PlaceInv;
  }

  lemma TakeMoves(cfg: Hedging.Config, s: Hedging.Hedge)
    requires cfg.hasBucket && Hedging.Inv(cfg, s) && Hedging.Can(cfg, s, Hedging.Take)
    ensures var moves := MovesOf(cfg, s, Hedging.Take);
            Disciplined(RunOf(s), moves) && After(RunOf(s), moves) == RunOf(Hedging.TakeOne(cfg, s))
  {
    assert [Succeed][1..] == [];
    assert s.pool.phases != [] && s.loop.at.Waiting?;
    hide Hedging.Inv, Hedging.Final;
    if s.pool.buffer[0].outcome.Some? {
      assert Hedging.TakeOne(cfg, s).loop.at != Hedging.Exit(None);
    }
  }

  lemma {:induction false} MovesConcat(r: Run, a: seq<Move>, b: seq<Move>)
    requires Disciplined(r, a)
    ensures Disciplined(r, a + b) <==> Disciplined(After(r, a), b)
    ensures After(r, a + b) == After(After(r, a), b)
    decreases |a|
  {
    if a == [] {
      assert a + b == b;
    } else {
      assert (a + b)[1..] == a[1..] + b;
      MovesConcat(Moved(r, a[0]), a[1..], b);
    }
  }

  // Everything a hedged run does to the bucket, in order.
  function HedgeMoves(cfg: Hedging.Config, steps: seq<Hedging.Step>): seq<Move> {
    if steps == [] then []
    else
      var less := steps[..|steps| - 1];
      var s := Hedging.Exec(cfg, less);
      HedgeMoves(cfg, less)
      + (if Hedging.Can(cfg, s, steps[|steps| - 1]) then MovesOf(cfg, s, steps[|steps| - 1]) else [])
  }

  // Whatever the interleaving inside it, a hedged run is disciplined, and its moves tell its attempts, its tokens and
  // whether it has succeeded.
  lemma {:induction false} HedgeRunIsDisciplined(cfg: Hedging.Config, steps: seq<Hedging.Step>)
    requires cfg.hasBucket
    ensures var moves := HedgeMoves(cfg, steps);
            Disciplined(FRESH, moves) && After(FRESH, moves) == RunOf(Hedging.Exec(cfg, steps))
  {
    if steps != [] {
      var less, step := steps[..|steps| - 1], steps[|steps| - 1];
      var s := Hedging.Exec(cfg, less);
      HedgeRunIsDisciplined(cfg, less);
      if Hedging.Can(cfg, s, step) {
        Hedging.Reachable(cfg, less);
        HedgeStepIsDisciplined(cfg, s, step);
        MovesConcat(FRESH, HedgeMoves(cfg, less), MovesOf(cfg, s, step));
        hide Disciplined, After, MovesOf, Hedging.Do, Hedging.Inv, RunOf;
      } else {
        assert HedgeMoves(cfg, steps) == HedgeMoves(cfg, less);
      }
    }
  }

  // ---- Many runs sharing one bucket ----

  datatype Step =
    | Open
    | Move(run: nat, move: Pipeline.Move)

  datatype Sys = Sys(bucket: Bucket, runs: seq<Run>, successes: nat)

  // The bucket answers requests; everything else is up to the runs.
  predicate Can(s: Sys, step: Step) {
    match step
    case Open => true
    case Move(i, m) =>
      i < |s.runs| && MayMove(s.runs[i], m) && (m.Ask? ==> m.granted == Acquire(s.bucket).1)
  }

  function Do(s: Sys, step: Step): Sys
    requires Can(s, step)
  {
    match step
    case Open => s.(runs := s.runs + [FRESH])
    case Move(i, m) =>
      var t := s.(runs := s.runs[i := Moved(s.runs[i], m)]);
      match m
      case Try => t
      case Ask(_) => t.(bucket := Acquire(s.bucket).0)
      case Succeed => t.(bucket := Refill(s.bucket), successes := s.successes + 1)
  }

  function Exec(b: Bucket, steps: seq<Step>): Sys {
    if steps == [] then Sys(b, [], 0)
    else
      var s := Exec(b, steps[..|steps| - 1]);
      if Can(s, steps[|steps| - 1]) then Do(s, steps[|steps| - 1]) else s
  }

  function Grants(runs: seq<Run>): nat {
    if runs == [] then 0 else Grants(runs[..|runs| - 1]) + runs[|runs| - 1].grants
  }

  // Attempts after each run's first.
  function Retried(runs: seq<Run>): nat {
    if runs == [] then 0
    else
      var r := runs[|runs| - 1];
      Retried(runs[..|runs| - 1]) + (if r.attempts == 0 then 0 else r.attempts - 1)
  }

  function Finishes(runs: seq<Run>): nat {
    if runs == [] then 0 else Finishes(runs[..|runs| - 1]) + (if runs[|runs| - 1].over then 1 else 0)
  }

  lemma {:induction false} RunUpdate(runs: seq<Run>, i: nat, r: Run)
    requires i < |runs|
    ensures Grants(runs[i := r]) == Grants(runs) - runs[i].grants + r.grants
    ensures Finishes(runs[i := r]) == Finishes(runs) - (if runs[i].over then 1 else 0) + (if r.over then 1 else 0)
  {
    var init := runs[..|runs| - 1];
    if i == |runs| - 1 {
      assert runs[i := r][..|runs| - 1] == init;
    } else {
      assert runs[i := r][..|runs| - 1] == init[i := r];
      RunUpdate(init, i, r);
    }
  }

  lemma {:induction false} RetriesArePaid(runs: seq<Run>)
    requires forall i | 0 <= i < |runs| :: runs[i].attempts <= 1 + runs[i].grants
    ensures Retried(runs) <= Grants(runs)
  {
    if runs != [] {
      RetriesArePaid(runs[..|runs| - 1]);
    }
  }

  ghost predicate Inv(b: Bucket, s: Sys) {
    && s.bucket.maxCapacity == b.maxCapacity && s.bucket.retryCost == b.retryCost
    && s.bucket.successRefill == b.successRefill
    && 0.0 <= s.bucket.tokens <= b.maxCapacity
    && s.bucket.tokens + Times(b.retryCost, Grants(s.runs)) <= b.maxCapacity + Times(b.successRefill, s.successes)
    && (forall i | 0 <= i < |s.runs| :: s.runs[i].attempts <= 1 + s.runs[i].grants)
    && s.successes == Finishes(s.runs)
  }

  function Times(c: real, n: nat): real {
    c * (n as real)
  }

  lemma OneMoreTime(c: real, n: nat)
    ensures Times(c, n + 1) == Times(c, n) + c
  {
  }

  lemma TimesMonotone(c: real, m: nat, n: nat)
    requires c >= 0.0 && m <= n
    ensures Times(c, m) <= Times(c, n)
  {
    assert c * ((n - m) as real) >= 0.0;
    assert Times(c, n) == Times(c, m) + c * ((n - m) as real);
  }

  lemma StepInv(b: Bucket, s: Sys, step: Step)
    requires Sane(b) && Inv(b, s) && Can(s, step)
    ensures Inv(b, Do(s, step))
  {
    match step
    case Open => assert (s.runs + [FRESH])[..|s.runs + [FRESH]| - 1] == s.runs;
    case Move(i, m) =>
      RunUpdate(s.runs, i, Moved(s.runs[i], m));
      OneMoreTime(b.retryCost, Grants(s.runs));
      OneMoreTime(b.successRefill, s.successes);
      hide Grants, Finishes, Times;
  }

  lemma {:induction false} ExecInv(b: Bucket, steps: seq<Step>)
    requires Sane(b) && b.tokens == b.maxCapacity
    ensures Inv(b, Exec(b, steps))
  {
    if steps != [] {
      ExecInv(b, steps[..|steps| - 1]);
      var s := Exec(b, steps[..|steps| - 1]);
      if Can(s, steps[|steps| - 1]) {
        StepInv(b, s, steps[|steps| - 1]);
      }
    }
  }

  // Over any interleaving of runs sharing one bucket: the tokens stay in range, and the attempts after each run's
  // first cost no more than one full bucket plus what the successful runs put back.
  lemma BudgetHolds(b: Bucket, steps: seq<Step>)
    requires Sane(b) && b.tokens == b.maxCapacity
    ensures var s := Exec(b, steps);
            && 0.0 <= s.bucket.tokens <= b.maxCapacity
            && Times(b.retryCost, Retried(s.runs)) <= b.maxCapacity + Times(b.successRefill, Finishes(s.runs))
  {
    ExecInv(b, steps);
    var s := Exec(b, steps);
    RetriesArePaid(s.runs);
    hide Exec;
    TimesMonotone(b.retryCost, Retried(s.runs), Grants(s.runs));
  }

  // ---- Retry loops and hedged runs, interleaved ----

  // One execution of a retry loop, or one hedged run under some schedule.
  datatype User =
    | Loop(cfg: Config, env: Env, next: Handler, world: World, state: RetryState)
    | Hedge(hedging: Hedging.Config, schedule: seq<Hedging.Step>)

  predicate UsesBucket(r: User) {
    if r.Loop? then r.cfg.hasBucket else r.hedging.hasBucket
  }

  function LoopOf(r: User): Finished
    requires r.Loop?
  {
    RetryFrom(r.cfg, r.env, r.next, Begin(r.world, r.state))
  }

  function MovesMade(r: User): seq<Move> {
    if r.Loop? then LoopOf(r).progress.moves else HedgeMoves(r.hedging, r.schedule)
  }

  function AttemptsMade(r: User): nat {
    if r.Loop? then |LoopOf(r).progress.attempts| else |Hedging.Exec(r.hedging, r.schedule).pool.phases|
  }

  predicate Succeeded(r: User) {
    AttemptsMade(r) > 0
    && if r.Loop? then LoopOf(r).result.None? else Hedging.Exec(r.hedging, r.schedule).loop.at == Hedging.Exit(None)
  }

  lemma UserIsDisciplined(r: User)
    requires UsesBucket(r)
    ensures Disciplined(FRESH, MovesMade(r))
    ensures After(FRESH, MovesMade(r)).attempts == AttemptsMade(r)
    ensures After(FRESH, MovesMade(r)).over <==> Succeeded(r)
  {
    match r {
      case Loop(cfg, env, next, world, state) =>
        LoopIsDisciplined(cfg, env, next, Begin(world, state));
        hide RetryFrom;
      case Hedge(cfg, schedule) => HedgeRunIsDisciplined(cfg, schedule);
    }
  }

  function Opened(steps: seq<Step>): nat {
    if steps == [] then 0 else Opened(steps[..|steps| - 1]) + (if steps[|steps| - 1].Open? then 1 else 0)
  }

  // The moves of the i-th run among the steps.
  function Projection(steps: seq<Step>, i: nat): seq<Move> {
    if steps == [] then []
    else
      var last := steps[|steps| - 1];
      Projection(steps[..|steps| - 1], i) + (if last.Move? && last.run == i then [last.move] else [])
  }

  // The steps are an interleaving of these runs, each of them begun and none further than it goes.
  ghost predicate Interleaves(steps: seq<Step>, users: seq<User>) {
    && Opened(steps) == |users|
    && (forall i | 0 <= i < |users| :: Projection(steps, i) <= MovesMade(users[i]))
    && (forall n | 0 <= n < |steps| && steps[n].Move? :: steps[n].run < Opened(steps[..n]))
  }

  // The bucket gives the answers.
  ghost predicate Answered(b: Bucket, steps: seq<Step>) {
    forall n | 0 <= n < |steps| && steps[n].Move? && steps[n].move.Ask? ::
      steps[n].move.granted == Acquire(Exec(b, steps[..n]).bucket).1
  }

  lemma {:induction false} DisciplinedPrefix(r: Run, moves: seq<Move>, all: seq<Move>)
    requires moves <= all && Disciplined(r, all)
    ensures Disciplined(r, moves)
    decreases |moves|
  {
    if moves != [] {
      assert moves[1..] <= all[1..];
      DisciplinedPrefix(Moved(r, moves[0]), moves[1..], all[1..]);
    }
  }

  // Projections of disciplined runs.
  ghost predicate EachDisciplined(steps: seq<Step>) {
    && (forall i: nat :: Disciplined(FRESH, Projection(steps, i)))
    && (forall n | 0 <= n < |steps| && steps[n].Move? :: steps[n].run < Opened(steps[..n]))
  }

  lemma ShorterIsDisciplined(steps: seq<Step>)
    requires EachDisciplined(steps) && steps != []
    ensures EachDisciplined(steps[..|steps| - 1])
  {
    var less := steps[..|steps| - 1];
    forall i: nat
      ensures Disciplined(FRESH, Projection(less, i))
    {
      assert Disciplined(FRESH, Projection(steps, i));
      DisciplinedPrefix(FRESH, Projection(less, i), Projection(steps, i));
    }
    assert forall n | 0 <= n < |less| :: less[..n] == steps[..n] && less[n] == steps[n];
    hide Disciplined, Projection;
  }

  lemma {:induction false} UnopenedIsEmpty(steps: seq<Step>, i: nat)
    requires i >= Opened(steps) && forall n | 0 <= n < |steps| && steps[n].Move? :: steps[n].run < Opened(steps[..n])
    ensures Projection(steps, i) == []
  {
    if steps != [] {
      var n := |steps| - 1;
      var less := steps[..n];
      assert forall m | 0 <= m < n :: less[..m] == steps[..m] && less[m] == steps[m];
      assert steps[n].Move? ==> steps[n].run < Opened(steps[..n]);
      UnopenedIsEmpty(less, i);
    }
  }

  // Each run's place is that of its moves.
  ghost predicate InPlace(s: Sys, steps: seq<Step>) {
    |s.runs| == Opened(steps) && forall i | 0 <= i < |s.runs| :: s.runs[i] == After(FRESH, Projection(steps, i))
  }

  // Every step of such an interleaving is possible when its turn comes.
  lemma {:induction false} EveryStepHappens(b: Bucket, steps: seq<Step>)
    requires EachDisciplined(steps) && Answered(b, steps)
    ensures InPlace(Exec(b, steps), steps)
    ensures steps != [] ==> Can(Exec(b, steps[..|steps| - 1]), steps[|steps| - 1])
  {
    if steps != [] {
      var n := |steps| - 1;
      var less := steps[..n];
      ShorterIsDisciplined(steps);
      assert Answered(b, less) by {
        hide Exec;
        assert forall m | 0 <= m < n :: less[..m] == steps[..m] && less[m] == steps[m];
      }
      var s := Exec(b, less);
      EveryStepHappens(b, less);
      if steps[n].Open? {
        OpenHappens(s, steps);
      } else {
        assert steps[n].move.Ask? ==> steps[n].move.granted == Acquire(s.bucket).1;
        MoveHappens(s, steps);
      }
      hide Can, Do, EachDisciplined, Answered, InPlace;
    }
  }

  lemma OpenHappens(s: Sys, steps: seq<Step>)
    requires steps != [] && EachDisciplined(steps) && steps[|steps| - 1].Open? && InPlace(s, steps[..|steps| - 1])
    ensures InPlace(Do(s, Open), steps)
  {
    ShorterIsDisciplined(steps);
    var less := steps[..|steps| - 1];
    UnopenedIsEmpty(less, |s.runs|);
    assert forall j: nat :: Projection(steps, j) == Projection(less, j);
    hide Disciplined, Projection;
  }

  lemma MoveHappens(s: Sys, steps: seq<Step>)
    requires steps != [] && EachDisciplined(steps) && steps[|steps| - 1].Move? && InPlace(s, steps[..|steps| - 1])
    requires var m := steps[|steps| - 1].move; m.Ask? ==> m.granted == Acquire(s.bucket).1
    ensures Can(s, steps[|steps| - 1]) && InPlace(Do(s, steps[|steps| - 1]), steps)
  {
    var less, i, m := steps[..|steps| - 1], steps[|steps| - 1].run, steps[|steps| - 1].move;
    var moves := Projection(less, i);
    assert Projection(steps, i) == moves + [m];
    assert forall j: nat | j != i :: Projection(steps, j) == Projection(less, j);
    assert i < |s.runs| && Disciplined(FRESH, Projection(steps, i));
    DisciplinedPrefix(FRESH, moves, moves + [m]);
    OneMoreMove(FRESH, moves, m);
    hide Disciplined, After, Projection, EachDisciplined;
  }

  function RunsOf(users: seq<User>): seq<Run> {
    seq(|users|, i requires 0 <= i < |users| => After(FRESH, MovesMade(users[i])))
  }

  lemma InterleavedIsDisciplined(steps: seq<Step>, users: seq<User>)
    requires Interleaves(steps, users) && forall i | 0 <= i < |users| :: UsesBucket(users[i])
    ensures EachDisciplined(steps)
  {
    forall i: nat
      ensures Disciplined(FRESH, Projection(steps, i))
    {
      if i < |users| {
        UserIsDisciplined(users[i]);
        DisciplinedPrefix(FRESH, Projection(steps, i), MovesMade(users[i]));
      } else {
        UnopenedIsEmpty(steps, i);
      }
    }
    hide Disciplined, Projection, Opened;
  }

  // The global budget: however retry loops and hedged runs that share a bucket are interleaved, at every moment the
  // tokens are in range and the attempts after each run's first are paid for.
  lemma GlobalRetryBudget(b: Bucket, steps: seq<Step>, users: seq<User>)
    requires Sane(b) && b.tokens == b.maxCapacity
    requires Interleaves(steps, users) && Answered(b, steps) && forall i | 0 <= i < |users| :: UsesBucket(users[i])
    ensures var s := Exec(b, steps);
            && 0.0 <= s.bucket.tokens <= b.maxCapacity
            && Times(b.retryCost, Retried(s.runs)) <= b.maxCapacity + Times(b.successRefill, Finishes(s.runs))
            && |s.runs| == |users| && InPlace(s, steps)
    ensures (forall i | 0 <= i < |users| :: Projection(steps, i) == MovesMade(users[i])) ==>
              && Exec(b, steps).runs == RunsOf(users)
              && forall i | 0 <= i < |users| ::
                   && RunsOf(users)[i].attempts == AttemptsMade(users[i])
                   && (RunsOf(users)[i].over <==> Succeeded(users[i]))
  {
    InterleavedIsDisciplined(steps, users);
    EveryStepHappens(b, steps);
    BudgetHolds(b, steps);
    forall i | 0 <= i < |users|
      ensures RunsOf(users)[i].attempts == AttemptsMade(users[i])
      ensures RunsOf(users)[i].over <==> Succeeded(users[i])
    {
      UserIsDisciplined(users[i]);
    }
    hide Exec, Retried, Finishes, After, Projection, MovesMade, AttemptsMade, Succeeded, Disciplined, Times;
  }
}
