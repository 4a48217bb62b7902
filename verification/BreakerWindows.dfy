// What the breaker's window holds after any interleaving of callers, measured against the full history of reports.
module BreakerWindows {
  import opened Outcomes
  import opened TimeWindow
  import opened Circuit
  import opened BreakerProtocol
  import H = TimeWindowHistory

  // Whether a step enters Open or Closed, possibly from that very state.
  predicate Clears(cfg: Config, s: Sys, step: Step)
    requires Normal(cfg) && Fits(cfg, s.core.window)
  {
    || step.Reset?
    || (step.End? && step.id in s.inFlight
        && if s.inFlight[step.id].captured == HalfOpen
           then !step.ok || s.core.halfOpenCompleted + 1 >= cfg.halfOpenMaxCalls
           else s.core.state == Closed && TripsOn(cfg, s, step))
  }

  predicate Records(s: Sys, step: Step) {
    step.End? && step.id in s.inFlight && s.inFlight[step.id].captured != HalfOpen
  }

  // What any step does to the window.
  lemma WindowAfter(cfg: Config, s: Sys, step: Step)
    requires Normal(cfg) && Fits(cfg, s.core.window)
    ensures Apply(cfg, s, step).core.window ==
            if Clears(cfg, s, step) then EmptyWindow(cfg)
            else if !Records(s, step) then s.core.window
            else
              var w := RecordIn(cfg, s.core.window, step.ok, ReportTimes(s, step).record);
              if s.core.state == Closed then Refresh(cfg, w, ReportTimes(s, step).check) else w
    ensures Apply(cfg, s, step).now == if step.End? && step.id in s.inFlight then ReportTimes(s, step).trip
                                       else if step.Begin? || step.Query? then s.now + step.delay else s.now
  {
    hide Healthy, Rate, RecordIn, Refresh, EmptyWindow, Normal, Episodes;
  }

  function NextHistory(cfg: Config, s: Sys, step: Step, hist: seq<Timed>): seq<Timed>
    requires Normal(cfg) && Fits(cfg, s.core.window)
  {
    if Clears(cfg, s, step) then []
    else if Records(s, step) then hist + [Timed(s.now + step.record, step.ok)]
    else hist
  }

  // The calls admitted while Closed and reported, in any state, since Open or Closed was last entered.
  function History(cfg: Config, steps: seq<Step>): seq<Timed>
    requires Normal(cfg)
  {
    if steps == [] then []
    else
      var less := steps[..|steps| - 1];
      NextHistory(cfg, Exec(cfg, less), steps[|steps| - 1], History(cfg, less))
  }

  // ---- Count-based ----

  function OutcomesOf(hist: seq<Timed>): seq<bool> {
    seq(|hist|, i requires 0 <= i < |hist| => hist[i].ok)
  }

  lemma CountStep(cfg: Config, s: Sys, step: Step, hist: seq<Timed>)
    requires Normal(cfg) && cfg.windowType.CountBased? && Fits(cfg, s.core.window)
    requires s.core.window == ByCount(LastN(cfg.windowSize, OutcomesOf(hist)))
    ensures Apply(cfg, s, step).core.window
         == ByCount(LastN(cfg.windowSize, OutcomesOf(NextHistory(cfg, s, step, hist))))
  {
    assert OutcomesOf([]) == LastN(cfg.windowSize, OutcomesOf([])) == [];
    assert EmptyWindow(cfg) == ByCount([]);
    hide Apply, LastN, EmptyWindow, Clears, Refresh, RecordIn, Fits, Normal;
    WindowAfter(cfg, s, step);
    if Records(s, step) {
      CountOne(cfg, hist, step.ok, ReportTimes(s, step));
    }
    hide OutcomesOf;
  }

  lemma CountOne(cfg: Config, hist: seq<Timed>, ok: bool, at: Instants)
    requires Normal(cfg) && Fits(cfg, ByCount(LastN(cfg.windowSize, OutcomesOf(hist))))
    ensures var w := RecordIn(cfg, ByCount(LastN(cfg.windowSize, OutcomesOf(hist))), ok, at.record);
            && w == ByCount(LastN(cfg.windowSize, OutcomesOf(hist + [Timed(at.record, ok)])))
            && Refresh(cfg, w, at.check) == w
  {
    assert OutcomesOf(hist + [Timed(at.record, ok)]) == OutcomesOf(hist) + [ok];
    LastNStep(cfg.windowSize, OutcomesOf(hist), ok);
    hide LastN, OutcomesOf;
  }

  // The count window is the last WindowSize outcomes of the history, so its total is the smaller of the two lengths and
  // its failures are those among them.
  lemma {:induction false} CountWindowIsHistory(cfg: Config, steps: seq<Step>)
    requires Normal(cfg) && cfg.windowType.CountBased?
    ensures var recent := LastN(cfg.windowSize, OutcomesOf(History(cfg, steps)));
            var w := Exec(cfg, steps).core.window;
            && w == ByCount(recent)
            && WindowFailures(w) == Failures(recent)
            && var n := |History(cfg, steps)|;
            WindowTotal(w) == if n < cfg.windowSize then n else cfg.windowSize
  {
    if steps != [] {
      var less := steps[..|steps| - 1];
      CountWindowIsHistory(cfg, less);
      CountStep(cfg, Exec(cfg, less), steps[|steps| - 1], History(cfg, less));
      hide NextHistory, Apply, Normal;
    }
  }

  // ---- Time-based ----

  // A window history that has reached the same buckets and the same calls, and whose clock is not ahead.
  ghost predicate Follows(s: Sys, hist: seq<Timed>, h: H.Tracked) {
    s.core.window == ByTime(h.w) && h.hist == hist && h.now <= s.now
  }

  lemma {:induction false} HistoryConcat(window: int, h: H.Tracked, a: seq<H.Op>, b: seq<H.Op>)
    requires window > 0 && WellFormed(h.w)
    ensures H.Exec(window, h, a + b) == H.Exec(window, H.Exec(window, h, a), b)
    decreases |a|
  {
    if a == [] {
      assert a + b == b;
    } else {
      assert (a + b)[1..] == a[1..] + b;
      HistoryConcat(window, H.Apply(window, h, a[0]), a[1..], b);
    }
  }

  lemma One(window: int, h: H.Tracked, op: H.Op)
    requires window > 0 && WellFormed(h.w)
    ensures H.Exec(window, h, [op]) == H.Apply(window, h, op)
  {
    assert [op][1..] == [];
  }

  // What the report of a call admitted while Closed does to the window.
  function ReportOps(cfg: Config, s: Sys, step: Step, behind: nat): seq<H.Op>
    requires Normal(cfg) && Fits(cfg, s.core.window) && step.End?
  {
    [H.Rec(behind + step.record, step.ok)]
    + (if s.core.state != Closed then []
       else [H.Stat(step.check)] + if TripsOn(cfg, s, step) then [H.Wipe] else [])
  }

  function Reported(cfg: Config, s: Sys, step: Step, h: H.Tracked): H.Tracked
    requires Normal(cfg) && Fits(cfg, s.core.window) && step.End? && WellFormed(h.w) && h.now <= s.now
  {
    var a := H.Apply(cfg.windowDuration, h, H.Rec(s.now - h.now + step.record, step.ok));
    if s.core.state != Closed then a
    else
      var b := H.Apply(cfg.windowDuration, a, H.Stat(step.check));
      if TripsOn(cfg, s, step) then H.Apply(cfg.windowDuration, b, H.Wipe) else b
  }

  lemma ThreeOps(window: int, h: H.Tracked, x: H.Op, y: H.Op, z: H.Op)
    requires window > 0 && WellFormed(h.w)
    ensures H.Exec(window, h, [x]) == H.Apply(window, h, x)
    ensures H.Exec(window, h, [x] + [y]) == H.Apply(window, H.Apply(window, h, x), y)
    ensures H.Exec(window, h, [x] + ([y] + [z])) == H.Apply(window, H.Apply(window, H.Apply(window, h, x), y), z)
  {
    hide H.Apply;
    var a := H.Apply(window, h, x);
    var b := H.Apply(window, a, y);
    One(window, h, x);
    One(window, a, y);
    One(window, b, z);
    HistoryConcat(window, h, [x], [y]);
    HistoryConcat(window, a, [y], [z]);
    HistoryConcat(window, h, [x], [y] + [z]);
    hide H.Exec;
  }

  // The three operations are those of the breaker's own window.
  lemma OpsAreTheBreakers(cfg: Config, h: H.Tracked, delay: nat, ok: bool)
    requires Normal(cfg) && cfg.windowType.TimeBased? && WellFormed(h.w)
    ensures var r := H.Apply(cfg.windowDuration, h, H.Rec(delay, ok));
            && ByTime(r.w) == RecordIn(cfg, ByTime(h.w), ok, h.now + delay)
            && r.hist == h.hist + [Timed(h.now + delay, ok)] && r.now == h.now + delay
    ensures var r := H.Apply(cfg.windowDuration, h, H.Stat(delay));
            && ByTime(r.w) == Refresh(cfg, ByTime(h.w), h.now + delay) && r.hist == h.hist && r.now == h.now + delay
    ensures var r := H.Apply(cfg.windowDuration, h, H.Wipe);
            ByTime(r.w) == EmptyWindow(cfg) && r.hist == [] && r.now == h.now
  {
    hide Record, Advance, NoBuckets;
  }

  lemma RecordingClears(cfg: Config, s: Sys, step: Step)
    requires Normal(cfg) && Fits(cfg, s.core.window) && Records(s, step)
    ensures Clears(cfg, s, step) <==> s.core.state == Closed && TripsOn(cfg, s, step)
  {
    hide TripsOn, Fits, Normal;
  }

  lemma ReportRuns(cfg: Config, s: Sys, step: Step, h: H.Tracked)
    requires Normal(cfg) && Fits(cfg, s.core.window) && step.End? && WellFormed(h.w) && h.now <= s.now
    ensures H.Exec(cfg.windowDuration, h, ReportOps(cfg, s, step, s.now - h.now)) == Reported(cfg, s, step, h)
  {
    hide H.Apply, H.Exec, TripsOn, Fits;
    var rec, stat := H.Rec(s.now - h.now + step.record, step.ok), H.Stat(step.check);
    ThreeOps(cfg.windowDuration, h, rec, stat, H.Wipe);
    assert [rec] + [] == [rec] && [stat] + [] == [stat];
  }

  lemma ReportedFollows(cfg: Config, s: Sys, step: Step, hist: seq<Timed>, h: H.Tracked)
    requires Normal(cfg) && cfg.windowType.TimeBased? && Fits(cfg, s.core.window) && Follows(s, hist, h)
    requires WellFormed(h.w) && Records(s, step)
    ensures Follows(Apply(cfg, s, step), NextHistory(cfg, s, step, hist), Reported(cfg, s, step, h))
  {
    assert cfg.windowDuration > 0;
    hide Apply, H.Apply, Clears, TripsOn, Fits, EmptyWindow, RecordIn, Refresh, WellFormed, Normal;
    WindowAfter(cfg, s, step);
    RecordingClears(cfg, s, step);
    OpsAreTheBreakers(cfg, h, s.now - h.now + step.record, step.ok);
    var a := H.Apply(cfg.windowDuration, h, H.Rec(s.now - h.now + step.record, step.ok));
    OpsAreTheBreakers(cfg, a, step.check, step.ok);
    OpsAreTheBreakers(cfg, H.Apply(cfg.windowDuration, a, H.Stat(step.check)), 0, step.ok);
  }

  // What one step does to the window, when the window's clock is behind the system's.
  function StepOps(cfg: Config, s: Sys, step: Step, behind: nat): seq<H.Op>
    requires Normal(cfg) && Fits(cfg, s.core.window)
  {
    if Records(s, step) then ReportOps(cfg, s, step, behind) else if Clears(cfg, s, step) then [H.Wipe] else []
  }

  // All records, readings and clears of the window in a run.
  function OpsOf(cfg: Config, steps: seq<Step>): seq<H.Op>
    requires Normal(cfg)
  {
    if steps == [] then []
    else
      var less := steps[..|steps| - 1];
      WithStep(cfg, Exec(cfg, less), steps[|steps| - 1], OpsOf(cfg, less))
  }

  function WithStep(cfg: Config, s: Sys, step: Step, ops: seq<H.Op>): seq<H.Op>
    requires Normal(cfg) && Fits(cfg, s.core.window)
  {
    var clock := H.Exec(cfg.windowDuration, H.Start(0), ops).now;
    ops + StepOps(cfg, s, step, if clock <= s.now then s.now - clock else 0)
  }

  lemma FollowStep(cfg: Config, s: Sys, step: Step, hist: seq<Timed>, h: H.Tracked)
    requires Normal(cfg) && cfg.windowType.TimeBased? && Fits(cfg, s.core.window) && Follows(s, hist, h)
    ensures Follows(Apply(cfg, s, step), NextHistory(cfg, s, step, hist),
                    H.Exec(cfg.windowDuration, h, StepOps(cfg, s, step, s.now - h.now)))
  {
    if Records(s, step) {
      ReportRuns(cfg, s, step, h);
      ReportedFollows(cfg, s, step, hist, h);
    } else {
      One(cfg.windowDuration, h, H.Wipe);
      WindowAfter(cfg, s, step);
      assert H.Exec(cfg.windowDuration, h, []) == h;
      hide Apply, H.Exec, Clears, Healthy, Rate, RecordIn, Refresh;
    }
    hide Apply, NextHistory, ReportOps, Reported, H.Exec, Follows;
  }

  lemma FollowWithStep(cfg: Config, s: Sys, step: Step, hist: seq<Timed>, ops: seq<H.Op>)
    requires Normal(cfg) && cfg.windowType.TimeBased? && Fits(cfg, s.core.window)
    requires Follows(s, hist, H.Exec(cfg.windowDuration, H.Start(0), ops))
    ensures Follows(Apply(cfg, s, step), NextHistory(cfg, s, step, hist),
                    H.Exec(cfg.windowDuration, H.Start(0), WithStep(cfg, s, step, ops)))
  {
    hide Apply, NextHistory, StepOps, Fits, H.Exec;
    var h := H.Exec(cfg.windowDuration, H.Start(0), ops);
    assert h.now <= s.now && cfg.windowDuration > 0;
    hide Follows, Normal;
    FollowStep(cfg, s, step, hist, h);
    HistoryConcat(cfg.windowDuration, H.Start(0), ops, StepOps(cfg, s, step, s.now - h.now));
  }

  // The time window of every run is that of its records, readings and clears made one after another, with exactly
  // this history, so all that holds of such sequences holds of the breaker.
  lemma {:induction false} TimeWindowIsHistory(cfg: Config, steps: seq<Step>)
    requires Normal(cfg) && cfg.windowType.TimeBased?
    ensures Follows(Exec(cfg, steps), History(cfg, steps), H.Exec(cfg.windowDuration, H.Start(0), OpsOf(cfg, steps)))
  {
    if steps != [] {
      var less := steps[..|steps| - 1];
      TimeWindowIsHistory(cfg, less);
      assert cfg.windowDuration > 0;
      hide Apply, NextHistory, Follows, Normal, WithStep, Fits, H.Exec;
      FollowWithStep(cfg, Exec(cfg, less), steps[|steps| - 1], History(cfg, less), OpsOf(cfg, less));
    }
  }

  // At every record, reading and clear of a run, its sums are the successes and failures of the last ten absolute
  // buckets of the history, whoever reported them, if and only if none of them overlooks a recorded call; and then so
  // they are now. Good gaps on the breaker's own clock are enough.
  lemma BreakerCountsExactly(cfg: Config, steps: seq<Step>)
    requires Normal(cfg) && cfg.windowType.TimeBased?
    ensures var ops := OpsOf(cfg, steps);
            var window := cfg.windowDuration;
            && (H.CleanRun(window, H.Start(0), ops) <==> H.AlwaysExact(window, H.Start(0), ops))
            && (window % NUM_BUCKETS == 0 && H.GoodGaps(window, H.Start(0), ops) ==>
                  H.CleanRun(window, H.Start(0), ops))
    ensures H.CleanRun(cfg.windowDuration, H.Start(0), OpsOf(cfg, steps)) ==>
              ExactAt(cfg, Exec(cfg, steps), History(cfg, steps),
                      H.Exec(cfg.windowDuration, H.Start(0), OpsOf(cfg, steps)).now)
  {
    assert NUM_BUCKETS == 10 && cfg.windowDuration > 0;
    hide *;
    var ops := OpsOf(cfg, steps);
    TimeWindowIsHistory(cfg, steps);
    H.CleanRunIsExact(cfg.windowDuration, 0, ops);
    H.StartIsExact(0, BucketDuration(cfg.windowDuration));
    if cfg.windowDuration % NUM_BUCKETS == 0 && H.GoodGaps(cfg.windowDuration, H.Start(0), ops) {
      H.GoodGapsAreClean(cfg.windowDuration, H.Start(0), ops);
    }
    if H.CleanRun(cfg.windowDuration, H.Start(0), ops) {
      ExactFollows(cfg, Exec(cfg, steps), History(cfg, steps), H.Exec(cfg.windowDuration, H.Start(0), ops));
    }
  }

  // The breaker's sums are those of the last ten absolute buckets up to `now`.
  ghost predicate ExactAt(cfg: Config, s: Sys, hist: seq<Timed>, now: int)
    requires Normal(cfg)
  {
    var bd := BucketDuration(cfg.windowDuration);
    && s.core.window.ByTime?
    && forall ok :: Sum(s.core.window.buckets.cells, ok) == Tally(hist, bd, ok, Slot(bd, now) - 9, Slot(bd, now))
  }

  lemma ExactFollows(cfg: Config, s: Sys, hist: seq<Timed>, h: H.Tracked)
    requires Normal(cfg) && WellFormed(h.w) && Follows(s, hist, h)
    requires H.SumsExact(h, BucketDuration(cfg.windowDuration))
    ensures ExactAt(cfg, s, hist, h.now)
  {
    hide Sum, Tally, Slot, BucketDuration;
  }

  lemma {:induction false} CountSinceLater(hist: seq<Timed>, ok: bool, early: int, late: int)
    requires early <= late
    ensures CountSince(hist, ok, late) <= CountSince(hist, ok, early)
  {
    if hist != [] {
      CountSinceLater(hist[..|hist| - 1], ok, early, late);
    }
  }

  lemma RemembersRecent(window: int, s: Sys, hist: seq<Timed>, ops: seq<H.Op>, ok: bool)
    requires window >= NUM_BUCKETS && Follows(s, hist, H.Exec(window, H.Start(0), ops))
    ensures s.core.window.ByTime?
            && Sum(s.core.window.buckets.cells, ok) >= CountSince(hist, ok, s.now - 9 * BucketDuration(window))
  {
    hide H.Exec, Sum, CountSince, BucketDuration;
    var h := H.Exec(window, H.Start(0), ops);
    H.NeverLosesRecent(window, 0, ops, ok);
    CountSinceLater(hist, ok, h.now - 9 * BucketDuration(window), s.now - 9 * BucketDuration(window));
  }

  // No interleaving of callers makes the breaker forget a call younger than nine buckets.
  lemma BreakerRemembersRecent(cfg: Config, steps: seq<Step>, ok: bool)
    requires Normal(cfg) && cfg.windowType.TimeBased? && cfg.windowDuration >= NUM_BUCKETS
    ensures var s := Exec(cfg, steps);
            s.core.window.ByTime?
            && Sum(s.core.window.buckets.cells, ok)
               >= CountSince(History(cfg, steps), ok, s.now - 9 * BucketDuration(cfg.windowDuration))
  {
    hide *;
    TimeWindowIsHistory(cfg, steps);
    RemembersRecent(cfg.windowDuration, Exec(cfg, steps), History(cfg, steps), OpsOf(cfg, steps), ok);
  }

  // ---- Health as last read is not health as of now ----

  // Window 100, one success at 0, one failure at 50, threshold 60: half of the calls failed. At 105 the success has
  // left the window, and all of those that remain have failed, but no one has looked.
  lemma HealthGoesStale()
    ensures var cfg := Config(TimeBased, 1, 100, 60.0, 1, 1, 1);
            var w := ByTime(H.Exec(100, H.Start(0), [H.Rec(0, true), H.Rec(50, false)]).w);
            Normal(cfg) && Fits(cfg, w) && Healthy(cfg, w) && !Healthy(cfg, Refresh(cfg, w, 105))
  {
    var w := ThenAndNow();
    hide H.Exec, H.Start, Advance;
    TwoCells(w.cells, 1);
    TwoCells(Advance(100, 10, w, 105).cells, 0);
    hide Sum;
  }

  lemma ThenAndNow() returns (w: Buckets)
    ensures w == H.Exec(100, H.Start(0), [H.Rec(0, true), H.Rec(50, false)]).w
    ensures w.cells[0] == Bucket(1, 0) && w.cells[5] == Bucket(0, 1)
    ensures forall j | 1 <= j < 10 && j != 5 :: w.cells[j] == EMPTY
    ensures var r := Advance(100, 10, w, 105);
            r.cells[5] == Bucket(0, 1) && forall j | 0 <= j < 10 && j != 5 :: r.cells[j] == EMPTY
  {
    var a := H.Apply(100, H.Start(0), H.Rec(0, true));
    var b := H.Apply(100, a, H.Rec(50, false));
    H.ThenTwo(100, H.Start(0), H.Rec(0, true), H.Rec(50, false));
    assert a.w.cells[0] == Bucket(1, 0) && forall j | 1 <= j < 10 :: a.w.cells[j] == EMPTY;
    w := b.w;
    assert w.touched && w.last == 50;
    hide H.Exec;
  }

  lemma TwoCells(cells: seq<Bucket>, n: nat)
    requires |cells| == NUM_BUCKETS && cells[0] == Bucket(n, 0) && cells[5] == Bucket(0, 1)
    requires forall j | 1 <= j < 10 && j != 5 :: cells[j] == EMPTY
    ensures Sum(cells, true) == n && Sum(cells, false) == 1
  {
    SumOfTen(cells, true);
    SumOfTen(cells, false);
    hide Sum;
  }
}
