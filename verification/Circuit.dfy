// The circuit breaker: what each locked section does to the breaker's state, on values.
module Circuit {
  import opened Outcomes
  import opened TimeWindow

  datatype State = Closed | Open | HalfOpen

  datatype WindowType = CountBased | TimeBased

  datatype Config = Config(
    windowType: WindowType,
    windowSize: nat,
    windowDuration: int,
    threshold: real,
    minimumCalls: nat,
    resetTimeout: int,
    halfOpenMaxCalls: nat)

  predicate Normal(c: Config) {
    && c.windowSize > 0
    && c.windowDuration > 0
    && 0.0 < c.threshold <= 100.0
    && c.minimumCalls > 0
    && c.resetTimeout > 0
    && c.halfOpenMaxCalls > 0
  }

  // New's defaults for fields left unset or out of range.
  function Normalize(c: Config): (r: Config)
    ensures Normal(r)
    ensures Normal(c) ==> r == c
  {
    Config(
      c.windowType,
      if c.windowSize == 0 then 100 else c.windowSize,
      if c.windowDuration <= 0 then 60 * SECOND else c.windowDuration,
      if c.threshold <= 0.0 || c.threshold > 100.0 then 50.0 else c.threshold,
      if c.minimumCalls == 0 then 10 else c.minimumCalls,
      if c.resetTimeout <= 0 then 60 * SECOND else c.resetTimeout,
      if c.halfOpenMaxCalls == 0 then 10 else c.halfOpenMaxCalls)
  }

  // A count-based window is, abstractly, just the last outcomes in order; how a ring of fixed size holds them is the
  // business of the Breaker class.
  datatype Window =
    | ByCount(recent: seq<bool>)
    | ByTime(buckets: Buckets)

  datatype Core = Core(
    state: State,
    openedAt: int,
    window: Window,
    halfOpenCalls: nat,
    halfOpenFailures: nat,
    halfOpenCompleted: nat)

  predicate Fits(cfg: Config, w: Window) {
    match w
    case ByCount(recent) => cfg.windowType.CountBased? && |recent| <= cfg.windowSize
    case ByTime(b) => cfg.windowType.TimeBased? && WellFormed(b)
  }

  function EmptyWindow(cfg: Config): Window {
    if cfg.windowType.CountBased? then ByCount([]) else ByTime(NoBuckets())
  }

  function RecordIn(cfg: Config, w: Window, ok: bool, now: int): (r: Window)
    requires Normal(cfg) && Fits(cfg, w)
    ensures Fits(cfg, r)
  {
    match w
    case ByCount(recent) => ByCount(LastN(cfg.windowSize, recent + [ok]))
    case ByTime(b) => ByTime(Record(cfg.windowDuration, BucketDuration(cfg.windowDuration), b, ok, now))
  }

  // Reading the statistics of a time window advances it first.
  function Refresh(cfg: Config, w: Window, now: int): (r: Window)
    requires Normal(cfg) && Fits(cfg, w)
    ensures Fits(cfg, r)
  {
    match w
    case ByCount(_) => w
    case ByTime(b) => ByTime(Advance(cfg.windowDuration, BucketDuration(cfg.windowDuration), b, now))
  }

  function WindowFailures(w: Window): nat {
    match w
    case ByCount(recent) => Failures(recent)
    case ByTime(b) => Sum(b.cells, false)
  }

  function WindowTotal(w: Window): nat {
    match w
    case ByCount(recent) => |recent|
    case ByTime(b) => Sum(b.cells, true) + Sum(b.cells, false)
  }

  function Rate(failures: nat, total: nat): real
    requires total > 0
  {
    failures as real / total as real * 100.0
  }

  predicate Healthy(cfg: Config, w: Window)
    requires Normal(cfg)
  {
    WindowTotal(w) < cfg.minimumCalls || Rate(WindowFailures(w), WindowTotal(w)) < cfg.threshold
  }

  function ToOpen(cfg: Config, c: Core, now: int): Core {
    c.(state := Open, openedAt := now, window := EmptyWindow(cfg))
  }

  function ToHalfOpen(c: Core): Core {
    c.(state := HalfOpen, halfOpenCalls := 0, halfOpenFailures := 0, halfOpenCompleted := 0)
  }

  function ToClosed(cfg: Config, c: Core): Core {
    c.(state := Closed, window := EmptyWindow(cfg))
  }

  // The clock readings one report may take, in order.
  datatype Instants = Instants(record: int, check: int, trip: int)

  function CheckFailureRate(cfg: Config, c: Core, check: int, trip: int): (r: Core)
    requires Normal(cfg) && Fits(cfg, c.window)
    ensures Fits(cfg, r.window)
  {
    if c.state != Closed then c
    else
      var w := Refresh(cfg, c.window, check);
      if Healthy(cfg, w) then c.(window := w) else ToOpen(cfg, c, trip)
  }

  function OnFailure(cfg: Config, c: Core, captured: State, at: Instants): (r: Core)
    requires Normal(cfg) && Fits(cfg, c.window)
    ensures Fits(cfg, r.window)
  {
    if captured == HalfOpen then
      ToOpen(cfg, c.(halfOpenFailures := c.halfOpenFailures + 1, halfOpenCompleted := c.halfOpenCompleted + 1), at.trip)
    else
      CheckFailureRate(cfg, c.(window := RecordIn(cfg, c.window, false, at.record)), at.check, at.trip)
  }

  function OnSuccess(cfg: Config, c: Core, captured: State, at: Instants): (r: Core)
    requires Normal(cfg) && Fits(cfg, c.window)
    ensures Fits(cfg, r.window)
  {
    if captured == HalfOpen then
      var d := c.(halfOpenCompleted := c.halfOpenCompleted + 1);
      if d.halfOpenCompleted < cfg.halfOpenMaxCalls then d
      else if Rate(d.halfOpenFailures, d.halfOpenCompleted) < cfg.threshold then ToClosed(cfg, d)
      else ToOpen(cfg, d, at.trip)
    else
      CheckFailureRate(cfg, c.(window := RecordIn(cfg, c.window, true, at.record)), at.check, at.trip)
  }

  // The second locked section of Execute; `captured` is the state seen at admission.
  function Report(cfg: Config, c: Core, captured: State, ok: bool, at: Instants): (r: Core)
    requires Normal(cfg) && Fits(cfg, c.window)
    ensures Fits(cfg, r.window)
  {
    if ok then OnSuccess(cfg, c, captured, at) else OnFailure(cfg, c, captured, at)
  }

  predicate TimedOut(cfg: Config, c: Core, now: int) {
    c.state == Open && now - c.openedAt > cfg.resetTimeout
  }

  // What State() and the head of Execute do when the reset timeout has passed.
  function Poll(cfg: Config, c: Core, now: int): Core {
    if TimedOut(cfg, c, now) then ToHalfOpen(c) else c
  }

  predicate Refuses(cfg: Config, c: Core) {
    c.state == Open || (c.state == HalfOpen && c.halfOpenCalls >= cfg.halfOpenMaxCalls)
  }

  // The first locked section of Execute: the state afterwards, and whether the action may run.
  function Admit(cfg: Config, c: Core, now: int): (Core, bool) {
    var d := Poll(cfg, c, now);
    if Refuses(cfg, d) then (d, false)
    else if d.state == HalfOpen then (d.(halfOpenCalls := d.halfOpenCalls + 1), true)
    else (d, true)
  }

  function NewCore(cfg: Config): (r: Core)
    ensures Fits(cfg, r.window)
  {
    Core(Closed, 0, EmptyWindow(cfg), 0, 0, 0)
  }

  // ---- What the definitions amount to ----

  // A legal field is kept and any other gets its default, each by itself.
  lemma DefaultsFillGaps(c: Config)
    ensures var r := Normalize(c);
            && r.windowType == c.windowType
            && r.windowSize == (if c.windowSize > 0 then c.windowSize else 100)
            && r.windowDuration == (if c.windowDuration > 0 then c.windowDuration else 60_000_000_000)
            && r.threshold == (if 0.0 < c.threshold <= 100.0 then c.threshold else 50.0)
            && r.minimumCalls == (if c.minimumCalls > 0 then c.minimumCalls else 10)
            && r.resetTimeout == (if c.resetTimeout > 0 then c.resetTimeout else 60_000_000_000)
            && r.halfOpenMaxCalls == (if c.halfOpenMaxCalls > 0 then c.halfOpenMaxCalls else 10)
  {
  }

  // A rate is a percentage: being below a threshold, in products instead of quotients.
  lemma RateBelow(failures: nat, total: nat, threshold: real)
    requires total > 0
    ensures Rate(failures, total) < threshold <==> 100.0 * failures as real < threshold * total as real
  {
    var q := failures as real / total as real;
    assert q * total as real == failures as real;
    assert (threshold - q * 100.0) * total as real == threshold * total as real - 100.0 * failures as real;
    PositiveProduct(threshold - q * 100.0, total as real);
  }

  lemma PositiveProduct(d: real, k: real)
    requires k > 0.0
    ensures d * k > 0.0 <==> d > 0.0
  {
  }

  // A window is unhealthy exactly when enough calls are in it and the failed share of a hundred reaches the threshold.
  lemma UnhealthyIff(cfg: Config, w: Window)
    requires Normal(cfg)
    ensures !Healthy(cfg, w) <==>
              WindowTotal(w) >= cfg.minimumCalls
              && 100.0 * WindowFailures(w) as real >= cfg.threshold * WindowTotal(w) as real
  {
    if WindowTotal(w) > 0 {
      RateBelow(WindowFailures(w), WindowTotal(w), cfg.threshold);
    }
    hide Rate, WindowTotal, WindowFailures;
  }

  // Exactly at the threshold it trips: one failure in two calls at 50 percent.
  lemma AtTheThreshold(cfg: Config)
    requires Normal(cfg) && cfg.threshold == 50.0 && cfg.minimumCalls <= 2
    ensures !Healthy(cfg, ByCount([true, false])) && !Healthy(cfg, ByCount([false, true]))
  {
    assert [true, false][..1] == [true] && [false, true][..1] == [false];
    FailuresOfOne(true);
    FailuresOfOne(false);
  }
}
