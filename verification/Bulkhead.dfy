// Bulkheads: a buffered channel used as a semaphore, with and without priorities.
module Bulkheads {
  import opened Wrappers
  import opened Sets

  datatype Verdict = Entered | ContextDone | Full | Shed

  // ---- Plain bulkhead ----

  class Bulkhead {
    const capacity: nat
    var taken: nat

    ghost predicate Valid()
      reads this
    {
      taken <= capacity
    }

    constructor (capacity: nat)
      ensures Valid() && taken == 0 && this.capacity == capacity
    {
      this.capacity, taken := capacity, 0;
    }

    // The select at the head of Execute. When a slot is free and the context is done, either case may be taken.
    method Enter(ctxDone: bool, preferContext: bool) returns (v: Verdict)
      requires Valid()
      modifies this
      ensures Valid()
      ensures v == Entered <==> old(taken) < capacity && !(ctxDone && preferContext)
      ensures v == ContextDone <==> ctxDone && (preferContext || old(taken) == capacity)
      ensures v == Full <==> !ctxDone && old(taken) == capacity
      ensures taken == old(taken) + (if v == Entered then 1 else 0)
    {
      if ctxDone && (preferContext || taken == capacity) {
        return ContextDone;
      }
      if taken < capacity {
        taken := taken + 1;
        return Entered;
      }
      return Full;
    }

    // The deferred receive.
    method Leave()
      requires Valid() && taken > 0
      modifies this
      ensures Valid() && taken == old(taken) - 1
    {
      taken := taken - 1;
    }
  }

  // ---- Priority bulkhead ----

  datatype Config = Config(capacity: nat, thresholds: map<nat, real>)

  function Threshold(cfg: Config, priority: nat): real {
    if priority in cfg.thresholds then cfg.thresholds[priority] else 1.0
  }

  // The utilization check, made before and apart from taking a slot. With capacity zero the quotient is not a number
  // and both comparisons fail.
  function Check(cfg: Config, taken: nat, priority: nat): Option<Verdict> {
    if cfg.capacity == 0 then None
    else
      var utilization := taken as real / cfg.capacity as real;
      if utilization >= 1.0 then Some(Full)
      else if utilization >= Threshold(cfg, priority) then Some(Shed)
      else None
  }

  // The largest number of slots in use at which a caller of this priority still passes its check.
  function SoftLimit(cfg: Config, p: nat): int {
    Ceil(Threshold(cfg, p) * cfg.capacity as real) - 1
  }

  function Ceil(x: real): int {
    -((-x).Floor)
  }

  // The comparison of utilizations, in slots.
  lemma PassMeansBelow(cfg: Config, taken: nat, p: nat)
    requires cfg.capacity > 0
    ensures Check(cfg, taken, p).None? <==> taken <= SoftLimit(cfg, p) && taken < cfg.capacity
    ensures Check(cfg, taken, p) == Some(Full) <==> taken >= cfg.capacity
  {
    Below(taken as real, Threshold(cfg, p), cfg.capacity as real);
    Below(taken as real, 1.0, cfg.capacity as real);
    assert taken <= SoftLimit(cfg, p) <==> taken as real < Threshold(cfg, p) * cfg.capacity as real;
    hide SoftLimit, Threshold, Ceil;
  }

  lemma Below(x: real, t: real, c: real)
    requires c > 0.0
    ensures x / c < t <==> x < t * c
  {
    var u := x / c;
    assert u * c == x;
    if u < t {
      assert (t - u) * c > 0.0;
    } else {
      assert (u - t) * c >= 0.0;
    }
  }

  class PriorityBulkhead {
    const cfg: Config
    var taken: nat

    ghost predicate Valid()
      reads this
    {
      taken <= cfg.capacity
    }

    constructor (cfg: Config)
      ensures Valid() && taken == 0 && this.cfg == cfg
    {
      this.cfg, taken := cfg, 0;
    }

    // The check and the select of one Execute with no other caller in between.
    method Enter(priority: nat, ctxDone: bool, preferContext: bool) returns (v: Verdict)
      requires Valid()
      modifies this
      ensures Valid()
      ensures v == Full <==> old(taken) == cfg.capacity && (cfg.capacity > 0 || !ctxDone)
      ensures v == Shed <==> SoftLimit(cfg, priority) < old(taken) < cfg.capacity
      ensures v == Entered <==> old(taken) < cfg.capacity && old(taken) <= SoftLimit(cfg, priority)
                                && !(ctxDone && preferContext)
      ensures taken == old(taken) + (if v == Entered then 1 else 0)
    {
      if cfg.capacity > 0 {
        PassMeansBelow(cfg, taken, priority);
      }
      match Check(cfg, taken, priority)
      case Some(refused) => return refused;
      case None =>
        if ctxDone && (preferContext || taken == cfg.capacity) {
          return ContextDone;
        }
        if taken < cfg.capacity {
          taken := taken + 1;
          return Entered;
        }
        return Full;
    }
  }

  // A priority without a threshold of its own is never shed: it passes as long as there is a free slot.
  lemma UnlistedIsNeverShed(cfg: Config, taken: nat, p: nat)
    requires p !in cfg.thresholds
    ensures Check(cfg, taken, p) == if 0 < cfg.capacity <= taken then Some(Full) else None
    ensures SoftLimit(cfg, p) == cfg.capacity - 1
  {
    if cfg.capacity > 0 {
      Below(taken as real, 1.0, cfg.capacity as real);
    }
  }

  // A caller past its check, before or after taking its slot.
  datatype Caller = Caller(priority: nat, active: bool)

  datatype Sys = Sys(taken: nat, callers: map<nat, Caller>, nextId: nat)

  datatype Step =
    | Arrive(priority: nat)
    | Acquire(id: nat)
    | GiveUp(id: nat)
    | Release(id: nat)

  // A caller that finds the channel full or its context done gives up; one that ran returns its slot.
  function Apply(cfg: Config, s: Sys, step: Step): Sys {
    match step
    case Arrive(p) =>
      if Check(cfg, s.taken, p).Some? then s
      else s.(callers := s.callers[s.nextId := Caller(p, false)], nextId := s.nextId + 1)
    case Acquire(id) =>
      if id in s.callers && !s.callers[id].active && s.taken < cfg.capacity
      then s.(taken := s.taken + 1, callers := s.callers[id := s.callers[id].(active := true)]) else s
    case GiveUp(id) =>
      if id in s.callers && !s.callers[id].active then s.(callers := s.callers - {id}) else s
    case Release(id) =>
      if id in s.callers && s.callers[id].active && s.taken > 0
      then s.(taken := s.taken - 1, callers := s.callers - {id}) else s
  }

  function Active(s: Sys): set<nat> {
    set id | id in s.callers && s.callers[id].active
  }

  // Callers of one priority past their check: still pending, or active.
  function Past(s: Sys, p: nat): set<nat> {
    set id | id in s.callers && s.callers[id].priority == p
  }

  function Pending(s: Sys, p: nat): set<nat> {
    set id | id in s.callers && s.callers[id].priority == p && !s.callers[id].active
  }

  function ActiveOf(s: Sys, p: nat): set<nat> {
    set id | id in s.callers && s.callers[id].priority == p && s.callers[id].active
  }

  function Exec(cfg: Config, steps: seq<Step>): Sys {
    if steps == [] then Sys(0, map[], 0) else Apply(cfg, Exec(cfg, steps[..|steps| - 1]), steps[|steps| - 1])
  }

  // At most k callers of priority p are ever between their check and their slot.
  ghost predicate Crowded(cfg: Config, steps: seq<Step>, p: nat, k: nat) {
    forall n | 0 <= n <= |steps| :: |Pending(Exec(cfg, steps[..n]), p)| <= k
  }

  ghost predicate Inv(cfg: Config, s: Sys) {
    && s.taken == |Active(s)| && s.taken <= cfg.capacity
    && forall id | id in s.callers :: id < s.nextId
  }

  lemma ActiveAfter(cfg: Config, s: Sys, step: Step)
    requires forall id | id in s.callers :: id < s.nextId
    ensures var r := Apply(cfg, s, step);
            && (r.taken == s.taken ==> Active(r) == Active(s))
            && (r.taken > s.taken ==> step.Acquire? && step.id !in Active(s) && Active(r) == Active(s) + {step.id}
                                      && r.taken == s.taken + 1 <= cfg.capacity)
            && (r.taken < s.taken ==> step.Release? && step.id in Active(s) && Active(r) == Active(s) - {step.id}
                                      && r.taken == s.taken - 1)
  {
    hide Check;
  }

  lemma IdsStayBelow(cfg: Config, s: Sys, step: Step)
    requires forall id | id in s.callers :: id < s.nextId
    ensures var r := Apply(cfg, s, step); forall id | id in r.callers :: id < r.nextId
  {
    hide Check;
  }

  lemma StepInv(cfg: Config, s: Sys, step: Step)
    requires Inv(cfg, s)
    ensures Inv(cfg, Apply(cfg, s, step))
  {
    hide Apply, Active;
    ActiveAfter(cfg, s, step);
    IdsStayBelow(cfg, s, step);
  }

  lemma {:induction false} Reachable(cfg: Config, steps: seq<Step>)
    ensures Inv(cfg, Exec(cfg, steps))
  {
    if steps == [] {
      assert Active(Sys(0, map[], 0)) == {};
    } else {
      Reachable(cfg, steps[..|steps| - 1]);
      StepInv(cfg, Exec(cfg, steps[..|steps| - 1]), steps[|steps| - 1]);
    }
  }

  // In every interleaving the active callers hold exactly the slots in use, never more than the capacity.
  lemma SlotsAreConserved(cfg: Config, steps: seq<Step>)
    ensures var s := Exec(cfg, steps); |Active(s)| == s.taken <= cfg.capacity
  {
    Reachable(cfg, steps);
  }

  lemma PastIsPendingOrActive(s: Sys, p: nat)
    ensures |Past(s, p)| == |Pending(s, p)| + |ActiveOf(s, p)|
    ensures |ActiveOf(s, p)| <= |Active(s)|
  {
    assert Past(s, p) == Pending(s, p) + ActiveOf(s, p);
    SubsetSize(ActiveOf(s, p), Active(s));
  }

  // One step raises the number of a priority's callers past their check only by an arrival that passes.
  lemma PastGrowsByArrival(cfg: Config, s: Sys, step: Step, p: nat)
    requires Inv(cfg, s)
    ensures var r := Apply(cfg, s, step);
            |Past(r, p)| <= |Past(s, p)|
            || (step == Arrive(p) && Check(cfg, s.taken, p).None? && r.taken == s.taken)
  {
    var r := Apply(cfg, s, step);
    match step
    case Arrive(q) =>
      if r != s && q != p {
        assert Past(r, p) == Past(s, p);
      }
    case Acquire(id) => assert Past(r, p) == Past(s, p);
    case GiveUp(_) => SubsetSize(Past(r, p), Past(s, p));
    case Release(_) => SubsetSize(Past(r, p), Past(s, p));
  }

  // The soft limit is soft by exactly the crowd at the gate: with at most k callers of priority p between check and
  // slot, the active and pending ones together stay within the soft limit plus k.
  lemma {:induction false} SoftLimitPlusCrowd(cfg: Config, steps: seq<Step>, p: nat, k: nat)
    requires cfg.capacity > 0 && Crowded(cfg, steps, p, k)
    ensures |Past(Exec(cfg, steps), p)| <= Bound(cfg, p, k)
  {
    if steps == [] {
      assert Past(Sys(0, map[], 0), p) == {};
    } else {
      var n := |steps| - 1;
      var less := steps[..n];
      assert forall m | 0 <= m <= n :: less[..m] == steps[..m];
      SoftLimitPlusCrowd(cfg, less, p, k);
      var s := Exec(cfg, less);
      var r := Exec(cfg, steps);
      Reachable(cfg, less);
      Reachable(cfg, steps);
      PastGrowsByArrival(cfg, s, steps[n], p);
      if |Past(r, p)| > |Past(s, p)| {
        PassMeansBelow(cfg, s.taken, p);
        PastIsPendingOrActive(r, p);
        assert steps[..|steps|] == steps;
        assert |Pending(r, p)| <= k;
      }
      hide Check, Apply, SoftLimit;
    }
  }

  // A soft limit below zero lets nobody of this priority pass.
  function Bound(cfg: Config, p: nat, k: nat): int {
    if SoftLimit(cfg, p) < 0 then 0 else SoftLimit(cfg, p) + k
  }

  // With one caller at a time at the gate, the limit is hard: never more active callers than threshold times
  // capacity, rounded up, and none for a threshold below zero.
  lemma OneAtATimeIsHard(cfg: Config, steps: seq<Step>, p: nat)
    requires cfg.capacity > 0 && Crowded(cfg, steps, p, 1)
    ensures var running := |ActiveOf(Exec(cfg, steps), p)|;
            running == 0 || running <= Ceil(Threshold(cfg, p) * cfg.capacity as real)
  {
    hide *;
    SoftLimitPlusCrowd(cfg, steps, p, 1);
    PastIsPendingOrActive(Exec(cfg, steps), p);
    BoundOfOne(cfg, p);
  }

  lemma BoundOfOne(cfg: Config, p: nat)
    ensures Bound(cfg, p, 1) == 0 || Bound(cfg, p, 1) == Ceil(Threshold(cfg, p) * cfg.capacity as real)
  {
    assert SoftLimit(cfg, p) == Ceil(Threshold(cfg, p) * cfg.capacity as real) - 1;
    hide SoftLimit, Ceil, Threshold;
  }

  // ---- The bound is reached ----

  // Only callers of priority p: the first n hold slots, w more are past their check.
  function Stage(p: nat, n: nat, w: nat): Sys {
    Sys(n, Holders(p, n, Interval(0, n + w)), n + w)
  }

  function Holders(p: nat, n: nat, ids: set<nat>): map<nat, Caller> {
    map id | id in ids :: Caller(p, id < n)
  }

  lemma StageSizes(p: nat, n: nat, w: nat)
    ensures |Pending(Stage(p, n, w), p)| == w && |ActiveOf(Stage(p, n, w), p)| == n
  {
    var s := Stage(p, n, w);
    assert forall id :: id in s.callers <==> 0 <= id < n + w;
    assert forall id | id in s.callers :: s.callers[id] == Caller(p, id < n);
    hide Stage, Holders;
    assert Pending(s, p) == Interval(n, n + w) by { hide ActiveOf; }
    hide Pending;
    assert ActiveOf(s, p) == Interval(0, n);
  }

  // One more of them arrives, or the next one waiting takes a slot.
  lemma StageArrives(cfg: Config, p: nat, n: nat, w: nat)
    requires n < cfg.capacity && n <= SoftLimit(cfg, p)
    ensures Apply(cfg, Stage(p, n, w), Arrive(p)) == Stage(p, n, w + 1)
  {
    PassMeansBelow(cfg, n, p);
    hide Check, SoftLimit;
  }

  lemma StageAcquires(cfg: Config, p: nat, n: nat, w: nat)
    requires n < cfg.capacity && w > 0
    ensures Apply(cfg, Stage(p, n, w), Acquire(n)) == Stage(p, n + 1, w - 1)
  {
  }

  // A crowded run of these callers, one step longer.
  lemma StageMore(cfg: Config, steps: seq<Step>, step: Step, p: nat, k: nat, n: nat, w: nat) returns (more: seq<Step>)
    requires Crowded(cfg, steps, p, k) && Apply(cfg, Exec(cfg, steps), step) == Stage(p, n, w) && w <= k
    ensures Crowded(cfg, more, p, k) && Exec(cfg, more) == Stage(p, n, w)
  {
    hide Apply, Pending, Stage, ActiveOf;
    more := steps + [step];
    assert more[..|steps|] == steps && more[..|more|] == more;
    StageSizes(p, n, w);
    forall m | 0 <= m <= |more|
      ensures |Pending(Exec(cfg, more[..m]), p)| <= k
    {
      if m <= |steps| {
        assert more[..m] == steps[..m];
      }
    }
  }

  // One at a time up to the soft limit, then a crowd of k at the gate, then all of them inside.
  lemma Rise(cfg: Config, p: nat, k: nat) returns (steps: seq<Step>)
    requires k > 0 && 0 <= SoftLimit(cfg, p) < cfg.capacity
    ensures Crowded(cfg, steps, p, k) && Exec(cfg, steps) == Stage(p, SoftLimit(cfg, p), 0)
  {
    steps := [];
    assert Exec(cfg, steps) == Stage(p, 0, 0);
    StageSizes(p, 0, 0);
    assert Crowded(cfg, steps, p, k) by { assert steps[..0] == steps; }
    hide *;
    for n := 0 to SoftLimit(cfg, p)
      invariant Crowded(cfg, steps, p, k) && Exec(cfg, steps) == Stage(p, n, 0)
    {
      StageArrives(cfg, p, n, 0);
      steps := StageMore(cfg, steps, Arrive(p), p, k, n, 1);
      StageAcquires(cfg, p, n, 1);
      steps := StageMore(cfg, steps, Acquire(n), p, k, n + 1, 0);
    }
  }

  lemma Gather(cfg: Config, p: nat, k: nat, before: seq<Step>) returns (steps: seq<Step>)
    requires 0 <= SoftLimit(cfg, p) < cfg.capacity
    requires Crowded(cfg, before, p, k) && Exec(cfg, before) == Stage(p, SoftLimit(cfg, p), 0)
    ensures Crowded(cfg, steps, p, k) && Exec(cfg, steps) == Stage(p, SoftLimit(cfg, p), k)
  {
    hide *;
    steps := before;
    for w := 0 to k
      invariant Crowded(cfg, steps, p, k) && Exec(cfg, steps) == Stage(p, SoftLimit(cfg, p), w)
    {
      StageArrives(cfg, p, SoftLimit(cfg, p), w);
      steps := StageMore(cfg, steps, Arrive(p), p, k, SoftLimit(cfg, p), w + 1);
    }
  }

  lemma GoIn(cfg: Config, p: nat, k: nat, n: nat, before: seq<Step>) returns (steps: seq<Step>)
    requires n + k <= cfg.capacity && Crowded(cfg, before, p, k) && Exec(cfg, before) == Stage(p, n, k)
    ensures Crowded(cfg, steps, p, k) && Exec(cfg, steps) == Stage(p, n + k, 0)
  {
    hide *;
    steps := before;
    for w := 0 to k
      invariant Crowded(cfg, steps, p, k) && Exec(cfg, steps) == Stage(p, n + w, k - w)
    {
      StageAcquires(cfg, p, n + w, k - w);
      steps := StageMore(cfg, steps, Acquire(n + w), p, k, n + w + 1, k - w - 1);
    }
  }

  // While there is room, the soft limit plus the whole crowd can be active at once: no smaller bound holds.
  lemma BoundIsReached(cfg: Config, p: nat, k: nat) returns (steps: seq<Step>)
    requires k > 0 && 0 <= SoftLimit(cfg, p) && SoftLimit(cfg, p) + k <= cfg.capacity
    ensures Crowded(cfg, steps, p, k) && |ActiveOf(Exec(cfg, steps), p)| == SoftLimit(cfg, p) + k
  {
    hide *;
    steps := Rise(cfg, p, k);
    steps := Gather(cfg, p, k, steps);
    steps := GoIn(cfg, p, k, SoftLimit(cfg, p), steps);
    StageSizes(p, SoftLimit(cfg, p) + k, 0);
  }

  // Somebody of this priority is active, and more than its threshold allows.
  predicate Exceeds(cfg: Config, s: Sys, p: nat) {
    |ActiveOf(s, p)| > 0 && |ActiveOf(s, p)| > Ceil(Threshold(cfg, p) * cfg.capacity as real)
  }

  // Some run with at most k at the gate has more active callers of this priority than its threshold allows.
  ghost predicate CanExceed(cfg: Config, p: nat, k: nat) {
    exists steps :: Crowded(cfg, steps, p, k) && Exceeds(cfg, Exec(cfg, steps), p)
  }

  // That takes two at the gate, a threshold that lets anyone pass at all, and a slot beyond the threshold; and it takes
  // no more than that.
  lemma ThresholdExceededIff(cfg: Config, p: nat, k: nat)
    ensures CanExceed(cfg, p, k) <==> k >= 2 && 0 <= SoftLimit(cfg, p) && SoftLimit(cfg, p) + 2 <= cfg.capacity
  {
    assert SoftLimit(cfg, p) == Ceil(Threshold(cfg, p) * cfg.capacity as real) - 1;
    hide SoftLimit, Ceil, Threshold, Exec, ActiveOf;
    if k >= 2 && 0 <= SoftLimit(cfg, p) && SoftLimit(cfg, p) + 2 <= cfg.capacity {
      var steps := BoundIsReached(cfg, p, 2);
      assert Crowded(cfg, steps, p, k) && Exceeds(cfg, Exec(cfg, steps), p);
    }
    if CanExceed(cfg, p, k) {
      var steps :| Crowded(cfg, steps, p, k) && Exceeds(cfg, Exec(cfg, steps), p);
      SlotsAreConserved(cfg, steps);
      PastIsPendingOrActive(Exec(cfg, steps), p);
      SoftLimitPlusCrowd(cfg, steps, p, k);
    }
  }

  // A smallest such run: a threshold of one half of capacity two allows one caller, yet two are active.
  lemma TwoAtOnceOvershoot()
    ensures var cfg := Config(2, map[0 := 0.5]);
            var s := Exec(cfg, [Arrive(0), Arrive(0), Acquire(0), Acquire(1)]);
            Ceil(Threshold(cfg, 0) * 2.0) == 1 && ActiveOf(s, 0) == {0, 1} && Exceeds(cfg, s, 0)
  {
    var cfg := Config(2, map[0 := 0.5]);
    var steps := [Arrive(0), Arrive(0), Acquire(0), Acquire(1)];
    assert steps[..3] == [Arrive(0), Arrive(0), Acquire(0)] && steps[..3][..2] == [Arrive(0), Arrive(0)];
    assert steps[..3][..2][..1] == [Arrive(0)] && [Arrive(0)][..0] == [];
    assert Exec(cfg, [Arrive(0)]) == Sys(0, map[0 := Caller(0, false)], 1);
    assert Exec(cfg, steps[..3][..2]) == Sys(0, map[0 := Caller(0, false), 1 := Caller(0, false)], 2);
    assert Exec(cfg, steps[..3]) == Sys(1, map[0 := Caller(0, true), 1 := Caller(0, false)], 2);
    assert Exec(cfg, steps) == Sys(2, map[0 := Caller(0, true), 1 := Caller(0, true)], 2);
    hide Exec, Apply;
  }
}
