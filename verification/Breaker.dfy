// The breaker as the mutable object it is: ring buffer, bucket array and counters updated in place.
module BreakerObject {
  import opened Outcomes
  import opened TimeWindow
  import opened Circuit

  // A ring of cells read from its oldest entry.
  function Unrolled(cells: seq<bool>, idx: nat, full: bool): seq<bool>
    requires idx <= |cells|
  {
    if full then cells[idx..] + cells[..idx] else cells[..idx]
  }

  function NextIdx(idx: nat, n: nat): (r: nat)
    requires idx < n
    ensures r == if idx + 1 == n then 0 else idx + 1
  {
    (idx + 1) % n
  }

  // Overwriting the cell at the index and stepping on is keeping the last |cells| outcomes.
  lemma RingStep(cells: seq<bool>, idx: nat, full: bool, x: bool)
    requires idx < |cells|
    ensures var next := NextIdx(idx, |cells|);
            Unrolled(cells[idx := x], next, full || next == 0) == LastN(|cells|, Unrolled(cells, idx, full) + [x])
  {
    var before := Unrolled(cells, idx, full);
    var after := cells[idx := x];
    if full {
      assert after[idx + 1..] == cells[idx + 1..] && after[..idx + 1] == cells[..idx] + [x];
      assert before[1..] == cells[idx + 1..] + cells[..idx];
      assert after[idx + 1..] + after[..idx + 1] == before[1..] + [x];
      assert (before + [x])[1..] == before[1..] + [x];
    } else {
      assert after[..idx + 1] == before + [x];
    }
  }

  predicate RingOk(cells: seq<bool>, idx: nat, full: bool, total: nat, failures: nat) {
    && idx < |cells|
    && total == |Unrolled(cells, idx, full)|
    && failures == Failures(Unrolled(cells, idx, full))
  }

  // The running totals stay those of the ring's contents, and the decrement never goes below zero.
  lemma RingCounts(cells: seq<bool>, idx: nat, full: bool, total: nat, failures: nat, x: bool)
    requires RingOk(cells, idx, full, total, failures)
    ensures full && !cells[idx] ==> failures > 0
    ensures var next := NextIdx(idx, |cells|);
            var kept := if full && !cells[idx] then failures - 1 else failures;
            RingOk(cells[idx := x], next, full || next == 0,
                   if full then total else total + 1, if x then kept else kept + 1)
  {
    var before := Unrolled(cells, idx, full);
    RingStep(cells, idx, full, x);
    if full {
      FailuresDropFirst(before);
      assert LastN(|cells|, before + [x]) == before[1..] + [x];
      FailuresConcat(before[1..], [x]);
    } else {
      FailuresConcat(before, [x]);
    }
    FailuresOfOne(x);
  }

  // The bucket the walk has reached after t steps, and the buckets it has passed by then.
  function Place(lastIdx: nat, t: nat): nat {
    (lastIdx + 1 + t) % NUM_BUCKETS
  }

  predicate Walked(lastIdx: nat, t: nat, j: nat) {
    (j - lastIdx - 1) % NUM_BUCKETS < t
  }

  lemma WalkStep(lastIdx: nat, t: nat, j: nat)
    requires lastIdx < NUM_BUCKETS && t < NUM_BUCKETS && j < NUM_BUCKETS
    ensures (j - lastIdx - 1) % NUM_BUCKETS == t <==> j == Place(lastIdx, t)
    ensures Walked(lastIdx, t + 1, j) <==> Walked(lastIdx, t, j) || j == Place(lastIdx, t)
    ensures Place(lastIdx, t + 1) == (Place(lastIdx, t) + 1) % NUM_BUCKETS
  {
    ModSmall(j - lastIdx - 1);
    ModSmall(lastIdx + 1 + t);
    ModSmall(lastIdx + 2 + t);
    ModSmall(Place(lastIdx, t) + 1);
  }

  lemma ModSmall(x: int)
    requires -NUM_BUCKETS <= x <= 2 * NUM_BUCKETS
    ensures x % NUM_BUCKETS == if x < 0 then x + 10 else if x < 10 then x else if x < 20 then x - 10 else 0
  {
  }

  datatype Outcome =
    | ContextDone
    | CircuitOpen
    | Ran(ok: bool)

  class Breaker {
    const config: Config

    var state: State
    var openedAt: int

    // Count-based window
    var ring: array<bool>
    var ringIdx: nat
    var ringFull: bool
    var total: nat
    var failures: nat

    // Time-based window; `touched` is false while lastUpdateTime is the zero time
    var buckets: array<Bucket>
    const bucketDuration: int
    var touched: bool
    var lastUpdateTime: int

    // Half-Open probe counters
    var halfOpenCalls: nat
    var halfOpenFailures: nat
    var halfOpenCompleted: nat

    ghost predicate Shape()
      reads this`ring, this`buckets
    {
      && Normal(config)
      && ring.Length == config.windowSize
      && buckets.Length == NUM_BUCKETS
      && bucketDuration == BucketDuration(config.windowDuration)
    }

    // The ring read from its oldest entry.
    ghost function Recent(): seq<bool>
      reads this, ring
      requires ringIdx <= ring.Length
    {
      Unrolled(ring[..], ringIdx, ringFull)
    }

    ghost predicate RingValid()
      reads this, ring
    {
      RingOk(ring[..], ringIdx, ringFull, total, failures)
    }

    ghost predicate Valid()
      reads this, ring, buckets
    {
      Shape() && RingValid()
    }

    ghost function TheBuckets(): Buckets
      reads this, buckets
    {
      Buckets(buckets[..], touched, lastUpdateTime)
    }

    ghost function View(): Core
      requires Valid()
      reads this, ring, buckets
    {
      Core(state, openedAt,
           if config.windowType.CountBased? then ByCount(Recent()) else ByTime(TheBuckets()),
           halfOpenCalls, halfOpenFailures, halfOpenCompleted)
    }

    constructor (cfg: Config)
      ensures Valid() && fresh(ring) && fresh(buckets)
      ensures config == Normalize(cfg)
      ensures View() == NewCore(config)
    {
      var c := Normalize(cfg);
      config := c;
      state, openedAt := Closed, 0;
      ring := new bool[c.windowSize](_ => false);
      ringIdx, ringFull, total, failures := 0, false, 0, 0;
      buckets := new Bucket[NUM_BUCKETS](_ => EMPTY);
      bucketDuration := BucketDuration(c.windowDuration);
      touched, lastUpdateTime := false, 0;
      halfOpenCalls, halfOpenFailures, halfOpenCompleted := 0, 0, 0;
      new;
      assert buckets[..] == NoBuckets().cells;
    }

    method RecordCountBased(success: bool)
      requires Valid()
      modifies this`ringIdx, this`ringFull, this`total, this`failures, ring
      ensures Valid()
      ensures Recent() == LastN(config.windowSize, old(Recent()) + [success])
    {
      hide Normal, BucketDuration, Failures;
      ghost var cells, idx, full := ring[..], ringIdx, ringFull;
      ghost var kept := if full && !cells[idx] then failures - 1 else failures;
      assert ringFull && !ring[ringIdx] ==> failures > 0 by {
        RingCounts(cells, idx, full, total, failures, success);
      }
      if ringFull {
        if !ring[ringIdx] {
          failures := failures - 1;
        }
      } else {
        total := total + 1;
      }
      assert failures == kept && total == if full then old(total) else old(total) + 1;
      ring[ringIdx] := success;
      if !success {
        failures := failures + 1;
      }
      ringIdx := NextIdx(ringIdx, ring.Length);
      if ringIdx == 0 {
        ringFull := true;
      }
      hide Unrolled, RingOk, LastN, NextIdx;
      assert ring[..] == cells[idx := success];
      assert RingOk(ring[..], ringIdx, ringFull, total, failures) by {
        RingCounts(cells, idx, full, old(total), old(failures), success);
      }
      RingStep(cells, idx, full, success);
      assert Shape() && RingValid();
    }

    method AdvanceTimeBasedWindow(now: int)
      requires Valid()
      modifies this`touched, this`lastUpdateTime, buckets
      ensures Valid()
      ensures TheBuckets() == Advance(config.windowDuration, bucketDuration, old(TheBuckets()), now)
    {
      if !touched {
        touched, lastUpdateTime := true, now;
        return;
      }
      var diff := now - lastUpdateTime;
      if diff > config.windowDuration {
        ClearBuckets();
      } else if diff >= bucketDuration {
        ClearWalk(Index(bucketDuration, lastUpdateTime), Index(bucketDuration, now));
      }
    }

    method ClearBuckets()
      requires Valid()
      modifies buckets
      ensures buckets[..] == NoBuckets().cells
    {
      forall j | 0 <= j < buckets.Length {
        buckets[j] := EMPTY;
      }
    }

    // Walks the ring of buckets from the one after lastIdx up to and including currIdx.
    method ClearWalk(lastIdx: nat, currIdx: nat)
      requires Valid() && lastIdx < NUM_BUCKETS && currIdx < NUM_BUCKETS
      modifies buckets
      ensures buckets[..] == ClearArc(old(buckets[..]), lastIdx, currIdx)
    {
      var i := (lastIdx + 1) % NUM_BUCKETS;
      ghost var turns := 0;
      ghost var before := buckets[..];
      while true
        invariant 0 <= turns <= (currIdx - lastIdx - 1) % NUM_BUCKETS
        invariant i == Place(lastIdx, turns) && i < NUM_BUCKETS
        invariant forall j: nat | j < NUM_BUCKETS ::
                    buckets[j] == if Walked(lastIdx, turns, j) then EMPTY else before[j]
        decreases NUM_BUCKETS - turns
      {
        hide Place, Walked;
        buckets[i] := EMPTY;
        WalkStep(lastIdx, turns, currIdx);
        forall j: nat | j < NUM_BUCKETS
          ensures Walked(lastIdx, turns + 1, j) <==> Walked(lastIdx, turns, j) || j == i
        {
          WalkStep(lastIdx, turns, j);
        }
        turns := turns + 1;
        if i == currIdx {
          break;
        }
        i := (i + 1) % NUM_BUCKETS;
      }
      assert forall j: nat | j < NUM_BUCKETS :: Walked(lastIdx, turns, j) <==> OnArc(lastIdx, currIdx, j);
    }

    method RecordTimeBased(success: bool, now: int)
      requires Valid()
      modifies this`touched, this`lastUpdateTime, buckets
      ensures Valid()
      ensures TheBuckets() == Record(config.windowDuration, bucketDuration, old(TheBuckets()), success, now)
    {
      AdvanceTimeBasedWindow(now);
      var idx := Index(bucketDuration, now);
      if success {
        buckets[idx] := buckets[idx].(success := buckets[idx].success + 1);
      } else {
        buckets[idx] := buckets[idx].(failure := buckets[idx].failure + 1);
      }
      touched, lastUpdateTime := true, now;
    }

    method RecordCall(success: bool, now: int)
      requires Valid()
      modifies this`ringIdx, this`ringFull, this`total, this`failures, ring
      modifies this`touched, this`lastUpdateTime, buckets
      ensures Valid()
      ensures View() == old(View()).(window := RecordIn(config, old(View()).window, success, now))
    {
      hide LastN, Record, Unrolled, RingOk, Normal;
      if config.windowType.CountBased? {
        RecordCountBased(success);
      } else {
        RecordTimeBased(success, now);
      }
    }

    method ClearWindow()
      requires Valid()
      modifies this`ringIdx, this`ringFull, this`total, this`failures, ring
      modifies this`touched, this`lastUpdateTime, buckets
      ensures Valid()
      ensures View() == old(View()).(window := EmptyWindow(config))
    {
      if config.windowType.CountBased? {
        forall j | 0 <= j < ring.Length {
          ring[j] := false;
        }
        ringIdx, ringFull, total, failures := 0, false, 0, 0;
      } else {
        ClearBuckets();
        touched, lastUpdateTime := false, 0;
      }
    }

    method GetStats(now: int) returns (t: nat, f: nat)
      requires Valid()
      modifies this`touched, this`lastUpdateTime, buckets
      ensures Valid()
      ensures View() == old(View()).(window := Refresh(config, old(View()).window, now))
      ensures t == WindowTotal(View().window) && f == WindowFailures(View().window)
    {
      if config.windowType.CountBased? {
        return total, failures;
      }
      AdvanceTimeBasedWindow(now);
      var success := 0;
      f := 0;
      for k := 0 to buckets.Length
        modifies {}
        invariant success == Sum(buckets[..k], true) && f == Sum(buckets[..k], false)
      {
        SumStep(buckets[..], k, true);
        SumStep(buckets[..], k, false);
        assert buckets[..][..k + 1] == buckets[..k + 1] && buckets[..][..k] == buckets[..k];
        success := success + buckets[k].success;
        f := f + buckets[k].failure;
      }
      assert buckets[..buckets.Length] == buckets[..];
      t := success + f;
    }

    method TransitionToOpen(now: int)
      requires Valid()
      modifies this, ring, buckets
      ensures Valid() && ring == old(ring) && buckets == old(buckets)
      ensures View() == ToOpen(config, old(View()), now)
    {
      state := Open;
      openedAt := now;
      ClearWindow();
    }

    method TransitionToHalfOpen()
      requires Valid()
      modifies this`state, this`halfOpenCalls, this`halfOpenFailures, this`halfOpenCompleted
      ensures Valid()
      ensures View() == ToHalfOpen(old(View()))
    {
      state := HalfOpen;
      halfOpenCalls, halfOpenFailures, halfOpenCompleted := 0, 0, 0;
    }

    method TransitionToClosed()
      requires Valid()
      modifies this, ring, buckets
      ensures Valid() && ring == old(ring) && buckets == old(buckets)
      ensures View() == ToClosed(config, old(View()))
    {
      state := Closed;
      ClearWindow();
    }

    method CheckRate(check: int, trip: int)
      requires Valid()
      modifies this, ring, buckets
      ensures Valid() && ring == old(ring) && buckets == old(buckets)
      ensures View() == CheckFailureRate(config, old(View()), check, trip)
    {
      if state != Closed {
        return;
      }
      var t, f := GetStats(check);
      if t < config.minimumCalls {
        return;
      }
      var rate := f as real / t as real * 100.0;
      if rate >= config.threshold {
        TransitionToOpen(trip);
      }
    }

    method HandleFailure(captured: State, at: Instants)
      requires Valid()
      modifies this, ring, buckets
      ensures Valid() && ring == old(ring) && buckets == old(buckets)
      ensures View() == OnFailure(config, old(View()), captured, at)
    {
      if captured == HalfOpen {
        halfOpenFailures := halfOpenFailures + 1;
        halfOpenCompleted := halfOpenCompleted + 1;
        TransitionToOpen(at.trip);
        return;
      }
      RecordCall(false, at.record);
      CheckRate(at.check, at.trip);
    }

    method HandleSuccess(captured: State, at: Instants)
      requires Valid()
      modifies this, ring, buckets
      ensures Valid() && ring == old(ring) && buckets == old(buckets)
      ensures View() == OnSuccess(config, old(View()), captured, at)
    {
      if captured == HalfOpen {
        halfOpenCompleted := halfOpenCompleted + 1;
        if halfOpenCompleted >= config.halfOpenMaxCalls {
          var rate := halfOpenFailures as real / halfOpenCompleted as real * 100.0;
          if rate < config.threshold {
            TransitionToClosed();
          } else {
            TransitionToOpen(at.trip);
          }
        }
        return;
      }
      RecordCall(true, at.record);
      CheckRate(at.check, at.trip);
    }

    // The first locked section of Execute.
    method Enter(now: int) returns (admitted: bool, captured: State)
      requires Valid()
      modifies this`state, this`halfOpenCalls, this`halfOpenFailures, this`halfOpenCompleted
      ensures Valid()
      ensures (View(), admitted) == Admit(config, old(View()), now)
      ensures captured == state
    {
      if state == Open && now - openedAt > config.resetTimeout {
        TransitionToHalfOpen();
      }
      captured := state;
      if state == Open {
        return false, captured;
      }
      if state == HalfOpen {
        if halfOpenCalls >= config.halfOpenMaxCalls {
          return false, captured;
        }
        halfOpenCalls := halfOpenCalls + 1;
      }
      admitted := true;
    }

    // The second locked section of Execute.
    method Leave(captured: State, ok: bool, at: Instants)
      requires Valid()
      modifies this, ring, buckets
      ensures Valid() && ring == old(ring) && buckets == old(buckets)
      ensures View() == Report(config, old(View()), captured, ok, at)
    {
      if !ok {
        HandleFailure(captured, at);
        return;
      }
      HandleSuccess(captured, at);
    }

    // One call that no other call overlaps.
    method Execute(ctxDone: bool, now: int, actionOk: bool, at: Instants) returns (r: Outcome)
      requires Valid()
      modifies this, ring, buckets
      ensures Valid() && ring == old(ring) && buckets == old(buckets)
      ensures ctxDone ==> r == ContextDone && View() == old(View())
      ensures !ctxDone ==>
                var (c, admitted) := Admit(config, old(View()), now);
                && r == (if admitted then Ran(actionOk) else CircuitOpen)
                && View() == if admitted then Report(config, c, c.state, actionOk, at) else c
    {
      if ctxDone {
        return ContextDone;
      }
      var admitted, captured := Enter(now);
      if !admitted {
        return CircuitOpen;
      }
      Leave(captured, actionOk, at);
      return Ran(actionOk);
    }

    // State() reads under the read lock and, only if the timeout seems to have passed, looks again under the write
    // lock; other callers may act between the two.
    method PeekState(now: int) returns (s: State, lookAgain: bool)
      requires Valid()
      ensures s == state && (lookAgain <==> TimedOut(config, View(), now))
    {
      s := state;
      lookAgain := s == Open && now - openedAt > config.resetTimeout;
    }

    method ConfirmState(now: int) returns (s: State)
      requires Valid()
      modifies this`state, this`halfOpenCalls, this`halfOpenFailures, this`halfOpenCompleted
      ensures Valid()
      ensures View() == Poll(config, old(View()), now)
      ensures s == state
    {
      if state == Open && now - openedAt > config.resetTimeout {
        TransitionToHalfOpen();
      }
      return state;
    }

    // Both, with nobody between them.
    method CurrentState(first: int, second: int) returns (s: State)
      requires Valid() && first <= second
      modifies this`state, this`halfOpenCalls, this`halfOpenFailures, this`halfOpenCompleted
      ensures Valid()
      ensures View() == Poll(config, old(View()), if TimedOut(config, old(View()), first) then second else first)
      ensures s == state
    {
      var lookAgain;
      s, lookAgain := PeekState(first);
      if lookAgain {
        s := ConfirmState(second);
      }
    }

    method Reset()
      requires Valid()
      modifies this, ring, buckets
      ensures Valid() && ring == old(ring) && buckets == old(buckets)
      ensures View() == ToClosed(config, old(View()))
    {
      TransitionToClosed();
    }
  }
}
