// The token-bucket rate limiter, and the constraint over all past windows its one counter stands for.
module RateLimiting {
  datatype Limiter = Limiter(limit: real, interval: int, tokens: real, lastRefillAt: int)

  // What accrues in dt.
  function Accrued(limit: real, interval: int, dt: int): real
    requires interval != 0
  {
    dt as real / interval as real * limit
  }

  // With a zero interval the quotient is infinite or not a number: an infinite refill fills the bucket, and every other
  // one fails the comparison.
  function Refilled(l: Limiter, now: int): Limiter {
    var dt := now - l.lastRefillAt;
    if l.interval == 0 then
      if dt as real * l.limit > 0.0 then l.(tokens := l.limit, lastRefillAt := now) else l
    else
      var refill := Accrued(l.limit, l.interval, dt);
      if refill > 0.0 then
        l.(tokens := if l.tokens + refill > l.limit then l.limit else l.tokens + refill, lastRefillAt := now)
      else l
  }

  function Acquired(l: Limiter, now: int): (Limiter, bool) {
    var r := Refilled(l, now);
    if r.tokens >= 1.0 then (r.(tokens := r.tokens - 1.0), true) else (r, false)
  }

  class RateLimiter {
    const limit: real
    const interval: int
    var tokens: real
    var lastRefillAt: int

    function View(): Limiter
      reads this
    {
      Limiter(limit, interval, tokens, lastRefillAt)
    }

    constructor (limit: real, interval: int, now: int)
      ensures View() == New(limit, interval, now)
    {
      this.limit, this.interval := limit, interval;
      tokens, lastRefillAt := limit, now;
    }

    method Acquire(now: int) returns (ok: bool)
      modifies this
      ensures (View(), ok) == Acquired(old(View()), now)
    {
      var elapsed := now - lastRefillAt;
      if interval == 0 {
        if elapsed as real * limit > 0.0 {
          tokens, lastRefillAt := limit, now;
        }
      } else {
        var refill := Accrued(limit, interval, elapsed);
        if refill > 0.0 {
          tokens := tokens + refill;
          if tokens > limit {
            tokens := limit;
          }
          lastRefillAt := now;
        }
      }
      if tokens >= 1.0 {
        tokens := tokens - 1.0;
        return true;
      }
      return false;
    }
  }

  function New(limit: real, interval: int, now: int): Limiter {
    Limiter(limit, interval, limit, now)
  }

  // ---- History ----

  datatype Instant = Instant(at: int, admitted: bool)

  // The limiter together with every instant so far: its creation, which admits nothing, then each call.
  datatype Tracked = Tracked(l: Limiter, hist: seq<Instant>)

  function Last(hist: seq<Instant>): int
    requires hist != []
  {
    hist[|hist| - 1].at
  }

  // Each call comes some time after the one before.
  function Exec(limit: real, interval: int, start: int, delays: seq<nat>): (r: Tracked)
    ensures r.l.limit == limit && r.l.interval == interval && r.hist != []
  {
    if delays == [] then Tracked(New(limit, interval, start), [Instant(start, false)])
    else
      var s := Exec(limit, interval, start, delays[..|delays| - 1]);
      var now := Last(s.hist) + delays[|delays| - 1];
      var (l, ok) := Acquired(s.l, now);
      Tracked(l, s.hist + [Instant(now, ok)])
  }

  function Admitted(hist: seq<Instant>): nat {
    if hist == [] then 0 else Admitted(hist[..|hist| - 1]) + (if hist[|hist| - 1].admitted then 1 else 0)
  }

  // What the window from instant j to now still has room for.
  function Room(l: Limiter, hist: seq<Instant>, j: nat, now: int): real
    requires l.interval != 0 && j < |hist|
  {
    l.limit + Accrued(l.limit, l.interval, now - hist[j].at) - Admitted(hist[j..]) as real
  }

  // t is the smallest room any window up to now has left.
  ghost predicate Tightest(l: Limiter, hist: seq<Instant>, now: int, t: real)
    requires l.interval > 0
  {
    && (forall j | 0 <= j < |hist| :: t <= Room(l, hist, j, now))
    && (exists j | 0 <= j < |hist| :: t == Room(l, hist, j, now))
  }

  // ---- Arithmetic of the accrual ----

  lemma AccruedAdds(limit: real, interval: int, a: int, b: int)
    requires interval > 0
    ensures Accrued(limit, interval, a + b) == Accrued(limit, interval, a) + Accrued(limit, interval, b)
  {
    var x, y, i := a as real, b as real, interval as real;
    assert (a + b) as real == x + y;
    assert (x + y) / i == x / i + y / i;
  }

  lemma AccruedSign(limit: real, interval: int, dt: nat)
    requires interval > 0 && limit >= 0.0
    ensures Accrued(limit, interval, dt) >= 0.0
    ensures limit > 0.0 ==> (Accrued(limit, interval, dt) > 0.0 <==> dt > 0)
    ensures limit == 0.0 ==> Accrued(limit, interval, dt) == 0.0
  {
    var q := dt as real / interval as real;
    assert q >= 0.0 && (q > 0.0 <==> dt > 0);
  }

  // ---- The counter is the tightest window ----

  ghost predicate Inv(s: Tracked)
    requires s.l.interval > 0 && s.hist != []
  {
    && (s.l.limit > 0.0 ==> s.l.lastRefillAt == Last(s.hist))
    && (s.l.limit == 0.0 ==> s.l.tokens == 0.0)
    && 0.0 <= s.l.tokens
    && Tightest(s.l, s.hist, Last(s.hist), s.l.tokens)
  }

  lemma RoomGrows(l: Limiter, hist: seq<Instant>, j: nat, now: int, d: nat)
    requires l.interval > 0 && j < |hist|
    ensures Room(l, hist, j, now + d) == Room(l, hist, j, now) + Accrued(l.limit, l.interval, d)
  {
    AccruedAdds(l.limit, l.interval, now - hist[j].at, d);
    assert now + d - hist[j].at == (now - hist[j].at) + d;
    hide Accrued;
  }

  lemma RoomShrinks(l: Limiter, hist: seq<Instant>, j: nat, now: int, e: Instant)
    requires l.interval > 0 && j < |hist|
    ensures Room(l, hist + [e], j, now) == Room(l, hist, j, now) - (if e.admitted then 1.0 else 0.0)
  {
    var longer := (hist + [e])[j..];
    assert longer[..|longer| - 1] == hist[j..];
    hide Accrued;
  }

  // Right after the refill of a call at now, the tokens are the smallest room of any earlier window, or the limit.
  lemma RefillIsTightest(s: Tracked, d: nat)
    requires s.l.interval > 0 && s.hist != [] && s.l.limit >= 0.0 && Inv(s)
    ensures var now := Last(s.hist) + d;
            var t := Refilled(s.l, now).tokens;
            && 0.0 <= t <= s.l.limit
            && (forall j | 0 <= j < |s.hist| :: t <= Room(s.l, s.hist, j, now))
            && (t == s.l.limit || exists j | 0 <= j < |s.hist| :: t == Room(s.l, s.hist, j, now))
            && (s.l.limit > 0.0 ==> Refilled(s.l, now).lastRefillAt == now)
  {
    var now := Last(s.hist) + d;
    AccruedSign(s.l.limit, s.l.interval, d);
    var n := |s.hist| - 1;
    LastRoom(s.l, s.hist);
    var k :| 0 <= k < |s.hist| && s.l.tokens == Room(s.l, s.hist, k, Last(s.hist));
    RoomGrows(s.l, s.hist, k, Last(s.hist), d);
    forall j | 0 <= j < |s.hist|
      ensures Room(s.l, s.hist, j, now) == Room(s.l, s.hist, j, Last(s.hist)) + Accrued(s.l.limit, s.l.interval, d)
    {
      RoomGrows(s.l, s.hist, j, Last(s.hist), d);
    }
    if s.l.limit == 0.0 {
      ZeroAccrues(s.l, now);
    }
    hide Accrued, Room;
  }

  lemma ZeroAccrues(l: Limiter, now: int)
    requires l.interval > 0 && l.limit == 0.0
    ensures Accrued(l.limit, l.interval, now - l.lastRefillAt) == 0.0
  {
  }

  // The newest window is at most the whole limit.
  lemma LastRoom(l: Limiter, hist: seq<Instant>)
    requires l.interval > 0 && hist != []
    ensures Room(l, hist, |hist| - 1, Last(hist)) == l.limit - (if hist[|hist| - 1].admitted then 1.0 else 0.0)
  {
    var e := hist[|hist| - 1];
    assert hist[|hist| - 1..] == [e] && [e][..0] == [];
    assert Admitted([e]) == if e.admitted then 1 else 0;
    NothingAccrued(l.limit, l.interval);
    hide Accrued;
  }

  lemma NothingAccrued(limit: real, interval: int)
    requires interval > 0
    ensures Accrued(limit, interval, 0) == 0.0
  {
  }

  lemma StepInv(s: Tracked, d: nat)
    requires s.l.interval > 0 && s.hist != [] && s.l.limit >= 0.0 && Inv(s)
    ensures var now := Last(s.hist) + d;
            var (l, ok) := Acquired(s.l, now);
            Inv(Tracked(l, s.hist + [Instant(now, ok)]))
  {
    var now := Last(s.hist) + d;
    var (l, ok) := Acquired(s.l, now);
    var hist := s.hist + [Instant(now, ok)];
    RefillIsTightest(s, d);
    var t := Refilled(s.l, now).tokens;
    assert l.tokens == t - (if ok then 1.0 else 0.0) && 0.0 <= l.tokens;
    assert l.limit > 0.0 ==> l.lastRefillAt == now;
    assert l.limit == 0.0 ==> l.tokens == 0.0;
    hide Inv, Acquired, Refilled;
    StillTightest(s, l, now, ok, t);
    assert Last(hist) == now;
    Opened(Tracked(l, hist));
  }

  lemma Opened(s: Tracked)
    requires s.l.interval > 0 && s.hist != []
    requires s.l.limit > 0.0 ==> s.l.lastRefillAt == Last(s.hist)
    requires s.l.limit == 0.0 ==> s.l.tokens == 0.0
    requires 0.0 <= s.l.tokens && Tightest(s.l, s.hist, Last(s.hist), s.l.tokens)
    ensures Inv(s)
  {
  }

  // Taking a token takes one from every window, the newest included.
  lemma StillTightest(s: Tracked, l: Limiter, now: int, ok: bool, t: real)
    requires s.l.interval > 0 && s.hist != [] && l.limit == s.l.limit && l.interval == s.l.interval
    requires t <= l.limit && l.tokens == t - (if ok then 1.0 else 0.0)
    requires forall j | 0 <= j < |s.hist| :: t <= Room(s.l, s.hist, j, now)
    requires t == l.limit || exists j | 0 <= j < |s.hist| :: t == Room(s.l, s.hist, j, now)
    ensures Tightest(l, s.hist + [Instant(now, ok)], now, l.tokens)
  {
    var e := Instant(now, ok);
    var hist := s.hist + [e];
    LastRoom(l, hist);
    forall j | 0 <= j < |s.hist|
      ensures Room(l, hist, j, now) == Room(s.l, s.hist, j, now) - (if ok then 1.0 else 0.0)
    {
      RoomShrinks(l, s.hist, j, now, e);
      SameRoom(l, s.l, s.hist, j, now);
    }
    hide Room;
    if t == l.limit {
      assert l.tokens == Room(l, hist, |hist| - 1, now);
    } else {
      var k :| 0 <= k < |s.hist| && t == Room(s.l, s.hist, k, now);
      assert l.tokens == Room(l, hist, k, now);
    }
  }

  lemma SameRoom(l: Limiter, m: Limiter, hist: seq<Instant>, j: nat, now: int)
    requires l.interval > 0 && j < |hist| && l.limit == m.limit && l.interval == m.interval
    ensures Room(l, hist, j, now) == Room(m, hist, j, now)
  {
  }

  lemma {:induction false} ExecInv(limit: real, interval: int, start: int, delays: seq<nat>)
    requires interval > 0 && limit >= 0.0
    ensures Inv(Exec(limit, interval, start, delays))
  {
    if delays == [] {
      var s := Exec(limit, interval, start, delays);
      LastRoom(s.l, s.hist);
      assert s.l.tokens == Room(s.l, s.hist, 0, Last(s.hist));
    } else {
      ExecInv(limit, interval, start, delays[..|delays| - 1]);
      StepInv(Exec(limit, interval, start, delays[..|delays| - 1]), delays[|delays| - 1]);
    }
  }

  // ---- Theorems ----

  // A limit below one token never admits anything.
  lemma {:induction false} SmallLimitNeverAdmits(limit: real, interval: int, start: int, delays: seq<nat>)
    requires limit < 1.0
    ensures Exec(limit, interval, start, delays).l.tokens <= limit
    ensures forall i | 0 <= i < |Exec(limit, interval, start, delays).hist| ::
              !Exec(limit, interval, start, delays).hist[i].admitted
  {
    if delays != [] {
      SmallLimitNeverAdmits(limit, interval, start, delays[..|delays| - 1]);
      hide Accrued;
    }
  }

  // The tokens right after the refill of a call at now are the minimum, over every earlier instant j, of what the
  // window from j to now has left; the newest window of all has the whole limit.
  ghost predicate RefillTellsRoom(s: Tracked, now: int)
    requires s.l.interval != 0
  {
    var t := Refilled(s.l, now).tokens;
    && t <= s.l.limit
    && (forall j | 0 <= j < |s.hist| :: t <= Room(s.l, s.hist, j, now))
    && (t == s.l.limit || exists j | 0 <= j < |s.hist| :: t == Room(s.l, s.hist, j, now))
  }

  // Limit and interval differ in sign: what accrues is negative.
  predicate Drains(limit: real, interval: int) {
    (limit > 0.0 && interval < 0) || (limit < 0.0 && interval > 0)
  }

  predicate Fills(limit: real, interval: int) {
    (limit > 0.0 && interval > 0) || (limit < 0.0 && interval < 0)
  }

  // After any calls at all, for every limit and every nonzero interval, it is so if and only if they do not differ in
  // sign, or no time has passed at all.
  lemma TokensAreTheTightestWindow(limit: real, interval: int, start: int, delays: seq<nat>, d: nat)
    requires interval != 0
    ensures var s := Exec(limit, interval, start, delays);
            var now := Last(s.hist) + d;
            && (RefillTellsRoom(s, now) <==> !Drains(limit, interval) || now == start)
            && (limit >= 0.0 ==> Refilled(s.l, now).tokens >= 0.0)
  {
    hide Exec, Inv, RefillTellsRoom, Refilled;
    var s := Exec(limit, interval, start, delays);
    if !Fills(limit, interval) {
      NeverRefills(limit, interval, start, delays);
      RoomWithoutRefill(s, start, Last(s.hist) + d);
    } else if limit < 0.0 {
      NegativeLimitStaysFull(limit, interval, start, delays);
      RoomAboveLimit(s, Last(s.hist) + d);
    } else {
      ExecInv(limit, interval, start, delays);
      TellsRoom(s, d);
    }
  }

  lemma TellsRoom(s: Tracked, d: nat)
    requires s.l.interval > 0 && s.hist != [] && s.l.limit >= 0.0 && Inv(s)
    ensures RefillTellsRoom(s, Last(s.hist) + d) && Refilled(s.l, Last(s.hist) + d).tokens >= 0.0
  {
    hide Accrued, Room, Refilled, Inv;
    RefillIsTightest(s, d);
  }

  lemma SignOfAccrual(limit: real, interval: int, dt: nat)
    requires interval != 0
    ensures Accrued(limit, interval, dt) > 0.0 <==> dt > 0 && Fills(limit, interval)
    ensures Accrued(limit, interval, dt) < 0.0 <==> dt > 0 && Drains(limit, interval)
  {
    var q := dt as real / interval as real;
    assert q * interval as real == dt as real;
    assert q > 0.0 <==> dt > 0 && interval > 0;
    assert q < 0.0 <==> dt > 0 && interval < 0;
    SignOfTimes(q, limit);
  }

  lemma SignOfTimes(x: real, y: real)
    ensures x * y > 0.0 <==> (x > 0.0 && y > 0.0) || (x < 0.0 && y < 0.0)
    ensures x * y < 0.0 <==> (x > 0.0 && y < 0.0) || (x < 0.0 && y > 0.0)
  {
  }

  // When nothing positive ever accrues, the bucket only empties.
  lemma {:induction false} NeverRefills(limit: real, interval: int, start: int, delays: seq<nat>)
    requires interval != 0 && !Fills(limit, interval)
    ensures var s := Exec(limit, interval, start, delays);
            && s.l.tokens == limit - Admitted(s.hist) as real && s.l.lastRefillAt == start == s.hist[0].at
            && (limit >= 0.0 ==> s.l.tokens >= 0.0)
            && (forall i | 0 <= i < |s.hist| :: start <= s.hist[i].at <= Last(s.hist))
  {
    var s := Exec(limit, interval, start, delays);
    if delays == [] {
      assert s.hist[..0] == [];
    } else {
      var less := Exec(limit, interval, start, delays[..|delays| - 1]);
      var now := Last(less.hist) + delays[|delays| - 1];
      assert s == Tracked(Acquired(less.l, now).0, less.hist + [Instant(now, Acquired(less.l, now).1)])
        by { hide Acquired, Admitted; }
      hide Exec, Refilled, Admitted, Room, Fills;
      NeverRefills(limit, interval, start, delays[..|delays| - 1]);
      NoRefill(less.l, now);
      AdmittedMore(less.hist, Instant(now, Acquired(less.l, now).1));
    }
  }

  lemma AdmittedMore(hist: seq<Instant>, e: Instant)
    ensures Admitted(hist + [e]) == Admitted(hist) + (if e.admitted then 1 else 0)
  {
    assert (hist + [e])[..|hist + [e]| - 1] == hist;
  }

  lemma NoRefill(l: Limiter, now: int)
    requires l.interval != 0 && !Fills(l.limit, l.interval) && l.lastRefillAt <= now
    ensures Refilled(l, now) == l
  {
    SignOfAccrual(l.limit, l.interval, now - l.lastRefillAt);
    hide Accrued, Fills;
  }

  lemma {:induction false} AdmittedSuffix(hist: seq<Instant>, j: nat)
    requires j <= |hist|
    ensures Admitted(hist[j..]) <= Admitted(hist)
  {
    if j < |hist| {
      var init := hist[..|hist| - 1];
      assert hist[j..][..|hist[j..]| - 1] == init[j..];
      AdmittedSuffix(init, j);
    }
  }

  // Then the oldest window says whether it still has what the bucket has.
  lemma RoomWithoutRefill(s: Tracked, start: int, now: int)
    requires s.l.interval != 0 && !Fills(s.l.limit, s.l.interval) && s.hist != []
    requires s.l.tokens == s.l.limit - Admitted(s.hist) as real && s.l.lastRefillAt == start == s.hist[0].at <= now
    requires forall i | 0 <= i < |s.hist| :: start <= s.hist[i].at <= now
    ensures RefillTellsRoom(s, now) <==> !Drains(s.l.limit, s.l.interval) || now == start
    ensures Refilled(s.l, now) == s.l
  {
    NoRefill(s.l, now);
    SignOfAccrual(s.l.limit, s.l.interval, now - start);
    assert s.hist[0..] == s.hist;
    assert Room(s.l, s.hist, 0, now) == s.l.tokens + Accrued(s.l.limit, s.l.interval, now - start);
    forall j | (!Drains(s.l.limit, s.l.interval) || now == start) && 0 <= j < |s.hist|
      ensures s.l.tokens <= Room(s.l, s.hist, j, now)
    {
      AdmittedSuffix(s.hist, j);
      SignOfAccrual(s.l.limit, s.l.interval, now - s.hist[j].at);
      hide Accrued, Admitted, Refilled, Drains, Fills;
    }
    hide Room, Accrued, Refilled, Drains, Fills;
  }

  lemma {:induction false} NoneAdmitted(hist: seq<Instant>)
    requires forall i | 0 <= i < |hist| :: !hist[i].admitted
    ensures Admitted(hist) == 0
  {
    if hist != [] {
      NoneAdmitted(hist[..|hist| - 1]);
    }
  }

  // Two negatives accrue, but a negative bucket is always full and never admits.
  lemma {:induction false} NegativeLimitStaysFull(limit: real, interval: int, start: int, delays: seq<nat>)
    requires interval < 0 && limit < 0.0
    ensures var s := Exec(limit, interval, start, delays);
            && s.l.tokens == limit && s.l.lastRefillAt <= Last(s.hist)
            && (forall i | 0 <= i < |s.hist| :: !s.hist[i].admitted && s.hist[i].at <= Last(s.hist))
  {
    if delays != [] {
      var less := Exec(limit, interval, start, delays[..|delays| - 1]);
      NegativeLimitStaysFull(limit, interval, start, delays[..|delays| - 1]);
      StillFull(less.l, Last(less.hist) + delays[|delays| - 1]);
      hide Refilled;
    }
  }

  lemma StillFull(l: Limiter, now: int)
    requires l.interval < 0 && l.limit < 0.0 && l.tokens == l.limit && l.lastRefillAt <= now
    ensures Refilled(l, now).tokens == l.limit && Refilled(l, now).lastRefillAt <= now
    ensures Refilled(l, now).limit == l.limit && Refilled(l, now).interval == l.interval
  {
    hide Accrued;
  }

  lemma RoomAboveLimit(s: Tracked, now: int)
    requires s.l.interval < 0 && s.l.limit < 0.0 && s.l.tokens == s.l.limit && s.l.lastRefillAt <= now
    requires forall i | 0 <= i < |s.hist| :: !s.hist[i].admitted && s.hist[i].at <= now
    ensures RefillTellsRoom(s, now)
  {
    StillFull(s.l, now);
    forall j | 0 <= j < |s.hist|
      ensures s.l.limit <= Room(s.l, s.hist, j, now)
    {
      NoneAdmitted(s.hist[j..]);
      SignOfAccrual(s.l.limit, s.l.interval, now - s.hist[j].at);
      hide Accrued, Admitted, Refilled;
    }
    hide Room, Refilled;
  }

  // Limit 2 and interval -1: one instant after creation two tokens are left and a call is admitted, although the only
  // window has no room at all.
  lemma NegativeIntervalIgnoresRoom()
    ensures var s := Exec(2.0, -1, 0, []);
            && Refilled(s.l, 1).tokens == 2.0 && Room(s.l, s.hist, 0, 1) == 0.0 && Acquired(s.l, 1).1
            && Drains(2.0, -1)
  {
    var s := Exec(2.0, -1, 0, []);
    assert Accrued(2.0, -1, 1) == -2.0;
    assert s.hist[0..] == s.hist && s.hist[..0] == [];
  }

  // With a negative interval a call is admitted exactly while fewer than the limit were admitted in all.
  lemma NegativeIntervalAdmitsLimitInAll(limit: real, interval: int, start: int, delays: seq<nat>, d: nat)
    requires interval < 0
    ensures var s := Exec(limit, interval, start, delays);
            Acquired(s.l, Last(s.hist) + d).1 <==> limit - Admitted(s.hist) as real >= 1.0
  {
    hide Exec, Accrued, Admitted;
    var s := Exec(limit, interval, start, delays);
    if limit >= 0.0 {
      NeverRefills(limit, interval, start, delays);
      NoRefill(s.l, Last(s.hist) + d);
      hide Refilled;
    } else {
      SmallLimitNeverAdmits(limit, interval, start, delays);
    }
  }

  // With a zero interval every instant has the whole limit: a call is admitted exactly while fewer than the limit were
  // admitted at this very instant.
  lemma ZeroIntervalLimitsEachInstant(limit: real, start: int, delays: seq<nat>, d: nat)
    ensures var s := Exec(limit, 0, start, delays);
            var now := Last(s.hist) + d;
            Acquired(s.l, now).1 <==> limit - Within(s.hist, now, now) as real >= 1.0
  {
    hide Exec, EachInstant, Within;
    var s := Exec(limit, 0, start, delays);
    if limit > 0.0 {
      ZeroIntervalInv(limit, start, delays);
      FullAgain(s, d);
      hide Refilled;
    } else {
      SmallLimitNeverAdmits(limit, 0, start, delays);
    }
  }

  ghost predicate EachInstant(s: Tracked) {
    && s.l.interval == 0 && s.l.limit > 0.0
    && s.hist != [] && Ordered(s.hist) && s.l.lastRefillAt == Last(s.hist)
    && s.l.tokens == s.l.limit - Within(s.hist, Last(s.hist), Last(s.hist)) as real
  }

  lemma {:induction false} ZeroIntervalInv(limit: real, start: int, delays: seq<nat>)
    requires limit > 0.0
    ensures EachInstant(Exec(limit, 0, start, delays))
  {
    hide EachInstant, Acquired;
    if delays == [] {
      ZeroIntervalStart(limit, start);
    } else {
      ZeroIntervalInv(limit, start, delays[..|delays| - 1]);
      ZeroIntervalStep(Exec(limit, 0, start, delays[..|delays| - 1]), delays[|delays| - 1]);
    }
  }

  lemma ZeroIntervalStart(limit: real, start: int)
    requires limit > 0.0
    ensures EachInstant(Tracked(New(limit, 0, start), [Instant(start, false)]))
  {
    assert [Instant(start, false)][..0] == [];
    assert Within([Instant(start, false)], start, start) == 0;
  }

  lemma ZeroIntervalStep(s: Tracked, d: nat)
    requires EachInstant(s)
    ensures var now := Last(s.hist) + d;
            var (l, ok) := Acquired(s.l, now);
            EachInstant(Tracked(l, s.hist + [Instant(now, ok)]))
  {
    FullAgain(s, d);
    var now := Last(s.hist) + d;
    var hist := s.hist + [Instant(now, Acquired(s.l, now).1)];
    assert hist[..|hist| - 1] == s.hist;
    assert Within(hist, now, now) == Within(s.hist, now, now) + (if Acquired(s.l, now).1 then 1 else 0);
    hide Refilled, Within;
  }

  // Right after the refill of a call the tokens are the limit less what this very instant has admitted.
  lemma FullAgain(s: Tracked, d: nat)
    requires EachInstant(s)
    ensures var now := Last(s.hist) + d;
            var r := Refilled(s.l, now);
            && r.tokens == s.l.limit - Within(s.hist, now, now) as real && r.lastRefillAt == now
            && r.limit == s.l.limit && r.interval == 0
  {
    if d > 0 {
      NoneWithin(s.hist, Last(s.hist) + d, Last(s.hist) + d);
    }
    SignOfTimes(d as real, s.l.limit);
    hide Within, Ordered;
  }

  // So a call is admitted exactly when the limit itself and every past window have room for one more.
  lemma AdmitsExactlyWhenEveryWindowHasRoom(limit: real, interval: int, start: int, delays: seq<nat>, d: nat)
    requires interval > 0
    ensures var s := Exec(limit, interval, start, delays);
            var now := Last(s.hist) + d;
            Acquired(s.l, now).1 <==> limit >= 1.0 && forall j | 0 <= j < |s.hist| :: Room(s.l, s.hist, j, now) >= 1.0
  {
    var s := Exec(limit, interval, start, delays);
    if limit < 1.0 {
      SmallLimitNeverAdmits(limit, interval, start, delays);
    } else {
      TokensAreTheTightestWindow(limit, interval, start, delays, d);
    }
    hide Accrued, Room, Exec;
  }

  // Calls admitted within [a, b].
  function Within(hist: seq<Instant>, a: int, b: int): nat {
    if hist == [] then 0
    else
      var e := hist[|hist| - 1];
      Within(hist[..|hist| - 1], a, b) + (if e.admitted && a <= e.at <= b then 1 else 0)
  }

  predicate Ordered(hist: seq<Instant>) {
    forall i, j | 0 <= i < j < |hist| :: hist[i].at <= hist[j].at
  }

  lemma {:induction false} ExecIsOrdered(limit: real, interval: int, start: int, delays: seq<nat>)
    requires interval > 0
    ensures Ordered(Exec(limit, interval, start, delays).hist)
  {
    if delays != [] {
      ExecIsOrdered(limit, interval, start, delays[..|delays| - 1]);
    }
  }

  // With everything at or before b, the calls in [a, b] are those from the first instant at or after a.
  lemma {:induction false} WithinIsASuffix(hist: seq<Instant>, a: int, b: int) returns (j: nat)
    requires Ordered(hist) && (hist != [] ==> Last(hist) <= b)
    ensures j <= |hist| && Within(hist, a, b) == Admitted(hist[j..])
    ensures j < |hist| ==> hist[j].at >= a
  {
    if hist == [] {
      j := 0;
    } else {
      var init := hist[..|hist| - 1];
      if hist[|hist| - 1].at < a {
        NoneWithin(hist, a, b);
        j := |hist|;
        assert hist[j..] == [];
      } else {
        j := WithinIsASuffix(init, a, b);
        assert hist[j..][..|hist[j..]| - 1] == init[j..];
      }
    }
  }

  lemma {:induction false} NoneWithin(hist: seq<Instant>, a: int, b: int)
    requires Ordered(hist) && (hist != [] ==> Last(hist) < a)
    ensures Within(hist, a, b) == 0
  {
    if hist != [] {
      NoneWithin(hist[..|hist| - 1], a, b);
    }
  }

  // Hence the promise: any interval of length b - a admits at most limit + limit * (b - a) / interval calls.
  lemma {:induction false} IntervalBound(limit: real, interval: int, start: int, delays: seq<nat>, a: int, b: int)
    requires interval > 0 && limit >= 0.0 && a <= b
    ensures Within(Exec(limit, interval, start, delays).hist, a, b) as real <= limit + Accrued(limit, interval, b - a)
  {
    var s := Exec(limit, interval, start, delays);
    AccruedSign(limit, interval, b - a);
    if Last(s.hist) > b {
      if delays == [] {
        assert s.hist[..0] == [];
      } else {
        IntervalBound(limit, interval, start, delays[..|delays| - 1], a, b);
        assert s.hist[..|s.hist| - 1] == Exec(limit, interval, start, delays[..|delays| - 1]).hist;
      }
    } else {
      ExecIsOrdered(limit, interval, start, delays);
      ExecInv(limit, interval, start, delays);
      hide Exec;
      var j := WithinIsASuffix(s.hist, a, b);
      if j < |s.hist| {
        SuffixFits(s, j, a, b);
      } else {
        assert s.hist[j..] == [];
      }
    }
  }

  lemma SuffixFits(s: Tracked, j: nat, a: int, b: int)
    requires s.l.interval > 0 && s.l.limit >= 0.0 && s.hist != [] && Inv(s)
    requires j < |s.hist| && a <= s.hist[j].at && Last(s.hist) <= b && s.hist[j].at <= Last(s.hist)
    ensures Admitted(s.hist[j..]) as real <= s.l.limit + Accrued(s.l.limit, s.l.interval, b - a)
  {
    var window := Last(s.hist) - s.hist[j].at;
    var spare := (b - a) - window;
    assert s.l.tokens <= Room(s.l, s.hist, j, Last(s.hist));
    AccruedAdds(s.l.limit, s.l.interval, window, spare);
    AccruedSign(s.l.limit, s.l.interval, spare);
    hide Accrued;
  }
}
