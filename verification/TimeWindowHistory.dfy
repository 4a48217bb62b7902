// The time window against the full history of recorded calls.
module TimeWindowHistory {
  import opened TimeWindow

  // What the breaker does to its window; each clock reading is a non-negative delay after the one before.
  datatype Op =
    | Rec(delay: nat, ok: bool)
    | Stat(delay: nat)
    | Wipe

  // The window, the calls recorded since it was last cleared, and the clock.
  datatype Tracked = Tracked(w: Buckets, hist: seq<Timed>, now: int)

  predicate Sound(s: Tracked, bd: int)
    requires bd > 0
  {
    && WellFormed(s.w)
    && Recorded(s.hist, s.w.last)
    && (s.w.touched ==> 0 <= s.w.last <= s.now)
    && (!s.w.touched ==> s.hist == [] && s.w.cells == NoBuckets().cells)
    && 0 <= s.now
    && (forall i | 0 <= i < |s.hist| :: 0 <= s.hist[i].at <= s.now)
  }

  function Start(now: int): Tracked {
    Tracked(NoBuckets(), [], now)
  }

  function Apply(window: int, s: Tracked, op: Op): Tracked
    requires window > 0 && WellFormed(s.w)
    ensures WellFormed(Apply(window, s, op).w)
  {
    var bd := BucketDuration(window);
    match op
    case Rec(d, ok) => Tracked(Record(window, bd, s.w, ok, s.now + d), s.hist + [Timed(s.now + d, ok)], s.now + d)
    case Stat(d) => s.(w := Advance(window, bd, s.w, s.now + d), now := s.now + d)
    case Wipe => s.(w := NoBuckets(), hist := [])
  }

  function Exec(window: int, s: Tracked, ops: seq<Op>): Tracked
    requires window > 0 && WellFormed(s.w)
    ensures WellFormed(Exec(window, s, ops).w)
    decreases |ops|
  {
    if ops == [] then s else Exec(window, Apply(window, s, ops[0]), ops[1..])
  }

  lemma ThenTwo(window: int, s: Tracked, x: Op, y: Op)
    requires window > 0 && WellFormed(s.w)
    ensures Exec(window, s, [x, y]) == Apply(window, Apply(window, s, x), y)
  {
    var t := Apply(window, s, x);
    assert [x, y][1..] == [y] && [y][1..] == [];
    hide Apply;
    assert Exec(window, t, [y]) == Exec(window, Apply(window, t, y), []);
  }

  lemma StepIsSound(window: int, s: Tracked, op: Op)
    requires window > 0 && Sound(s, BucketDuration(window))
    ensures Sound(Apply(window, s, op), BucketDuration(window))
  {
  }

  // ---- Lower side: nothing recent is lost ----

  // Each bucket holds at least the calls of the newest slot it stands for.
  ghost predicate Holds(s: Tracked, bd: int)
    requires bd > 0 && WellFormed(s.w)
  {
    forall r, ok | 0 <= r < NUM_BUCKETS :: Got(s.w.cells[r], ok) >= HomeTally(s.hist, bd, ok, Slot(bd, s.now), r)
  }

  // More than a window has passed since the last record: the advance empties everything.
  predicate Outlived(window: int, s: Tracked, now: int) {
    s.w.touched && now - s.w.last > window
  }

  // Advancing only empties buckets whose newest slot has not been written yet.
  lemma AdvanceHolds(window: int, s: Tracked, d: nat)
    requires window > 0 && Sound(s, BucketDuration(window)) && Holds(s, BucketDuration(window))
    requires window >= NUM_BUCKETS || !Outlived(window, s, s.now + d)
    ensures Holds(Apply(window, s, Stat(d)), BucketDuration(window))
  {
    var bd := BucketDuration(window);
    var t := Apply(window, s, Stat(d));
    var l, n, c := Slot(bd, s.w.last), Slot(bd, s.now), Slot(bd, t.now);
    SlotMonotone(bd, s.now, t.now);
    if window >= NUM_BUCKETS {
      WindowSpan(window);
    }
    hide Slot, Home, BucketDuration, OnArc;
    forall r, ok | 0 <= r < NUM_BUCKETS
      ensures Got(t.w.cells[r], ok) >= HomeTally(s.hist, bd, ok, c, r)
    {
      var h := Home(c, r);
      HomeIs(c, r, h);
      if s.w.touched {
        SlotMonotone(bd, s.w.last, s.now);
        SlotGap(bd, s.w.last, t.now);
        if h > l {
          TallyBeyond(s.hist, bd, ok, h, h, s.w.last);
        } else {
          HomeIs(n, r, h);
          if l < c {
            ArcIs(l, c, r);
          }
        }
      }
    }
  }

  // The walk from l to c measured on absolute slots instead of bucket numbers.
  lemma ArcDistance(l: int, c: int, s: int)
    ensures OnArc(l % NUM_BUCKETS, c % NUM_BUCKETS, s % NUM_BUCKETS)
            <==> (s - l - 1) % NUM_BUCKETS <= (c - l - 1) % NUM_BUCKETS
  {
    Turns(c % NUM_BUCKETS - l % NUM_BUCKETS - 1, c / NUM_BUCKETS - l / NUM_BUCKETS);
    Turns(s % NUM_BUCKETS - l % NUM_BUCKETS - 1, s / NUM_BUCKETS - l / NUM_BUCKETS);
  }

  // The walk empties exactly the buckets whose newest slot comes after the last record; past a whole turn of the
  // ring it stops one turn short.
  lemma ArcIs(l: int, c: int, r: int)
    requires 0 <= r < NUM_BUCKETS && l < c <= l + 20
    ensures OnArc(l % NUM_BUCKETS, c % NUM_BUCKETS, r) <==> Home(if c - l <= 10 then c else c - 10, r) > l
  {
    var top := if c - l <= 10 then c else c - 10;
    var h := Home(top, r);
    HomeIs(top, r, h);
    hide Home;
    ArcDistance(l, c, h);
    hide OnArc;
    TurnsTo(c - l - 1, top - l - 1);
    Turned(h - l - 1);
  }

  lemma TurnsTo(x: int, y: int)
    requires 0 <= y < 10 && (x == y || x == y + 10)
    ensures x % NUM_BUCKETS == y
  {
  }

  lemma Turned(x: int)
    requires -10 <= x < 10
    ensures x % NUM_BUCKETS == if x < 0 then x + 10 else x
  {
  }

  lemma WindowSpan(window: int)
    requires window >= NUM_BUCKETS
    ensures 10 * BucketDuration(window) <= window <= 10 * BucketDuration(window) + 9
  {
  }

  // How far apart two slots are, against how far apart the instants are.
  lemma SlotGap(bd: int, a: int, b: int)
    requires bd > 0 && 0 <= a <= b
    ensures b - a >= bd ==> Slot(bd, b) >= Slot(bd, a) + 1
    ensures b - a < bd ==> Slot(bd, b) <= Slot(bd, a) + 1
    ensures b - a > 10 * bd ==> Slot(bd, b) >= Slot(bd, a) + 10
    ensures b - a <= 10 * bd + 9 ==> Slot(bd, b) <= Slot(bd, a) + 19
    ensures b - a <= 10 * bd ==> Slot(bd, b) <= Slot(bd, a) + 10
    ensures b - a <= 9 * bd ==> Slot(bd, b) <= Slot(bd, a) + 9
  {
    var g := Slot(bd, b) - Slot(bd, a);
    SlotBounds(bd, a);
    SlotBounds(bd, b);
    assert bd * g == bd * Slot(bd, b) - bd * Slot(bd, a);
    GapBounds(bd, g, b - a);
  }

  lemma GapBounds(bd: int, g: int, diff: int)
    requires bd > 0 && bd * g - bd < diff < bd * g + bd
    ensures diff >= bd ==> g >= 1
    ensures diff < bd ==> g <= 1
    ensures diff > 10 * bd ==> g >= 10
    ensures diff <= 10 * bd + 9 ==> g <= 19
    ensures diff <= 10 * bd ==> g <= 10
    ensures diff <= 9 * bd ==> g <= 9
  {
    Cancel(bd, 10, g);
    Cancel(bd, g, 0);
    Cancel(bd, 2, g);
    Cancel(bd, g, 9);
    Cancel(bd, 20, g);
    Cancel(bd, 11, g);
  }

  // A record adds one to the very bucket and slot it belongs to, after an advance to the same instant.
  lemma RecordAddsOne(window: int, s: Tracked, d: nat, ok: bool, r: nat, k: bool)
    requires window > 0 && Sound(s, BucketDuration(window)) && r < NUM_BUCKETS
    ensures var bd := BucketDuration(window);
            var a, t := Apply(window, s, Stat(d)), Apply(window, s, Rec(d, ok));
            var c := Slot(bd, s.now + d);
            var more := Got(t.w.cells[r], k) - Got(a.w.cells[r], k);
            && more == HomeTally(t.hist, bd, k, c, r) - HomeTally(s.hist, bd, k, c, r)
            && more == if r == c % NUM_BUCKETS && k == ok then 1 else 0
  {
    var bd := BucketDuration(window);
    var a, t := Apply(window, s, Stat(d)), Apply(window, s, Rec(d, ok));
    var c := Slot(bd, s.now + d);
    var i := Index(bd, s.now + d);
    assert t.w.cells == a.w.cells[i := Bump(a.w.cells[i], ok)];
    assert t.hist[..|t.hist| - 1] == s.hist;
    assert i == c % NUM_BUCKETS;
    HomeIs(c, r, c);
    hide Slot, Home, BucketDuration, Index, Apply;
  }

  lemma StepHolds(window: int, s: Tracked, op: Op)
    requires window >= NUM_BUCKETS && Sound(s, BucketDuration(window)) && Holds(s, BucketDuration(window))
    ensures Holds(Apply(window, s, op), BucketDuration(window))
  {
    var bd := BucketDuration(window);
    match op
    case Stat(d) => AdvanceHolds(window, s, d);
    case Wipe =>
    case Rec(d, ok) =>
      AdvanceHolds(window, s, d);
      var a, t := Apply(window, s, Stat(d)), Apply(window, s, op);
      assert a.hist == s.hist && a.now == t.now == s.now + d;
      hide Slot, Home, BucketDuration, Apply;
      forall r, k | 0 <= r < NUM_BUCKETS
        ensures Got(t.w.cells[r], k) >= HomeTally(t.hist, bd, k, Slot(bd, t.now), r)
      {
        RecordAddsOne(window, s, d, ok, r, k);
      }
  }

  lemma {:induction false} ExecHolds(window: int, s: Tracked, ops: seq<Op>)
    requires window >= NUM_BUCKETS && Sound(s, BucketDuration(window)) && Holds(s, BucketDuration(window))
    ensures Sound(Exec(window, s, ops), BucketDuration(window)) && Holds(Exec(window, s, ops), BucketDuration(window))
    decreases |ops|
  {
    if ops != [] {
      StepIsSound(window, s, ops[0]);
      StepHolds(window, s, ops[0]);
      ExecHolds(window, Apply(window, s, ops[0]), ops[1..]);
    }
  }

  // When each bucket holds at least the calls of its newest slot, the sum is at least their total, and equal to it only
  // if each bucket holds exactly those.
  lemma SumAgainstTally(cells: seq<Bucket>, hist: seq<Timed>, bd: int, ok: bool, top: int)
    requires bd > 0 && |cells| == NUM_BUCKETS
    requires forall r | 0 <= r < NUM_BUCKETS :: Got(cells[r], ok) >= HomeTally(hist, bd, ok, top, r)
    ensures Sum(cells, ok) >= Tally(hist, bd, ok, top - 9, top)
    ensures Sum(cells, ok) == Tally(hist, bd, ok, top - 9, top)
            <==> forall r | 0 <= r < NUM_BUCKETS :: Got(cells[r], ok) == HomeTally(hist, bd, ok, top, r)
  {
    hide Sum, Tally, HomeTally, Got;
    SumOfTen(cells, ok);
    TenHomesTally(hist, bd, ok, top);
  }

  lemma HoldsSum(s: Tracked, bd: int, ok: bool)
    requires bd > 0 && WellFormed(s.w) && Holds(s, bd)
    ensures Sum(s.w.cells, ok) >= Tally(s.hist, bd, ok, Slot(bd, s.now) - 9, Slot(bd, s.now))
  {
    hide Sum, Tally, Slot, HomeTally, Got;
    SumAgainstTally(s.w.cells, s.hist, bd, ok, Slot(bd, s.now));
  }

  lemma {:induction false} RecentIsTallied(hist: seq<Timed>, bd: int, ok: bool, now: int)
    requires bd > 0 && forall i | 0 <= i < |hist| :: 0 <= hist[i].at <= now
    ensures CountSince(hist, ok, now - 9 * bd) <= Tally(hist, bd, ok, Slot(bd, now) - 9, Slot(bd, now))
  {
    if hist != [] {
      RecentIsTallied(hist[..|hist| - 1], bd, ok, now);
      SlotGap(bd, hist[|hist| - 1].at, now);
      SlotMonotone(bd, hist[|hist| - 1].at, now);
    }
  }

  // Whatever was recorded and read, and whenever: no call younger than nine buckets is missing from the sums.
  lemma NeverLosesRecent(window: int, start: nat, ops: seq<Op>, ok: bool)
    requires window >= NUM_BUCKETS
    ensures var s := Exec(window, Start(start), ops);
            Sum(s.w.cells, ok) >= CountSince(s.hist, ok, s.now - 9 * BucketDuration(window))
  {
    var bd := BucketDuration(window);
    ExecHolds(window, Start(start), ops);
    var s := Exec(window, Start(start), ops);
    HoldsSum(s, bd, ok);
    RecentIsTallied(s.hist, bd, ok, s.now);
  }

  // The bound on the window is needed: below ten nanoseconds the bucket length falls back to a second while the
  // window itself stays tiny, and two calls ten nanoseconds apart are never seen together.
  lemma TinyWindowLoses(window: int, start: nat, ok: bool)
    requires 0 < window < NUM_BUCKETS
    ensures var s := Exec(window, Start(start), [Rec(0, ok), Rec(10, ok)]);
            Sum(s.w.cells, ok) == 1 && CountSince(s.hist, ok, s.now - 9 * BucketDuration(window)) == 2
  {
    hide *;
    TinyBucket(window);
    TwoRecords(window, start, ok, 10);
  }

  lemma TinyBucket(window: int)
    requires 0 < window < NUM_BUCKETS
    ensures window < 10 <= 9 * BucketDuration(window)
  {
  }

  // So is the clock: for instants before the epoch every bucket number is 0, and one step clears all ten.
  lemma PreEpochClockLoses(window: int, start: int, ok: bool)
    requires window >= NUM_BUCKETS && start < 0
    ensures var bd := BucketDuration(window);
            var s := Exec(window, Start(start), [Rec(0, ok), Rec(bd, ok)]);
            Sum(s.w.cells, ok) == 1 && CountSince(s.hist, ok, s.now - 9 * bd) == 2
  {
    hide Exec, Sum, CountSince, BucketDuration;
    TwoRecords(window, start, ok, BucketDuration(window));
  }

  ghost predicate Remembers(window: int, start: int)
    requires window > 0
  {
    forall ops: seq<Op>, ok: bool ::
      var s := Exec(window, Start(start), ops);
      Sum(s.w.cells, ok) >= CountSince(s.hist, ok, s.now - 9 * BucketDuration(window))
  }

  // Together: no run ever loses a call younger than nine buckets if and only if the window has at least ten nanoseconds
  // and the clock starts no earlier than the epoch.
  lemma RemembersIff(window: int, start: int)
    requires window > 0
    ensures Remembers(window, start) <==> window >= NUM_BUCKETS && start >= 0
  {
    assert window < NUM_BUCKETS ==> 10 <= 9 * BucketDuration(window);
    hide Exec, Sum, CountSince, BucketDuration;
    if window < NUM_BUCKETS {
      TwoRecords(window, start, true, 10);
      Forgets(window, start, [Rec(0, true), Rec(10, true)]);
    } else if start < 0 {
      PreEpochClockLoses(window, start, true);
      Forgets(window, start, [Rec(0, true), Rec(BucketDuration(window), true)]);
    } else {
      forall ops: seq<Op>, ok: bool
        ensures var s := Exec(window, Start(start), ops);
                Sum(s.w.cells, ok) >= CountSince(s.hist, ok, s.now - 9 * BucketDuration(window))
      {
        NeverLosesRecent(window, start, ops, ok);
      }
    }
  }

  lemma Forgets(window: int, start: int, ops: seq<Op>)
    requires window > 0
    requires var s := Exec(window, Start(start), ops);
             Sum(s.w.cells, true) < CountSince(s.hist, true, s.now - 9 * BucketDuration(window))
    ensures !Remembers(window, start)
  {
    hide Exec, Sum, CountSince;
  }

  // An advance that clears every bucket: more than a window has passed, or time still counts as the epoch.
  lemma ClearsAll(window: int, w: Buckets, d: nat)
    requires window > 0 && WellFormed(w) && w.touched
    requires d > window || (d >= BucketDuration(window) && w.last < 0 && w.last + d < BucketDuration(window))
    ensures Advance(window, BucketDuration(window), w, w.last + d).cells == NoBuckets().cells
  {
    var bd := BucketDuration(window);
    if d <= window {
      assert Index(bd, w.last) == 0;
      EpochSlot(bd, w.last + d);
      hide BucketDuration, Index;
    }
  }

  lemma EpochSlot(bd: int, t: int)
    requires bd > 0 && t < bd
    ensures Index(bd, t) == 0
  {
  }

  // Two records of which the second clears every bucket.
  lemma SecondClears(window: int, start: int, ok: bool, d: nat)
    requires window > 0
    requires d > window || (d >= BucketDuration(window) && start < 0 && start + d < BucketDuration(window))
    ensures var s := Exec(window, Start(start), [Rec(0, ok), Rec(d, ok)]);
            && s.w.cells == NoBuckets().cells[Index(BucketDuration(window), start + d) := Bump(EMPTY, ok)]
            && s.hist == [Timed(start, ok), Timed(start + d, ok)] && s.now == start + d
  {
    ThenTwo(window, Start(start), Rec(0, ok), Rec(d, ok));
    hide Exec, Index, BucketDuration, Bump;
    var a := Apply(window, Start(start), Rec(0, ok));
    assert a.w.touched && a.w.last == start && a.now == start && a.hist == [Timed(start, ok)];
    ClearsAll(window, a.w, d);
    hide Advance;
  }

  lemma TwoRecords(window: int, start: int, ok: bool, d: nat)
    requires window > 0 && d <= 9 * BucketDuration(window)
    requires d > window || (d >= BucketDuration(window) && start < 0 && start + d < BucketDuration(window))
    ensures var s := Exec(window, Start(start), [Rec(0, ok), Rec(d, ok)]);
            Sum(s.w.cells, ok) == 1 && CountSince(s.hist, ok, s.now - 9 * BucketDuration(window)) == 2
  {
    hide Exec, Apply, Index, BucketDuration, Sum, CountSince, Bump;
    SecondClears(window, start, ok, d);
    OneFilled(BucketDuration(window), start + d, ok);
    TwoRecent(start, start + d, ok, start + d - 9 * BucketDuration(window));
  }

  lemma TwoRecent(x: int, y: int, ok: bool, since: int)
    requires since <= x <= y
    ensures CountSince([Timed(x, ok), Timed(y, ok)], ok, since) == 2
  {
    assert [Timed(x, ok), Timed(y, ok)][..1] == [Timed(x, ok)] && [Timed(x, ok)][..0] == [];
    assert CountSince([Timed(x, ok)], ok, since) == 1;
  }

  lemma OneFilled(bd: int, now: int, ok: bool)
    requires bd > 0
    ensures Sum(NoBuckets().cells[Index(bd, now) := Bump(EMPTY, ok)], ok) == 1
  {
    SumOfTen(NoBuckets().cells[Index(bd, now) := Bump(EMPTY, ok)], ok);
    hide Index, Sum;
  }

  // ---- Exact side ----

  ghost predicate ExactAt(cells: seq<Bucket>, hist: seq<Timed>, bd: int, top: int)
    requires bd > 0 && |cells| == NUM_BUCKETS
  {
    forall r, ok | 0 <= r < NUM_BUCKETS :: Got(cells[r], ok) == HomeTally(hist, bd, ok, top, r)
  }

  // The buckets hold exactly the calls of the last ten slots.
  ghost predicate Exactly(s: Tracked, bd: int)
    requires bd > 0 && WellFormed(s.w)
  {
    ExactAt(s.w.cells, s.hist, bd, Slot(bd, s.now))
  }

  ghost predicate NoneIn(hist: seq<Timed>, bd: int, lo: int, hi: int)
    requires bd > 0
  {
    Tally(hist, bd, true, lo, hi) == 0 == Tally(hist, bd, false, lo, hi)
  }

  datatype Slots = Slots(lo: int, hi: int)

  // The slots an advance to `now` treats wrongly: emptied although they are among the last ten, or left filled
  // although they are not. Emptying everything drops what is recent when the window is shorter than its ten buckets;
  // crossing one bucket boundary in less than a bucket's length empties nothing; and a jump past a whole turn of the
  // ring that is still within the window duration empties only part of it.
  function Overlooked(window: int, s: Tracked, now: int): Slots
    requires window > 0
  {
    var bd := BucketDuration(window);
    var l, n, c := Slot(bd, s.w.last), Slot(bd, s.now), Slot(bd, now);
    if !s.w.touched then Slots(0, -1)
    else if now - s.w.last > window then Slots(c - 9, l)
    else if now - s.w.last < bd then (if n == c then Slots(0, -1) else Slots(c - 10, c - 10))
    else if c - l <= 10 then Slots(0, -1)
    else Slots(if n - 9 > c - 19 then n - 9 else c - 19, l)
  }

  ghost predicate Clean(window: int, s: Tracked, now: int)
    requires window > 0
  {
    var o := Overlooked(window, s, now);
    NoneIn(s.hist, BucketDuration(window), o.lo, o.hi)
  }

  // An advance keeps the window exact if and only if no recorded call sits in an overlooked slot.
  lemma AdvanceExactIff(window: int, s: Tracked, d: nat)
    requires window > 0 && Sound(s, BucketDuration(window)) && Exactly(s, BucketDuration(window))
    ensures Exactly(Apply(window, s, Stat(d)), BucketDuration(window)) <==> Clean(window, s, s.now + d)
  {
    var bd := BucketDuration(window);
    var now := s.now + d;
    NothingBetween(s.hist, bd, 0, -1);
    if !s.w.touched {
    } else if now - s.w.last > window {
      ClearedAll(window, s, d);
    } else if now - s.w.last < bd {
      ShortGap(window, s, d);
    } else {
      assert window >= NUM_BUCKETS;
      SlotGap(bd, s.w.last, now);
      if Slot(bd, now) - Slot(bd, s.w.last) <= 10 {
        OneTurn(window, s, d);
      } else {
        PastOneTurn(window, s, d);
      }
    }
  }

  lemma {:induction false} NothingBetween(hist: seq<Timed>, bd: int, lo: int, hi: int)
    requires bd > 0 && lo > hi
    ensures NoneIn(hist, bd, lo, hi)
  {
    if hist != [] {
      NothingBetween(hist[..|hist| - 1], bd, lo, hi);
    }
  }

  // Emptying everything is right if and only if nothing recorded is among the last ten slots.
  lemma ClearedAll(window: int, s: Tracked, d: nat)
    requires window > 0 && Sound(s, BucketDuration(window)) && Outlived(window, s, s.now + d)
    ensures Exactly(Apply(window, s, Stat(d)), BucketDuration(window)) <==> Clean(window, s, s.now + d)
  {
    var bd := BucketDuration(window);
    SlotMonotone(bd, s.w.last, s.now + d);
    assert Apply(window, s, Stat(d)).w.cells == NoBuckets().cells;
    hide Slot, BucketDuration, ExactAt, NoneIn;
    EmptyIsExact(s.hist, bd, s.w.last, Slot(bd, s.now + d));
  }

  lemma EmptyIsExact(hist: seq<Timed>, bd: int, last: int, c: int)
    requires bd > 0 && Recorded(hist, last) && Slot(bd, last) <= c
    ensures ExactAt(NoBuckets().cells, hist, bd, c) <==> NoneIn(hist, bd, c - 9, Slot(bd, last))
  {
    var l := Slot(bd, last);
    hide Slot, Home;
    if NoneIn(hist, bd, c - 9, l) {
      forall r, ok | 0 <= r < NUM_BUCKETS
        ensures HomeTally(hist, bd, ok, c, r) == 0
      {
        var h := Home(c, r);
        HomeIs(c, r, h);
        if h > l {
          TallyBeyond(hist, bd, ok, h, h, last);
        } else {
          TallyWithin(hist, bd, ok, h, c - 9, l);
          assert Tally(hist, bd, ok, c - 9, l) == 0;
        }
      }
    } else {
      var ok := Tally(hist, bd, true, c - 9, l) != 0;
      var h := SomeSlot(hist, bd, ok, c - 9, l);
      HomeIs(c, h % NUM_BUCKETS, h);
      assert Got(NoBuckets().cells[h % NUM_BUCKETS], ok) != HomeTally(hist, bd, ok, c, h % NUM_BUCKETS);
    }
  }

  lemma OneTurn(window: int, s: Tracked, d: nat)
    requires window >= NUM_BUCKETS && Sound(s, BucketDuration(window)) && s.w.touched
    requires Exactly(s, BucketDuration(window))
    requires BucketDuration(window) <= s.now + d - s.w.last <= window
    requires Slot(BucketDuration(window), s.now + d) - Slot(BucketDuration(window), s.w.last) <= 10
    ensures Exactly(Apply(window, s, Stat(d)), BucketDuration(window))
  {
    var bd := BucketDuration(window);
    var t := Apply(window, s, Stat(d));
    var l, n, c := Slot(bd, s.w.last), Slot(bd, s.now), Slot(bd, t.now);
    SlotGap(bd, s.w.last, t.now);
    SlotMonotone(bd, s.w.last, s.now);
    SlotMonotone(bd, s.now, t.now);
    hide Slot, Home, BucketDuration, OnArc;
    forall r, ok | 0 <= r < NUM_BUCKETS
      ensures Got(t.w.cells[r], ok) == HomeTally(s.hist, bd, ok, c, r)
    {
      var h := Home(c, r);
      HomeIs(c, r, h);
      HomeIs(n, r, h);
      ArcIs(l, c, r);
      if h > l {
        TallyBeyond(s.hist, bd, ok, h, h, s.w.last);
      }
    }
  }

  // Moving the window by one slot without clearing anything.
  lemma OneSlotOn(cells: seq<Bucket>, hist: seq<Timed>, bd: int, n: int)
    requires bd > 0 && |cells| == NUM_BUCKETS
    requires ExactAt(cells, hist, bd, n) && NoneIn(hist, bd, n + 1, n + 1)
    ensures ExactAt(cells, hist, bd, n + 1) <==> NoneIn(hist, bd, n - 9, n - 9)
  {
    var x := (n + 1) % NUM_BUCKETS;
    HomeIs(n + 1, x, n + 1);
    HomeIs(n, x, n - 9);
    hide Home;
    forall r, ok | 0 <= r < NUM_BUCKETS && r != x
      ensures HomeTally(hist, bd, ok, n, r) == HomeTally(hist, bd, ok, n + 1, r)
    {
      HomeIs(n + 1, r, Home(n + 1, r));
      HomeIs(n + 1, r, n + 1);
      HomeIs(n, r, Home(n + 1, r));
    }
    assert HomeTally(hist, bd, true, n + 1, x) == 0 == HomeTally(hist, bd, false, n + 1, x);
    assert Got(cells[x], true) == Tally(hist, bd, true, n - 9, n - 9);
    assert Got(cells[x], false) == Tally(hist, bd, false, n - 9, n - 9);
    if NoneIn(hist, bd, n - 9, n - 9) {
      forall r, ok | 0 <= r < NUM_BUCKETS
        ensures Got(cells[r], ok) == HomeTally(hist, bd, ok, n + 1, r)
      {
        if r == x {
          assert ok == true || ok == false;
        }
      }
    }
  }

  lemma ShortGap(window: int, s: Tracked, d: nat)
    requires window > 0 && Sound(s, BucketDuration(window)) && s.w.touched
    requires Exactly(s, BucketDuration(window)) && !Outlived(window, s, s.now + d)
    requires s.now + d - s.w.last < BucketDuration(window)
    ensures Exactly(Apply(window, s, Stat(d)), BucketDuration(window)) <==> Clean(window, s, s.now + d)
  {
    var bd := BucketDuration(window);
    var t := Apply(window, s, Stat(d));
    var n, c := Slot(bd, s.now), Slot(bd, t.now);
    SlotGap(bd, s.w.last, t.now);
    SlotMonotone(bd, s.w.last, s.now);
    SlotMonotone(bd, s.now, t.now);
    NothingBetween(s.hist, bd, 0, -1);
    if n != c {
      TallyBeyond(s.hist, bd, true, c, c, s.w.last);
      TallyBeyond(s.hist, bd, false, c, c, s.w.last);
      hide Slot, BucketDuration;
      OneSlotOn(s.w.cells, s.hist, bd, n);
      assert t.w.cells == s.w.cells;
    }
  }

  // Moving the window past a whole turn of the ring while the walk clears only the part up to `c`.
  lemma PartlyCleared(cells: seq<Bucket>, hist: seq<Timed>, bd: int, last: int, n: int, c: int)
    requires bd > 0 && |cells| == NUM_BUCKETS && Recorded(hist, last) && ExactAt(cells, hist, bd, n)
    requires Slot(bd, last) <= n <= c && Slot(bd, last) + 10 < c <= Slot(bd, last) + 19
    ensures var l := Slot(bd, last);
            ExactAt(ClearArc(cells, l % NUM_BUCKETS, c % NUM_BUCKETS), hist, bd, c)
            <==> NoneIn(hist, bd, if n - 9 > c - 19 then n - 9 else c - 19, l)
  {
    var l := Slot(bd, last);
    var lo := if n - 9 > c - 19 then n - 9 else c - 19;
    var after := ClearArc(cells, l % NUM_BUCKETS, c % NUM_BUCKETS);
    hide Slot, Home, OnArc;
    forall r, ok | 0 <= r < NUM_BUCKETS
      ensures HomeTally(hist, bd, ok, c, r) == 0
    {
      HomeIs(c, r, Home(c, r));
      TallyBeyond(hist, bd, ok, Home(c, r), Home(c, r), last);
    }
    if NoneIn(hist, bd, lo, l) {
      forall r, ok | 0 <= r < NUM_BUCKETS
        ensures Got(after[r], ok) == 0
      {
        LeftBehind(cells, hist, bd, last, n, c, r, ok);
        assert Tally(hist, bd, ok, lo, l) == 0;
      }
    } else {
      var ok := Tally(hist, bd, true, lo, l) != 0;
      var h := SomeSlot(hist, bd, ok, lo, l);
      var r := h % NUM_BUCKETS;
      HomeIs(n, r, h);
      ArcIs(l, c, r);
      HomeIs(c - 10, r, Home(c - 10, r));
      HomeIs(c - 10, r, h);
      assert Got(after[r], ok) == Tally(hist, bd, ok, h, h) > 0;
    }
  }

  lemma LeftBehind(cells: seq<Bucket>, hist: seq<Timed>, bd: int, last: int, n: int, c: int, r: nat, ok: bool)
    requires bd > 0 && |cells| == NUM_BUCKETS && Recorded(hist, last) && ExactAt(cells, hist, bd, n)
    requires Slot(bd, last) <= n <= c && Slot(bd, last) + 10 < c <= Slot(bd, last) + 19 && r < NUM_BUCKETS
    ensures var l := Slot(bd, last);
            Got(ClearArc(cells, l % NUM_BUCKETS, c % NUM_BUCKETS)[r], ok)
            <= Tally(hist, bd, ok, if n - 9 > c - 19 then n - 9 else c - 19, l)
  {
    var l := Slot(bd, last);
    var lo := if n - 9 > c - 19 then n - 9 else c - 19;
    var h := Home(n, r);
    hide Slot, Home, OnArc, Tally;
    ArcIs(l, c, r);
    HomeRange(n, r);
    if h > l {
      TallyBeyond(hist, bd, ok, h, h, last);
    } else if h >= lo {
      TallyWithin(hist, bd, ok, h, lo, l);
    } else {
      assert Home(c - 10, r) > l by { HomeShift(n, c - 10, r); }
    }
  }

  lemma HomeRange(top: int, r: int)
    ensures top - 9 <= Home(top, r) <= top
  {
  }

  // A slot kept under the older top and at most ten below the newer one's range moves up by one turn.
  lemma HomeShift(n: int, top: int, r: int)
    requires 0 <= r < NUM_BUCKETS && top - 9 <= Home(n, r) + 10 <= top
    ensures Home(top, r) == Home(n, r) + 10
  {
    HomeIs(n, r, Home(n, r));
    HomeIs(top, r, Home(n, r) + 10);
  }

  lemma PastOneTurn(window: int, s: Tracked, d: nat)
    requires window >= NUM_BUCKETS && Sound(s, BucketDuration(window)) && s.w.touched
    requires Exactly(s, BucketDuration(window))
    requires BucketDuration(window) <= s.now + d - s.w.last <= window
    requires Slot(BucketDuration(window), s.now + d) - Slot(BucketDuration(window), s.w.last) > 10
    ensures Exactly(Apply(window, s, Stat(d)), BucketDuration(window)) <==> Clean(window, s, s.now + d)
  {
    var bd := BucketDuration(window);
    var t := Apply(window, s, Stat(d));
    SlotGap(bd, s.w.last, t.now);
    SlotMonotone(bd, s.w.last, s.now);
    SlotMonotone(bd, s.now, t.now);
    WindowSpan(window);
    hide Slot, BucketDuration;
    PartlyCleared(s.w.cells, s.hist, bd, s.w.last, Slot(bd, s.now), Slot(bd, t.now));
  }

  lemma {:induction false} TallyWithin(hist: seq<Timed>, bd: int, ok: bool, h: int, lo: int, hi: int)
    requires bd > 0 && lo <= h <= hi
    ensures Tally(hist, bd, ok, h, h) <= Tally(hist, bd, ok, lo, hi)
  {
    if hist != [] {
      TallyWithin(hist[..|hist| - 1], bd, ok, h, lo, hi);
    }
  }

  lemma {:induction false} SomeSlot(hist: seq<Timed>, bd: int, ok: bool, lo: int, hi: int) returns (h: int)
    requires bd > 0 && Tally(hist, bd, ok, lo, hi) > 0
    ensures lo <= h <= hi && Tally(hist, bd, ok, h, h) > 0
  {
    var c := hist[|hist| - 1];
    if c.ok == ok && lo <= Slot(bd, c.at) <= hi {
      h := Slot(bd, c.at);
    } else {
      h := SomeSlot(hist[..|hist| - 1], bd, ok, lo, hi);
    }
  }

  // A record leaves the buckets as exact as reading at its instant would.
  lemma RecordAsExact(window: int, s: Tracked, d: nat, ok: bool)
    requires window > 0 && Sound(s, BucketDuration(window))
    ensures Exactly(Apply(window, s, Rec(d, ok)), BucketDuration(window))
            <==> Exactly(Apply(window, s, Stat(d)), BucketDuration(window))
  {
    var bd := BucketDuration(window);
    var a, t := Apply(window, s, Stat(d)), Apply(window, s, Rec(d, ok));
    assert a.hist == s.hist && a.now == t.now == s.now + d;
    hide Slot, Home, BucketDuration, Apply, HomeTally, Got, Sound;
    forall r, k | 0 <= r < NUM_BUCKETS
      ensures Got(t.w.cells[r], k) == HomeTally(t.hist, bd, k, Slot(bd, t.now), r)
              <==> Got(a.w.cells[r], k) == HomeTally(a.hist, bd, k, Slot(bd, a.now), r)
    {
      RecordAddsOne(window, s, d, ok, r, k);
    }
  }

  // A step keeps the buckets exact if and only if it overlooks no recorded call.
  lemma StepExactIff(window: int, s: Tracked, op: Op)
    requires window > 0 && Sound(s, BucketDuration(window)) && Exactly(s, BucketDuration(window))
    ensures Exactly(Apply(window, s, op), BucketDuration(window)) <==> CleanStep(window, s, op)
  {
    match op
    case Stat(d) =>
      AdvanceExactIff(window, s, d);
      hide Exactly, Clean, Apply, Sound, BucketDuration;
    case Wipe =>
    case Rec(d, ok) =>
      AdvanceExactIff(window, s, d);
      RecordAsExact(window, s, d, ok);
      hide Exactly, Clean, Apply, Sound, BucketDuration;
  }

  ghost predicate CleanStep(window: int, s: Tracked, op: Op)
    requires window > 0
  {
    match op
    case Rec(d, _) => Clean(window, s, s.now + d)
    case Stat(d) => Clean(window, s, s.now + d)
    case Wipe => true
  }

  // A run in which no step overlooks a recorded call.
  ghost predicate CleanRun(window: int, s: Tracked, ops: seq<Op>)
    requires window > 0 && WellFormed(s.w)
    decreases |ops|
  {
    ops == [] || (CleanStep(window, s, ops[0]) && CleanRun(window, Apply(window, s, ops[0]), ops[1..]))
  }

  // Exact as far as the breaker can see: each sum is the tally of the last ten absolute buckets of the whole history.
  ghost predicate SumsExact(s: Tracked, bd: int)
    requires bd > 0 && WellFormed(s.w)
  {
    var top := Slot(bd, s.now);
    forall ok :: Sum(s.w.cells, ok) == Tally(s.hist, bd, ok, top - 9, top)
  }

  // No bucket holds more than the calls of its newest slot.
  ghost predicate Lacks(s: Tracked, bd: int)
    requires bd > 0 && WellFormed(s.w)
  {
    forall r, ok | 0 <= r < NUM_BUCKETS :: Got(s.w.cells[r], ok) <= HomeTally(s.hist, bd, ok, Slot(bd, s.now), r)
  }

  ghost predicate OneSided(s: Tracked, bd: int)
    requires bd > 0 && WellFormed(s.w)
  {
    Holds(s, bd) || Lacks(s, bd)
  }

  // When no bucket holds too little, or none too much, exact sums mean exact buckets.
  lemma SumsTellBuckets(s: Tracked, bd: int)
    requires bd > 0 && WellFormed(s.w) && OneSided(s, bd)
    ensures SumsExact(s, bd) <==> Exactly(s, bd)
  {
    hide Sum, Tally, Slot, HomeTally, Got;
    if Holds(s, bd) {
      SumAgainstTally(s.w.cells, s.hist, bd, true, Slot(bd, s.now));
      SumAgainstTally(s.w.cells, s.hist, bd, false, Slot(bd, s.now));
    } else {
      SumBelowTally(s.w.cells, s.hist, bd, true, Slot(bd, s.now));
      SumBelowTally(s.w.cells, s.hist, bd, false, Slot(bd, s.now));
    }
  }

  lemma SumBelowTally(cells: seq<Bucket>, hist: seq<Timed>, bd: int, ok: bool, top: int)
    requires bd > 0 && |cells| == NUM_BUCKETS
    requires forall r | 0 <= r < NUM_BUCKETS :: Got(cells[r], ok) <= HomeTally(hist, bd, ok, top, r)
    ensures Sum(cells, ok) == Tally(hist, bd, ok, top - 9, top)
            <==> forall r | 0 <= r < NUM_BUCKETS :: Got(cells[r], ok) == HomeTally(hist, bd, ok, top, r)
  {
    hide Sum, Tally, HomeTally, Got;
    SumOfTen(cells, ok);
    TenHomesTally(hist, bd, ok, top);
  }

  // One advance from exact buckets errs to one side only.
  lemma AdvanceOneSided(window: int, s: Tracked, d: nat)
    requires window > 0 && Sound(s, BucketDuration(window)) && Exactly(s, BucketDuration(window))
    ensures OneSided(Apply(window, s, Stat(d)), BucketDuration(window))
  {
    if Outlived(window, s, s.now + d) {
      assert Apply(window, s, Stat(d)).w.cells == NoBuckets().cells;
      assert Lacks(Apply(window, s, Stat(d)), BucketDuration(window)) by { hide Apply, Slot, HomeTally; }
    } else {
      AdvanceHolds(window, s, d);
    }
    hide Holds, Lacks;
  }

  lemma RecordOneSided(window: int, s: Tracked, d: nat, ok: bool)
    requires window > 0 && Sound(s, BucketDuration(window))
    requires OneSided(Apply(window, s, Stat(d)), BucketDuration(window))
    ensures OneSided(Apply(window, s, Rec(d, ok)), BucketDuration(window))
  {
    var bd := BucketDuration(window);
    var a, t := Apply(window, s, Stat(d)), Apply(window, s, Rec(d, ok));
    assert a.hist == s.hist && a.now == t.now == s.now + d;
    hide Slot, Home, BucketDuration, Apply, HomeTally, Got, Sound;
    forall r, k | 0 <= r < NUM_BUCKETS
      ensures Got(t.w.cells[r], k) - HomeTally(t.hist, bd, k, Slot(bd, t.now), r)
           == Got(a.w.cells[r], k) - HomeTally(a.hist, bd, k, Slot(bd, a.now), r)
    {
      RecordAddsOne(window, s, d, ok, r, k);
    }
  }

  lemma StepOneSided(window: int, s: Tracked, op: Op)
    requires window > 0 && Sound(s, BucketDuration(window)) && Exactly(s, BucketDuration(window))
    ensures OneSided(Apply(window, s, op), BucketDuration(window))
  {
    match op
    case Stat(d) => AdvanceOneSided(window, s, d);
    case Wipe =>
    case Rec(d, ok) =>
      hide OneSided, Exactly, Sound, BucketDuration, Apply;
      AdvanceOneSided(window, s, d);
      RecordOneSided(window, s, d, ok);
  }

  // One advance from exact sums, for every window: they stay exact if and only if it overlooks no recorded call.
  lemma AdvanceSumsIff(window: int, s: Tracked, d: nat)
    requires window > 0
    requires Sound(s, BucketDuration(window)) && OneSided(s, BucketDuration(window))
    requires SumsExact(s, BucketDuration(window))
    ensures SumsExact(Apply(window, s, Stat(d)), BucketDuration(window)) <==> Clean(window, s, s.now + d)
  {
    var bd := BucketDuration(window);
    hide SumsExact, Exactly, OneSided, Clean, Sound, BucketDuration;
    SumsTellBuckets(s, bd);
    AdvanceOneSided(window, s, d);
    SumsTellBuckets(Apply(window, s, Stat(d)), bd);
    AdvanceExactIff(window, s, d);
  }

  // The sums are exact at every point of a run.
  ghost predicate AlwaysExact(window: int, s: Tracked, ops: seq<Op>)
    requires window > 0 && WellFormed(s.w)
  {
    forall n | 0 <= n <= |ops| :: SumsExact(Exec(window, s, ops[..n]), BucketDuration(window))
  }

  lemma AlwaysExactHead(window: int, s: Tracked, ops: seq<Op>)
    requires window > 0 && WellFormed(s.w) && ops != []
    ensures AlwaysExact(window, s, ops)
            <==> SumsExact(s, BucketDuration(window)) && AlwaysExact(window, Apply(window, s, ops[0]), ops[1..])
  {
    var t, rest := Apply(window, s, ops[0]), ops[1..];
    assert Exec(window, s, ops[..0]) == s;
    forall n: nat | n <= |rest|
      ensures Exec(window, s, ops[..n + 1]) == Exec(window, t, rest[..n])
    {
      assert ops[..n + 1][1..] == rest[..n];
    }
    hide SumsExact, Exec, Apply;
    if AlwaysExact(window, s, ops) {
      forall n | 0 <= n <= |rest|
        ensures SumsExact(Exec(window, t, rest[..n]), BucketDuration(window))
      {
        assert SumsExact(Exec(window, s, ops[..n + 1]), BucketDuration(window));
      }
    }
    if SumsExact(s, BucketDuration(window)) && AlwaysExact(window, t, rest) {
      forall n | 0 <= n <= |ops|
        ensures SumsExact(Exec(window, s, ops[..n]), BucketDuration(window))
      {
        if n > 0 {
          assert SumsExact(Exec(window, t, rest[..n - 1]), BucketDuration(window));
        }
      }
    }
  }

  // From a state with exact buckets: the sums are exact throughout if and only if no step overlooks a recorded call.
  lemma {:induction false} AlwaysExactIff(window: int, s: Tracked, ops: seq<Op>)
    requires window > 0 && Sound(s, BucketDuration(window)) && Exactly(s, BucketDuration(window))
    ensures AlwaysExact(window, s, ops) <==> CleanRun(window, s, ops)
    decreases |ops|
  {
    var bd := BucketDuration(window);
    ExactHolds(s, bd);
    hide SumsExact, Exactly, OneSided, CleanStep, Sound, BucketDuration, Apply, Exec;
    SumsTellBuckets(s, bd);
    if ops == [] {
      AlwaysExactEmpty(window, s);
    } else {
      hide AlwaysExact;
      var t := Apply(window, s, ops[0]);
      AlwaysExactHead(window, s, ops);
      StepIsSound(window, s, ops[0]);
      StepOneSided(window, s, ops[0]);
      SumsTellBuckets(t, bd);
      StepExactIff(window, s, ops[0]);
      AlwaysExactStart(window, t, ops[1..]);
      if Exactly(t, bd) {
        AlwaysExactIff(window, t, ops[1..]);
      }
    }
  }

  lemma ExactHolds(s: Tracked, bd: int)
    requires bd > 0 && WellFormed(s.w) && Exactly(s, bd)
    ensures OneSided(s, bd)
  {
    hide Slot, HomeTally, Got;
  }

  lemma AlwaysExactEmpty(window: int, s: Tracked)
    requires window > 0 && WellFormed(s.w)
    ensures AlwaysExact(window, s, []) <==> SumsExact(s, BucketDuration(window))
  {
    AlwaysExactStart(window, s, []);
    var none: seq<Op> := [];
    assert forall n | 0 <= n <= 0 :: none[..n] == [];
    hide SumsExact;
  }

  lemma AlwaysExactStart(window: int, s: Tracked, ops: seq<Op>)
    requires window > 0 && WellFormed(s.w)
    ensures AlwaysExact(window, s, ops) ==> SumsExact(s, BucketDuration(window))
  {
    assert Exec(window, s, ops[..0]) == s;
    hide SumsExact, Exec;
  }

  lemma StartIsExact(start: nat, bd: int)
    requires bd > 0
    ensures Sound(Start(start), bd) && Exactly(Start(start), bd)
  {
  }

  // Over whole runs from the epoch on, for every window: the sums are those of the last ten absolute buckets of the
  // history at every point if and only if the run is clean.
  lemma CleanRunIsExact(window: int, start: nat, ops: seq<Op>)
    requires window > 0
    ensures CleanRun(window, Start(start), ops) <==> AlwaysExact(window, Start(start), ops)
    ensures CleanRun(window, Start(start), ops) ==>
              SumsExact(Exec(window, Start(start), ops), BucketDuration(window))
  {
    hide CleanRun, SumsExact, Sound, Exactly, Start;
    StartIsExact(start, BucketDuration(window));
    AlwaysExactIff(window, Start(start), ops);
    assert ops[..|ops|] == ops;
    hide Exec;
  }

  // The gap a caller can check on its clock: since the last record, either no bucket boundary was crossed or at least
  // one bucket's length has passed.
  predicate GoodGap(window: int, s: Tracked, d: nat)
    requires window > 0
  {
    var bd := BucketDuration(window);
    s.w.touched ==> Slot(bd, s.now + d) == Slot(bd, s.w.last) || s.now + d - s.w.last >= bd
  }

  predicate GoodGaps(window: int, s: Tracked, ops: seq<Op>)
    requires window > 0 && WellFormed(s.w)
    decreases |ops|
  {
    ops == []
    || ((match ops[0] case Rec(d, _) => GoodGap(window, s, d) case Stat(d) => GoodGap(window, s, d) case Wipe => true)
        && GoodGaps(window, Apply(window, s, ops[0]), ops[1..]))
  }

  // With a window of exactly ten buckets, good gaps overlook nothing.
  lemma GoodGapIsClean(window: int, s: Tracked, d: nat)
    requires window >= NUM_BUCKETS && window % NUM_BUCKETS == 0
    requires Sound(s, BucketDuration(window)) && GoodGap(window, s, d)
    ensures Clean(window, s, s.now + d)
  {
    var bd := BucketDuration(window);
    var o := Overlooked(window, s, s.now + d);
    if s.w.touched {
      SlotGap(bd, s.w.last, s.now + d);
      SlotMonotone(bd, s.w.last, s.now);
      SlotMonotone(bd, s.now, s.now + d);
      assert window == 10 * bd;
    }
    NothingBetween(s.hist, bd, o.lo, o.hi);
  }

  lemma {:induction false} GoodGapsAreClean(window: int, s: Tracked, ops: seq<Op>)
    requires window >= NUM_BUCKETS && window % NUM_BUCKETS == 0
    requires Sound(s, BucketDuration(window)) && GoodGaps(window, s, ops)
    ensures CleanRun(window, s, ops)
    decreases |ops|
  {
    if ops != [] {
      match ops[0] {
        case Rec(d, _) => GoodGapIsClean(window, s, d);
        case Stat(d) => GoodGapIsClean(window, s, d);
        case Wipe =>
      }
      StepIsSound(window, s, ops[0]);
      GoodGapsAreClean(window, Apply(window, s, ops[0]), ops[1..]);
    }
  }

  // Without that hypothesis the sums can be too high: the third call crosses a boundary 5ns after the second, and
  // the call from a full window ago is still counted.
  lemma QuickCrossingOvercounts()
    ensures var s := Exec(100, Start(0), [Rec(0, true), Rec(95, true), Rec(5, true)]);
            && Sum(s.w.cells, true) == 3
            && Tally(s.hist, BucketDuration(100), true, Slot(10, s.now) - 9, Slot(10, s.now)) == 2
  {
    var ops := [Rec(0, true), Rec(95, true), Rec(5, true)];
    var a := Apply(100, Start(0), ops[0]);
    var b := Apply(100, a, ops[1]);
    var c := Apply(100, b, ops[2]);
    assert ops[1..][1..] == [Rec(5, true)] && ops[1..][1..][1..] == [];
    assert Exec(100, Start(0), ops) == Exec(100, a, ops[1..]) == Exec(100, b, ops[1..][1..]) == Exec(100, c, []);
    assert a.w.cells[0] == Bucket(1, 0);
    assert b.w.cells[0] == Bucket(1, 0) && b.w.cells[9] == Bucket(1, 0);
    assert c.w.cells[0] == Bucket(2, 0) && c.w.cells[9] == Bucket(1, 0);
    assert forall j | 1 <= j < 9 :: c.w.cells[j] == EMPTY;
    var h := [Timed(0, true), Timed(95, true), Timed(100, true)];
    assert c.hist == h && c.now == 100;
    hide *;
    ThreeCells(c.w.cells);
    ThreeCalls();
  }

  lemma ThreeCells(cells: seq<Bucket>)
    requires |cells| == NUM_BUCKETS && cells[0] == Bucket(2, 0) && cells[9] == Bucket(1, 0)
    requires forall j | 1 <= j < 9 :: cells[j] == EMPTY
    ensures Sum(cells, true) == 3
  {
    SumOfTen(cells, true);
    hide Sum;
  }

  lemma ThreeCalls()
    ensures Tally([Timed(0, true), Timed(95, true), Timed(100, true)], BucketDuration(100), true,
                  Slot(10, 100) - 9, Slot(10, 100)) == 2
  {
    var h := [Timed(0, true), Timed(95, true), Timed(100, true)];
    assert h[..2] == [Timed(0, true), Timed(95, true)] && h[..2][..1] == [Timed(0, true)];
    assert Tally(h[..2][..1], 10, true, 1, 10) == 0;
    assert Tally(h[..2], 10, true, 1, 10) == 1;
  }
}
