// The ten-bucket sliding time window of the circuit breaker, on values.
module TimeWindow {
  const NUM_BUCKETS := 10
  const SECOND := 1_000_000_000

  datatype Bucket = Bucket(success: nat, failure: nat)

  const EMPTY := Bucket(0, 0)

  // `touched` is false while lastUpdateTime is the zero time.
  datatype Buckets = Buckets(cells: seq<Bucket>, touched: bool, last: int)

  predicate WellFormed(w: Buckets) {
    |w.cells| == NUM_BUCKETS
  }

  function NoBuckets(): Buckets {
    Buckets(seq(NUM_BUCKETS, _ => EMPTY), false, 0)
  }

  function BucketDuration(window: int): (bd: int)
    requires window > 0
    ensures bd > 0
  {
    if window / NUM_BUCKETS == 0 then SECOND else window / NUM_BUCKETS
  }

  // The absolute bucket number of an instant; instants before the epoch count as the epoch.
  function Slot(bd: int, t: int): nat
    requires bd > 0
  {
    (if t < 0 then 0 else t) / bd
  }

  function Index(bd: int, t: int): (i: nat)
    requires bd > 0
    ensures i < NUM_BUCKETS
  {
    Slot(bd, t) % NUM_BUCKETS
  }

  // j lies on the circular walk that starts just after `from` and ends at `to`.
  predicate OnArc(from: int, to: int, j: int) {
    (j - from - 1) % NUM_BUCKETS <= (to - from - 1) % NUM_BUCKETS
  }

  function ClearArc(cells: seq<Bucket>, from: int, to: int): (r: seq<Bucket>)
    ensures |r| == |cells|
    ensures forall j | 0 <= j < |cells| :: r[j] == if OnArc(from, to, j) then EMPTY else cells[j]
  {
    seq(|cells|, j requires 0 <= j < |cells| => if OnArc(from, to, j) then EMPTY else cells[j])
  }

  function Advance(window: int, bd: int, w: Buckets, now: int): (r: Buckets)
    requires bd > 0 && WellFormed(w)
    ensures WellFormed(r)
  {
    if !w.touched then Buckets(w.cells, true, now)
    else if now - w.last > window then w.(cells := NoBuckets().cells)
    else if now - w.last >= bd then w.(cells := ClearArc(w.cells, Index(bd, w.last), Index(bd, now)))
    else w
  }

  function Bump(b: Bucket, ok: bool): Bucket {
    if ok then b.(success := b.success + 1) else b.(failure := b.failure + 1)
  }

  function Record(window: int, bd: int, w: Buckets, ok: bool, now: int): (r: Buckets)
    requires bd > 0 && WellFormed(w)
    ensures WellFormed(r)
  {
    var a := Advance(window, bd, w, now);
    var i := Index(bd, now);
    Buckets(a.cells[i := Bump(a.cells[i], ok)], true, now)
  }

  function Got(b: Bucket, ok: bool): nat {
    if ok then b.success else b.failure
  }

  function Sum(cells: seq<Bucket>, ok: bool): nat {
    if cells == [] then 0 else Sum(cells[..|cells| - 1], ok) + Got(cells[|cells| - 1], ok)
  }

  lemma SumOfTen(c: seq<Bucket>, ok: bool)
    requires |c| == NUM_BUCKETS
    ensures Sum(c, ok) == Got(c[0], ok) + Got(c[1], ok) + Got(c[2], ok) + Got(c[3], ok) + Got(c[4], ok)
                          + Got(c[5], ok) + Got(c[6], ok) + Got(c[7], ok) + Got(c[8], ok) + Got(c[9], ok)
  {
    assert forall k {:trigger c[..k]} | 0 < k <= 10 :: c[..k][..k - 1] == c[..k - 1] && c[..k][k - 1] == c[k - 1];
    assert c[..10] == c;
    SumStep(c, 9, ok); SumStep(c, 8, ok); SumStep(c, 7, ok); SumStep(c, 6, ok); SumStep(c, 5, ok);
    SumStep(c, 4, ok); SumStep(c, 3, ok); SumStep(c, 2, ok); SumStep(c, 1, ok); SumStep(c, 0, ok);
  }

  lemma SumStep(c: seq<Bucket>, k: nat, ok: bool)
    requires k < |c|
    ensures Sum(c[..k + 1], ok) == Sum(c[..k], ok) + Got(c[k], ok)
  {
    assert c[..k + 1][..k] == c[..k];
  }

  // ---- The history a window is meant to summarise ----

  datatype Timed = Timed(at: int, ok: bool)

  // How many recorded calls with this outcome fall into slots lo..hi.
  function Tally(hist: seq<Timed>, bd: int, ok: bool, lo: int, hi: int): nat
    requires bd > 0
  {
    if hist == [] then 0
    else
      var c := hist[|hist| - 1];
      Tally(hist[..|hist| - 1], bd, ok, lo, hi) + (if c.ok == ok && lo <= Slot(bd, c.at) <= hi then 1 else 0)
  }

  // How many recorded calls with this outcome happened at `since` or later.
  function CountSince(hist: seq<Timed>, ok: bool, since: int): nat {
    if hist == [] then 0
    else
      var c := hist[|hist| - 1];
      CountSince(hist[..|hist| - 1], ok, since) + (if c.ok == ok && c.at >= since then 1 else 0)
  }

  // The newest slot up to `top` that is kept in bucket r.
  function Home(top: int, r: int): int {
    top - (top - r) % NUM_BUCKETS
  }

  function HomeTally(hist: seq<Timed>, bd: int, ok: bool, top: int, r: int): nat
    requires bd > 0
  {
    Tally(hist, bd, ok, Home(top, r), Home(top, r))
  }

  function TenHomes(hist: seq<Timed>, bd: int, ok: bool, top: int): nat
    requires bd > 0
  {
    HomeTally(hist, bd, ok, top, 0) + HomeTally(hist, bd, ok, top, 1) + HomeTally(hist, bd, ok, top, 2)
    + HomeTally(hist, bd, ok, top, 3) + HomeTally(hist, bd, ok, top, 4) + HomeTally(hist, bd, ok, top, 5)
    + HomeTally(hist, bd, ok, top, 6) + HomeTally(hist, bd, ok, top, 7) + HomeTally(hist, bd, ok, top, 8)
    + HomeTally(hist, bd, ok, top, 9)
  }

  // Every slot among the last ten lives in exactly one bucket.
  lemma HomeIs(top: int, r: int, s: int)
    requires 0 <= r < NUM_BUCKETS
    ensures Home(top, r) == s <==> s % NUM_BUCKETS == r && top - 9 <= s <= top
  {
  }

  lemma {:induction false} TenHomesTally(hist: seq<Timed>, bd: int, ok: bool, top: int)
    requires bd > 0
    ensures TenHomes(hist, bd, ok, top) == Tally(hist, bd, ok, top - 9, top)
  {
    if hist != [] {
      var init, c := hist[..|hist| - 1], hist[|hist| - 1];
      TenHomesTally(init, bd, ok, top);
      var s := Slot(bd, c.at);
      HomeIs(top, 0, s); HomeIs(top, 1, s); HomeIs(top, 2, s); HomeIs(top, 3, s); HomeIs(top, 4, s);
      HomeIs(top, 5, s); HomeIs(top, 6, s); HomeIs(top, 7, s); HomeIs(top, 8, s); HomeIs(top, 9, s);
    }
  }

  predicate Recorded(hist: seq<Timed>, last: int) {
    forall i | 0 <= i < |hist| :: hist[i].at <= last
  }

  lemma {:induction false} TallyBeyond(hist: seq<Timed>, bd: int, ok: bool, lo: int, hi: int, last: int)
    requires bd > 0 && Recorded(hist, last) && lo > Slot(bd, last)
    ensures Tally(hist, bd, ok, lo, hi) == 0
  {
    if hist != [] {
      TallyBeyond(hist[..|hist| - 1], bd, ok, lo, hi, last);
      SlotMonotone(bd, hist[|hist| - 1].at, last);
    }
  }

  lemma SlotMonotone(bd: int, a: int, b: int)
    requires bd > 0 && a <= b
    ensures Slot(bd, a) <= Slot(bd, b)
  {
    var x, y := Slot(bd, a), Slot(bd, b);
    SlotBounds(bd, a);
    SlotBounds(bd, b);
    assert bd * (y + 1) == bd * y + bd;
    Cancel(bd, x, y + 1);
  }

  lemma SlotBounds(bd: int, t: int)
    requires bd > 0
    ensures bd * Slot(bd, t) <= (if t < 0 then 0 else t) < bd * Slot(bd, t) + bd
  {
  }

  lemma Cancel(bd: int, p: int, q: int)
    requires bd > 0
    ensures bd * p < bd * q <==> p < q
    ensures bd * p <= bd * q <==> p <= q
  {
    if p < q {
      assert bd * (q - p) > 0;
    } else {
      assert bd * (p - q) >= 0;
    }
  }

  // Adding whole turns of the ring leaves the position alone.
  lemma Turns(x: int, k: int)
    ensures (x + NUM_BUCKETS * k) % NUM_BUCKETS == x % NUM_BUCKETS
  {
  }
}
