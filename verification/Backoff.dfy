// The capped exponential backoff with full jitter, in exact integer nanoseconds.
module Backoff {
  function Pow2(n: nat): (p: nat)
    ensures p >= 1
  {
    if n == 0 then 1 else 2 * Pow2(n - 1)
  }

  // The exclusive upper end of the draw for this attempt.
  function MaxDelay(base: int, cap: int, attempt: nat): int {
    var exponential := base * Pow2(attempt);
    if exponential > cap then cap else exponential
  }

  // `draw` stands for the random number; every delay in range is reached by some draw.
  function Next(base: int, cap: int, attempt: nat, draw: nat): (d: nat)
    ensures var m := MaxDelay(base, cap, attempt); if m <= 0 then d == 0 else d < m
  {
    var m := MaxDelay(base, cap, attempt);
    if m <= 0 then 0 else draw % m
  }

  function Sum(s: seq<nat>): nat {
    if s == [] then 0 else Sum(s[..|s| - 1]) + s[|s| - 1]
  }

  // A delay that some draw gives for this attempt.
  predicate Possible(base: int, cap: int, attempt: nat, d: nat) {
    var m := MaxDelay(base, cap, attempt);
    if m <= 0 then d == 0 else d < m
  }

  lemma PossibleIsDrawn(base: int, cap: int, attempt: nat, d: nat)
    ensures Possible(base, cap, attempt, d) <==> exists draw: nat :: Next(base, cap, attempt, draw) == d
  {
    var m := MaxDelay(base, cap, attempt);
    hide MaxDelay;
    if Possible(base, cap, attempt, d) {
      if m > 0 {
        Remainder(d, m);
      }
      assert Next(base, cap, attempt, d) == d;
    }
  }

  lemma Remainder(d: nat, m: nat)
    requires d < m
    ensures d % m == d
  {
  }

  // The whole backoff over n failures stays below both the linear and the exponential bound.
  lemma {:induction false} TotalBackoff(base: nat, cap: nat, ds: seq<nat>)
    requires forall i | 0 <= i < |ds| :: Possible(base, cap, i, ds[i])
    ensures Sum(ds) <= |ds| * cap
    ensures Sum(ds) <= base * (Pow2(|ds|) - 1)
  {
    if ds != [] {
      var n := |ds| - 1;
      TotalBackoff(base, cap, ds[..n]);
      assert Possible(base, cap, n, ds[n]);
      CapIsReached(base, cap, n);
      Doubling(base, n);
      Another(n, cap);
      hide Pow2, MaxDelay;
    }
  }

  lemma Doubling(base: nat, n: nat)
    ensures base * (Pow2(n + 1) - 1) == base * (Pow2(n) - 1) + base * Pow2(n)
    ensures base * Pow2(n) >= 0
  {
  }

  lemma Another(n: nat, cap: nat)
    ensures (n + 1) * cap == n * cap + cap
  {
  }

  // A backoff never exceeds the cap, and the exponential part doubles until it does.
  lemma CapIsReached(base: nat, cap: nat, attempt: nat)
    ensures MaxDelay(base, cap, attempt) <= cap
    ensures MaxDelay(base, cap, attempt) <= base * Pow2(attempt)
    ensures base * Pow2(attempt) <= cap ==> MaxDelay(base, cap, attempt) == base * Pow2(attempt)
    ensures base * Pow2(attempt) >= cap ==> MaxDelay(base, cap, attempt) == cap == MaxDelay(base, cap, attempt + 1)
  {
    assert base * Pow2(attempt + 1) == 2 * (base * Pow2(attempt));
  }
}
