// Sequences of call outcomes (true is a success), and the last few of them.
module Outcomes {
  function Failures(s: seq<bool>): nat {
    if s == [] then 0 else Failures(s[..|s| - 1]) + (if s[|s| - 1] then 0 else 1)
  }

  // The last n outcomes, or all of them when there are fewer.
  function LastN(n: nat, s: seq<bool>): seq<bool> {
    if |s| <= n then s else s[|s| - n..]
  }

  lemma {:induction false} FailuresConcat(a: seq<bool>, b: seq<bool>)
    ensures Failures(a + b) == Failures(a) + Failures(b)
  {
    if b == [] {
      assert a + b == a;
    } else {
      assert (a + b)[..|a + b| - 1] == a + b[..|b| - 1];
      FailuresConcat(a, b[..|b| - 1]);
    }
  }

  lemma FailuresOfOne(x: bool)
    ensures Failures([x]) == if x then 0 else 1
  {
    assert [x][..0] == [];
  }

  lemma {:induction false} FailuresAtMostAll(s: seq<bool>)
    ensures Failures(s) <= |s|
  {
    if s != [] {
      FailuresAtMostAll(s[..|s| - 1]);
    }
  }

  lemma {:induction false} AllSuccesses(s: seq<bool>)
    ensures Failures(s) == 0 <==> forall i | 0 <= i < |s| :: s[i]
  {
    if s != [] {
      AllSuccesses(s[..|s| - 1]);
    }
  }

  // Dropping the oldest outcome takes away exactly its own failure.
  lemma FailuresDropFirst(s: seq<bool>)
    requires s != []
    ensures Failures(s) == Failures(s[1..]) + (if s[0] then 0 else 1)
  {
    assert s == [s[0]] + s[1..];
    FailuresConcat([s[0]], s[1..]);
    FailuresOfOne(s[0]);
  }

  // Keeping the last n one step at a time is keeping the last n of the whole history.
  lemma LastNStep(n: nat, s: seq<bool>, x: bool)
    ensures LastN(n, LastN(n, s) + [x]) == LastN(n, s + [x])
  {
  }
}
