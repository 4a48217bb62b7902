// Error values as trees: what errors.Is, errors.As and errors.Join see.
module Wrappers {
  datatype Option<+T> = None | Some(value: T)
}

module Errors {
  import opened Wrappers

  // The error identities the engine itself compares against, plus any number of others.
  datatype Sentinel =
    | Canceled
    | DeadlineExceeded
    | CircuitOpen
    | RateLimitExceeded
    | BulkheadFull
    | ShedLoad
    | Other(id: nat)

  datatype Tag =
    | Leaf(sentinel: Sentinel)
    | FatalTag
    | RetryAfterTag(delay: int, cancelAll: bool)
    | Plain

  // `causes` is what Unwrap returns: nothing, one error, or the list of a joined error.
  datatype Err = Err(tag: Tag, causes: seq<Err>)

  function Simple(s: Sentinel): Err {
    Err(Leaf(s), [])
  }

  // FatalError: a nil error stays nil.
  function FatalError(e: Option<Err>): Option<Err> {
    match e
    case None => None
    case Some(err) => Some(Err(FatalTag, [err]))
  }

  // errors.Join on a list without nil entries: joining nothing yields nil.
  function Join(errs: seq<Err>): Option<Err> {
    if errs == [] then None else Some(Err(Plain, errs))
  }

  predicate Is(e: Err, s: Sentinel) {
    e.tag == Leaf(s) || exists c | c in e.causes :: Is(c, s)
  }

  predicate IsFatal(e: Err) {
    e.tag.FatalTag? || exists c | c in e.causes :: IsFatal(c)
  }

  datatype Pushback = Pushback(delay: int, cancelAll: bool)

  // errors.As for the RetryAfterError interface: the first match in pre-order.
  function FirstRetryAfter(e: Err): Option<Pushback>
    decreases e, 1
  {
    if e.tag.RetryAfterTag? then Some(Pushback(e.tag.delay, e.tag.cancelAll)) else FirstRetryAfterIn(e.causes)
  }

  function FirstRetryAfterIn(es: seq<Err>): Option<Pushback>
    decreases es, 0
  {
    if es == [] then None
    else
      var first := FirstRetryAfter(es[0]);
      if first.Some? then first else FirstRetryAfterIn(es[1..])
  }

  predicate CancelsAll(e: Err) {
    var p := FirstRetryAfter(e);
    p.Some? && p.value.cancelAll
  }

  // The configured retry condition. With neither part set every error qualifies.
  datatype Policy = Policy(retryIf: Option<Sentinel>, retryIfFunc: Option<Err -> bool>)

  predicate ShouldRetry(p: Policy, e: Err) {
    if IsFatal(e) then false
    else if Is(e, Canceled) || Is(e, DeadlineExceeded) then false
    else if p.retryIf.None? && p.retryIfFunc.None? then true
    else if p.retryIf.Some? && Is(e, p.retryIf.value) then true
    else p.retryIfFunc.Some? && p.retryIfFunc.value(e)
  }

  // ---- The same, told by the nodes of the tree ----

  // All errors of the tree, each before its causes, and the causes in order.
  function PreOrder(e: Err): seq<Err>
    decreases e, 1
  {
    [e] + PreOrderIn(e.causes)
  }

  function PreOrderIn(es: seq<Err>): seq<Err>
    decreases es, 0
  {
    if es == [] then [] else PreOrder(es[0]) + PreOrderIn(es[1..])
  }

  lemma {:induction false} InCauses(es: seq<Err>, x: Err)
    ensures x in PreOrderIn(es) <==> exists c | c in es :: x in PreOrder(c)
  {
    if es != [] {
      assert PreOrderIn(es) == PreOrder(es[0]) + PreOrderIn(es[1..]);
      hide PreOrder, PreOrderIn;
      InCauses(es[1..], x);
      assert forall c :: c in es <==> c == es[0] || c in es[1..];
    }
  }

  // An error is a sentinel exactly when some node of its tree is.
  lemma {:induction false} IsInTree(e: Err, s: Sentinel)
    ensures Is(e, s) <==> exists x | x in PreOrder(e) :: x.tag == Leaf(s)
  {
    forall c | c in e.causes
      ensures Is(c, s) <==> exists x | x in PreOrder(c) :: x.tag == Leaf(s)
    {
      IsInTree(c, s);
    }
    forall x
      ensures x in PreOrder(e) <==> x == e || exists c | c in e.causes :: x in PreOrder(c)
    {
      InCauses(e.causes, x);
    }
    hide PreOrder;
    assert e in PreOrder(e);
  }

  // It is fatal exactly when some node is marked.
  lemma {:induction false} FatalInTree(e: Err)
    ensures IsFatal(e) <==> exists x | x in PreOrder(e) :: x.tag.FatalTag?
  {
    forall c | c in e.causes
      ensures IsFatal(c) <==> exists x | x in PreOrder(c) :: x.tag.FatalTag?
    {
      FatalInTree(c);
    }
    forall x
      ensures x in PreOrder(e) <==> x == e || exists c | c in e.causes :: x in PreOrder(c)
    {
      InCauses(e.causes, x);
    }
    hide PreOrder;
    assert e in PreOrder(e);
  }

  // The first pushback among nodes in this order.
  function FirstAmong(nodes: seq<Err>): Option<Pushback> {
    if nodes == [] then None
    else if nodes[0].tag.RetryAfterTag? then Some(Pushback(nodes[0].tag.delay, nodes[0].tag.cancelAll))
    else FirstAmong(nodes[1..])
  }

  lemma {:induction false} FirstAmongConcat(a: seq<Err>, b: seq<Err>)
    ensures FirstAmong(a + b) == if FirstAmong(a).Some? then FirstAmong(a) else FirstAmong(b)
  {
    if a == [] {
      assert a + b == b;
    } else {
      assert (a + b)[1..] == a[1..] + b;
      FirstAmongConcat(a[1..], b);
    }
  }

  // The pushback found is that of the first node carrying one.
  lemma {:induction false} PushbackIsFirst(e: Err)
    ensures FirstRetryAfter(e) == FirstAmong(PreOrder(e))
    decreases e, 1
  {
    PushbackIsFirstIn(e.causes);
    assert PreOrder(e)[1..] == PreOrderIn(e.causes);
  }

  lemma {:induction false} PushbackIsFirstIn(es: seq<Err>)
    ensures FirstRetryAfterIn(es) == FirstAmong(PreOrderIn(es))
    decreases es, 0
  {
    if es != [] {
      PushbackIsFirst(es[0]);
      PushbackIsFirstIn(es[1..]);
      FirstAmongConcat(PreOrder(es[0]), PreOrderIn(es[1..]));
    }
  }

  // ---- What is retried ----

  // A node that forbids every retry, or one that carries a sentinel.
  predicate Forbids(x: Err) {
    x.tag.FatalTag? || x.tag == Leaf(Canceled) || x.tag == Leaf(DeadlineExceeded)
  }

  predicate HasSentinel(e: Err, s: Sentinel) {
    exists x | x in PreOrder(e) :: x.tag == Leaf(s)
  }

  // Exactly these errors are retried: no node forbids it, and the policy is empty, or its target is in the tree, or its
  // function accepts the error.
  lemma RetriedIff(p: Policy, e: Err)
    ensures ShouldRetry(p, e) <==>
            && (forall x | x in PreOrder(e) :: !Forbids(x))
            && (p == Policy(None, None)
                || (p.retryIf.Some? && HasSentinel(e, p.retryIf.value))
                || (p.retryIfFunc.Some? && p.retryIfFunc.value(e)))
  {
    FatalInTree(e);
    IsInTree(e, Canceled);
    IsInTree(e, DeadlineExceeded);
    if p.retryIf.Some? {
      IsInTree(e, p.retryIf.value);
    }
    hide PreOrder, Is, IsFatal;
  }

  // Under the empty policy an error that carries no stopping node goes on.
  lemma EmptyPolicyGoesOn(p: Policy, e: Err)
    requires p == Policy(None, None)
    ensures Ends(p, e) <==> Stopping(e)
  {
  }

  // The errors no retry layer may retry, whatever the policy says.
  predicate Stopping(e: Err) {
    IsFatal(e) || Is(e, Canceled) || Is(e, DeadlineExceeded) || Is(e, CircuitOpen)
  }

  // The test both retry drivers apply to a failed attempt before going on.
  predicate Ends(p: Policy, e: Err) {
    Is(e, CircuitOpen) || !ShouldRetry(p, e)
  }

  lemma StoppingEnds(p: Policy, e: Err)
    requires Stopping(e)
    ensures Ends(p, e)
  {
  }

  // Joining hides nothing: a joined error is stopping exactly when one of its parts is.
  lemma JoinStops(errs: seq<Err>)
    requires errs != []
    ensures Join(errs).Some?
    ensures Stopping(Join(errs).value) <==> exists e | e in errs :: Stopping(e)
  {
    var j := Join(errs).value;
    assert j.causes == errs;
    forall s | s in {Canceled, DeadlineExceeded, CircuitOpen}
      ensures Is(j, s) <==> exists c | c in errs :: Is(c, s)
    {
    }
    assert IsFatal(j) <==> exists c | c in errs :: IsFatal(c);
    if c :| c in errs && Stopping(c) {
      assert Stopping(j);
    }
    if Stopping(j) {
      if IsFatal(j) {
        var c :| c in errs && IsFatal(c);
        assert Stopping(c);
      } else {
        var s :| s in {Canceled, DeadlineExceeded, CircuitOpen} && Is(j, s);
        var c :| c in errs && Is(c, s);
        assert Stopping(c);
      }
    }
  }

  // Marking an error fatal makes it final under every policy, however it is joined afterwards.
  lemma FatalIsFinal(p: Policy, e: Err, before: seq<Err>, after: seq<Err>)
    ensures FatalError(Some(e)).Some?
    ensures !ShouldRetry(p, FatalError(Some(e)).value)
    ensures !ShouldRetry(p, Join(before + [FatalError(Some(e)).value] + after).value)
  {
    var fatal := FatalError(Some(e)).value;
    var j := Join(before + [fatal] + after).value;
    assert j.causes[|before|] == fatal;
    assert fatal in j.causes && IsFatal(fatal);
  }

  // The pre-order search finds the pushback of the earliest joined part that carries one.
  lemma {:induction false} FirstRetryAfterJoin(errs: seq<Err>, k: nat)
    requires k < |errs|
    requires forall i | 0 <= i < k :: FirstRetryAfter(errs[i]).None?
    requires FirstRetryAfter(errs[k]).Some?
    ensures FirstRetryAfter(Join(errs).value) == FirstRetryAfter(errs[k])
  {
    FirstRetryAfterSkip(errs, k);
  }

  lemma {:induction false} FirstRetryAfterSkip(errs: seq<Err>, k: nat)
    requires k < |errs|
    requires forall i | 0 <= i < k :: FirstRetryAfter(errs[i]).None?
    requires FirstRetryAfter(errs[k]).Some?
    ensures FirstRetryAfterIn(errs) == FirstRetryAfter(errs[k])
  {
    if k > 0 {
      assert errs[1..][k - 1] == errs[k];
      FirstRetryAfterSkip(errs[1..], k - 1);
    }
  }
}
