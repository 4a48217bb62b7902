// The retry bucket's one counter, and the constraint over everything that has happened since any earlier moment that it
// stands for.
module BudgetWindows {
  import opened RetryBudget
  import Pipeline

  datatype Use = Request | Success

  datatype Entry = Granted | Denied | Refilled

  // The bucket together with what has happened to it.
  datatype Tracked = Tracked(bucket: Bucket, hist: seq<Entry>)

  function Exec(b: Bucket, uses: seq<Use>): (r: Tracked)
    ensures r.bucket.maxCapacity == b.maxCapacity && r.bucket.retryCost == b.retryCost
            && r.bucket.successRefill == b.successRefill
  {
    if uses == [] then Tracked(b, [])
    else
      var s := Exec(b, uses[..|uses| - 1]);
      match uses[|uses| - 1]
      case Request =>
        var (after, granted) := Acquire(s.bucket);
        Tracked(after, s.hist + [if granted then Granted else Denied])
      case Success => Tracked(Refill(s.bucket), s.hist + [Refilled])
  }

  // What these entries put back, less what they took.
  function Net(b: Bucket, hist: seq<Entry>): real {
    if hist == [] then 0.0
    else
      Net(b, hist[..|hist| - 1])
      + match hist[|hist| - 1]
        case Granted => -b.retryCost
        case Denied => 0.0
        case Refilled => b.successRefill
  }

  // What a bucket that was full before entry j would hold now.
  function Room(b: Bucket, hist: seq<Entry>, j: nat): real
    requires j <= |hist|
  {
    b.maxCapacity + Net(b, hist[j..])
  }

  ghost predicate Tightest(b: Bucket, hist: seq<Entry>, t: real) {
    && (forall j | 0 <= j <= |hist| :: t <= Room(b, hist, j))
    && (exists j | 0 <= j <= |hist| :: t == Room(b, hist, j))
  }

  lemma NetMore(b: Bucket, hist: seq<Entry>, j: nat, e: Entry)
    requires j <= |hist|
    ensures Room(b, hist + [e], j)
         == Room(b, hist, j)
            + match e case Granted => -b.retryCost case Denied => 0.0 case Refilled => b.successRefill
  {
    var longer := (hist + [e])[j..];
    assert longer[..|longer| - 1] == hist[j..];
  }

  // One entry moves every room alike, and opens a new one: the whole capacity.
  lemma StillTightest(b: Bucket, hist: seq<Entry>, t: real, e: Entry, u: real)
    requires Tightest(b, hist, t)
    requires var moved := t + match e case Granted => -b.retryCost case Denied => 0.0 case Refilled => b.successRefill;
             u == if moved > b.maxCapacity then b.maxCapacity else moved
    ensures Tightest(b, hist + [e], u)
  {
    var more := hist + [e];
    forall j | 0 <= j <= |hist|
      ensures Room(b, more, j)
           == Room(b, hist, j)
              + match e case Granted => -b.retryCost case Denied => 0.0 case Refilled => b.successRefill
    {
      NetMore(b, hist, j, e);
    }
    assert more[|more|..] == [];
    assert Room(b, more, |more|) == b.maxCapacity;
    var k :| 0 <= k <= |hist| && t == Room(b, hist, k);
    hide Room;
    if u == b.maxCapacity {
      assert u == Room(b, more, |more|);
    } else {
      assert u == Room(b, more, k);
    }
  }

  // Over any uses of a bucket that starts full: the tokens are the least that any earlier moment allows, had the bucket
  // been full then.
  lemma {:induction false} TokensAreTheTightest(b: Bucket, uses: seq<Use>)
    requires Sane(b) && b.tokens == b.maxCapacity
    ensures var s := Exec(b, uses); Tightest(b, s.hist, s.bucket.tokens) && 0.0 <= s.bucket.tokens <= b.maxCapacity
  {
    if uses == [] {
      var none: seq<Entry> := [];
      assert Room(b, none, 0) == b.maxCapacity;
    } else {
      var s := Exec(b, uses[..|uses| - 1]);
      TokensAreTheTightest(b, uses[..|uses| - 1]);
      var r := Exec(b, uses);
      hide Tightest, Exec;
      StillTightest(b, s.hist, s.bucket.tokens, r.hist[|s.hist|], r.bucket.tokens);
    }
  }

  // So a retry is granted exactly when every earlier moment still has its cost.
  lemma GrantedIff(b: Bucket, uses: seq<Use>)
    requires Sane(b) && b.tokens == b.maxCapacity
    ensures var s := Exec(b, uses);
            Acquire(s.bucket).1 <==> forall j | 0 <= j <= |s.hist| :: Room(b, s.hist, j) >= b.retryCost
  {
    TokensAreTheTightest(b, uses);
    hide Exec, Room;
  }

  // ---- The bucket shared by runs is such a bucket ----

  function UsesOf(b: Bucket, steps: seq<Step>): seq<Use> {
    if steps == [] then []
    else
      var less, step := steps[..|steps| - 1], steps[|steps| - 1];
      var before := UsesOf(b, less);
      if !Can(RetryBudget.Exec(b, less), step) || step.Open? then before
      else
        match step.move
        case Try => before
        case Ask(_) => before + [Request]
        case Succeed => before + [Success]
  }

  lemma {:induction false} SharedBucketIsTracked(b: Bucket, steps: seq<Step>)
    ensures RetryBudget.Exec(b, steps).bucket == Exec(b, UsesOf(b, steps)).bucket
  {
    if steps != [] {
      var less := steps[..|steps| - 1];
      SharedBucketIsTracked(b, less);
      assert forall u :: (UsesOf(b, less) + [u])[..|UsesOf(b, less)|] == UsesOf(b, less);
      hide Acquire, Refill, MayMove;
    }
  }
}
