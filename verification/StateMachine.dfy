// A state machine whose every transition runs through the engine, and takes effect only if it succeeds.
module StateMachines {
  import opened Wrappers
  import opened Errors
  import opened Pipeline
  import opened PipelineTheorems
  import opened Engine

  datatype Outcome<+S, +D> = Moved(state: S, data: D) | Failed(error: Err)

  // The transition may answer differently each time it is called; calls are numbered over the machine's life.
  datatype Setup<!S, !D, !E> = Setup(
    transition: (nat, S, D, E, RetryState) -> Outcome<S, D>,
    zeroState: S,
    zeroData: D,
    components: set<GateKind>,
    outside: Env,
    cfg: Config)

  datatype Machine<S, D> = Machine(state: S, data: D, world: World)

  function Shows<S, D, E>(u: Setup<S, D, E>, s: S, d: D, e: E): Env {
    u.outside.(action := (n: nat, rs: RetryState) =>
      match u.transition(n, s, d, e, rs)
      case Moved(_, _) => None
      case Failed(err) => Some(err))
  }

  // What the captured variable holds afterwards: what the last call left in it, or the zero value.
  function Captured<S, D, E>(u: Setup<S, D, E>, s: S, d: D, e: E, before: nat, calls: seq<Call>): (S, D) {
    if |calls| <= before then (u.zeroState, u.zeroData)
    else
      match u.transition(|calls| - 1, s, d, e, calls[|calls| - 1].state)
      case Moved(t, f) => (t, f)
      case Failed(_) => (u.zeroState, u.zeroData)
  }

  // The machine after its pipeline has answered.
  function Settled<S, D, E>(u: Setup<S, D, E>, m: Machine<S, D>, e: E, r: Option<Err>, w: World): Machine<S, D> {
    if r.Some? then m.(world := w)
    else
      var c := Captured(u, m.state, m.data, e, |m.world.calls|, w.calls);
      Machine(c.0, c.1, w)
  }

  function Handled<S, D, E>(u: Setup<S, D, E>, m: Machine<S, D>, e: E): (Option<Err>, Machine<S, D>) {
    var h := Compose(u.cfg, Shows(u, m.state, m.data, e), DefaultLayers(u.components));
    var (r, w) := h(m.world, RetryState(0, None, u.cfg.maxAttempts));
    (r, Settled(u, m, e, r, w))
  }

  // ---- All or nothing ----

  // One call of the transition that succeeded, and the event it was for.
  datatype Applied<+E> = Applied(event: E, call: nat, shown: RetryState)

  // The state and data after applying successful transitions one after another; None if one of them does not succeed.
  function Fold<S, D, E>(u: Setup<S, D, E>, s: S, d: D, log: seq<Applied<E>>): Option<(S, D)> {
    if log == [] then Some((s, d))
    else
      match Fold(u, s, d, log[..|log| - 1])
      case None => None
      case Some(before) =>
        var last := log[|log| - 1];
        match u.transition(last.call, before.0, before.1, last.event, last.shown)
        case Moved(t, f) => Some((t, f))
        case Failed(_) => None
  }

  // With MaxAttempts at least 1 a nil answer means that one transition, computed from the state before the event, has
  // succeeded and is now in effect, and that it was the last one tried; an error leaves state and data untouched.
  ghost predicate AllOrNothing<S, D, E>(u: Setup<S, D, E>, m: Machine<S, D>, e: E, r: Option<Err>, n: Machine<S, D>) {
    && m.world.calls <= n.world.calls
    && |n.world.calls| <= |m.world.calls| + u.cfg.maxAttempts
    && (r.Some? ==> n.state == m.state && n.data == m.data)
    && (r.None? ==>
          && |n.world.calls| > |m.world.calls|
          && var k := |n.world.calls| - 1;
          && n.world.calls[k].outcome.None?
          && u.transition(k, m.state, m.data, e, n.world.calls[k].state) == Moved(n.state, n.data))
    && (forall i | |m.world.calls| <= i < |n.world.calls| ::
          u.transition(i, m.state, m.data, e, n.world.calls[i].state).Moved? <==>
          r.None? && i == |n.world.calls| - 1)
  }

  lemma SettledAllOrNothing<S, D, E>(u: Setup<S, D, E>, m: Machine<S, D>, e: E, r: Option<Err>, w: World)
    requires Tells(m.world.calls, w.calls, r)
    requires Scripted(Shows(u, m.state, m.data, e), m.world.calls, w.calls)
    requires Adds(m.world.calls, w.calls, u.cfg.maxAttempts)
    ensures AllOrNothing(u, m, e, r, Settled(u, m, e, r, w))
  {
  }

  lemma HandledAllOrNothing<S, D, E>(u: Setup<S, D, E>, m: Machine<S, D>, e: E)
    requires u.cfg.maxAttempts > 0
    ensures var (r, n) := Handled(u, m, e); AllOrNothing(u, m, e, r, n)
  {
    var env := Shows(u, m.state, m.data, e);
    var layers := DefaultLayers(u.components);
    var rs := RetryState(0, None, u.cfg.maxAttempts);
    var (r, w) := Compose(u.cfg, env, layers)(m.world, rs);
    DefaultRetriesOnce(u.components);
    NilMeansSuccess(u.cfg, env, layers);
    CallsAreRecorded(u.cfg, env, layers);
    CallBound(u.cfg, env, layers);
    assert Power(u.cfg.maxAttempts, 1) == u.cfg.maxAttempts * Power(u.cfg.maxAttempts, 0) == u.cfg.maxAttempts;
    assert Tells(m.world.calls, w.calls, r);
    assert Scripted(env, m.world.calls, w.calls);
    assert Adds(m.world.calls, w.calls, u.cfg.maxAttempts);
    SettledAllOrNothing(u, m, e, r, w);
    hide Compose, DefaultLayers, Honest, Records, CallsAtMost, Power, Retries, NoFallback, AllOrNothing, Settled;
  }

  // With MaxAttempts 0 the answer is nil although no transition ran, and the zero values replace state and data.
  lemma ZeroAttemptsErase<S, D, E>(u: Setup<S, D, E>, m: Machine<S, D>, e: E)
    requires u.cfg.maxAttempts == 0 && forall k :: u.outside.gate(k).None?
    ensures var (r, n) := Handled(u, m, e);
            r.None? && n.world.calls == m.world.calls && n.state == u.zeroState && n.data == u.zeroData
  {
    DefaultRetriesOnce(u.components);
    ZeroAttemptsAnswerNil(u.cfg, Shows(u, m.state, m.data, e), DefaultLayers(u.components), m.world,
                          RetryState(0, None, 0));
    hide Compose, DefaultLayers;
  }

  // ---- Runs ----

  function Run<S, D, E>(u: Setup<S, D, E>, m: Machine<S, D>, events: seq<E>): Machine<S, D> {
    if events == [] then m else Handled(u, Run(u, m, events[..|events| - 1]), events[|events| - 1]).1
  }

  // The events answered with nil, in order.
  function Accepted<S, D, E>(u: Setup<S, D, E>, m: Machine<S, D>, events: seq<E>): seq<E> {
    if events == [] then []
    else
      var less := events[..|events| - 1];
      var e := events[|events| - 1];
      Accepted(u, m, less) + if Handled(u, Run(u, m, less), e).0.None? then [e] else []
  }

  function EventsOf<E>(log: seq<Applied<E>>): seq<E> {
    seq(|log|, i requires 0 <= i < |log| => log[i].event)
  }

  // Every entry is a call in the history that succeeded, and the calls are in order.
  predicate Witnessed<E>(log: seq<Applied<E>>, calls: seq<Call>) {
    && (forall i | 0 <= i < |log| :: log[i].call < |calls| && calls[log[i].call] == Call(log[i].shown, None))
    && (forall i, j | 0 <= i < j < |log| :: log[i].call < log[j].call)
  }

  lemma OneEntryMore<S, D, E>(u: Setup<S, D, E>, s: S, d: D, log: seq<Applied<E>>, m: Machine<S, D>, e: E,
                              r: Option<Err>, n: Machine<S, D>) returns (more: seq<Applied<E>>)
    requires Fold(u, s, d, log) == Some((m.state, m.data)) && Witnessed(log, m.world.calls)
    requires AllOrNothing(u, m, e, r, n)
    ensures EventsOf(more) == EventsOf(log) + if r.None? then [e] else []
    ensures Fold(u, s, d, more) == Some((n.state, n.data)) && Witnessed(more, n.world.calls)
  {
    more := log;
    if r.None? {
      var k := |n.world.calls| - 1;
      var entry := Applied(e, k, n.world.calls[k].state);
      more := log + [entry];
      assert k >= |m.world.calls| && n.world.calls[k].outcome.None?;
      assert u.transition(k, m.state, m.data, e, entry.shown) == Moved(n.state, n.data);
      assert more[..|log|] == log;
      assert EventsOf(more) == EventsOf(log) + [e] by { hide Fold, Witnessed, AllOrNothing; }
      assert Fold(u, s, d, more) == Some((n.state, n.data)) by { hide Witnessed, AllOrNothing, EventsOf; }
      assert m.world.calls <= n.world.calls;
      hide Fold, AllOrNothing, EventsOf;
      WitnessedMore(log, m.world.calls, entry, n.world.calls);
    } else {
      assert m.world.calls <= n.world.calls;
      hide Fold, AllOrNothing, EventsOf;
    }
  }

  lemma WitnessedMore<E>(log: seq<Applied<E>>, before: seq<Call>, entry: Applied<E>, after: seq<Call>)
    requires Witnessed(log, before) && before <= after
    requires |before| <= entry.call < |after| && after[entry.call] == Call(entry.shown, None)
    ensures Witnessed(log + [entry], after)
  {
  }

  // After any events, state and data are the fold of exactly the accepted events' successful transitions, each taken
  // from the call history.
  lemma {:induction false} StateIsTheFold<S, D, E>(u: Setup<S, D, E>, m: Machine<S, D>, events: seq<E>)
    returns (log: seq<Applied<E>>)
    requires u.cfg.maxAttempts > 0
    ensures EventsOf(log) == Accepted(u, m, events)
    ensures var n := Run(u, m, events);
            Fold(u, m.state, m.data, log) == Some((n.state, n.data)) && Witnessed(log, n.world.calls)
  {
    log := [];
    if events != [] {
      var less := events[..|events| - 1];
      var e := events[|events| - 1];
      var m' := Run(u, m, less);
      var (r, n) := Handled(u, m', e);
      HandledAllOrNothing(u, m', e);
      hide Handled, AllOrNothing, Fold, Witnessed, EventsOf;
      log := StateIsTheFold(u, m, less);
      log := OneEntryMore(u, m.state, m.data, log, m', e, r, n);
    }
  }

  // ---- The object ----

  class StateMachine<!S, !D, !E> {
    const transition: (nat, S, D, E, RetryState) -> Outcome<S, D>
    const zeroState: S
    const zeroData: D
    const outside: Env
    const policy: Policy
    const hasBucket: bool
    const base: int
    const cap: int
    const settings: seq<Setting>

    var state: S
    var data: D
    // Everything outside the machine, and the calls made so far.
    var world: World

    function Configuration(): Setup<S, D, E> {
      Setup(transition, zeroState, zeroData, ComponentsOf(settings), outside,
            Config(AttemptsOf(settings), policy, hasBucket, base, cap, FallbackOf(settings)))
    }

    function View(): Machine<S, D>
      reads this
    {
      Machine(state, data, world)
    }

    constructor (initialState: S, initialData: D, transition: (nat, S, D, E, RetryState) -> Outcome<S, D>,
                 zeroState: S, zeroData: D, outside: Env, policy: Policy, hasBucket: bool, base: int, cap: int,
                 settings: seq<Setting>, world: World)
      ensures View() == Machine(initialState, initialData, world)
      ensures Configuration() == Setup(transition, zeroState, zeroData, ComponentsOf(settings), outside,
                                Config(AttemptsOf(settings), policy, hasBucket, base, cap, FallbackOf(settings)))
    {
      this.transition, this.zeroState, this.zeroData := transition, zeroState, zeroData;
      this.outside, this.policy, this.hasBucket := outside, policy, hasBucket;
      this.base, this.cap, this.settings := base, cap, settings;
      this.state, this.data, this.world := initialState, initialData, world;
    }

    // The options build a fresh configuration for every event.
    method Handle(event: E) returns (err: Option<Err>)
      modifies this
      ensures (err, View()) == Handled(Configuration(), old(View()), event)
      ensures Configuration().cfg.maxAttempts > 0 ==> AllOrNothing(Configuration(), old(View()), event, err, View())
    {
      var env := Shows(Configuration(), state, data, event);
      var c := new PolicyConfig(env, policy, hasBucket, base, cap, settings, false);
      var before := |world.calls|;
      var r, w := c.Execute(world);
      if Configuration().cfg.maxAttempts > 0 {
        HandledAllOrNothing(Configuration(), View(), event);
      }
      if r.None? {
        var captured := Captured(Configuration(), state, data, event, before, w.calls);
        state, data := captured.0, captured.1;
      }
      world := w;
      err := r;
    }
  }
}
