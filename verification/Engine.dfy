// Building a pipeline from options, composing it once, and running it.
module Engine {
  import opened Wrappers
  import opened Errors
  import opened Pipeline
  import opened PipelineTheorems

  // The options that matter to the pipeline. For a policy each adds a layer. Every retry option also overwrites the one
  // MaxAttempts all retry layers read; every other one also configures its component, or with `on` false (no instance,
  // no positive timeout) takes it away again.
  datatype Setting =
    | WithMaxAttempts(attempts: nat)
    | WithRetry(attempts: nat)
    | WithFallbackErr(handler: Err -> Option<Err>)
    | WithGate(kind: GateKind, on: bool)

  const DEFAULT_MAX_ATTEMPTS: nat := 5

  function LayerOf(s: Setting): Layer {
    match s
    case WithMaxAttempts(_) => Retry
    case WithRetry(_) => Retry
    case WithFallbackErr(_) => Fallback
    case WithGate(kind, _) => Gate(kind)
  }

  function LayersOf(settings: seq<Setting>): seq<Layer> {
    seq(|settings|, i requires 0 <= i < |settings| => LayerOf(settings[i]))
  }

  function AttemptsOf(settings: seq<Setting>): nat {
    if settings == [] then DEFAULT_MAX_ATTEMPTS
    else
      match settings[|settings| - 1]
      case WithMaxAttempts(n) => n
      case WithRetry(n) => n
      case _ => AttemptsOf(settings[..|settings| - 1])
  }

  function FallbackOf(settings: seq<Setting>): Option<Err -> Option<Err>> {
    if settings == [] then None
    else
      match settings[|settings| - 1]
      case WithFallbackErr(h) => Some(h)
      case _ => FallbackOf(settings[..|settings| - 1])
  }

  // The components configured: for each kind the last option counts.
  function ComponentsOf(settings: seq<Setting>): set<GateKind> {
    if settings == [] then {}
    else
      var before := ComponentsOf(settings[..|settings| - 1]);
      match settings[|settings| - 1]
      case WithGate(kind, on) => if on then before + {kind} else before - {kind}
      case _ => before
  }

  function Optional(present: bool, layer: Layer): seq<Layer> {
    if present then [layer] else []
  }

  // What admits a call as a whole, in the legacy order.
  function OutsideRetry(c: set<GateKind>): seq<Layer> {
    [] + Optional(RateLimit in c, Gate(RateLimit)) + Optional(AdaptiveLimit in c, Gate(AdaptiveLimit))
    + Optional(BulkheadGate in c, Gate(BulkheadGate)) + Optional(PriorityBulkheadGate in c, Gate(PriorityBulkheadGate))
  }

  // Then the retry loop, and inside it what surrounds each single attempt.
  function DefaultLayers(c: set<GateKind>): seq<Layer> {
    OutsideRetry(c) + [Retry]
    + Optional(true, Gate(Deadline)) + Optional(Timeout in c, Gate(Timeout)) + Optional(Breaker in c, Gate(Breaker))
    + Optional(true, Gate(Instrument)) + Optional(RecoverPanics in c, Gate(RecoverPanics))
    + Optional(Chaos in c, Gate(Chaos))
  }

  // ---- What the options amount to ----

  predicate SetsAttempts(s: Setting) {
    s.WithMaxAttempts? || s.WithRetry?
  }

  // The last retry option decides how many attempts there are, five without any.
  lemma {:induction false} LastRetryOptionWins(settings: seq<Setting>, i: nat)
    requires i < |settings| && SetsAttempts(settings[i])
    requires forall j | i < j < |settings| :: !SetsAttempts(settings[j])
    ensures AttemptsOf(settings) == settings[i].attempts
  {
    if i < |settings| - 1 {
      LastRetryOptionWins(settings[..|settings| - 1], i);
    }
  }

  lemma {:induction false} FiveAttemptsByDefault(settings: seq<Setting>)
    requires forall j | 0 <= j < |settings| :: !SetsAttempts(settings[j])
    ensures AttemptsOf(settings) == 5
  {
    if settings != [] {
      FiveAttemptsByDefault(settings[..|settings| - 1]);
    }
  }

  // So does the last fallback option, if there is one.
  lemma {:induction false} LastFallbackWins(settings: seq<Setting>, i: nat)
    requires i < |settings| && settings[i].WithFallbackErr?
    requires forall j | i < j < |settings| :: !settings[j].WithFallbackErr?
    ensures FallbackOf(settings) == Some(settings[i].handler)
  {
    if i < |settings| - 1 {
      LastFallbackWins(settings[..|settings| - 1], i);
    }
  }

  lemma {:induction false} NoFallbackByDefault(settings: seq<Setting>)
    requires forall j | 0 <= j < |settings| :: !settings[j].WithFallbackErr?
    ensures FallbackOf(settings).None?
  {
    if settings != [] {
      NoFallbackByDefault(settings[..|settings| - 1]);
    }
  }

  // Each option of a policy becomes its own layer, in its place.
  lemma OptionsBecomeLayers(settings: seq<Setting>, i: nat)
    requires i < |settings|
    ensures |LayersOf(settings)| == |settings|
    ensures LayersOf(settings)[i].Retry? <==> SetsAttempts(settings[i])
    ensures LayersOf(settings)[i].Fallback? <==> settings[i].WithFallbackErr?
    ensures settings[i].WithGate? ==> LayersOf(settings)[i] == Gate(settings[i].kind)
  {
  }

  // A component is configured exactly if the last option for it switches it on.
  lemma {:induction false} LastGateOptionWins(settings: seq<Setting>, kind: GateKind)
    ensures kind in ComponentsOf(settings) <==>
              exists i | 0 <= i < |settings| ::
                settings[i] == WithGate(kind, true)
                && forall j | i < j < |settings| :: settings[j] != WithGate(kind, false)
  {
    if settings != [] {
      var n := |settings| - 1;
      var less := settings[..n];
      LastGateOptionWins(less, kind);
      assert forall i | 0 <= i < n :: less[i] == settings[i];
      if kind in ComponentsOf(settings) {
        if settings[n] != WithGate(kind, true) {
          var i :| 0 <= i < n && less[i] == WithGate(kind, true)
                   && forall j | i < j < n :: less[j] != WithGate(kind, false);
          assert settings[i] == WithGate(kind, true);
        } else {
          assert settings[n] == WithGate(kind, true);
        }
      }
      if i :| 0 <= i < |settings| && settings[i] == WithGate(kind, true)
              && forall j | i < j < |settings| :: settings[j] != WithGate(kind, false) {
        if i < n {
          assert less[i] == WithGate(kind, true);
        }
      }
      hide LayersOf;
    }
  }

  // ---- The default pipeline ----

  // Every layer there is, in the documented order: admission, retry, then what surrounds each attempt.
  function EveryLayer(): seq<Layer> {
    AdmissionLayers()
    + [Retry] + [Gate(Deadline)] + [Gate(Timeout)] + [Gate(Breaker)] + [Gate(Instrument)] + [Gate(RecoverPanics)]
    + [Gate(Chaos)]
  }

  function AdmissionLayers(): seq<Layer> {
    [] + [Gate(RateLimit)] + [Gate(AdaptiveLimit)] + [Gate(BulkheadGate)] + [Gate(PriorityBulkheadGate)]
  }

  // Retries, the deadline and the instrumenter are always there; the rest if it is configured.
  predicate Present(c: set<GateKind>, layer: Layer) {
    layer.Retry? || (layer.Gate? && (layer.kind == Deadline || layer.kind == Instrument || layer.kind in c))
  }

  function Kept(c: set<GateKind>, layers: seq<Layer>): seq<Layer> {
    if layers == [] then []
    else
      var last := layers[|layers| - 1];
      Kept(c, layers[..|layers| - 1]) + Optional(Present(c, last), last)
  }

  lemma KeptMore(c: set<GateKind>, layers: seq<Layer>, layer: Layer)
    ensures Kept(c, layers + [layer]) == Kept(c, layers) + Optional(Present(c, layer), layer)
  {
    assert (layers + [layer])[..|layers + [layer]| - 1] == layers;
  }

  lemma AdmissionIsKept(c: set<GateKind>)
    ensures Kept(c, AdmissionLayers()) == OutsideRetry(c)
  {
    assert Kept(c, []) == [];
    hide Kept, Optional;
    var a := [] + [Gate(RateLimit)];
    KeptMore(c, [], Gate(RateLimit));
    KeptMore(c, a, Gate(AdaptiveLimit));
    KeptMore(c, a + [Gate(AdaptiveLimit)], Gate(BulkheadGate));
    KeptMore(c, a + [Gate(AdaptiveLimit)] + [Gate(BulkheadGate)], Gate(PriorityBulkheadGate));
  }

  // Three layers more.
  lemma KeptThree(c: set<GateKind>, layers: seq<Layer>, x: Layer, y: Layer, z: Layer)
    ensures Kept(c, layers + [x] + [y] + [z])
         == Kept(c, layers) + Optional(Present(c, x), x) + Optional(Present(c, y), y) + Optional(Present(c, z), z)
  {
    hide Kept, Optional, Present;
    KeptMore(c, layers, x);
    KeptMore(c, layers + [x], y);
    KeptMore(c, layers + [x] + [y], z);
  }

  lemma FirstHalfIsKept(c: set<GateKind>)
    ensures Kept(c, AdmissionLayers() + [Retry] + [Gate(Deadline)] + [Gate(Timeout)])
         == OutsideRetry(c) + [Retry] + Optional(true, Gate(Deadline)) + Optional(Timeout in c, Gate(Timeout))
  {
    assert Optional(true, Retry) == [Retry];
    hide Kept, Optional, OutsideRetry, AdmissionLayers;
    AdmissionIsKept(c);
    KeptThree(c, AdmissionLayers(), Retry, Gate(Deadline), Gate(Timeout));
  }

  // The default pipeline is exactly this list with the components not configured left out.
  lemma DefaultIsEveryConfiguredLayer(c: set<GateKind>)
    ensures DefaultLayers(c) == Kept(c, EveryLayer())
  {
    hide Kept, Optional, OutsideRetry, AdmissionLayers;
    FirstHalfIsKept(c);
    var b := AdmissionLayers() + [Retry] + [Gate(Deadline)] + [Gate(Timeout)];
    KeptThree(c, b, Gate(Breaker), Gate(Instrument), Gate(RecoverPanics));
    KeptMore(c, b + [Gate(Breaker)] + [Gate(Instrument)] + [Gate(RecoverPanics)], Gate(Chaos));
  }

  lemma {:induction false} RetriesConcat(a: seq<Layer>, b: seq<Layer>)
    ensures Retries(a + b) == Retries(a) + Retries(b)
  {
    if a == [] {
      assert a + b == b;
    } else {
      assert (a + b)[1..] == a[1..] + b;
      RetriesConcat(a[1..], b);
    }
  }

  function RetrySettings(settings: seq<Setting>): nat {
    if settings == [] then 0
    else RetrySettings(settings[1..]) + (if settings[0].WithRetry? || settings[0].WithMaxAttempts? then 1 else 0)
  }

  // A policy retries once per retry option.
  lemma {:induction false} RetriesOfSettings(settings: seq<Setting>)
    ensures Retries(LayersOf(settings)) == RetrySettings(settings)
  {
    if settings != [] {
      assert LayersOf(settings)[1..] == LayersOf(settings[1..]);
      RetriesOfSettings(settings[1..]);
    }
  }

  lemma GrowBy(layers: seq<Layer>, present: bool, kind: GateKind) returns (all: seq<Layer>)
    requires NoFallback(layers)
    ensures all == layers + Optional(present, Gate(kind))
    ensures Retries(all) == Retries(layers) && NoFallback(all)
  {
    all := layers + Optional(present, Gate(kind));
    RetriesConcat(layers, Optional(present, Gate(kind)));
  }

  lemma OutsideIsGates(c: set<GateKind>)
    ensures Retries(OutsideRetry(c)) == 0 && NoFallback(OutsideRetry(c))
  {
    assert Retries([]) == 0 && NoFallback([]);
    hide Retries, NoFallback, Optional;
    var all := GrowBy([], RateLimit in c, RateLimit);
    all := GrowBy(all, AdaptiveLimit in c, AdaptiveLimit);
    all := GrowBy(all, BulkheadGate in c, BulkheadGate);
    all := GrowBy(all, PriorityBulkheadGate in c, PriorityBulkheadGate);
  }

  lemma AddRetry(layers: seq<Layer>)
    requires NoFallback(layers)
    ensures Retries(layers + [Retry]) == Retries(layers) + 1 && NoFallback(layers + [Retry])
  {
    RetriesConcat(layers, [Retry]);
  }

  // Without options the pipeline has exactly one retry layer, and no fallback layer.
  lemma DefaultRetriesOnce(c: set<GateKind>)
    ensures Retries(DefaultLayers(c)) == 1 && NoFallback(DefaultLayers(c))
  {
    OutsideIsGates(c);
    AddRetry(OutsideRetry(c));
    hide Retries, NoFallback, Optional, OutsideRetry;
    var all := GrowBy(OutsideRetry(c) + [Retry], true, Deadline);
    all := GrowBy(all, Timeout in c, Timeout);
    all := GrowBy(all, Breaker in c, Breaker);
    all := GrowBy(all, true, Instrument);
    all := GrowBy(all, RecoverPanics in c, RecoverPanics);
    all := GrowBy(all, Chaos in c, Chaos);
  }

  // What every call through a pipeline may rely on: the bound on the action's calls; nothing after a stopping error,
  // also under fallback layers outside every retry layer; and what nil means.
  ghost predicate Promised(cfg: Config, layers: seq<Layer>, w: World, result: Option<Err>, world: World) {
    && Adds(w.calls, world.calls, Power(cfg.maxAttempts, Retries(layers)))
    && (NoFallback(layers) && Coherent(w) ==> Stops(w, world, result))
    && (Coherent(w) ==>
          forall k | 0 <= k <= |layers| && Retries(layers[..k]) == 0 && NoFallback(layers[k..]) :: NoneAfter(w, world))
    && (NoFallback(layers) && cfg.maxAttempts > 0 ==> Tells(w.calls, world.calls, result))
  }

  lemma KeepsPromises(cfg: Config, env: Env, layers: seq<Layer>, w: World, rs: RetryState)
    ensures var (r, v) := Compose(cfg, env, layers)(w, rs); Promised(cfg, layers, w, r, v)
  {
    hide Compose, Stops, NoneAfter, Tells, Power, Retries, Coherent, NoFallback;
    CallBound(cfg, env, layers);
    forall k | 0 <= k <= |layers| && Retries(layers[..k]) == 0 && NoFallback(layers[k..])
      ensures LastWord(Compose(cfg, env, layers))
    {
      assert layers[..k] + layers[k..] == layers;
      StoppingIsFinalUnderFallback(cfg, env, layers[..k], layers[k..]);
    }
    if NoFallback(layers) {
      StoppingIsFinal(cfg, env, layers);
      if cfg.maxAttempts > 0 {
        NilMeansSuccess(cfg, env, layers);
      }
    }
  }

  lemma DefaultBound(cfg: Config, c: set<GateKind>, w: World, result: Option<Err>, world: World)
    ensures Promised(cfg, DefaultLayers(c), w, result, world) ==> |world.calls| <= |w.calls| + cfg.maxAttempts
  {
    DefaultRetriesOnce(c);
    assert Power(cfg.maxAttempts, 1) == cfg.maxAttempts * Power(cfg.maxAttempts, 0) == cfg.maxAttempts;
    hide Retries, DefaultLayers, NoFallback, Stops, NoneAfter, Tells, Power;
  }

  class PolicyConfig {
    const env: Env
    const policy: Policy
    const hasBucket: bool
    const base: int
    const cap: int

    var maxAttempts: nat
    var fallback: Option<Err -> Option<Err>>
    var components: set<GateKind>
    var pipeline: seq<Layer>
    var composed: Option<Handler>

    function Settings(): Config
      reads this
    {
      Config(maxAttempts, policy, hasBucket, base, cap, fallback)
    }

    ghost predicate Valid()
      reads this
    {
      composed.Some? ==> pipeline != [] && composed.value == Compose(Settings(), env, pipeline)
    }

    // Options are applied in order. For a policy each also appends its layer; for a single call there is no list yet
    // to append to.
    constructor (env: Env, policy: Policy, hasBucket: bool, base: int, cap: int, settings: seq<Setting>,
                 forPolicy: bool)
      ensures Valid() && composed.None?
      ensures pipeline == if forPolicy then LayersOf(settings) else []
      ensures Settings() == Config(AttemptsOf(settings), policy, hasBucket, base, cap, FallbackOf(settings))
      ensures this.env == env && components == ComponentsOf(settings)
    {
      this.env, this.policy, this.hasBucket, this.base, this.cap := env, policy, hasBucket, base, cap;
      maxAttempts, fallback, components, pipeline, composed := DEFAULT_MAX_ATTEMPTS, None, {}, [], None;
      new;
      for k := 0 to |settings|
        invariant this.composed.None?
        invariant this.pipeline == if forPolicy then LayersOf(settings[..k]) else []
        invariant this.maxAttempts == AttemptsOf(settings[..k])
        invariant this.fallback == FallbackOf(settings[..k])
        invariant this.components == ComponentsOf(settings[..k])
      {
        assert settings[..k + 1][..k] == settings[..k];
        match settings[k] {
          case WithMaxAttempts(n) => maxAttempts := n;
          case WithRetry(n) => maxAttempts := n;
          case WithFallbackErr(h) => fallback := Some(h);
          case WithGate(kind, on) => components := if on then components + {kind} else components - {kind};
        }
        if forPolicy {
          pipeline := pipeline + [LayerOf(settings[k])];
        }
      }
      assert settings[..|settings|] == settings;
    }

    method AddIf(present: bool, layer: Layer)
      modifies this`pipeline
      ensures pipeline == old(pipeline) + Optional(present, layer)
    {
      if present {
        pipeline := pipeline + [layer];
      }
    }

    method BuildDefaultPipeline()
      requires pipeline == []
      modifies this`pipeline
      ensures pipeline == DefaultLayers(components)
    {
      hide Optional;
      AddIf(RateLimit in components, Gate(RateLimit));
      AddIf(AdaptiveLimit in components, Gate(AdaptiveLimit));
      AddIf(BulkheadGate in components, Gate(BulkheadGate));
      AddIf(PriorityBulkheadGate in components, Gate(PriorityBulkheadGate));
      pipeline := pipeline + [Retry];
      AddIf(true, Gate(Deadline));
      AddIf(Timeout in components, Gate(Timeout));
      AddIf(Breaker in components, Gate(Breaker));
      AddIf(true, Gate(Instrument));
      AddIf(RecoverPanics in components, Gate(RecoverPanics));
      AddIf(Chaos in components, Gate(Chaos));
    }

    // Composes on first use, innermost layer first, and keeps the result.
    method GetComposedPipeline() returns (h: Handler)
      requires Valid()
      modifies this`pipeline, this`composed
      ensures Valid() && composed == Some(h)
      ensures h == Compose(Settings(), env, pipeline)
      ensures old(composed).Some? ==> pipeline == old(pipeline) && composed == old(composed)
      ensures old(pipeline) != [] ==> pipeline == old(pipeline)
      ensures old(pipeline) == [] && old(composed).None? ==> pipeline == DefaultLayers(components)
    {
      if composed.Some? {
        return composed.value;
      }
      if |pipeline| == 0 {
        BuildDefaultPipeline();
      }
      h := Terminal(env);
      for i := |pipeline| downto 0
        modifies {}
        invariant h == Compose(Settings(), env, pipeline[i..])
      {
        h := Wrap(Settings(), env, pipeline[i], h);
        assert pipeline[i..][1..] == pipeline[i + 1..];
      }
      assert pipeline[0..] == pipeline;
      composed := Some(h);
    }

    // One call through the pipeline.
    method Execute(w: World) returns (result: Option<Err>, world: World)
      requires Valid()
      modifies this`pipeline, this`composed
      ensures Valid()
      ensures old(pipeline) == [] ==> pipeline == DefaultLayers(components) && |world.calls| <= |w.calls| + maxAttempts
      ensures (result, world) == Compose(Settings(), env, pipeline)(w, RetryState(0, None, maxAttempts))
      ensures Promised(Settings(), pipeline, w, result, world)
    {
      hide DefaultLayers, Compose, Promised;
      var h := GetComposedPipeline();
      var (r, v) := h(w, RetryState(0, None, maxAttempts));
      result, world := r, v;
      KeepsPromises(Settings(), env, pipeline, w, RetryState(0, None, maxAttempts));
      DefaultBound(Settings(), components, w, result, world);
    }
  }
}
