// Execution and model settings: defaults, validation, and what the engine and the gateway may rely on afterwards.
module Config {
  import opened Basics
  import Composition
  import E = EngineSpec
  import G = Gateway
  import Ledger
  import Live = Liveness
  import M = StateModel
  import R = Rules
  import Text
  import W = Workflows

  datatype Execution = Execution(
    maxSteps: int, taskTimeout: int, nodeTimeout: int, maxParallelNodes: int, loopWindow: int, maxSameNodeVisits: int)

  datatype Model = Model(provider: string, model: string, timeout: int)

  datatype Retry = Retry(maxAttempts: int, baseDelay: int)

  datatype AI = AI(primary: Model, fallback: Model, routingMode: string, retry: Retry)

  const MOCK := "mock_function"

  function OrDefault(value: int, default: int): int {
    if value <= 0 then default else value
  }

  function Filled(e: Execution): Execution {
    Execution(OrDefault(e.maxSteps, 12), OrDefault(e.taskTimeout, 90 * G.SECOND), OrDefault(e.nodeTimeout, 10 * G.SECOND),
              OrDefault(e.maxParallelNodes, 16), OrDefault(e.loopWindow, 4), OrDefault(e.maxSameNodeVisits, 3))
  }

  /** Without a provider the mock takes its place, and its model name with it. */
  function FilledModel(m: Model, model: string): Model {
    var named := if m.provider == "" then m.(provider := MOCK, model := model) else m;
    named.(timeout := OrDefault(m.timeout, 5 * G.SECOND))
  }

  function FilledAI(ai: AI): (r: AI)
    ensures r.retry.maxAttempts >= 1 && r.retry.baseDelay > 0
  {
    AI(FilledModel(ai.primary, "mock-function-router"), FilledModel(ai.fallback, "mock-function-fallback"),
       if ai.routingMode == "" then "route_only" else ai.routingMode,
       Retry(OrDefault(ai.retry.maxAttempts, 2), OrDefault(ai.retry.baseDelay, 300_000_000)))
  }

  const MODES: seq<string> := ["route_only", "route_and_plan"]

  predicate Acceptable(ai: AI) {
    ai.routingMode in MODES && ai.primary.provider in G.PROVIDERS && ai.fallback.provider in G.PROVIDERS
  }

  /** What the engine and the gateway rely on. */
  predicate Established(e: Execution, ai: AI) {
    && e.maxSteps >= 1 && e.maxSameNodeVisits >= 1 && e.maxParallelNodes >= 1 && e.taskTimeout > 0 && e.nodeTimeout > 0
    && ai.retry.maxAttempts >= 1 && ai.retry.baseDelay > 0 && ai.primary.timeout > 0 && ai.fallback.timeout > 0
    && Acceptable(ai)
  }

  method ValidateAI(ai: AI) returns (error: Option<string>)
    ensures error.None? <==> Acceptable(ai)
  {
    if ai.routingMode !in MODES {
      return Some("ai.routing_mode must be route_only or route_and_plan");
    }
    var providers := [ai.primary.provider, ai.fallback.provider];
    for i := 0 to |providers|
      invariant forall j :: 0 <= j < i ==> providers[j] in G.PROVIDERS
    {
      var provider := providers[i];
      if provider == "" {
        return Some("ai provider must not be empty");
      }
      if provider == "mock" || provider == "compatible" {
        return Some("legacy ai provider is no longer supported");
      }
      if provider !in G.PROVIDERS {
        return Some("unsupported ai provider");
      }
    }
    assert providers[0] in G.PROVIDERS && providers[1] in G.PROVIDERS;
    error := None;
  }

  class Config {
    var execution: Execution
    var ai: AI

    constructor (execution: Execution, ai: AI)
      ensures this.execution == execution && this.ai == ai
    {
      this.execution, this.ai := execution, ai;
    }

    method ApplyDefaultsAndValidate() returns (error: Option<string>)
      modifies this
      ensures execution == Filled(old(execution)) && ai == FilledAI(old(ai))
      ensures error.None? <==> Acceptable(ai)
      ensures error.None? ==> Established(execution, ai)
    {
      FillExecution();
      FillModels();
      FillRouting();
      error := ValidateAI(ai);
    }

    method FillExecution()
      modifies this
      ensures execution == Filled(old(execution)) && ai == old(ai)
    {
      if execution.maxSteps <= 0 {
        execution := execution.(maxSteps := 12);
      }
      if execution.taskTimeout <= 0 {
        execution := execution.(taskTimeout := 90 * G.SECOND);
      }
      if execution.nodeTimeout <= 0 {
        execution := execution.(nodeTimeout := 10 * G.SECOND);
      }
      if execution.maxParallelNodes <= 0 {
        execution := execution.(maxParallelNodes := 16);
      }
      if execution.loopWindow <= 0 {
        execution := execution.(loopWindow := 4);
      }
      if execution.maxSameNodeVisits <= 0 {
        execution := execution.(maxSameNodeVisits := 3);
      }
    }

    method FillModels()
      modifies this
      ensures ai.primary == FilledModel(old(ai).primary, "mock-function-router")
      ensures ai.fallback == FilledModel(old(ai).fallback, "mock-function-fallback")
      ensures ai == old(ai).(primary := ai.primary, fallback := ai.fallback) && execution == old(execution)
    {
      if ai.primary.provider == "" {
        ai := ai.(primary := ai.primary.(provider := MOCK, model := "mock-function-router"));
      }
      if ai.primary.timeout <= 0 {
        ai := ai.(primary := ai.primary.(timeout := 5 * G.SECOND));
      }
      if ai.fallback.provider == "" {
        ai := ai.(fallback := ai.fallback.(provider := MOCK, model := "mock-function-fallback"));
      }
      if ai.fallback.timeout <= 0 {
        ai := ai.(fallback := ai.fallback.(timeout := 5 * G.SECOND));
      }
    }

    method FillRouting()
      modifies this
      ensures ai == old(ai).(routingMode := FilledAI(old(ai)).routingMode, retry := FilledAI(old(ai)).retry)
      ensures execution == old(execution)
    {
      if ai.routingMode == "" {
        ai := ai.(routingMode := "route_only");
      }
      if ai.retry.maxAttempts <= 0 {
        ai := ai.(retry := ai.retry.(maxAttempts := 2));
      }
      if ai.retry.baseDelay <= 0 {
        ai := ai.(retry := ai.retry.(baseDelay := 300_000_000));
      }
    }
  }

  /** A positive value stays, any other gives way to the default. */
  predicate Fills(value: int, default: int, filled: int) {
    filled == if value >= 1 then value else default
  }

  /** What each setting is when nothing sensible is configured: times in milliseconds, and the mock provider for a model without one. */
  lemma FillingMeans(e: Execution, ai: AI)
    ensures var f := Filled(e);
      && Fills(e.maxSteps, 12, f.maxSteps) && Fills(e.maxSameNodeVisits, 3, f.maxSameNodeVisits)
      && Fills(e.maxParallelNodes, 16, f.maxParallelNodes) && Fills(e.loopWindow, 4, f.loopWindow)
      && Fills(e.taskTimeout, 90_000 * MILLISECOND, f.taskTimeout) && Fills(e.nodeTimeout, 10_000 * MILLISECOND, f.nodeTimeout)
    ensures var f := FilledAI(ai);
      && Fills(ai.retry.maxAttempts, 2, f.retry.maxAttempts) && Fills(ai.retry.baseDelay, 300 * MILLISECOND, f.retry.baseDelay)
      && f.routingMode == (if ai.routingMode == "" then "route_only" else ai.routingMode)
      && FillsModel(ai.primary, "mock-function-router", f.primary) && FillsModel(ai.fallback, "mock-function-fallback", f.fallback)
  {
  }

  const MILLISECOND := 1_000_000

  predicate FillsModel(m: Model, name: string, filled: Model) {
    && Fills(m.timeout, 5_000 * MILLISECOND, filled.timeout)
    && (filled.provider, filled.model) == if m.provider == "" then ("mock_function", name) else (m.provider, m.model)
  }

  /** Filling in defaults twice changes nothing more, and an accepted configuration is left as it is. */
  lemma FillingIsIdempotent(e: Execution, ai: AI)
    ensures Filled(Filled(e)) == Filled(e) && FilledAI(FilledAI(ai)) == FilledAI(ai)
    ensures Established(e, ai) && e.loopWindow >= 1 ==> Filled(e) == e && FilledAI(ai) == ai
  {
  }

  // ----- what the settings mean to the rest of the system -----

  function EngineConfig(e: Execution, ai: AI, sensitive: seq<string>, cel: R.Cel): E.Config {
    E.Config(e.maxSteps, e.maxSameNodeVisits, ai.routingMode == "route_and_plan", sensitive, cel)
  }

  function GatewayConfig(ai: AI): G.Config
    requires ai.retry.baseDelay >= 0
  {
    G.Config(G.Model(ai.primary.provider, ai.primary.timeout), G.Model(ai.fallback.provider, ai.fallback.timeout),
             G.Retry(ai.retry.maxAttempts, ai.retry.baseDelay))
  }

  /** Every provider validation lets through is one the gateway knows. */
  lemma ProvidersSupported(provider: string, timeout: int)
    requires provider in G.PROVIDERS
    ensures G.Supported(G.Model(provider, timeout))
  {
    if provider == "mock_function" {
      MockNames();
    } else if provider == "openai" || provider == "openai_compatible" || provider == "qwen" {
      FirstNames();
    } else {
      OtherNames();
    }
  }

  lemma MockNames()
    ensures Text.ToLower(Text.TrimSpace("mock_function")) == "mock_function"
  {
  }

  lemma FirstNames()
    ensures Text.ToLower(Text.TrimSpace("openai")) == "openai"
    ensures Text.ToLower(Text.TrimSpace("openai_compatible")) == "openai_compatible"
    ensures Text.ToLower(Text.TrimSpace("qwen")) == "qwen"
  {
  }

  lemma OtherNames()
    ensures Text.ToLower(Text.TrimSpace("kimi")) == "kimi" && Text.ToLower(Text.TrimSpace("glm")) == "glm"
    ensures Text.ToLower(Text.TrimSpace("anthropic")) == "anthropic"
  {
  }

  /** Under any validated configuration and a registry that stays fixed, a run meets no protocol error, and its decisions cost what the retry settings allow. */
  lemma ValidatedRunsAreOrderly(
    e: Execution, ai: AI, sensitive: seq<string>, cel: R.Cel, env: E.Env, worlds: int -> G.World, st: M.State, book: Ledger.Book)
    requires Established(e, ai) && Composition.DecidedBy(env, GatewayConfig(ai), worlds) && Composition.CandidatesRegistered(env)
    ensures var (r, out) := E.RunTask(EngineConfig(e, ai, sensitive, cel), env, st, book);
      out.Errored? ==> !Composition.ProtocolError(out.error)
    ensures G.Supported(GatewayConfig(ai).primary) && G.Supported(GatewayConfig(ai).fallback)
  {
    Composition.GatewayRunsAreOrderly(EngineConfig(e, ai, sensitive, cel), env, GatewayConfig(ai), worlds, st, book);
    ProvidersSupported(ai.primary.provider, ai.primary.timeout);
    ProvidersSupported(ai.fallback.provider, ai.fallback.timeout);
  }

  /** Out of the box the weather demo completes: no provider configured and a step budget that is unset or at least five; and with no routing mode configured it does so without a plan. */
  lemma DefaultsCompleteTheDemo(
    e: Execution, ai: AI, sensitive: seq<string>, cel: R.Cel, env: E.Env, worlds: int -> G.World, show: Json -> string, st: M.State, book: Ledger.Book)
    requires ai.primary.provider == "" && !(1 <= e.maxSteps <= 4)
    requires Live.WeatherDemo(env, GatewayConfig(FilledAI(ai)), worlds, show, FilledAI(ai).primary.model)
    requires Live.PlainFacts(st.workingMemory) && M.Validated(st) && st.task.status != M.TimedOut
    ensures var cfg := EngineConfig(Filled(e), FilledAI(ai), sensitive, cel);
      var (r, out) := E.RunTask(cfg, env, st, book);
      W.Completes(Live.Weather(cfg, st.workingMemory), st, book, r, out) && (ai.routingMode == "" ==> r.st.ext == st.ext)
  {
    var cfg := EngineConfig(Filled(e), FilledAI(ai), sensitive, cel);
    Live.CourseIsShort(cfg, st);
    Live.WeatherCompletes(cfg, env, GatewayConfig(FilledAI(ai)), worlds, show, FilledAI(ai).primary.model, st, book);
  }
}
