// The weather demo always reaches its answer: scheduler, gateway, mock provider and nodes together.
module Liveness {
  import opened Basics
  import opened EngineSpec
  import opened Ledger
  import opened Text
  import opened Workflows
  import B = Bounds
  import C = Contract
  import Composition
  import G = Gateway
  import M = StateModel
  import Mock = MockProvider
  import W = WeatherNodes

  // ----- the weather workflow -----

  /** Absent, or a nonblank string. */
  predicate Plain(wm: JsonMap, key: string) {
    key in wm ==> wm[key].Str? && !Blank(wm[key].s)
  }

  predicate PlainFacts(wm: JsonMap) {
    Plain(wm, W.LOCATION) && Plain(wm, W.WEATHER) && Plain(wm, W.FINAL_TEXT)
  }

  /** The weather nodes are registered as builtins, beside any others. */
  ghost predicate WeatherWorld(env: Env, show: Json -> string, model: string) {
    && (forall n :: Mock.HasWeatherWorkflow(env.candidates(n)))
    && (forall n, id :: id in Mock.WEATHER_NODES ==> env.lookup(n, id) == Found(None))
    && (forall n, id, view :: id in Mock.WEATHER_NODES ==>
          env.checkBefore(n, id, view) == W.CheckBefore(show, id, view)
          && env.execute(n, id, view) == W.Execute(show, W.MockGenerate(model), id, view))
  }

  /** The demo as a whole: a healthy store, the mock provider behind the gateway, and the weather nodes. */
  ghost predicate WeatherDemo(env: Env, gw: G.Config, worlds: int -> G.World, show: Json -> string, model: string) {
    Healthy(env) && MockGateway(gw, worlds) && Composition.DecidedBy(env, gw, worlds) && WeatherWorld(env, show, model)
  }

  function FactOf(id: string): string {
    if id == Mock.RESOLVE then W.LOCATION else if id == Mock.QUERY then W.WEATHER else W.FINAL_TEXT
  }

  /** The next node the facts call for. */
  function Needed(text: string, wm: JsonMap): string {
    if W.LOCATION !in wm && Mock.AsksWeather(text) then Mock.RESOLVE
    else if W.LOCATION in wm && W.WEATHER !in wm then Mock.QUERY
    else if W.WEATHER in wm && W.FINAL_TEXT !in wm then Mock.ANSWER
    else C.TERMINATE
  }

  /** All nodes the facts call for, in order. */
  function Itinerary(text: string, wm: JsonMap): seq<string> {
    var l, w, f, asks := W.LOCATION in wm, W.WEATHER in wm, W.FINAL_TEXT in wm, Mock.AsksWeather(text);
    (if !l && asks then [Mock.RESOLVE] else [])
    + (if !w && (l || asks) then [Mock.QUERY] else [])
    + (if !f && (w || l || asks) then [Mock.ANSWER] else [])
  }

  /** The text speaks of the location and the weather, as far as they are known. */
  predicate Mentions(text: string, wm: JsonMap) {
    Contains(text, TrimSpace(StringAt(wm, W.LOCATION))) && Contains(text, TrimSpace(StringAt(wm, W.WEATHER)))
  }

  /** The fact is what its node is to say. */
  predicate Truthful(id: string, wm: JsonMap, fact: string) {
    if id == Mock.RESOLVE then fact == W.HERE
    else if id == Mock.QUERY then fact == W.TODAY
    else Mentions(fact, wm)
  }

  /** The patch of a weather node adds its own fact, in memory and output alike, and leaves the other facts and the extensions alone. */
  predicate Provides(id: string, wm: JsonMap, patch: M.Patch) {
    && patch.ext == map[] && PlainFacts(patch.workingMemory)
    && patch.nodeOutputs.Keys == {id}
    && StringAt(patch.nodeOutputs[id], FactOf(id)) == StringAt(patch.workingMemory, FactOf(id))
    && Truthful(id, wm, StringAt(patch.workingMemory, FactOf(id)))
    && (W.LOCATION in patch.workingMemory <==> id == Mock.RESOLVE)
    && (W.WEATHER in patch.workingMemory <==> id == Mock.QUERY)
    && (W.FINAL_TEXT in patch.workingMemory <==> id == Mock.ANSWER)
  }

  lemma NamesDiffer()
    ensures Mock.RESOLVE != Mock.QUERY && Mock.RESOLVE != Mock.ANSWER && Mock.QUERY != Mock.ANSWER
    ensures C.TERMINATE !in Mock.WEATHER_NODES
    ensures W.LOCATION != W.WEATHER && W.LOCATION != W.FINAL_TEXT && W.WEATHER != W.FINAL_TEXT
  {
    assert Mock.QUERY[0] != C.TERMINATE[0];
  }

  lemma AskingIsNotBlank(text: string)
    ensures Mock.AsksWeather(text) ==> !Blank(text)
  {
  }

  lemma ItineraryStep(text: string, wm: JsonMap, patch: M.Patch)
    requires Needed(text, wm) != C.TERMINATE && Provides(Needed(text, wm), wm, patch)
    ensures Itinerary(text, wm) == [Needed(text, wm)] + Itinerary(text, wm + patch.workingMemory)
  {
    NamesDiffer();
  }

  lemma ItineraryDone(text: string, wm: JsonMap)
    requires Needed(text, wm) == C.TERMINATE
    ensures Itinerary(text, wm) == []
  {
    NamesDiffer();
  }

  lemma PatchKeepsFacts(wm: JsonMap, patch: M.Patch, id: string)
    requires PlainFacts(wm) && Provides(id, wm, patch)
    ensures PlainFacts(wm + patch.workingMemory)
  {
  }

  lemma ResolveSucceeds(show: Json -> string, generate: W.Generator, st: M.State)
    requires W.LOCATION !in st.workingMemory && !Blank(st.input.text)
    ensures W.CheckBefore(show, Mock.RESOLVE, st).allowed
    ensures var ran := W.Execute(show, generate, Mock.RESOLVE, st);
      ran.NodeSucceeded? && Provides(Mock.RESOLVE, st.workingMemory, ran.patch)
  {
    NamesDiffer();
    W.LabelsAreSolid();
  }

  lemma QuerySucceeds(show: Json -> string, generate: W.Generator, st: M.State)
    requires W.WEATHER !in st.workingMemory && !Blank(W.Sprint(show, st.workingMemory, W.LOCATION))
    ensures W.CheckBefore(show, Mock.QUERY, st).allowed
    ensures var ran := W.Execute(show, generate, Mock.QUERY, st);
      ran.NodeSucceeded? && Provides(Mock.QUERY, st.workingMemory, ran.patch)
  {
    NamesDiffer();
    W.LabelsAreSolid();
  }

  lemma AnswerProvides(g: W.Generation, wm: JsonMap)
    requires !Blank(g.text) && Mentions(TrimSpace(g.text), wm)
    ensures W.Answered(g).NodeSucceeded? && Provides(Mock.ANSWER, wm, W.Answered(g).patch)
  {
    NamesDiffer();
    W.TrimmedStaysSolid(g.text);
    AnswerKeys(W.Answered(g).patch.workingMemory, g);
    AnswerOutput(W.Answered(g).patch.nodeOutputs, g);
  }

  lemma AnswerOutput(outputs: M.Outputs, g: W.Generation)
    requires !Blank(g.text) && outputs == W.Answered(g).patch.nodeOutputs
    ensures outputs.Keys == {Mock.ANSWER} && StringAt(outputs[Mock.ANSWER], W.FINAL_TEXT) == TrimSpace(g.text)
  {
  }

  /** The generated text speaks of the facts it was given. */
  lemma MockTextMentions(show: Json -> string, wm: JsonMap, prompt: string)
    requires !Blank(W.Sprint(show, wm, W.LOCATION)) && !Blank(W.Sprint(show, wm, W.WEATHER))
    ensures Mentions(TrimSpace(W.MockText(prompt, W.Sprint(show, wm, W.LOCATION), W.Sprint(show, wm, W.WEATHER))), wm)
  {
    var location, weather := W.Sprint(show, wm, W.LOCATION), W.Sprint(show, wm, W.WEATHER);
    W.SentenceHolds(TrimSpace(location), TrimSpace(weather));
    var text := W.MockText(prompt, location, weather);
    assert TrimSpace(text) == text;
    EverythingHolds(text);
    TrimSpaceShape("");
  }

  lemma EverythingHolds(text: string)
    ensures Contains(text, "")
  {
    assert "" <= text[0..];
  }

  lemma AnswerKeys(wm: JsonMap, g: W.Generation)
    requires !Blank(g.text) && wm == W.Answered(g).patch.workingMemory
    ensures W.FINAL_TEXT in wm && wm[W.FINAL_TEXT] == Str(TrimSpace(g.text)) && W.LOCATION !in wm && W.WEATHER !in wm
  {
  }

  lemma AnswerSucceeds(show: Json -> string, model: string, st: M.State)
    requires W.FINAL_TEXT !in st.workingMemory
    requires !Blank(W.Sprint(show, st.workingMemory, W.LOCATION)) && !Blank(W.Sprint(show, st.workingMemory, W.WEATHER))
    ensures W.CheckBefore(show, Mock.ANSWER, st).allowed
    ensures var ran := W.Execute(show, W.MockGenerate(model), Mock.ANSWER, st);
      ran.NodeSucceeded? && Provides(Mock.ANSWER, st.workingMemory, ran.patch)
  {
    NamesDiffer();
    var location, weather := W.Sprint(show, st.workingMemory, W.LOCATION), W.Sprint(show, st.workingMemory, W.WEATHER);
    var prompt := W.Prompt(st.input.text, location, weather);
    W.PromptIsSolid(st.input.text, location, weather);
    W.MockTextIsSolid(prompt, location, weather);
    MockTextMentions(show, st.workingMemory, prompt);
    AnswerProvides(W.Generation(W.MockText(prompt, location, weather), "mock_function", model), st.workingMemory);
  }

  /** A plain fact prints nonblank; a missing one prints as nil. */
  lemma PlainPrints(show: Json -> string, wm: JsonMap, key: string)
    requires Plain(wm, key)
    ensures !Blank(W.Sprint(show, wm, key))
    ensures StringAt(wm, key) == "" <==> key !in wm
  {
    W.LabelsAreSolid();
  }

  /** The node the facts call for admits the state, succeeds and provides its fact. */
  lemma NeededSucceeds(show: Json -> string, model: string, st: M.State, id: string)
    requires PlainFacts(st.workingMemory) && id == Needed(st.input.text, st.workingMemory) != C.TERMINATE
    ensures id in Mock.WEATHER_NODES && W.CheckBefore(show, id, st).allowed
    ensures var ran := W.Execute(show, W.MockGenerate(model), id, st);
      ran.NodeSucceeded? && Provides(id, st.workingMemory, ran.patch)
  {
    PlainPrints(show, st.workingMemory, W.LOCATION);
    PlainPrints(show, st.workingMemory, W.WEATHER);
    AskingIsNotBlank(st.input.text);
    if id == Mock.RESOLVE {
      ResolveAsked(st.input.text, st.workingMemory);
      ResolveSucceeds(show, W.MockGenerate(model), st);
    } else if id == Mock.QUERY {
      QueryAsked(st.input.text, st.workingMemory);
      QuerySucceeds(show, W.MockGenerate(model), st);
    } else {
      AnswerSucceeds(show, model, st);
    }
  }

  lemma ResolveAsked(text: string, wm: JsonMap)
    requires Needed(text, wm) == Mock.RESOLVE
    ensures W.LOCATION !in wm && Mock.AsksWeather(text)
  {
    NamesDiffer();
  }

  lemma QueryAsked(text: string, wm: JsonMap)
    requires Needed(text, wm) == Mock.QUERY
    ensures W.WEATHER !in wm
  {
    NamesDiffer();
  }

  lemma HopFollowsFacts(req: C.Request)
    requires PlainFacts(req.state.workingMemory)
    ensures Mock.WeatherHop(req).nextNode == Needed(req.userInput, req.state.workingMemory)
  {
    var show := (v: Json) => "";
    PlainPrints(show, req.state.workingMemory, W.LOCATION);
    PlainPrints(show, req.state.workingMemory, W.WEATHER);
    PlainPrints(show, req.state.workingMemory, W.FINAL_TEXT);
  }

  /** The mock provider routes by the facts. */
  lemma MockFollowsFacts(req: C.Request)
    requires PlainFacts(req.state.workingMemory) && Mock.HasWeatherWorkflow(req.candidates)
    ensures Mock.Invoke(req).Ok?
    ensures !Mock.Plans(req) ==> Mock.MockRoute(req).value.nextNode == Needed(req.userInput, req.state.workingMemory)
  {
    HopFollowsFacts(req);
  }

  // ----- the run -----

  predicate PlanDue(cfg: Config, st: M.State) {
    cfg.planning && "latest_plan" !in st.ext
  }

  /** The hops the state calls for. */
  function Ahead(st: M.State): seq<string> {
    Itinerary(st.input.text, st.workingMemory)
  }

  /** All decisions to come: a plan has no next node. */
  function Course(cfg: Config, st: M.State): seq<string> {
    (if PlanDue(cfg, st) then [""] else []) + Ahead(st) + [C.TERMINATE]
  }

  /** The extensions a run ends with. */
  function EndExt(cfg: Config, st: M.State): JsonMap {
    if PlanDue(cfg, st) then st.ext["latest_plan" := PlanJson(Mock.PLAN)] else st.ext
  }

  /** Nothing the state calls for is missing. */
  predicate Done(st: M.State) {
    Ahead(st) == [] && PlainFacts(st.workingMemory)
  }

  /** The fact was there before, or its node has provided it since. */
  predicate FactKept(id: string, wm0: JsonMap, wm: JsonMap) {
    var key := FactOf(id);
    if key in wm0 then key in wm && wm[key] == wm0[key]
    else key in wm ==> Truthful(id, wm, StringAt(wm, key))
  }

  predicate FactsKept(wm0: JsonMap, wm: JsonMap) {
    forall id :: id in Mock.WEATHER_NODES ==> FactKept(id, wm0, wm)
  }

  /** An answer given in this run is the last thing to do. */
  predicate AnswerIsLast(text: string, wm0: JsonMap, wm: JsonMap) {
    W.FINAL_TEXT in wm && W.FINAL_TEXT !in wm0 ==> Needed(text, wm) == C.TERMINATE
  }

  predicate Ready(cfg: Config, wm0: JsonMap, r: Run) {
    && FactsKept(wm0, r.st.workingMemory) && AnswerIsLast(r.st.input.text, wm0, r.st.workingMemory)
    && PlainFacts(r.st.workingMemory) && M.Validated(r.st) && r.st.task.status != M.TimedOut
    && r.book.task.Some? && cfg.maxSameNodeVisits >= 1
    && Unvisited(r.visited, r.st.workingMemory)
  }

  /** The goal: nothing is missing, and every fact is a given one or its node's own. */
  function Weather(cfg: Config, wm0: JsonMap): Workflow {
    Workflow(r => Ready(cfg, wm0, r), Ahead, st => Course(cfg, st), st => EndExt(cfg, st), st => Done(st) && FactsKept(wm0, st.workingMemory))
  }

  lemma PlanAdvances(cfg: Config, wm0: JsonMap, n: int, r: Run)
    requires Ready(cfg, wm0, r) && PlanDue(cfg, r.st)
    ensures Advances(Weather(cfg, wm0), r, (TakePlan(n, r, Mock.PLAN_CALL, Mock.PLAN), Next))
  {
    var r1 := TakePlan(n, r, Mock.PLAN_CALL, Mock.PLAN);
    NextsAppend(r.st.decisionLog, PlanRecord(n, Mock.PLAN_CALL, Mock.PLAN));
    assert Ready(cfg, wm0, r1) && Ahead(r1.st) == Ahead(r.st) && !PlanDue(cfg, r1.st);
    HeadMoves(Nexts(r.st.decisionLog), "", Course(cfg, r1.st));
    assert Course(cfg, r.st) == [""] + Course(cfg, r1.st);
  }

  lemma TerminationAdvances(cfg: Config, wm0: JsonMap, env: Env, n: int, r: Run, call: C.FunctionCall, route: C.RouteDecision)
    requires Ready(cfg, wm0, r) && !PlanDue(cfg, r.st) && route.nextNode == C.TERMINATE == Needed(r.st.input.text, r.st.workingMemory)
    ensures Advances(Weather(cfg, wm0), r, TakeRoute(cfg, env, n, r, call, route))
  {
    ItineraryDone(r.st.input.text, r.st.workingMemory);
    NextsAppend(r.st.decisionLog, RouteRecord(n, call, route));
  }

  lemma FactsStayKept(text: string, wm0: JsonMap, wm: JsonMap, id: string, patch: M.Patch)
    requires FactsKept(wm0, wm) && AnswerIsLast(text, wm0, wm)
    requires id == Needed(text, wm) != C.TERMINATE && id in Mock.WEATHER_NODES && Provides(id, wm, patch)
    ensures FactsKept(wm0, wm + patch.workingMemory) && AnswerIsLast(text, wm0, wm + patch.workingMemory)
  {
    NamesDiffer();
    NeededIsMissing(text, wm);
    var after := wm + patch.workingMemory;
    forall other | other in Mock.WEATHER_NODES ensures FactKept(other, wm0, after) {
      assert FactKept(other, wm0, wm) && FactKept(Mock.ANSWER, wm0, wm);
      if other != id {
        OtherFactStays(other, wm, id, patch);
      }
    }
  }

  lemma OtherFactStays(other: string, wm: JsonMap, id: string, patch: M.Patch)
    requires other in Mock.WEATHER_NODES && id in Mock.WEATHER_NODES && other != id && Provides(id, wm, patch)
    ensures var after, key := wm + patch.workingMemory, FactOf(other);
      (key in after <==> key in wm) && (key in wm ==> after[key] == wm[key]) && StringAt(after, key) == StringAt(wm, key)
  {
    NamesDiffer();
  }

  predicate Unvisited(visited: map<string, int>, wm: JsonMap) {
    forall id :: id in Mock.WEATHER_NODES && FactOf(id) !in wm ==> Visits(visited, id) == 0
  }

  lemma UnvisitedStay(visited: map<string, int>, wm: JsonMap, id: string, patch: M.Patch)
    requires Unvisited(visited, wm) && id in Mock.WEATHER_NODES && Provides(id, wm, patch)
    ensures Unvisited(visited[id := Visits(visited, id) + 1], wm + patch.workingMemory)
  {
    NamesDiffer();
  }

  /** What an executed hop makes of the state. */
  lemma ExecutedState(cfg: Config, r: Run, r1: Run, id: string, patch: M.Patch)
    requires Executed(cfg, r, r1, id, patch) && patch.ext == map[]
    ensures r1.st.workingMemory == r.st.workingMemory + patch.workingMemory && r1.st.ext == r.st.ext && r1.st.input == r.st.input
    ensures r1.st.task == r.st.task.(status := M.Running) && r1.st.traceId == r.st.traceId && r1.book.task.Some?
    ensures r1.visited == r.visited[id := Visits(r.visited, id) + 1]
  {
    assert r.st.ext + patch.ext == r.st.ext;
  }

  lemma ExecutionReady(cfg: Config, wm0: JsonMap, r: Run, r1: Run, id: string, patch: M.Patch)
    requires Ready(cfg, wm0, r) && id in Mock.WEATHER_NODES && id == Needed(r.st.input.text, r.st.workingMemory) != C.TERMINATE
    requires Provides(id, r.st.workingMemory, patch) && Executed(cfg, r, r1, id, patch)
    ensures Ready(cfg, wm0, r1) && r1.st.ext == r.st.ext
  {
    PatchKeepsFacts(r.st.workingMemory, patch, id);
    FactsStayKept(r.st.input.text, wm0, r.st.workingMemory, id, patch);
    UnvisitedStay(r.visited, r.st.workingMemory, id, patch);
    ExecutedState(cfg, r, r1, id, patch);
  }

  lemma ExecutionAdvances(cfg: Config, wm0: JsonMap, r: Run, r1: Run, id: string, patch: M.Patch)
    requires Ready(cfg, wm0, r) && !PlanDue(cfg, r.st) && id in Mock.WEATHER_NODES
    requires id == Needed(r.st.input.text, r.st.workingMemory) != C.TERMINATE
    requires Provides(id, r.st.workingMemory, patch) && Executed(cfg, r, r1, id, patch)
    ensures Advances(Weather(cfg, wm0), r, (r1, Next))
  {
    ExecutionReady(cfg, wm0, r, r1, id, patch);
    ItineraryStep(r.st.input.text, r.st.workingMemory, patch);
    assert Ahead(r.st) == [id] + Ahead(r1.st);
    NextsAppend(r.st.decisionLog, B.LastOf(r1.st));
    NodesAppend(r.book.task.value.steps, r1.book.task.value.steps);
    HeadMoves(NodesOf(r.book.task.value.steps), id, Ahead(r1.st));
    HeadMoves(Nexts(r.st.decisionLog), id, Course(cfg, r1.st));
    CourseMoves(cfg, r.st, id, r1.st);
  }

  lemma CourseMoves(cfg: Config, st: M.State, id: string, st1: M.State)
    requires !PlanDue(cfg, st) && !PlanDue(cfg, st1) && Ahead(st) == [id] + Ahead(st1)
    ensures Course(cfg, st) == [id] + Course(cfg, st1)
  {
  }

  lemma HopAdvances(cfg: Config, wm0: JsonMap, env: Env, show: Json -> string, model: string, n: int, r: Run, call: C.FunctionCall, route: C.RouteDecision)
    requires Healthy(env) && WeatherWorld(env, show, model) && Ready(cfg, wm0, r) && !PlanDue(cfg, r.st)
    requires route.nextNode == Needed(r.st.input.text, r.st.workingMemory) != C.TERMINATE
    ensures Advances(Weather(cfg, wm0), r, TakeRoute(cfg, env, n, r, call, route))
  {
    var id := route.nextNode;
    NeededSucceeds(show, model, r.st, id);
    NeededIsMissing(r.st.input.text, r.st.workingMemory);
    var ran := W.Execute(show, W.MockGenerate(model), id, r.st);
    HopExecutes(cfg, env, n, r, call, route, ran.patch, ran.output);
    var (r1, c) := TakeRoute(cfg, env, n, r, call, route);
    ExecutionAdvances(cfg, wm0, r, r1, id, ran.patch);
  }

  lemma NeededIsMissing(text: string, wm: JsonMap)
    ensures Needed(text, wm) != C.TERMINATE ==> FactOf(Needed(text, wm)) !in wm
  {
    NamesDiffer();
  }

  lemma IterateAdvances(cfg: Config, wm0: JsonMap, env: Env, gw: G.Config, worlds: int -> G.World, show: Json -> string, model: string, n: int, r: Run)
    requires WeatherDemo(env, gw, worlds, show, model)
    requires Ready(cfg, wm0, r)
    ensures Advances(Weather(cfg, wm0), r, Iterate(cfg, env, n, r))
  {
    var req := RequestFor(cfg, env, n, r);
    MockFollowsFacts(req);
    IterateAnswers(cfg, env, gw, worlds, n, r);
    AnswerAdvances(cfg, wm0, env, show, model, n, r, req);
  }

  lemma AnswerAdvances(cfg: Config, wm0: JsonMap, env: Env, show: Json -> string, model: string, n: int, r: Run, req: C.Request)
    requires Healthy(env) && WeatherWorld(env, show, model) && Ready(cfg, wm0, r) && Mock.Invoke(req).Ok?
    requires Mock.Plans(req) <==> PlanDue(cfg, r.st)
    requires !Mock.Plans(req) ==> Mock.MockRoute(req).value.nextNode == Needed(r.st.input.text, r.st.workingMemory)
    ensures Advances(Weather(cfg, wm0), r, Take(cfg, env, n, r, Answer(req)))
  {
    if Mock.Plans(req) {
      PlanAdvances(cfg, wm0, n, r);
    } else {
      var hop := Mock.MockRoute(req).value;
      var route := C.RouteDecision(hop.nextNode, hop.reasoning, hop.data);
      if hop.nextNode == C.TERMINATE {
        TerminationAdvances(cfg, wm0, env, n, r, Mock.RouteCall(hop), route);
      } else {
        HopAdvances(cfg, wm0, env, show, model, n, r, Mock.RouteCall(hop), route);
      }
    }
  }

  /** The decisions a weather run takes are at most five. */
  lemma CourseIsShort(cfg: Config, st: M.State)
    ensures |Course(cfg, st)| <= 5
  {
  }

  /** Liveness: from any plain facts the run takes exactly the course, executes every hop of it, rejects nothing and completes by termination, if and only if the step budget covers the course; otherwise it takes what the budget allows. */
  lemma WeatherCompletes(cfg: Config, env: Env, gw: G.Config, worlds: int -> G.World, show: Json -> string, model: string, st: M.State, book: Book)
    requires WeatherDemo(env, gw, worlds, show, model)
    requires PlainFacts(st.workingMemory) && M.Validated(st) && st.task.status != M.TimedOut && cfg.maxSameNodeVisits >= 1
    ensures var (r, out) := RunTask(cfg, env, st, book);
      && (Completes(Weather(cfg, st.workingMemory), st, book, r, out) <==> cfg.maxSteps >= |Course(cfg, st)|)
      && (RunsShort(Weather(cfg, st.workingMemory), cfg, st, book, r, out) <==> cfg.maxSteps < |Course(cfg, st)|)
  {
    var w := Weather(cfg, st.workingMemory);
    forall n, r | w.ready(r) && Proper(r) ensures Advances(w, r, Iterate(cfg, env, n, r)) {
      IterateAdvances(cfg, st.workingMemory, env, gw, worlds, show, model, n, r);
    }
    WorkflowCompletes(w, cfg, env, st, book);
  }

  /** A question about the weather ends with an answer. */
  lemma AskedMeansAnswered(st: M.State)
    requires Done(st) && Mock.AsksWeather(st.input.text)
    ensures !Blank(StringAt(st.workingMemory, W.FINAL_TEXT))
  {
    NamesDiffer();
  }
}
