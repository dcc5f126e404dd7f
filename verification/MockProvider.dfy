// The rule-based mock provider: which function call it makes for a routing context.
module MockProvider {
  import opened Basics
  import opened Contract
  import opened Text
  import G = Gateway
  import M = StateModel

  const RESOLVE := "resolve_user_location"
  const QUERY := "query_weather"
  const ANSWER := "finalize_weather_answer"

  const WEATHER_NODES: seq<string> := [RESOLVE, QUERY, ANSWER]

  predicate HasWeatherWorkflow(candidates: seq<string>) {
    RESOLVE in candidates && QUERY in candidates && ANSWER in candidates
  }

  predicate ContainsAny(text: string, terms: seq<string>) {
    exists term :: term in terms && Contains(text, ToLower(term))
  }

  predicate AsksWeather(input: string) {
    ContainsAny(ToLower(TrimSpace(input)), ["天气", "weather", "带伞", "下雨"])
  }

  /** One edge between each two neighbours. */
  function PlanEdges(nodes: seq<string>): seq<Json> {
    if |nodes| < 2 then []
    else seq(|nodes| - 1, i requires 0 <= i < |nodes| - 1 => Obj(map["from" := Str(nodes[i]), "to" := Str(nodes[i + 1])]))
  }

  method ToPlanEdges(nodes: seq<string>) returns (edges: seq<Json>)
    ensures edges == PlanEdges(nodes)
  {
    edges := [];
    if |nodes| < 2 {
      return;
    }
    for i := 0 to |nodes| - 1
      invariant edges == PlanEdges(nodes)[..i]
    {
      edges := edges + [Obj(map["from" := Str(nodes[i]), "to" := Str(nodes[i + 1])])];
    }
  }

  datatype Hop = Hop(nextNode: string, reasoning: string, data: JsonMap)

  function WeatherHop(req: Request): Hop {
    var wm := req.state.workingMemory;
    var location, weather, finalText := StringAt(wm, "location"), StringAt(wm, "weather"), StringAt(wm, "final_text");
    if location == "" && AsksWeather(req.userInput) then
      Hop(RESOLVE, "The weather workflow requires a location first.", map[])
    else if location != "" && weather == "" then
      Hop(QUERY, "Location is ready; fetch weather before drafting the answer.", map["location" := Str(location)])
    else if weather != "" && finalText == "" then
      Hop(ANSWER, "Weather data is available; generate the final response.", map["location" := Str(location), "weather" := Str(weather)])
    else
      Hop(TERMINATE, "Weather workflow already produced the final answer.", map[])
  }

  function MockRoute(req: Request): Result<Hop, string> {
    var outputs := req.state.nodeOutputs;
    if HasWeatherWorkflow(req.candidates) then Ok(WeatherHop(req))
    else if "intent_parse" !in outputs && "intent_parse" in req.candidates then
      Ok(Hop("intent_parse", "Need to parse the incoming user intent.", map[]))
    else if "text_transform" !in outputs && "text_transform" in req.candidates then
      Ok(Hop("text_transform", "Transform text before finalization.", map[]))
    else if "finalize" in outputs && "finalize" in req.candidates then
      Ok(Hop(TERMINATE, "Final answer already exists; terminate the execution chain.", map[]))
    else if "finalize" in req.candidates then
      Ok(Hop("finalize", "All prerequisite information is ready.", map[]))
    else Err("mock_function provider cannot determine the next node")
  }

  predicate Plans(req: Request) {
    req.planning && "latest_plan" !in req.state.ext && HasWeatherWorkflow(req.candidates)
  }

  const GOAL := "Plan a valid next-hop sequence for the current task."
  const PLAN_REASONING := "Build a lightweight runtime plan before routing concrete hops."
  const PLAN_DATA: JsonMap := map["source" := Str("mock_function_provider")]

  const PLAN_CALL := FunctionCall(G.PLAN_FUNCTION, Some(map[
    "goal" := Str(GOAL),
    "nodes" := StrArray(WEATHER_NODES),
    "edges" := Arr(PlanEdges(WEATHER_NODES)),
    "reasoning" := Str(PLAN_REASONING),
    "data" := Obj(PLAN_DATA)]))

  function RouteCall(hop: Hop): FunctionCall {
    FunctionCall(G.ROUTE_FUNCTION, Some(map[
      "next_node" := Str(hop.nextNode), "reasoning" := Str(hop.reasoning), "data" := Obj(hop.data)]))
  }

  /** `Invoke`: a plan first when planning is on, then one hop at a time. */
  function Invoke(req: Request): Result<FunctionCall, string> {
    if Plans(req) then Ok(PLAN_CALL)
    else
      match MockRoute(req)
      case Err(e) => Err(e)
      case Ok(hop) => Ok(RouteCall(hop))
  }

  lemma FunctionNames()
    ensures TrimSpace(G.ROUTE_FUNCTION) == G.ROUTE_FUNCTION && TrimSpace(G.PLAN_FUNCTION) == G.PLAN_FUNCTION
    ensures TrimSpace(TERMINATE) == TERMINATE
  {
  }

  lemma WeatherNames()
    ensures TrimSpace(RESOLVE) == RESOLVE && TrimSpace(QUERY) == QUERY && TrimSpace(ANSWER) == ANSWER
  {
  }

  lemma BuiltinNames()
    ensures TrimSpace("intent_parse") == "intent_parse" && TrimSpace("text_transform") == "text_transform"
    ensures TrimSpace("finalize") == "finalize"
  {
  }

  lemma RouteCallAccepted(req: Request, hop: Hop)
    requires TrimSpace(hop.nextNode) == hop.nextNode != ""
    requires hop.nextNode == TERMINATE || hop.nextNode in req.candidates
    ensures G.NormalizeCall(req, RouteCall(hop))
         == Ok(Decided(M.RouteDecided, RouteCall(hop), Some(RouteDecision(hop.nextNode, hop.reasoning, hop.data)), None))
  {
    FunctionNames();
    var args := RouteCall(hop).arguments.value;
    assert G.NormalizeRoute(req, args) == Ok(RouteDecision(hop.nextNode, hop.reasoning, hop.data));
  }

  lemma {:induction false} NodesAccepted(nodes: seq<string>)
    requires forall id :: id in nodes ==> TrimSpace(id) == id != ""
    ensures G.StringSlice(StrArray(nodes)) == Ok(nodes)
  {
    var items := StrArray(nodes).items;
    G.StringsAccepts(items);
    forall i | 0 <= i < |items| ensures items[i].Str? && !Blank(items[i].s) && TrimSpace(items[i].s) == nodes[i] {
      assert nodes[i] in nodes;
    }
    assert G.Strings(items).value == nodes;
  }

  function Neighbours(nodes: seq<string>): seq<Edge> {
    if |nodes| < 2 then [] else seq(|nodes| - 1, i requires 0 <= i < |nodes| - 1 => Edge(nodes[i], nodes[i + 1]))
  }

  lemma NeighboursStep(nodes: seq<string>)
    requires |nodes| >= 2
    ensures Neighbours(nodes) == [Edge(nodes[0], nodes[1])] + Neighbours(nodes[1..])
    ensures PlanEdges(nodes) != [] && PlanEdges(nodes)[1..] == PlanEdges(nodes[1..])
  {
  }

  lemma ReadEdge(edge: Json, rest: seq<Json>, from: string, to: string)
    requires edge == Obj(map["from" := Str(from), "to" := Str(to)])
    requires TrimSpace(from) == from != "" && TrimSpace(to) == to != ""
    requires G.EdgesOf(rest).Ok?
    ensures G.EdgesOf([edge] + rest) == Ok([Edge(from, to)] + G.EdgesOf(rest).value)
  {
    assert StringAt(edge.fields, "from") == from && StringAt(edge.fields, "to") == to;
    assert ([edge] + rest)[1..] == rest;
  }

  /** The edges the validator reads from a plan call join each two neighbours. */
  lemma {:induction false} EdgesAccepted(nodes: seq<string>)
    requires forall id :: id in nodes ==> TrimSpace(id) == id != ""
    ensures G.EdgesOf(PlanEdges(nodes)) == Ok(Neighbours(nodes))
  {
    if |nodes| >= 2 {
      assert forall id :: id in nodes[1..] ==> id in nodes;
      EdgesAccepted(nodes[1..]);
      NeighboursStep(nodes);
      assert nodes[0] in nodes && nodes[1] in nodes;
      var items := PlanEdges(nodes);
      ReadEdge(items[0], items[1..], nodes[0], nodes[1]);
      assert items == [items[0]] + items[1..];
    }
  }

  const PLAN := Plan(GOAL, WEATHER_NODES, Neighbours(WEATHER_NODES), PLAN_REASONING, PLAN_DATA)

  lemma PlanArguments(args: JsonMap)
    requires args == PLAN_CALL.arguments.value
    ensures G.Argument(args, "nodes") == StrArray(WEATHER_NODES) && G.Argument(args, "edges") == Arr(PlanEdges(WEATHER_NODES))
    ensures StringAt(args, "goal") == GOAL && StringAt(args, "reasoning") == PLAN_REASONING && ObjectAt(args, "data") == PLAN_DATA
  {
  }

  /** A plan call is read back field by field. */
  lemma PlanArgumentsAccepted(req: Request, args: JsonMap, nodes: seq<string>)
    requires G.Argument(args, "nodes") == StrArray(nodes) && G.Argument(args, "edges") == Arr(PlanEdges(nodes))
    requires nodes != [] && forall id :: id in nodes ==> id in req.candidates && TrimSpace(id) == id != ""
    ensures G.NormalizePlan(req, args)
         == Ok(Plan(StringAt(args, "goal"), nodes, Neighbours(nodes), StringAt(args, "reasoning"), ObjectAt(args, "data")))
  {
    NodesAccepted(nodes);
    EdgesAccepted(nodes);
  }

  lemma PlanCallAccepted(req: Request)
    requires Plans(req)
    ensures G.NormalizeCall(req, PLAN_CALL) == Ok(Decided(M.PlanDecided, PLAN_CALL, None, Some(PLAN)))
  {
    FunctionNames();
    WeatherNames();
    PlanArguments(PLAN_CALL.arguments.value);
    PlanArgumentsAccepted(req, PLAN_CALL.arguments.value, WEATHER_NODES);
  }

  /** Round trip: whatever the mock provider calls, the validator accepts and reads back as the plan or hop it meant. */
  lemma MockCallsAreAccepted(req: Request)
    requires Invoke(req).Ok?
    ensures G.NormalizeCall(req, Invoke(req).value) == Ok(
      if Plans(req) then Decided(M.PlanDecided, PLAN_CALL, None, Some(PLAN))
      else var hop := MockRoute(req).value;
        Decided(M.RouteDecided, RouteCall(hop), Some(RouteDecision(hop.nextNode, hop.reasoning, hop.data)), None))
  {
    if Plans(req) {
      PlanCallAccepted(req);
    } else {
      HopsAreCandidates(req);
      RouteCallAccepted(req, MockRoute(req).value);
    }
  }

  lemma HopsAreCandidates(req: Request)
    requires MockRoute(req).Ok?
    ensures var hop := MockRoute(req).value.nextNode;
      (hop == TERMINATE || hop in req.candidates) && TrimSpace(hop) == hop != ""
  {
    FunctionNames();
    WeatherNames();
    BuiltinNames();
  }

  /** The configuration names the mock provider. */
  predicate IsMock(m: G.Model) {
    ToLower(TrimSpace(m.provider)) == "mock_function"
  }

  /** With the mock provider behind the gateway, a decision is the provider's own call, on the first attempt. */
  lemma MockDecides(w: G.World, cfg: G.Config, req: Request)
    requires w.admitted && IsMock(cfg.primary) && cfg.retry.maxAttempts >= 1 && req.candidates != []
    requires w.invoke(cfg.primary, 1, req) == Invoke(req)
    requires Invoke(req).Ok?
    ensures G.Decide(w, cfg, req).result == G.NormalizeCall(req, Invoke(req).value)
    ensures G.Decide(w, cfg, req).result.Ok? && G.Decide(w, cfg, req).calls == 1
  {
    MockCallsAreAccepted(req);
    assert "mock_function" in G.PROVIDERS;
  }
}
