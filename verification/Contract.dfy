// What the scheduler and the decision gateway say to each other.
module Contract {
  import opened Basics
  import M = StateModel

  const TERMINATE := "__terminate__"

  datatype FunctionCall = FunctionCall(name: string, arguments: Option<JsonMap>)

  datatype RouteDecision = RouteDecision(nextNode: string, reasoning: string, data: JsonMap)

  datatype Edge = Edge(from: string, to: string)

  datatype Plan = Plan(goal: string, nodes: seq<string>, edges: seq<Edge>, reasoning: string, data: JsonMap)

  datatype Decided = Decided(kind: M.DecisionType, call: FunctionCall, route: Option<RouteDecision>, plan: Option<Plan>)

  /** The routing context: the read-only state, the registered node ids and the hints for the model. */
  datatype Request = Request(
    taskId: string, userInput: string, keywords: seq<string>, state: M.State,
    candidates: seq<string>, recommended: seq<string>, lastRejection: Option<Json>, planning: bool)

  function StrArray(items: seq<string>): Json {
    Arr(seq(|items|, i requires 0 <= i < |items| => Str(items[i])))
  }

  function EdgeArray(edges: seq<Edge>): Json {
    Arr(seq(|edges|, i requires 0 <= i < |edges| => Obj(map["from" := Str(edges[i].from), "to" := Str(edges[i].to)])))
  }
}
