// The decision gateway: validation of function calls, and retry with a fallback model.
module Gateway {
  import opened Basics
  import opened Contract
  import opened Text
  import M = StateModel

  const ROUTE_FUNCTION := "route_next_node"
  const PLAN_FUNCTION := "propose_dag"

  const PROVIDERS: set<string> :=
    {"mock_function", "openai", "openai_compatible", "qwen", "kimi", "glm", "anthropic"}

  // ----- validating a function call -----

  function NormalizeRoute(req: Request, args: JsonMap): Result<RouteDecision, string> {
    var nextNode := TrimSpace(StringAt(args, "next_node"));
    if nextNode == "" then Err("route_next_node.next_node must not be empty")
    else if nextNode != TERMINATE && nextNode !in req.candidates then Err("route_next_node.next_node is not in candidate nodes")
    else Ok(RouteDecision(nextNode, StringAt(args, "reasoning"), ObjectAt(args, "data")))
  }

  /** Trimmed strings, or the complaint about the first item that is none. */
  function Strings(items: seq<Json>): Result<seq<string>, string> {
    if items == [] then Ok([])
    else if !items[0].Str? then Err("must contain only strings")
    else if Blank(items[0].s) then Err("must not contain empty strings")
    else
      match Strings(items[1..])
      case Err(e) => Err(e)
      case Ok(rest) => Ok([TrimSpace(items[0].s)] + rest)
  }

  function StringSlice(raw: Json): Result<seq<string>, string> {
    if raw.Arr? then Strings(raw.items) else Err("must be an array")
  }

  function Prepend<T>(front: seq<T>, r: Result<seq<T>, string>): Result<seq<T>, string> {
    match r
    case Err(e) => Err(e)
    case Ok(rest) => Ok(front + rest)
  }

  lemma PrependOne<T>(front: seq<T>, item: T, r: Result<seq<T>, string>)
    ensures Prepend(front, Prepend([item], r)) == Prepend(front + [item], r)
  {
    if r.Ok? {
      assert front + ([item] + r.value) == (front + [item]) + r.value;
    }
  }

  lemma PrependNothing<T>(r: Result<seq<T>, string>)
    ensures Prepend([], r) == r
  {
    if r.Ok? {
      assert [] + r.value == r.value;
    }
  }

  method ReadStrings(raw: Json) returns (r: Result<seq<string>, string>)
    ensures r == StringSlice(raw)
  {
    if !raw.Arr? {
      return Err("must be an array");
    }
    var out := [];
    assert raw.items[0..] == raw.items;
    PrependNothing(StringSlice(raw));
    for i := 0 to |raw.items|
      invariant Strings(raw.items) == Prepend(out, Strings(raw.items[i..]))
    {
      assert raw.items[i..][1..] == raw.items[i + 1..];
      var item := raw.items[i];
      if !item.Str? {
        return Err("must contain only strings");
      }
      var value := TrimSpace(item.s);
      if value == "" {
        return Err("must not contain empty strings");
      }
      PrependOne(out, value, Strings(raw.items[i + 1..]));
      out := out + [value];
    }
    assert raw.items[|raw.items|..] == [] && out + [] == out;
    r := Ok(out);
  }

  function EdgesOf(items: seq<Json>): Result<seq<Edge>, string> {
    if items == [] then Ok([])
    else if !items[0].Obj? then Err("must contain only objects")
    else
      var from, to := TrimSpace(StringAt(items[0].fields, "from")), TrimSpace(StringAt(items[0].fields, "to"));
      if from == "" || to == "" then Err("edge from/to must not be empty")
      else
        match EdgesOf(items[1..])
        case Err(e) => Err(e)
        case Ok(rest) => Ok([Edge(from, to)] + rest)
  }

  function DagEdges(raw: Json): Result<seq<Edge>, string> {
    if raw.Null? then Ok([])
    else if raw.Arr? then EdgesOf(raw.items)
    else Err("must be an array")
  }

  method ReadEdges(raw: Json) returns (r: Result<seq<Edge>, string>)
    ensures r == DagEdges(raw)
  {
    if raw.Null? {
      return Ok([]);
    }
    if !raw.Arr? {
      return Err("must be an array");
    }
    var out := [];
    assert raw.items[0..] == raw.items;
    PrependNothing(DagEdges(raw));
    for i := 0 to |raw.items|
      invariant EdgesOf(raw.items) == Prepend(out, EdgesOf(raw.items[i..]))
    {
      assert raw.items[i..][1..] == raw.items[i + 1..];
      var item := raw.items[i];
      if !item.Obj? {
        return Err("must contain only objects");
      }
      var edge := Edge(TrimSpace(StringAt(item.fields, "from")), TrimSpace(StringAt(item.fields, "to")));
      if edge.from == "" || edge.to == "" {
        return Err("edge from/to must not be empty");
      }
      PrependOne(out, edge, EdgesOf(raw.items[i + 1..]));
      out := out + [edge];
    }
    assert raw.items[|raw.items|..] == [] && out + [] == out;
    r := Ok(out);
  }

  function Argument(args: JsonMap, key: string): Json {
    if key in args then args[key] else Null
  }

  function NormalizePlan(req: Request, args: JsonMap): Result<Plan, string> {
    match StringSlice(Argument(args, "nodes"))
    case Err(e) => Err("propose_dag.nodes: " + e)
    case Ok(nodes) =>
      if nodes == [] then Err("propose_dag.nodes must not be empty")
      else if exists id :: id in nodes && id !in req.candidates then Err("propose_dag node is not in candidate nodes")
      else
        match DagEdges(Argument(args, "edges"))
        case Err(e) => Err("propose_dag.edges: " + e)
        case Ok(edges) => Ok(Plan(StringAt(args, "goal"), nodes, edges, StringAt(args, "reasoning"), ObjectAt(args, "data")))
  }

  function NormalizeCall(req: Request, call: FunctionCall): Result<Decided, string> {
    var trimmed := call.(name := TrimSpace(call.name));
    if trimmed.name == "" then Err("function call name must not be empty")
    else if trimmed.arguments.None? then Err("function call arguments must not be nil")
    else if trimmed.name == ROUTE_FUNCTION then
      match NormalizeRoute(req, trimmed.arguments.value)
      case Err(e) => Err(e)
      case Ok(route) => Ok(Decided(M.RouteDecided, trimmed, Some(route), None))
    else if trimmed.name == PLAN_FUNCTION then
      if !req.planning then Err("planning function is disabled")
      else
        match NormalizePlan(req, trimmed.arguments.value)
        case Err(e) => Err(e)
        case Ok(plan) => Ok(Decided(M.PlanDecided, trimmed, None, Some(plan)))
    else Err("unsupported function")
  }

  /** What the scheduler may rely on. */
  predicate Sound(req: Request, d: Decided) {
    match d.kind
    case RouteDecided =>
      d.route.Some? && (d.route.value.nextNode == TERMINATE || d.route.value.nextNode in req.candidates)
    case PlanDecided =>
      req.planning && d.plan.Some? && d.plan.value.nodes != [] && forall id :: id in d.plan.value.nodes ==> id in req.candidates
    case OtherDecision(_) => false
  }

  lemma AcceptedCallsAreSound(req: Request, call: FunctionCall)
    ensures NormalizeCall(req, call).Ok? ==> Sound(req, NormalizeCall(req, call).value)
  {
  }

  /** Item by item, the trimmed string. */
  predicate TrimmedFrom(items: seq<Json>, out: seq<string>) {
    |out| == |items| && forall i :: 0 <= i < |items| ==> items[i].Str? && out[i] == TrimSpace(items[i].s)
  }

  /** Items accepted as plan nodes are exactly the nonblank strings, kept in order and trimmed. */
  lemma {:induction false} StringsAccepts(items: seq<Json>)
    ensures Strings(items).Ok? <==> forall i :: 0 <= i < |items| ==> items[i].Str? && !Blank(items[i].s)
    ensures Strings(items).Ok? ==> TrimmedFrom(items, Strings(items).value)
  {
    if items != [] {
      StringsAccepts(items[1..]);
      forall i | 0 <= i < |items[1..]| ensures items[1..][i] == items[i + 1] {
      }
      if Strings(items).Err? && items[0].Str? && !Blank(items[0].s) {
        var i :| 0 <= i < |items[1..]| && !(items[1..][i].Str? && !Blank(items[1..][i].s));
        assert items[i + 1] == items[1..][i];
      }
    }
  }

  /** Item by item, the edge between the trimmed ends. */
  predicate EdgesFrom(items: seq<Json>, out: seq<Edge>) {
    && |out| == |items|
    && forall i :: 0 <= i < |items| ==>
         items[i].Obj? && out[i] == Edge(TrimSpace(StringAt(items[i].fields, "from")), TrimSpace(StringAt(items[i].fields, "to")))
  }

  predicate EdgeItem(item: Json) {
    item.Obj? && !Blank(StringAt(item.fields, "from")) && !Blank(StringAt(item.fields, "to"))
  }

  /** Items accepted as edges are exactly the objects with nonblank ends, kept in order and trimmed. */
  lemma {:induction false} EdgesAccepts(items: seq<Json>)
    ensures EdgesOf(items).Ok? <==> forall i :: 0 <= i < |items| ==> EdgeItem(items[i])
    ensures EdgesOf(items).Ok? ==> EdgesFrom(items, EdgesOf(items).value)
  {
    if items != [] {
      EdgesAccepts(items[1..]);
      forall i | 0 <= i < |items[1..]| ensures items[1..][i] == items[i + 1] {
      }
      if EdgesOf(items).Err? && EdgeItem(items[0]) {
        var i :| 0 <= i < |items[1..]| && !EdgeItem(items[1..][i]);
        assert items[i + 1] == items[1..][i];
      }
    }
  }

  predicate NodeItem(req: Request, item: Json) {
    item.Str? && !Blank(item.s) && TrimSpace(item.s) in req.candidates
  }

  predicate RouteAcceptable(req: Request, args: JsonMap) {
    var id := TrimSpace(StringAt(args, "next_node"));
    id != "" && (id == TERMINATE || id in req.candidates)
  }

  predicate PlanAcceptable(req: Request, args: JsonMap) {
    var nodes, edges := Argument(args, "nodes"), Argument(args, "edges");
    && nodes.Arr? && nodes.items != [] && (forall i :: 0 <= i < |nodes.items| ==> NodeItem(req, nodes.items[i]))
    && (edges.Null? || (edges.Arr? && forall i :: 0 <= i < |edges.items| ==> EdgeItem(edges.items[i])))
  }

  predicate Acceptable(req: Request, call: FunctionCall) {
    && call.arguments.Some?
    && (|| (TrimSpace(call.name) == ROUTE_FUNCTION && RouteAcceptable(req, call.arguments.value))
        || (TrimSpace(call.name) == PLAN_FUNCTION && req.planning && PlanAcceptable(req, call.arguments.value)))
  }

  /** The plan says what the arguments say, trimmed and in order. */
  predicate PlanMeans(args: JsonMap, plan: Plan) {
    var nodes, edges := Argument(args, "nodes"), Argument(args, "edges");
    && plan.goal == StringAt(args, "goal") && plan.reasoning == StringAt(args, "reasoning") && plan.data == ObjectAt(args, "data")
    && nodes.Arr? && TrimmedFrom(nodes.items, plan.nodes)
    && (edges.Null? ==> plan.edges == [])
    && (edges.Arr? ==> EdgesFrom(edges.items, plan.edges))
  }

  predicate CallMeans(call: FunctionCall, d: Decided)
    requires call.arguments.Some?
  {
    var args := call.arguments.value;
    && d.call == call.(name := TrimSpace(call.name))
    && if d.call.name == ROUTE_FUNCTION then
         d.kind == M.RouteDecided && d.plan.None?
         && d.route == Some(RouteDecision(TrimSpace(StringAt(args, "next_node")), StringAt(args, "reasoning"), ObjectAt(args, "data")))
       else d.kind == M.PlanDecided && d.route.None? && d.plan.Some? && PlanMeans(args, d.plan.value)
  }

  lemma PlanExactly(req: Request, args: JsonMap)
    ensures NormalizePlan(req, args).Ok? <==> PlanAcceptable(req, args)
    ensures NormalizePlan(req, args).Ok? ==> PlanMeans(args, NormalizePlan(req, args).value)
  {
    var nodes, edges := Argument(args, "nodes"), Argument(args, "edges");
    if nodes.Arr? {
      StringsAccepts(nodes.items);
      NodesAreCandidates(req, nodes.items);
    }
    if edges.Arr? {
      EdgesAccepts(edges.items);
    }
  }

  lemma NodesAreCandidates(req: Request, items: seq<Json>)
    ensures Strings(items).Ok? && (forall id :: id in Strings(items).value ==> id in req.candidates)
       <==> forall i :: 0 <= i < |items| ==> NodeItem(req, items[i])
  {
    StringsAccepts(items);
    if Strings(items).Ok? && forall id :: id in Strings(items).value ==> id in req.candidates {
      forall i | 0 <= i < |items| ensures NodeItem(req, items[i]) {
        assert Strings(items).value[i] in Strings(items).value;
      }
    }
  }

  /** The validator accepts a call exactly when it names a function that is on, with arguments that are in order; and then the decision means what the call says. */
  lemma CallsAcceptedExactly(req: Request, call: FunctionCall)
    ensures NormalizeCall(req, call).Ok? <==> Acceptable(req, call)
    ensures NormalizeCall(req, call).Ok? ==> CallMeans(call, NormalizeCall(req, call).value)
  {
    assert ROUTE_FUNCTION != PLAN_FUNCTION && ROUTE_FUNCTION != "" && PLAN_FUNCTION != "";
    if call.arguments.Some? {
      PlanExactly(req, call.arguments.value);
    }
  }

  // ----- retry and fallback -----

  /** A `time.Duration` counts nanoseconds. */
  const SECOND := 1_000_000_000

  datatype Model = Model(provider: string, timeout: int)

  datatype Retry = Retry(maxAttempts: int, baseDelay: nat)

  datatype Config = Config(primary: Model, fallback: Model, retry: Retry)

  /** The wait after a failed attempt ends by its timer, or early when the task's context is done. */
  datatype Wait = TimerFired | ContextDone(after: nat)

  /** One call of `Decide` as the outside world plays it. */
  datatype World = World(
    admitted: bool,
    invoke: (Model, int, Request) -> Result<FunctionCall, string>,
    spent: (Model, int) -> nat,
    wait: (Model, int) -> Wait)

  datatype Trial = Trial(result: Result<Decided, string>, calls: nat, waited: nat, spent: nat)

  /** The zero result. */
  const NOTHING := Decided(M.OtherDecision(""), FunctionCall("", None), None, None)

  predicate Supported(m: Model) {
    ToLower(TrimSpace(m.provider)) in PROVIDERS
  }

  function Timeout(m: Model): nat {
    if m.timeout <= 0 then 5 * SECOND else m.timeout
  }

  /** A trial after one more call. */
  function After(t: Trial, waited: nat, spent: nat): Trial {
    Trial(t.result, t.calls + 1, t.waited + waited, t.spent + spent)
  }

  /** `time.Duration(attempt) * BaseDelay`. */
  function Delay(retry: Retry, attempt: nat): nat {
    attempt * retry.baseDelay
  }

  /** Attempts from the given one on; an accepted or refused answer ends them, a failed call waits and tries again. */
  function Attempts(w: World, retry: Retry, m: Model, req: Request, attempt: nat, last: Result<Decided, string>): Trial
    decreases retry.maxAttempts - attempt
  {
    if attempt > retry.maxAttempts then Trial(last, 0, 0, 0)
    else
      match w.invoke(m, attempt, req)
      case Ok(call) => After(Trial(NormalizeCall(req, call), 0, 0, 0), 0, w.spent(m, attempt))
      case Err(e) =>
        match w.wait(m, attempt)
        case ContextDone(after) =>
          After(Trial(Err("context done"), 0, 0, 0),
                if after < Delay(retry, attempt) then after else Delay(retry, attempt), w.spent(m, attempt))
        case TimerFired =>
          After(Attempts(w, retry, m, req, attempt + 1, Err(e)), Delay(retry, attempt), w.spent(m, attempt))
  }

  /** `tryModel`: without any attempt there is neither a result nor an error. */
  function TryModel(w: World, retry: Retry, m: Model, req: Request): Trial {
    if !Supported(m) then Trial(Err("unsupported provider"), 0, 0, 0)
    else Attempts(w, retry, m, req, 1, Ok(NOTHING))
  }

  /** `Decide` behind a circuit breaker that lets the call through. */
  function Decide(w: World, cfg: Config, req: Request): Trial {
    if req.candidates == [] then Trial(Err("routing context candidate_nodes must not be empty"), 0, 0, 0)
    else if !w.admitted then Trial(Err("rate limit wait"), 0, 0, 0)
    else
      var first := TryModel(w, cfg.retry, cfg.primary, req);
      if first.result.Ok? then first
      else
        var second := TryModel(w, cfg.retry, cfg.fallback, req);
        Trial(second.result, first.calls + second.calls, first.waited + second.waited, first.spent + second.spent)
  }

  method RunModel(w: World, retry: Retry, m: Model, req: Request) returns (t: Trial)
    ensures t == TryModel(w, retry, m, req)
  {
    if ToLower(TrimSpace(m.provider)) !in PROVIDERS {
      return Trial(Err("unsupported provider"), 0, 0, 0);
    }
    var last: Result<Decided, string> := Ok(NOTHING);
    var calls: nat, waited: nat, spent: nat := 0, 0, 0;
    var attempt: nat := 1;
    while attempt <= retry.maxAttempts
      invariant attempt >= 1
      invariant var rest := Attempts(w, retry, m, req, attempt, last);
        TryModel(w, retry, m, req) == Trial(rest.result, rest.calls + calls, rest.waited + waited, rest.spent + spent)
      decreases retry.maxAttempts - attempt
    {
      var call := w.invoke(m, attempt, req);
      calls, spent := calls + 1, spent + w.spent(m, attempt);
      if call.Ok? {
        return Trial(NormalizeCall(req, call.value), calls, waited, spent);
      }
      var delay := Delay(retry, attempt);
      match w.wait(m, attempt) {
        case ContextDone(after) =>
          return Trial(Err("context done"), calls, waited + if after < delay then after else delay, spent);
        case TimerFired =>
          waited := waited + delay;
      }
      last := Err(call.error);
      attempt := attempt + 1;
    }
    t := Trial(last, calls, waited, spent);
  }

  lemma {:induction false} AttemptsAreSound(w: World, retry: Retry, m: Model, req: Request, attempt: nat, last: Result<Decided, string>)
    requires last.Err? || attempt <= retry.maxAttempts
    ensures var t := Attempts(w, retry, m, req, attempt, last);
      t.result.Ok? ==> Sound(req, t.result.value)
    decreases retry.maxAttempts - attempt
  {
    if attempt <= retry.maxAttempts {
      match w.invoke(m, attempt, req)
      case Ok(call) => AcceptedCallsAreSound(req, call);
      case Err(e) => AttemptsAreSound(w, retry, m, req, attempt + 1, Err(e));
    }
  }

  /** A decision without an error is sound exactly when the configuration allows at least one attempt. */
  lemma DecideIsSound(w: World, cfg: Config, req: Request)
    ensures var r := Decide(w, cfg, req).result;
      r.Ok? ==> (Sound(req, r.value) <==> cfg.retry.maxAttempts >= 1)
  {
    if cfg.retry.maxAttempts >= 1 {
      AttemptsAreSound(w, cfg.retry, cfg.primary, req, 1, Ok(NOTHING));
      AttemptsAreSound(w, cfg.retry, cfg.fallback, req, 1, Ok(NOTHING));
    }
  }

  predicate FailedCall(w: World, m: Model, req: Request, k: nat) {
    w.invoke(m, k, req).Err? && w.wait(m, k).TimerFired?
  }

  /** The k-th call to the model gave this answer, and every call from the given one up to it failed and waited its delay out. */
  predicate Answered(w: World, m: Model, req: Request, from: nat, k: nat, r: Result<Decided, string>)
    decreases k - from
  {
    if from < k then FailedCall(w, m, req, from) && Answered(w, m, req, from + 1, k, r)
    else from == k && w.invoke(m, k, req).Ok? && NormalizeCall(req, w.invoke(m, k, req).value) == r
  }

  lemma AttemptFailed(w: World, retry: Retry, m: Model, req: Request, attempt: nat, last: Result<Decided, string>)
    requires attempt <= retry.maxAttempts && FailedCall(w, m, req, attempt)
    ensures var later := Attempts(w, retry, m, req, attempt + 1, Err(w.invoke(m, attempt, req).error));
      var t := Attempts(w, retry, m, req, attempt, last);
      t.result == later.result && t.calls == later.calls + 1
  {
  }

  lemma AttemptAnswered(w: World, retry: Retry, m: Model, req: Request, attempt: nat, last: Result<Decided, string>)
    requires attempt > retry.maxAttempts || !FailedCall(w, m, req, attempt)
    ensures var t := Attempts(w, retry, m, req, attempt, last);
      if attempt > retry.maxAttempts then t.result == last
      else t.result.Ok? ==> t.calls == 1 && Answered(w, m, req, attempt, attempt, t.result)
  {
  }

  lemma {:induction false} AttemptsAnswer(w: World, retry: Retry, m: Model, req: Request, attempt: nat, last: Result<Decided, string>, t: Trial)
    requires last.Err? || attempt <= retry.maxAttempts
    requires t == Attempts(w, retry, m, req, attempt, last) && t.result.Ok?
    ensures t.calls >= 1 && attempt + t.calls - 1 <= retry.maxAttempts
    ensures Answered(w, m, req, attempt, attempt + t.calls - 1, t.result)
    decreases retry.maxAttempts - attempt
  {
    if attempt <= retry.maxAttempts && FailedCall(w, m, req, attempt) {
      var error := Err(w.invoke(m, attempt, req).error);
      AttemptFailed(w, retry, m, req, attempt, last);
      AttemptsAnswer(w, retry, m, req, attempt + 1, error, Attempts(w, retry, m, req, attempt + 1, error));
    } else {
      AttemptAnswered(w, retry, m, req, attempt, last);
    }
  }

  /** The time the calls from..top took. */
  function Spending(w: World, m: Model, from: nat, top: int): nat
    decreases top - from
  {
    if from > top then 0 else w.spent(m, from) + Spending(w, m, from + 1, top)
  }

  /** What an answer costs, whatever it is: the calls up to it, the delays before it, and the time of all these calls. */
  lemma {:induction false} AnswerReached(w: World, retry: Retry, m: Model, req: Request, attempt: nat, k: nat, last: Result<Decided, string>, r: Result<Decided, string>)
    requires Answered(w, m, req, attempt, k, r) && attempt <= k <= retry.maxAttempts
    ensures var t := Attempts(w, retry, m, req, attempt, last);
      t.result == r && t.calls == k - attempt + 1 && t.waited == Delays(retry, attempt, k - 1) && t.spent == Spending(w, m, attempt, k)
    decreases k - attempt
  {
    if attempt < k {
      AnswerReached(w, retry, m, req, attempt + 1, k, Err(w.invoke(m, attempt, req).error), r);
    }
  }

  /** The model's answer after this many calls: the last one's own, after all earlier ones failed, for the delays and the time of these calls. */
  predicate AnswersAfter(w: World, retry: Retry, m: Model, req: Request, calls: int, t: Trial) {
    && 1 <= calls <= retry.maxAttempts && Answered(w, m, req, 1, calls, t.result)
    && t.waited == Delays(retry, 1, calls - 1) && t.spent == Spending(w, m, 1, calls)
  }

  lemma TryAnswers(w: World, retry: Retry, m: Model, req: Request, t: Trial)
    requires retry.maxAttempts >= 1 && t == TryModel(w, retry, m, req) && t.result.Ok?
    ensures AnswersAfter(w, retry, m, req, t.calls, t)
  {
    AttemptsAnswer(w, retry, m, req, 1, Ok(NOTHING), t);
    AnswerReached(w, retry, m, req, 1, t.calls, Ok(NOTHING), t.result);
  }

  /** A decision is some attempt's own answer: the primary's last call, after all its earlier calls failed, or, when the primary model gave none, the fallback's, at its own cost on top of the primary's. */
  lemma DecisionIsAnAnswer(w: World, cfg: Config, req: Request, t: Trial, first: Trial)
    requires cfg.retry.maxAttempts >= 1 && t == Decide(w, cfg, req) && t.result.Ok?
    requires first == TryModel(w, cfg.retry, cfg.primary, req)
    ensures w.admitted && req.candidates != []
    ensures first.result.Ok? ==> t == first && AnswersAfter(w, cfg.retry, cfg.primary, req, t.calls, t)
    ensures first.result.Err? ==>
      && t.calls >= first.calls && t.waited >= first.waited && t.spent >= first.spent
      && AnswersAfter(w, cfg.retry, cfg.fallback, req, t.calls - first.calls,
                      Trial(t.result, t.calls - first.calls, t.waited - first.waited, t.spent - first.spent))
  {
    if first.result.Ok? {
      TryAnswers(w, cfg.retry, cfg.primary, req, first);
    } else {
      TryAnswers(w, cfg.retry, cfg.fallback, req, TryModel(w, cfg.retry, cfg.fallback, req));
    }
  }

  /** The model gives this decision at one of its attempts: a call accepted by the validator, after calls that failed and whose timers fired. */
  ghost predicate Gives(w: World, retry: Retry, m: Model, req: Request, d: Decided) {
    Supported(m) && exists k: nat :: 1 <= k <= retry.maxAttempts && Answered(w, m, req, 1, k, Ok(d))
  }

  lemma TryExactly(w: World, retry: Retry, m: Model, req: Request, d: Decided)
    requires retry.maxAttempts >= 1
    ensures TryModel(w, retry, m, req).result == Ok(d) <==> Gives(w, retry, m, req, d)
  {
    var t := TryModel(w, retry, m, req);
    if t.result == Ok(d) {
      TryAnswers(w, retry, m, req, t);
    }
    if Gives(w, retry, m, req, d) {
      var k: nat :| 1 <= k <= retry.maxAttempts && Answered(w, m, req, 1, k, Ok(d));
      AnswerReached(w, retry, m, req, 1, k, Ok(NOTHING), Ok(d));
    }
  }

  /** A decision is exactly what the primary gives, or, when it gives none, what the fallback gives: nothing else succeeds, and nothing given is lost. */
  lemma DecideExactly(w: World, cfg: Config, req: Request, d: Decided)
    requires cfg.retry.maxAttempts >= 1
    ensures Decide(w, cfg, req).result == Ok(d) <==>
      && w.admitted && req.candidates != []
      && (|| Gives(w, cfg.retry, cfg.primary, req, d)
          || ((forall other :: !Gives(w, cfg.retry, cfg.primary, req, other)) && Gives(w, cfg.retry, cfg.fallback, req, d)))
  {
    var first := TryModel(w, cfg.retry, cfg.primary, req).result;
    forall other ensures first == Ok(other) <==> Gives(w, cfg.retry, cfg.primary, req, other) {
      TryExactly(w, cfg.retry, cfg.primary, req, other);
    }
    TryExactly(w, cfg.retry, cfg.fallback, req, d);
    assert first.Ok? ==> first == Ok(first.value);
  }

  // ----- cost -----

  /** The delays of the attempts from..top. */
  function Delays(retry: Retry, from: nat, top: int): nat
    decreases top - from
  {
    if from > top then 0 else Delay(retry, from) + Delays(retry, from + 1, top)
  }

  /** The sum in closed form. */
  lemma {:induction false} DelaysClosed(retry: Retry, from: nat, top: nat)
    requires 1 <= from <= top + 1
    ensures 2 * Delays(retry, from, top) == retry.baseDelay * (top * (top + 1)) - retry.baseDelay * (from * (from - 1))
    decreases top + 1 - from
  {
    var base := retry.baseDelay;
    if from == top + 1 {
      assert top * (top + 1) == from * (from - 1);
    } else {
      DelaysClosed(retry, from + 1, top);
      assert (from + 1) * from == from * (from - 1) + 2 * from;
      assert base * ((from + 1) * from) == base * (from * (from - 1)) + base * (2 * from);
      assert base * (2 * from) == 2 * (from * base);
    }
  }

  lemma OneMore(k: nat, t: nat)
    ensures (k + 1) * t == k * t + t
  {
  }

  lemma {:induction false} AttemptsCost(w: World, retry: Retry, m: Model, req: Request, attempt: nat, last: Result<Decided, string>)
    requires 1 <= attempt <= retry.maxAttempts + 1
    requires forall k :: w.spent(m, k) <= Timeout(m)
    ensures var t := Attempts(w, retry, m, req, attempt, last);
      && t.calls <= retry.maxAttempts - attempt + 1
      && t.waited <= Delays(retry, attempt, retry.maxAttempts)
      && t.spent <= t.calls * Timeout(m)
    decreases retry.maxAttempts - attempt
  {
    if attempt <= retry.maxAttempts {
      OneMore(0, Timeout(m));
      var answer := w.invoke(m, attempt, req);
      if answer.Err? && w.wait(m, attempt).TimerFired? {
        AttemptsCost(w, retry, m, req, attempt + 1, Err(answer.error));
        OneMore(Attempts(w, retry, m, req, attempt + 1, Err(answer.error)).calls, Timeout(m));
      }
    }
  }

  lemma MoreCalls(k: nat, n: nat, t: nat)
    requires k <= n
    ensures k * t <= n * t
  {
  }

  lemma TryCost(w: World, retry: Retry, m: Model, req: Request)
    requires retry.maxAttempts >= 0
    requires forall k :: w.spent(m, k) <= Timeout(m)
    ensures var t, n := TryModel(w, retry, m, req), retry.maxAttempts;
      t.calls <= n && 2 * t.waited <= retry.baseDelay * (n * (n + 1)) && t.spent <= n * Timeout(m)
  {
    DelaysClosed(retry, 1, retry.maxAttempts);
    assert retry.baseDelay * (1 * (1 - 1)) == 0;
    AttemptsCost(w, retry, m, req, 1, Ok(NOTHING));
    MoreCalls(TryModel(w, retry, m, req).calls, retry.maxAttempts, Timeout(m));
  }

  /** With n attempts per model, a decision makes at most 2n calls, waits at most base*n(n+1) in all, and spends at most n of each model's timeout. */
  lemma DecideCost(w: World, cfg: Config, req: Request)
    requires cfg.retry.maxAttempts >= 0
    requires forall m, k :: w.spent(m, k) <= Timeout(m)
    ensures var t, n := Decide(w, cfg, req), cfg.retry.maxAttempts;
      && t.calls <= 2 * n
      && t.waited <= cfg.retry.baseDelay * (n * (n + 1))
      && t.spent <= n * Timeout(cfg.primary) + n * Timeout(cfg.fallback)
  {
    TryCost(w, cfg.retry, cfg.primary, req);
    TryCost(w, cfg.retry, cfg.fallback, req);
  }

  /** The delay bound is reached: when every call fails and every timer fires, each attempt is made and each delay waited in full. */
  lemma {:induction false} AllFailWaits(w: World, retry: Retry, m: Model, req: Request, attempt: nat, last: Result<Decided, string>)
    requires 1 <= attempt <= retry.maxAttempts + 1
    requires forall k :: w.invoke(m, k, req).Err? && w.wait(m, k).TimerFired?
    ensures var t := Attempts(w, retry, m, req, attempt, last);
      && t.calls == retry.maxAttempts - attempt + 1 && t.waited == Delays(retry, attempt, retry.maxAttempts)
      && t.spent == Spending(w, m, attempt, retry.maxAttempts)
    decreases retry.maxAttempts - attempt
  {
    if attempt <= retry.maxAttempts {
      AllFailWaits(w, retry, m, req, attempt + 1, Err(w.invoke(m, attempt, req).error));
    }
  }
}
