// The scheduler with the gateway behind it: which ends of a run the gateway rules out.
module Composition {
  import opened Basics
  import opened EngineSpec
  import opened Text
  import B = Bounds
  import C = Contract
  import G = Gateway
  import L = Lineage
  import Ledger
  import M = StateModel

  /** Every decision is the gateway's. */
  ghost predicate DecidedBy(env: Env, gw: G.Config, worlds: int -> G.World) {
    forall n, req :: env.decide(n, req) == G.Decide(worlds(n), gw, req).result
  }

  /** Whatever is offered as a candidate can be looked up, as with a registry that does not change during the run. */
  ghost predicate CandidatesRegistered(env: Env) {
    forall n, id :: id in env.candidates(n) ==> env.lookup(n, id).Found?
  }

  predicate ProtocolError(error: Error) {
    error == MissingPlan || error == MissingRoute || error == UnsupportedType || error == UnknownNode
  }

  /** No protocol error, and a plan only when planning is on. */
  predicate Orderly(cfg: Config, r: Run, end: (Run, Control)) {
    && (end.1.Abort? ==> !ProtocolError(end.1.error))
    && (!cfg.planning ==>
          || end.0.st.decisionLog == r.st.decisionLog
          || (end.0.st.decisionLog != [] && B.LastOf(end.0.st).kind == M.RouteDecided))
  }

  lemma VisitOrderly(cfg: Config, env: Env, n: int, r: Run, route: C.RouteDecision, view: M.State)
    requires env.lookup(n, route.nextNode).Found?
    ensures var end := Visit(cfg, env, n, r, route, view);
      (end.1.Abort? ==> !ProtocolError(end.1.error)) && end.0.st.decisionLog == r.st.decisionLog
  {
    var found := env.lookup(n, route.nextNode);
    if Refusal(cfg, env, n, route.nextNode, found.rules, view).None? {
      var ran := env.execute(n, route.nextNode, view);
      if ran.NodeSucceeded? {
        assert Visit(cfg, env, n, r, route, view) == Persist(cfg, env, n, r, route, view, ran.patch, ran.output);
      }
    }
  }

  /** A sound decision is taken without a protocol error. */
  lemma TakeOrderly(cfg: Config, env: Env, n: int, r: Run, req: C.Request, d: C.Decided)
    requires G.Sound(req, d) && req.candidates == env.candidates(n) && req.planning == cfg.planning
    requires CandidatesRegistered(env)
    ensures Orderly(cfg, r, Take(cfg, env, n, r, d))
  {
    if d.kind == M.RouteDecided {
      var route := d.route.value;
      if route.nextNode != C.TERMINATE && Visits(r.visited, route.nextNode) + 1 <= cfg.maxSameNodeVisits {
        VisitOrderly(cfg, env, n, L.Logged(n, r, d.call, route), route, r.st);
        assert Take(cfg, env, n, r, d) == Visit(cfg, env, n, L.Logged(n, r, d.call, route), route, r.st);
      }
    }
  }

  lemma IterateOrderly(cfg: Config, env: Env, gw: G.Config, worlds: int -> G.World, n: int, r: Run)
    requires DecidedBy(env, gw, worlds) && CandidatesRegistered(env) && gw.retry.maxAttempts >= 1
    ensures Orderly(cfg, r, Iterate(cfg, env, n, r))
  {
    var req := RequestFor(cfg, env, n, r);
    G.DecideIsSound(worlds(n), gw, req);
    var d := env.decide(n, req);
    if d.Ok? {
      TakeOrderly(cfg, env, n, r, req, d.value);
    }
  }

  lemma NoPlanLogged(cfg: Config, env: Env, n: int, start: M.State, r: Run)
    requires Planless(start, r)
    requires Orderly(cfg, r, Iterate(cfg, env, n, r)) && !cfg.planning
    ensures Planless(start, Iterate(cfg, env, n, r).0)
  {
    var (r1, c) := Iterate(cfg, env, n, r);
    B.IterateLogs(cfg, env, n, r);
    if B.LoggedStep(cfg, env, n, r, r1, c) {
      B.AddOne(start, r, r1, n);
    }
  }

  /** No plan was logged in this run so far. */
  ghost predicate Planless(start: M.State, r: Run) {
    start.decisionLog <= r.st.decisionLog && B.Plans(B.Added(start, r.st)) == 0
  }

  lemma LoopOrderly(cfg: Config, env: Env, gw: G.Config, worlds: int -> G.World, start: M.State, r: Run)
    requires DecidedBy(env, gw, worlds) && CandidatesRegistered(env) && gw.retry.maxAttempts >= 1
    requires !cfg.planning ==> Planless(start, r)
    ensures var (r1, c) := Loop(cfg, env, 1, r);
      (c.Abort? ==> !ProtocolError(c.error)) && (!cfg.planning ==> Planless(start, r1))
  {
    var holds := (k: int, q: Run) => !cfg.planning ==> Planless(start, q);
    var ends := (q: Run, c: Control) => (c.Abort? ==> !ProtocolError(c.error)) && (!cfg.planning ==> Planless(start, q));
    forall k, q | holds(k, q) ensures Carries(cfg, env, k, q, holds, ends) {
      IterateOrderly(cfg, env, gw, worlds, k, q);
      if !cfg.planning {
        NoPlanLogged(cfg, env, k, start, q);
      }
    }
    LoopRule(cfg, env, 1, r, holds, ends);
  }

  lemma CloseErrors(env: Env, r: Run, reason: Ledger.Reason)
    ensures var (r1, out) := Close(env, r, reason);
      (out.Errored? ==> out.error == StoreError) && r1.st.decisionLog == r.st.decisionLog
  {
  }

  /** Behind a gateway that may try at least once, a run over a fixed registry never meets a missing payload, an unsupported type or an unknown node. */
  lemma GatewayRunsAreOrderly(cfg: Config, env: Env, gw: G.Config, worlds: int -> G.World, st: M.State, book: Ledger.Book)
    requires DecidedBy(env, gw, worlds) && CandidatesRegistered(env) && gw.retry.maxAttempts >= 1
    ensures var (r, out) := RunTask(cfg, env, st, book);
      && (out.Errored? ==> !ProtocolError(out.error))
      && (!cfg.planning ==> Planless(st, r))
  {
    var begun := Open(env, book, st);
    assert B.Added(st, st) == [];
    if begun.Some? {
      LoopOrderly(cfg, env, gw, worlds, st, Run(st, begun.value, map[]));
      var (r, c) := Loop(cfg, env, 1, Run(st, begun.value, map[]));
      if c.Stop? {
        CloseErrors(env, r, c.reason);
      }
    }
  }

  lemma UnopenedNeverFinishes(cfg: Config, env: Env, st: M.State, book: Ledger.Book)
    ensures Open(env, book, st).None? ==> RunTask(cfg, env, st, book).1.Errored?
  {
  }

  lemma BudgetLeft(cfg: Config, st: M.State, steps0: nat, r: Run, out: Outcome, ids: set<string>)
    requires B.RunBounded(cfg, st, steps0, r, out, ids) && B.Plans(B.Added(st, r.st)) == 0 && cfg.maxSteps > |ids| * B.Limit(cfg)
    ensures out.Finished? ==> out.summary.reason != Ledger.MaxSteps && |B.Added(st, r.st)| <= |ids| * B.Limit(cfg) + 1
  {
  }

  /** With planning off and a step budget above nodes times visits, the budget is never what ends a run. */
  lemma NeverOutOfSteps(cfg: Config, env: Env, gw: G.Config, worlds: int -> G.World, st: M.State, book: Ledger.Book, ids: set<string>)
    requires DecidedBy(env, gw, worlds) && CandidatesRegistered(env) && gw.retry.maxAttempts >= 1
    requires B.OnlyRegistered(env, ids) && !cfg.planning && cfg.maxSteps > |ids| * B.Limit(cfg)
    ensures var (r, out) := RunTask(cfg, env, st, book);
      out.Finished? ==> out.summary.reason != Ledger.MaxSteps && st.decisionLog <= r.st.decisionLog && |B.Added(st, r.st)| <= |ids| * B.Limit(cfg) + 1
  {
    GatewayRunsAreOrderly(cfg, env, gw, worlds, st, book);
    B.RunIsBounded(cfg, env, st, book, ids);
    UnopenedNeverFinishes(cfg, env, st, book);
    var (r, out) := RunTask(cfg, env, st, book);
    if Open(env, book, st).Some? {
      BudgetLeft(cfg, st, B.StepsIn(book), r, out, ids);
    }
  }

  /** Without a single attempt the gateway's empty answer ends the run at its first step. */
  lemma NoAttemptsNoRun(cfg: Config, env: Env, gw: G.Config, worlds: int -> G.World, st: M.State, book: Ledger.Book)
    requires DecidedBy(env, gw, worlds) && gw.retry.maxAttempts <= 0 && G.Supported(gw.primary)
    requires Open(env, book, st).Some? && cfg.maxSteps >= 1 && !env.fails(At(1), CloneView)
    requires worlds(1).admitted && env.candidates(1) != []
    ensures RunTask(cfg, env, st, book).1 == Errored(UnsupportedType)
  {
    var r := Run(st, Open(env, book, st).value, map[]);
    assert env.decide(1, RequestFor(cfg, env, 1, r)) == Ok(G.NOTHING);
    assert Iterate(cfg, env, 1, r) == (r, Abort(UnsupportedType));
  }

  // ----- the log as evidence -----

  /** The record's function call, validated again, means the very decision recorded. */
  predicate Replays(req: C.Request, d: M.Decision) {
    var again := G.NormalizeCall(req, C.FunctionCall(d.functionName, Some(d.functionArgs)));
    again.Ok? && again.value.kind == d.kind && Records(again.value, d)
  }

  /** The record's fields say what was decided. */
  predicate Records(decided: C.Decided, d: M.Decision) {
    match d.kind
    case RouteDecided => decided.route == Some(C.RouteDecision(d.nextNode, d.reasoning, d.data))
    case PlanDecided =>
      && decided.plan.Some? && d.nextNode == "" && d.reasoning == decided.plan.value.reasoning
      && StringAt(d.data, "goal") == decided.plan.value.goal && ObjectAt(d.data, "data") == decided.plan.value.data
      && G.StringSlice(G.Argument(d.data, "nodes")) == Ok(decided.plan.value.nodes)
      && G.DagEdges(G.Argument(d.data, "edges")) == Ok(decided.plan.value.edges)
    case OtherDecision(_) => false
  }

  lemma NormalizedAgain(req: C.Request, call: C.FunctionCall)
    requires G.NormalizeCall(req, call).Ok?
    ensures G.NormalizeCall(req, G.NormalizeCall(req, call).value.call) == G.NormalizeCall(req, call)
    ensures G.NormalizeCall(req, call).value.call.arguments.Some?
  {
    TrimSpaceShape(call.name);
    TrimSpaceShape(TrimSpace(call.name));
  }

  predicate TrimmedNames(names: seq<string>) {
    forall i :: 0 <= i < |names| ==> TrimSpace(names[i]) == names[i] != ""
  }

  predicate TrimmedEdges(edges: seq<C.Edge>) {
    forall i :: 0 <= i < |edges| ==>
      TrimSpace(edges[i].from) == edges[i].from != "" && TrimSpace(edges[i].to) == edges[i].to != ""
  }

  lemma NamesReadBack(names: seq<string>)
    requires TrimmedNames(names)
    ensures G.StringSlice(C.StrArray(names)) == Ok(names)
  {
    var items := C.StrArray(names).items;
    G.StringsAccepts(items);
    assert forall i :: 0 <= i < |items| ==> items[i].Str? && !Blank(items[i].s);
    assert G.Strings(items).value == names;
  }

  lemma EdgesReadBack(edges: seq<C.Edge>)
    requires TrimmedEdges(edges)
    ensures G.DagEdges(C.EdgeArray(edges)) == Ok(edges)
  {
    var items := C.EdgeArray(edges).items;
    G.EdgesAccepts(items);
    forall i | 0 <= i < |items|
      ensures G.EdgeItem(items[i]) && StringAt(items[i].fields, "from") == edges[i].from && StringAt(items[i].fields, "to") == edges[i].to
    {
      assert edges[i].from != "" && edges[i].to != "";
    }
    assert G.EdgesOf(items).value == edges;
  }

  lemma Trimmed(s: string)
    requires !Blank(s)
    ensures TrimSpace(TrimSpace(s)) == TrimSpace(s) != ""
  {
    TrimSpaceShape(s);
    TrimSpaceShape(TrimSpace(s));
  }

  lemma AcceptedPlanIsTrimmed(req: C.Request, args: JsonMap, plan: C.Plan)
    requires G.NormalizePlan(req, args) == Ok(plan)
    ensures TrimmedNames(plan.nodes) && TrimmedEdges(plan.edges)
  {
    G.PlanExactly(req, args);
    var nodes, edges := G.Argument(args, "nodes"), G.Argument(args, "edges");
    forall i | 0 <= i < |plan.nodes| ensures TrimSpace(plan.nodes[i]) == plan.nodes[i] != "" {
      assert G.NodeItem(req, nodes.items[i]);
      Trimmed(nodes.items[i].s);
    }
    forall i | 0 <= i < |plan.edges|
      ensures TrimSpace(plan.edges[i].from) == plan.edges[i].from != "" && TrimSpace(plan.edges[i].to) == plan.edges[i].to != ""
    {
      assert G.EdgeItem(edges.items[i]);
      Trimmed(StringAt(edges.items[i].fields, "from"));
      Trimmed(StringAt(edges.items[i].fields, "to"));
    }
  }

  /** Round trip: an accepted plan, kept in the state as JSON and submitted again, is accepted as the same plan. */
  lemma PlanReadsBack(req: C.Request, args: JsonMap, plan: C.Plan)
    requires G.NormalizePlan(req, args) == Ok(plan)
    ensures PlanJson(plan).Obj? && G.NormalizePlan(req, PlanJson(plan).fields) == Ok(plan)
  {
    AcceptedPlanIsTrimmed(req, args, plan);
    NamesReadBack(plan.nodes);
    EdgesReadBack(plan.edges);
    PlanFields(plan, PlanJson(plan).fields);
    assert plan.nodes != [] && forall id :: id in plan.nodes ==> id in req.candidates;
  }

  lemma PlanFields(plan: C.Plan, fields: JsonMap)
    requires PlanJson(plan) == Obj(fields)
    ensures G.Argument(fields, "nodes") == C.StrArray(plan.nodes) && G.Argument(fields, "edges") == C.EdgeArray(plan.edges)
    ensures StringAt(fields, "goal") == plan.goal && StringAt(fields, "reasoning") == plan.reasoning && ObjectAt(fields, "data") == plan.data
  {
  }

  lemma RouteReplays(req: C.Request, n: int, call: C.FunctionCall, d: C.Decided)
    requires G.NormalizeCall(req, call) == Ok(d) && d.kind == M.RouteDecided
    ensures d.route.Some? && Replays(req, RouteRecord(n, d.call, d.route.value))
  {
    NormalizedAgain(req, call);
    G.AcceptedCallsAreSound(req, call);
    assert d.call == C.FunctionCall(d.call.name, Some(Arguments(d.call)));
  }

  lemma RecordFields(n: int, call: C.FunctionCall, plan: C.Plan, data: JsonMap)
    requires data == PlanRecord(n, call, plan).data
    ensures G.Argument(data, "nodes") == C.StrArray(plan.nodes) && G.Argument(data, "edges") == C.EdgeArray(plan.edges)
    ensures StringAt(data, "goal") == plan.goal && ObjectAt(data, "data") == plan.data
  {
  }

  lemma PlanIsRecorded(req: C.Request, n: int, d: C.Decided, args: JsonMap)
    requires d.plan.Some? && G.NormalizePlan(req, args) == Ok(d.plan.value)
    ensures Records(d, PlanRecord(n, d.call, d.plan.value))
  {
    var plan := d.plan.value;
    AcceptedPlanIsTrimmed(req, args, plan);
    NamesReadBack(plan.nodes);
    EdgesReadBack(plan.edges);
    RecordFields(n, d.call, plan, PlanRecord(n, d.call, plan).data);
  }

  lemma AcceptedPlan(req: C.Request, call: C.FunctionCall, d: C.Decided)
    requires G.NormalizeCall(req, call) == Ok(d) && d.kind == M.PlanDecided
    ensures d.plan.Some? && call.arguments.Some? && G.NormalizePlan(req, call.arguments.value) == Ok(d.plan.value)
  {
  }

  lemma PlanReplays(req: C.Request, n: int, call: C.FunctionCall, d: C.Decided)
    requires G.NormalizeCall(req, call) == Ok(d) && d.kind == M.PlanDecided
    ensures d.plan.Some? && Replays(req, PlanRecord(n, d.call, d.plan.value))
    ensures PlanJson(d.plan.value).Obj? && G.NormalizePlan(req, PlanJson(d.plan.value).fields) == Ok(d.plan.value)
  {
    AcceptedPlan(req, call, d);
    PlanIsRecorded(req, n, d, call.arguments.value);
    PlanReadsBack(req, call.arguments.value, d.plan.value);
    NormalizedAgain(req, call);
    assert d.call == C.FunctionCall(d.call.name, Some(Arguments(d.call)));
  }

  lemma {:induction false} AnswerIsACall(w: G.World, m: G.Model, req: C.Request, from: nat, k: nat, d: C.Decided)
    requires G.Answered(w, m, req, from, k, Ok(d))
    ensures w.invoke(m, k, req).Ok? && G.NormalizeCall(req, w.invoke(m, k, req).value) == Ok(d)
    decreases k - from
  {
    if from < k {
      AnswerIsACall(w, m, req, from + 1, k, d);
    }
  }

  lemma DecisionIsACall(w: G.World, gw: G.Config, req: C.Request, d: C.Decided) returns (call: C.FunctionCall)
    requires gw.retry.maxAttempts >= 1 && G.Decide(w, gw, req).result == Ok(d)
    ensures G.NormalizeCall(req, call) == Ok(d)
  {
    G.DecideExactly(w, gw, req, d);
    var m := if G.Gives(w, gw.retry, gw.primary, req, d) then gw.primary else gw.fallback;
    var k: nat :| 1 <= k <= gw.retry.maxAttempts && G.Answered(w, m, req, 1, k, Ok(d));
    AnswerIsACall(w, m, req, 1, k, d);
    call := w.invoke(m, k, req).value;
  }

  /** The record is evidence: its call was valid for what the model was offered at its step, and means what was recorded. */
  ghost predicate Auditable(cfg: Config, env: Env, d: M.Decision) {
    exists req: C.Request :: req.candidates == env.candidates(d.step) && req.planning == cfg.planning && Replays(req, d)
  }

  ghost predicate AllAuditable(cfg: Config, env: Env, start: M.State, st: M.State) {
    start.decisionLog <= st.decisionLog && forall d :: d in B.Added(start, st) ==> Auditable(cfg, env, d)
  }

  /** What an iteration logs is evidence, and a plan it logs is kept so that it reads back. */
  lemma IterateAuditable(cfg: Config, env: Env, gw: G.Config, worlds: int -> G.World, n: int, r: Run)
    requires DecidedBy(env, gw, worlds) && gw.retry.maxAttempts >= 1
    ensures var r1 := Iterate(cfg, env, n, r).0;
      r1.st.decisionLog == r.st.decisionLog || (r1.st.decisionLog != [] && r1.st.decisionLog == r.st.decisionLog + [B.LastOf(r1.st)] && Auditable(cfg, env, B.LastOf(r1.st)))
  {
    if !env.fails(At(n), CloneView) {
      var req := RequestFor(cfg, env, n, r);
      var answer := env.decide(n, req);
      if answer.Ok? {
        var call := DecisionIsACall(worlds(n), gw, req, answer.value);
        TakeAuditable(cfg, env, n, r, req, call, answer.value);
      }
    }
  }

  lemma TakeAuditable(cfg: Config, env: Env, n: int, r: Run, req: C.Request, call: C.FunctionCall, d: C.Decided)
    requires req.candidates == env.candidates(n) && req.planning == cfg.planning && G.NormalizeCall(req, call) == Ok(d)
    ensures var r1 := Take(cfg, env, n, r, d).0;
      r1.st.decisionLog != [] && r1.st.decisionLog == r.st.decisionLog + [B.LastOf(r1.st)] && Auditable(cfg, env, B.LastOf(r1.st))
    ensures d.kind == M.PlanDecided ==>
      var ext := Take(cfg, env, n, r, d).0.st.ext;
      && d.plan.Some? && "latest_plan" in ext && ext["latest_plan"].Obj?
      && G.NormalizePlan(req, ext["latest_plan"].fields) == Ok(d.plan.value)
  {
    G.AcceptedCallsAreSound(req, call);
    var r1 := Take(cfg, env, n, r, d).0;
    if d.kind == M.RouteDecided {
      RouteReplays(req, n, call, d);
      LogOfTake(cfg, env, n, r, d.call, d.route.value);
    } else {
      PlanReplays(req, n, call, d);
    }
    assert B.LastOf(r1.st).step == n && Replays(req, B.LastOf(r1.st));
  }

  lemma LogOfTake(cfg: Config, env: Env, n: int, r: Run, call: C.FunctionCall, route: C.RouteDecision)
    ensures TakeRoute(cfg, env, n, r, call, route).0.st.decisionLog == r.st.decisionLog + [RouteRecord(n, call, route)]
  {
    if route.nextNode != C.TERMINATE && Visits(r.visited, route.nextNode) + 1 <= cfg.maxSameNodeVisits {
      var logged := L.Logged(n, r, call, route);
      assert TakeRoute(cfg, env, n, r, call, route) == Visit(cfg, env, n, logged, route, r.st);
      if env.lookup(n, route.nextNode).Found? {
        VisitOrderly(cfg, env, n, logged, route, r.st);
      }
    }
  }

  /** Over a whole run behind the gateway, every decision it logs is evidence for itself. */
  lemma LogIsEvidence(cfg: Config, env: Env, gw: G.Config, worlds: int -> G.World, st: M.State, book: Ledger.Book)
    requires DecidedBy(env, gw, worlds) && gw.retry.maxAttempts >= 1
    ensures AllAuditable(cfg, env, st, RunTask(cfg, env, st, book).0.st)
  {
    assert B.Added(st, st) == [];
    var begun := Open(env, book, st);
    if begun.Some? {
      var r0 := Run(st, begun.value, map[]);
      var holds := (q: Run) => AllAuditable(cfg, env, st, q.st);
      forall k, q | holds(q) ensures holds(Iterate(cfg, env, k, q).0) {
        IterateAuditable(cfg, env, gw, worlds, k, q);
        EvidenceGrows(cfg, env, st, q.st, Iterate(cfg, env, k, q).0.st);
      }
      L.LoopInduction(cfg, env, r0, holds);
      var (r, c) := Loop(cfg, env, 1, r0);
      if c.Stop? {
        CloseErrors(env, r, c.reason);
      }
    }
  }

  lemma EvidenceGrows(cfg: Config, env: Env, start: M.State, st: M.State, st1: M.State)
    requires AllAuditable(cfg, env, start, st)
    requires st1.decisionLog == st.decisionLog
      || (st1.decisionLog != [] && st1.decisionLog == st.decisionLog + [B.LastOf(st1)] && Auditable(cfg, env, B.LastOf(st1)))
    ensures AllAuditable(cfg, env, start, st1)
  {
    if st1.decisionLog != st.decisionLog {
      assert B.Added(start, st1) == B.Added(start, st) + [B.LastOf(st1)];
    }
  }
}
