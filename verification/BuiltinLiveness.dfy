// The builtin nodes under the mock provider: exactly when a run completes, and what happens otherwise.
module BuiltinLiveness {
  import opened Basics
  import opened EngineSpec
  import opened Ledger
  import opened Text
  import opened Workflows
  import B = Bounds
  import C = Contract
  import Composition
  import G = Gateway
  import L = Lineage
  import M = StateModel
  import Mock = MockProvider
  import N = BuiltinNodes

  /** The builtin nodes are registered, and the weather workflow is not complete. */
  ghost predicate BuiltinWorld(env: Env) {
    && (forall n :: !Mock.HasWeatherWorkflow(env.candidates(n)) && forall id :: id in N.BUILTINS ==> id in env.candidates(n))
    && (forall n, id :: id in N.BUILTINS ==> env.lookup(n, id) == Found(None))
    && (forall n, id, view :: id in N.BUILTINS ==>
          env.checkBefore(n, id, view) == N.CheckBefore(id, view) && env.execute(n, id, view) == N.Execute(id, view))
  }

  ghost predicate BuiltinDemo(env: Env, gw: G.Config, worlds: int -> G.World) {
    Healthy(env) && MockGateway(gw, worlds) && Composition.DecidedBy(env, gw, worlds) && BuiltinWorld(env)
  }

  /** The first builtin node without output. */
  function Needed(outputs: M.Outputs): string {
    if N.PARSE !in outputs then N.PARSE
    else if N.TRANSFORM !in outputs then N.TRANSFORM
    else if N.FINALIZE !in outputs then N.FINALIZE
    else C.TERMINATE
  }

  function Ahead(st: M.State): seq<string> {
    (if N.PARSE !in st.nodeOutputs then [N.PARSE] else [])
    + (if N.TRANSFORM !in st.nodeOutputs then [N.TRANSFORM] else [])
    + (if N.FINALIZE !in st.nodeOutputs then [N.FINALIZE] else [])
  }

  function Course(st: M.State): seq<string> {
    Ahead(st) + [C.TERMINATE]
  }

  /** The node the outputs call for admits the state, if there is one. */
  predicate Admitted(st: M.State) {
    var id := Needed(st.nodeOutputs);
    id == C.TERMINATE || !Blank(st.input.text) || (id == N.FINALIZE && N.TRANSFORMED in st.workingMemory)
  }

  /** The node's fact was there before, or the node has said it since. */
  predicate FactKept(id: string, st0: M.State, st: M.State) {
    var key := N.FactOf(id);
    if id in st0.nodeOutputs then
      (key in st.workingMemory <==> key in st0.workingMemory) && (key in st.workingMemory ==> st.workingMemory[key] == st0.workingMemory[key])
    else id in st.nodeOutputs ==> N.Truthful(id, st.input.text, st.workingMemory, StringAt(st.workingMemory, key))
  }

  predicate FactsKept(st0: M.State, st: M.State) {
    forall id :: id in N.BUILTINS ==> FactKept(id, st0, st)
  }

  /** A final text made in this run is the last thing to do. */
  predicate FinalIsLast(st0: M.State, st: M.State) {
    N.FINALIZE in st.nodeOutputs && N.FINALIZE !in st0.nodeOutputs ==> Needed(st.nodeOutputs) == C.TERMINATE
  }

  predicate Ready(cfg: Config, st0: M.State, r: Run) {
    && FactsKept(st0, r.st) && FinalIsLast(st0, r.st) && st0.nodeOutputs.Keys <= r.st.nodeOutputs.Keys
    && M.Validated(r.st) && Proper(r) && cfg.maxSameNodeVisits >= 1 && Admitted(r.st)
    && forall id :: id in N.BUILTINS && id !in r.st.nodeOutputs ==> Visits(r.visited, id) == 0
  }

  /** The goal: every node has its output, and every fact is a given one or its node's own. */
  function Builtin(cfg: Config, st0: M.State): Workflow {
    Workflow(r => Ready(cfg, st0, r), Ahead, Course, (st: M.State) => st.ext, st => Ahead(st) == [] && FactsKept(st0, st))
  }

  lemma NamesDiffer()
    ensures N.PARSE != N.TRANSFORM && N.PARSE != N.FINALIZE && N.TRANSFORM != N.FINALIZE
    ensures C.TERMINATE !in N.BUILTINS
  {
  }

  /** The mock provider routes by the outputs. */
  lemma MockFollowsOutputs(req: C.Request)
    requires !Mock.HasWeatherWorkflow(req.candidates) && forall id :: id in N.BUILTINS ==> id in req.candidates
    ensures Mock.Invoke(req).Ok? && !Mock.Plans(req)
    ensures Mock.MockRoute(req).value.nextNode == Needed(req.state.nodeOutputs)
  {
    assert N.PARSE in N.BUILTINS && N.TRANSFORM in N.BUILTINS && N.FINALIZE in N.BUILTINS;
  }

  lemma IterateRoutes(cfg: Config, env: Env, gw: G.Config, worlds: int -> G.World, n: int, r: Run) returns (call: C.FunctionCall, route: C.RouteDecision)
    requires BuiltinDemo(env, gw, worlds)
    ensures route.nextNode == Needed(r.st.nodeOutputs) && Iterate(cfg, env, n, r) == TakeRoute(cfg, env, n, r, call, route)
  {
    var req := RequestFor(cfg, env, n, r);
    assert N.PARSE in N.BUILTINS;
    MockFollowsOutputs(req);
    IterateAnswers(cfg, env, gw, worlds, n, r);
    call, route := Answer(req).call, Answer(req).route.value;
  }

  // ----- admitted: the run completes -----

  lemma NeededSucceeds(st: M.State, id: string)
    requires Admitted(st) && id == Needed(st.nodeOutputs) != C.TERMINATE
    ensures id in N.BUILTINS && N.CheckBefore(id, st).allowed
    ensures N.Execute(id, st).NodeSucceeded? && N.Says(id, st.input.text, st.workingMemory, N.Execute(id, st).patch)
  {
    NamesDiffer();
    N.BuiltinSays(id, st);
  }

  lemma AheadStep(st: M.State, st1: M.State, id: string)
    requires id == Needed(st.nodeOutputs) != C.TERMINATE && st1.nodeOutputs.Keys == st.nodeOutputs.Keys + {id}
    ensures Ahead(st) == [id] + Ahead(st1) && Course(st) == [id] + Course(st1)
    ensures Admitted(st) && st1.input == st.input ==> Admitted(st1)
  {
    NamesDiffer();
  }

  /** What an executed hop does to outputs, extensions and counters. */
  lemma ExecutionEffect(cfg: Config, r: Run, r1: Run, id: string, patch: M.Patch)
    requires N.Says(id, r.st.input.text, r.st.workingMemory, patch) && Executed(cfg, r, r1, id, patch)
    ensures r1.st.nodeOutputs.Keys == r.st.nodeOutputs.Keys + {id} && r1.st.ext == r.st.ext && r1.st.input == r.st.input
    ensures r1.st.task.status == M.Running && r1.st.task.id == r.st.task.id && r1.st.traceId == r.st.traceId
    ensures r1.st.workingMemory == r.st.workingMemory + patch.workingMemory
    ensures r1.book.task.Some? && forall other :: other != id ==> Visits(r1.visited, other) == Visits(r.visited, other)
  {
    assert r1.st.ext == r.st.ext;
  }

  lemma FactNamesDiffer()
    ensures N.FactOf(N.PARSE) != N.FactOf(N.TRANSFORM) && N.FactOf(N.PARSE) != N.FactOf(N.FINALIZE) && N.FactOf(N.TRANSFORM) != N.FactOf(N.FINALIZE)
  {
  }

  /** A node's patch leaves the memory of the other facts alone. */
  lemma OtherFactStays(other: string, id: string, text: string, wm: JsonMap, patch: M.Patch)
    requires other in N.BUILTINS && id in N.BUILTINS && other != id && N.Says(id, text, wm, patch)
    ensures var after, key := wm + patch.workingMemory, N.FactOf(other);
      (key in after <==> key in wm) && (key in wm ==> after[key] == wm[key]) && StringAt(after, key) == StringAt(wm, key)
  {
    FactNamesDiffer();
    assert N.FactOf(other) !in patch.workingMemory.Keys;
  }

  lemma OwnFactSaid(id: string, text: string, wm: JsonMap, patch: M.Patch)
    requires id in N.BUILTINS && N.Says(id, text, wm, patch)
    ensures var after := wm + patch.workingMemory;
      StringAt(after, N.FactOf(id)) == StringAt(patch.workingMemory, N.FactOf(id)) && N.Truthful(id, text, after, StringAt(after, N.FactOf(id)))
  {
    assert N.FactOf(id) in patch.workingMemory.Keys;
    if id == N.FINALIZE {
      NamesDiffer();
      OtherFactStays(N.PARSE, id, text, wm, patch);
      OtherFactStays(N.TRANSFORM, id, text, wm, patch);
    }
  }

  /** Running the needed node keeps all facts: only its own is new, and nothing runs after the final text. */
  lemma FactsStayKept(st0: M.State, st: M.State, st1: M.State, id: string, patch: M.Patch)
    requires FactsKept(st0, st) && FinalIsLast(st0, st) && id == Needed(st.nodeOutputs) != C.TERMINATE && st0.nodeOutputs.Keys <= st.nodeOutputs.Keys
    requires N.Says(id, st.input.text, st.workingMemory, patch)
    requires st1.input == st.input && st1.workingMemory == st.workingMemory + patch.workingMemory
    requires st1.nodeOutputs.Keys == st.nodeOutputs.Keys + {id}
    ensures FactsKept(st0, st1) && FinalIsLast(st0, st1)
  {
    NamesDiffer();
    forall other | other in N.BUILTINS ensures FactKept(other, st0, st1) {
      assert FactKept(other, st0, st);
      if other == id {
        OwnFactSaid(id, st.input.text, st.workingMemory, patch);
      } else {
        OtherFactStays(other, id, st.input.text, st.workingMemory, patch);
      }
    }
  }

  lemma StartsReady(cfg: Config, st: M.State, book: Book)
    requires M.Validated(st) && st.task.status != M.TimedOut && Admitted(st) && cfg.maxSameNodeVisits >= 1 && book.task.Some?
    ensures Ready(cfg, st, Run(st, book, map[]))
  {
  }

  lemma ExecutionReady(cfg: Config, st0: M.State, r: Run, r1: Run, id: string, patch: M.Patch)
    requires Ready(cfg, st0, r) && id == Needed(r.st.nodeOutputs) != C.TERMINATE
    requires N.Says(id, r.st.input.text, r.st.workingMemory, patch) && Executed(cfg, r, r1, id, patch)
    ensures Ready(cfg, st0, r1) && r1.st.ext == r.st.ext && Proper(r1)
    ensures Ahead(r.st) == [id] + Ahead(r1.st) && Course(r.st) == [id] + Course(r1.st)
  {
    ExecutionEffect(cfg, r, r1, id, patch);
    AheadStep(r.st, r1.st, id);
    FactsStayKept(st0, r.st, r1.st, id, patch);
    forall other | other in N.BUILTINS && other !in r1.st.nodeOutputs ensures Visits(r1.visited, other) == 0 {
      assert other !in r.st.nodeOutputs.Keys && other != id;
    }
  }

  lemma ExecutionAdvances(cfg: Config, st0: M.State, r: Run, r1: Run, id: string, patch: M.Patch)
    requires Ready(cfg, st0, r) && id == Needed(r.st.nodeOutputs) != C.TERMINATE
    requires N.Says(id, r.st.input.text, r.st.workingMemory, patch) && Executed(cfg, r, r1, id, patch)
    ensures Advances(Builtin(cfg, st0), r, (r1, Next))
  {
    ExecutionReady(cfg, st0, r, r1, id, patch);
    NextsAppend(r.st.decisionLog, B.LastOf(r1.st));
    NodesAppend(r.book.task.value.steps, r1.book.task.value.steps);
    HeadMoves(NodesOf(r.book.task.value.steps), id, Ahead(r1.st));
    HeadMoves(Nexts(r.st.decisionLog), id, Course(r1.st));
  }

  lemma HopAdvances(cfg: Config, st0: M.State, env: Env, n: int, r: Run, call: C.FunctionCall, route: C.RouteDecision)
    requires Healthy(env) && BuiltinWorld(env) && Ready(cfg, st0, r) && route.nextNode == Needed(r.st.nodeOutputs)
    ensures Advances(Builtin(cfg, st0), r, TakeRoute(cfg, env, n, r, call, route))
  {
    var id := route.nextNode;
    if id == C.TERMINATE {
      NextsAppend(r.st.decisionLog, RouteRecord(n, call, route));
    } else {
      NeededSucceeds(r.st, id);
      var ran := N.Execute(id, r.st);
      HopExecutes(cfg, env, n, r, call, route, ran.patch, ran.output);
      ExecutionAdvances(cfg, st0, r, TakeRoute(cfg, env, n, r, call, route).0, id, ran.patch);
    }
  }

  /** An admitted state completes if and only if the budget covers its course: every node without output runs once, then termination. */
  lemma AdmittedCompletes(cfg: Config, env: Env, gw: G.Config, worlds: int -> G.World, st: M.State, book: Book)
    requires BuiltinDemo(env, gw, worlds) && M.Validated(st) && st.task.status != M.TimedOut
    requires Admitted(st) && cfg.maxSameNodeVisits >= 1
    ensures var (r, out) := RunTask(cfg, env, st, book);
      && (Completes(Builtin(cfg, st), st, book, r, out) <==> cfg.maxSteps >= |Course(st)|)
      && (RunsShort(Builtin(cfg, st), cfg, st, book, r, out) <==> cfg.maxSteps < |Course(st)|)
  {
    var w := Builtin(cfg, st);
    forall n, r | w.ready(r) && Proper(r) ensures Advances(w, r, Iterate(cfg, env, n, r)) {
      var call, route := IterateRoutes(cfg, env, gw, worlds, n, r);
      HopAdvances(cfg, st, env, n, r, call, route);
    }
    forall b: Book | b.task.Some? ensures w.ready(Run(st, b, map[])) {
      StartsReady(cfg, st, b);
    }
    WorkflowCompletes(w, cfg, env, st, book);
  }

  // ----- not admitted: the run fails without executing anything -----

  /** The same node is chosen again and rejected again. */
  predicate Repeats(cfg: Config, r: Run, end: (Run, Control)) {
    var id := Needed(r.st.nodeOutputs);
    && end.0.book == r.book && !Admitted(end.0.st) && Needed(end.0.st.nodeOutputs) == id
    && end.0.st.task == r.st.task && Nexts(end.0.st.decisionLog) == Nexts(r.st.decisionLog) + [id]
    && Visits(end.0.visited, id) == Visits(r.visited, id) + 1
    && end.1 == if Visits(r.visited, id) + 1 > cfg.maxSameNodeVisits then Stop(LoopDetected) else Next
  }

  lemma RejectionRepeats(cfg: Config, env: Env, n: int, r: Run, call: C.FunctionCall, route: C.RouteDecision)
    requires BuiltinWorld(env) && !Admitted(r.st) && route.nextNode == Needed(r.st.nodeOutputs)
    ensures Repeats(cfg, r, TakeRoute(cfg, env, n, r, call, route))
  {
    var logged := L.Logged(n, r, call, route);
    NextsAppend(r.st.decisionLog, RouteRecord(n, call, route));
    assert !env.checkBefore(n, route.nextNode, r.st).allowed;
    assert Visit(cfg, env, n, logged, route, r.st).0.st.ext == r.st.ext["last_rejection_reason" := Str(env.checkBefore(n, route.nextNode, r.st).reason)];
  }

  function Times(id: string, k: nat): seq<string> {
    seq(k, i => id)
  }

  lemma OnceMore(log: seq<string>, id: string, k: nat)
    ensures log + Times(id, k) + [id] == log + Times(id, k + 1)
  {
  }

  /** Before iteration n the needed node was chosen n - 1 times and rejected each time. */
  predicate Stuck(cfg: Config, r: Run, n: int, q: Run) {
    var id := Needed(r.st.nodeOutputs);
    && n >= 1 && (n == 1 || n <= cfg.maxSteps + 1)
    && q.book == r.book && q.st.task == r.st.task && !Admitted(q.st) && Needed(q.st.nodeOutputs) == id
    && Nexts(q.st.decisionLog) == Nexts(r.st.decisionLog) + Times(id, n - 1)
    && Visits(q.visited, id) == n - 1 <= cfg.maxSameNodeVisits
  }

  /** Nothing but that hop was logged, M + 1 times or as often as the budget allowed, and nothing was stored. */
  predicate GivesUp(cfg: Config, r: Run, end: (Run, Control)) {
    var looped := cfg.maxSameNodeVisits < cfg.maxSteps;
    var times := if looped then cfg.maxSameNodeVisits + 1 else Budget(cfg);
    && end.0.book == r.book && end.0.st.task == r.st.task && end.1 == Stop(if looped then LoopDetected else MaxSteps)
    && times >= 0 && Nexts(end.0.st.decisionLog) == Nexts(r.st.decisionLog) + Times(Needed(r.st.nodeOutputs), times)
  }

  lemma StuckRepeats(cfg: Config, r: Run, n: int, q: Run, end: (Run, Control))
    requires Stuck(cfg, r, n, q) && n <= cfg.maxSteps && Repeats(cfg, q, end)
    ensures StaysStuck(cfg, r, n, end)
  {
    OnceMore(Nexts(r.st.decisionLog), Needed(r.st.nodeOutputs), n - 1);
  }

  lemma StartsStuck(cfg: Config, r: Run)
    requires !Admitted(r.st) && r.visited == map[] && cfg.maxSameNodeVisits >= 0
    ensures Stuck(cfg, r, 1, r)
  {
  }

  lemma StuckOutOfSteps(cfg: Config, r: Run, n: int, q: Run)
    requires Stuck(cfg, r, n, q) && n > cfg.maxSteps
    ensures GivesUp(cfg, r, (q, Stop(MaxSteps)))
  {
  }

  predicate StaysStuck(cfg: Config, r: Run, n: int, end: (Run, Control)) {
    if end.1.Next? then Stuck(cfg, r, n + 1, end.0) else GivesUp(cfg, r, end)
  }

  lemma StuckIterates(cfg: Config, env: Env, gw: G.Config, worlds: int -> G.World, r: Run, n: int, q: Run, end: (Run, Control))
    requires BuiltinDemo(env, gw, worlds) && Stuck(cfg, r, n, q) && end == Iterate(cfg, env, n, q) && n <= cfg.maxSteps
    ensures StaysStuck(cfg, r, n, end)
  {
    var call, route := IterateRoutes(cfg, env, gw, worlds, n, q);
    RejectionRepeats(cfg, env, n, q, call, route);
    StuckRepeats(cfg, r, n, q, end);
  }

  lemma StuckCarries(
    cfg: Config, env: Env, gw: G.Config, worlds: int -> G.World, r: Run, n: int, q: Run, holds: (int, Run) -> bool, ends: (Run, Control) -> bool)
    requires BuiltinDemo(env, gw, worlds) && Stuck(cfg, r, n, q)
    requires forall k, p :: Stuck(cfg, r, k, p) ==> holds(k, p)
    requires forall p, c :: GivesUp(cfg, r, (p, c)) ==> ends(p, c)
    ensures Carries(cfg, env, n, q, holds, ends)
  {
    if n > cfg.maxSteps {
      StuckOutOfSteps(cfg, r, n, q);
    } else {
      var end := Iterate(cfg, env, n, q);
      StuckIterates(cfg, env, gw, worlds, r, n, q, end);
      assert end == (end.0, end.1);
    }
  }

  /** The same rejected hop is chosen until the loop detector fires at visit M + 1, or until the budget runs out first. */
  lemma LoopRepeats(cfg: Config, env: Env, gw: G.Config, worlds: int -> G.World, r: Run, end: (Run, Control))
    requires BuiltinDemo(env, gw, worlds) && !Admitted(r.st) && r.visited == map[] && cfg.maxSameNodeVisits >= 0
    requires end == Loop(cfg, env, 1, r)
    ensures GivesUp(cfg, r, end)
  {
    var holds := (k: int, q: Run) => Stuck(cfg, r, k, q);
    var ends := (q: Run, c: Control) => GivesUp(cfg, r, (q, c));
    forall k, q | holds(k, q) ensures Carries(cfg, env, k, q, holds, ends) {
      StuckCarries(cfg, env, gw, worlds, r, k, q, holds, ends);
    }
    StartsStuck(cfg, r);
    LoopRule(cfg, env, 1, r, holds, ends);
    assert ends(end.0, end.1);
  }

  /** Nothing is executed and the run fails. */
  predicate Fails(cfg: Config, book: Book, r: Run, out: Outcome) {
    && out.Finished? && out.summary.status == M.Failed == r.st.task.status
    && out.summary.reason == (if cfg.maxSameNodeVisits < cfg.maxSteps then LoopDetected else MaxSteps)
    && StepsOf(r.book) == StepsOf(book)
  }

  lemma RejectedFails(cfg: Config, env: Env, gw: G.Config, worlds: int -> G.World, st: M.State, book: Book)
    requires BuiltinDemo(env, gw, worlds) && !Admitted(st) && cfg.maxSameNodeVisits >= 1
    ensures var (r, out) := RunTask(cfg, env, st, book);
      Fails(cfg, book, r, out)
  {
    HealthyOpen(env, book, st);
    L.OpenKeeps(env, book, st);
    var r0 := Run(st, Open(env, book, st).value, map[]);
    var (r, c) := Loop(cfg, env, 1, r0);
    LoopRepeats(cfg, env, gw, worlds, r0, (r, c));
    HealthyClose(env, r, c.reason);
  }

  /** A builtin run completes if and only if its first needed node admits the starting state and the budget covers the course; an admitted run out of budget stops inside its course, and a run not admitted fails without executing anything. */
  lemma CompletesIffAdmitted(cfg: Config, env: Env, gw: G.Config, worlds: int -> G.World, st: M.State, book: Book)
    requires BuiltinDemo(env, gw, worlds) && M.Validated(st) && st.task.status != M.TimedOut && cfg.maxSameNodeVisits >= 1
    ensures var (r, out) := RunTask(cfg, env, st, book);
      && (Completes(Builtin(cfg, st), st, book, r, out) <==> Admitted(st) && cfg.maxSteps >= |Course(st)|)
      && (Admitted(st) && cfg.maxSteps < |Course(st)| ==> RunsShort(Builtin(cfg, st), cfg, st, book, r, out))
      && (!Admitted(st) ==> Fails(cfg, book, r, out))
  {
    if Admitted(st) {
      AdmittedCompletes(cfg, env, gw, worlds, st, book);
    } else {
      RejectedFails(cfg, env, gw, worlds, st, book);
    }
  }
}
