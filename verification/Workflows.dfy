// Runs without failures, with the mock provider behind the gateway: a workflow whose every step advances completes.
module Workflows {
  import opened Basics
  import opened EngineSpec
  import opened Ledger
  import B = Bounds
  import C = Contract
  import Composition
  import G = Gateway
  import L = Lineage
  import M = StateModel
  import Mock = MockProvider

  /** Failures that do not end a run: they are logged and the run goes on. */
  predicate Tolerated(op: Op) {
    op == RecallPatterns || op == PutShortTerm || op == UpsertPattern || op == ConvertForRules || op == ConvertForStep
  }

  /** The store works and the deadline is kept. */
  ghost predicate Healthy(env: Env) {
    !env.expired && forall phase, op :: env.fails(phase, op) ==> Tolerated(op)
  }

  ghost predicate MockGateway(gw: G.Config, worlds: int -> G.World) {
    && Mock.IsMock(gw.primary) && gw.retry.maxAttempts >= 1
    && forall n :: worlds(n).admitted && forall k, q :: worlds(n).invoke(gw.primary, k, q) == Mock.Invoke(q)
  }

  // ----- one iteration -----

  /** With the mock provider, what the scheduler gets to hear. */
  function Answer(req: C.Request): C.Decided
    requires Mock.Invoke(req).Ok?
  {
    if Mock.Plans(req) then C.Decided(M.PlanDecided, Mock.PLAN_CALL, None, Some(Mock.PLAN))
    else
      var hop := Mock.MockRoute(req).value;
      C.Decided(M.RouteDecided, Mock.RouteCall(hop), Some(C.RouteDecision(hop.nextNode, hop.reasoning, hop.data)), None)
  }

  lemma IterateAnswers(cfg: Config, env: Env, gw: G.Config, worlds: int -> G.World, n: int, r: Run)
    requires Healthy(env) && MockGateway(gw, worlds) && Composition.DecidedBy(env, gw, worlds)
    requires env.candidates(n) != [] && Mock.Invoke(RequestFor(cfg, env, n, r)).Ok?
    ensures Iterate(cfg, env, n, r) == Take(cfg, env, n, r, Answer(RequestFor(cfg, env, n, r)))
  {
    var req := RequestFor(cfg, env, n, r);
    Mock.MockDecides(worlds(n), gw, req);
    Mock.MockCallsAreAccepted(req);
    assert !env.fails(At(n), CloneView);
  }

  /** A first visit to a node that admits the state and succeeds: its patch is merged and recorded. */
  predicate Executed(cfg: Config, r: Run, r1: Run, id: string, patch: M.Patch) {
    && r1.st.decisionLog != [] && r1.st.decisionLog == r.st.decisionLog + [B.LastOf(r1.st)]
    && r1.st == M.Patched(r.st, patch, cfg.sensitive).(decisionLog := r1.st.decisionLog)
    && B.LastOf(r1.st).kind == M.RouteDecided && B.LastOf(r1.st).nextNode == id
    && r1.visited == r.visited[id := Visits(r.visited, id) + 1]
    && r.book.task.Some? && r1.book.task.Some?
    && |r1.book.task.value.steps| == |r.book.task.value.steps| + 1
    && r1.book.task.value.steps[..|r.book.task.value.steps|] == r.book.task.value.steps
    && r1.book.task.value.steps[|r.book.task.value.steps|].node == id
  }

  lemma HealthyRecord(env: Env, n: int, book: Book, st: M.State, snap: SnapshotRecord, step: StepRecord)
    requires Healthy(env) && book.task.Some?
    ensures var (book1, c) := Record(env, n, book, st, snap, step);
      c.Next? && book1.task.Some? && book1.task.value.steps == book.task.value.steps + [step]
  {
    assert !env.fails(At(n), Op.UpdateTask) && !env.fails(At(n), Op.SaveSnapshot) && !env.fails(At(n), Op.SaveStep);
  }

  lemma HealthyPersist(cfg: Config, env: Env, n: int, r: Run, route: C.RouteDecision, view: M.State, patch: M.Patch, output: JsonMap)
    requires Healthy(env) && r.book.task.Some? && M.Validated(r.st)
    ensures var (r1, c) := Persist(cfg, env, n, r, route, view, patch, output);
      && c.Next? && r1.st == M.Patched(r.st, patch, cfg.sensitive) && r1.visited == r.visited && r1.book.task.Some?
      && r1.book.task.value.steps == r.book.task.value.steps + [StepOf(env, n, route, view, output)]
  {
    var st := M.Patched(r.st, patch, cfg.sensitive);
    assert !env.fails(At(n), ClonePatched);
    HealthyRecord(env, n, r.book, st, SnapshotOf(st, patch), StepOf(env, n, route, view, output));
  }

  lemma HopExecutes(cfg: Config, env: Env, n: int, r: Run, call: C.FunctionCall, route: C.RouteDecision, patch: M.Patch, output: JsonMap)
    requires Healthy(env) && r.book.task.Some? && M.Validated(r.st) && cfg.maxSameNodeVisits >= 1
    requires route.nextNode != C.TERMINATE && Visits(r.visited, route.nextNode) == 0
    requires env.lookup(n, route.nextNode) == Found(None) && env.checkBefore(n, route.nextNode, r.st).allowed
    requires env.execute(n, route.nextNode, r.st) == NodeSucceeded(patch, output)
    ensures var (r1, c) := TakeRoute(cfg, env, n, r, call, route);
      c.Next? && Executed(cfg, r, r1, route.nextNode, patch)
  {
    var logged := L.Logged(n, r, call, route);
    HealthyPersist(cfg, env, n, logged, route, r.st, patch, output);
    assert Visit(cfg, env, n, logged, route, r.st) == Persist(cfg, env, n, logged, route, r.st, patch, output);
    assert TakeRoute(cfg, env, n, r, call, route) == Visit(cfg, env, n, logged, route, r.st);
  }

  lemma HealthyClose(env: Env, r: Run, reason: Reason)
    requires Healthy(env) && r.book.task.Some?
    ensures var (r1, out) := Close(env, r, reason);
      && out.Finished? && out.summary.reason == reason && out.summary.status == r1.st.task.status
      && out.summary.nodeSequence == NodesOf(r.book.task.value.steps)
      && r1.st == r.st.(task := r.st.task.(status := FinalStatus(env, reason, r.st.task.status)))
      && r1.book.task.Some? && r1.book.task.value.steps == r.book.task.value.steps
  {
    assert !env.fails(Finish, Op.GetTask) && !env.fails(Finish, Op.SaveSummary) && !env.fails(Finish, Op.UpdateTask);
  }

  lemma HealthyOpen(env: Env, book: Book, st: M.State)
    requires Healthy(env)
    ensures Open(env, book, st).Some? && Open(env, book, st).value.task.Some?
  {
    assert !env.fails(Start, Op.GetTask) && !env.fails(Start, Op.CreateTask) && !env.fails(Start, Op.UpdateTask);
  }

  // ----- workflows: what is done plus what is to do never changes -----

  function Nexts(log: seq<M.Decision>): seq<string> {
    seq(|log|, i requires 0 <= i < |log| => log[i].nextNode)
  }

  lemma NextsAppend(log: seq<M.Decision>, d: M.Decision)
    ensures Nexts(log + [d]) == Nexts(log) + [d.nextNode]
  {
  }

  lemma NodesAppend(steps: seq<StepRecord>, more: seq<StepRecord>)
    requires |more| == |steps| + 1 && more[..|steps|] == steps
    ensures NodesOf(more) == NodesOf(steps) + [more[|steps|].node]
  {
    assert more == steps + [more[|steps|]];
  }

  lemma HeadMoves(log: seq<string>, head: string, rest: seq<string>)
    ensures (log + [head]) + rest == log + ([head] + rest)
  {
  }

  /** When the workflow may go on, the nodes and the decisions ahead of a state, the extensions it will end with, and what it is for. */
  datatype Workflow = Workflow(
    ready: Run -> bool, ahead: M.State -> seq<string>, course: M.State -> seq<string>, endExt: M.State -> JsonMap, goal: M.State -> bool)

  predicate Proper(r: Run) {
    r.book.task.Some? && r.st.task.status != M.TimedOut
  }

  /** The course is in the log, its nodes are executed, nothing was rejected, and the goal is met. */
  predicate Arrived(w: Workflow, r: Run, r1: Run)
    requires Proper(r)
  {
    && Proper(r1) && w.goal(r1.st) && r1.st.ext == w.endExt(r.st)
    && Nexts(r1.st.decisionLog) == Nexts(r.st.decisionLog) + w.course(r.st)
    && NodesOf(r1.book.task.value.steps) == NodesOf(r.book.task.value.steps) + w.ahead(r.st)
  }

  /** Decisions made and to come, nodes executed and to come, and the extensions to end with are the same. */
  predicate Conserves(w: Workflow, r: Run, r1: Run)
    requires Proper(r) && Proper(r1)
  {
    && w.endExt(r1.st) == w.endExt(r.st)
    && Nexts(r1.st.decisionLog) + w.course(r1.st) == Nexts(r.st.decisionLog) + w.course(r.st)
    && NodesOf(r1.book.task.value.steps) + w.ahead(r1.st) == NodesOf(r.book.task.value.steps) + w.ahead(r.st)
  }

  /** One iteration moves the head of the course into the log. */
  predicate Advances(w: Workflow, r: Run, end: (Run, Control))
    requires Proper(r)
  {
    var (r1, c) := end;
    && r1.st.input == r.st.input && Proper(r1) && |r1.st.decisionLog| == |r.st.decisionLog| + 1
    && if c.Next? then w.ready(r1) && Conserves(w, r, r1) else c == Stop(AiTerminate) && Arrived(w, r, r1)
  }

  /** There is always a decision to come, and the goal does not depend on the task's status. */
  ghost predicate Regular(w: Workflow) {
    && (forall st: M.State :: w.course(st) != [])
    && (forall st: M.State, task: M.TaskMeta :: w.goal(st.(task := task)) == w.goal(st))
  }

  ghost predicate AlwaysAdvances(w: Workflow, cfg: Config, env: Env) {
    forall n, r :: w.ready(r) && Proper(r) ==> Advances(w, r, Iterate(cfg, env, n, r))
  }

  predicate Settles(w: Workflow, r: Run, end: (Run, Control))
    requires Proper(r)
  {
    end.1 == Stop(AiTerminate) && end.0.st.input == r.st.input && Arrived(w, r, end.0)
  }

  function Budget(cfg: Config): nat {
    if cfg.maxSteps > 0 then cfg.maxSteps else 0
  }

  /** The budget ends the run inside the course: a strict prefix of it is in the log, and of its nodes executed. */
  predicate Exhausts(w: Workflow, cfg: Config, r: Run, end: (Run, Control))
    requires Proper(r)
  {
    && end.1 == Stop(MaxSteps) && end.0.st.input == r.st.input && Proper(end.0) && Budget(cfg) < |w.course(r.st)|
    && Nexts(end.0.st.decisionLog) == Nexts(r.st.decisionLog) + w.course(r.st)[..Budget(cfg)]
    && NodesOf(end.0.book.task.value.steps) <= NodesOf(r.book.task.value.steps) + w.ahead(r.st)
  }

  /** Before iteration n of a run from r. */
  predicate Underway(w: Workflow, cfg: Config, r: Run, n: int, q: Run)
    requires Proper(r)
  {
    && 1 <= n && (n == 1 || n <= cfg.maxSteps + 1)
    && w.ready(q) && Proper(q) && q.st.input == r.st.input && Conserves(w, r, q)
    && |w.course(q.st)| == |w.course(r.st)| - (n - 1)
  }

  predicate Ends(w: Workflow, cfg: Config, r: Run, end: (Run, Control))
    requires Proper(r)
  {
    if cfg.maxSteps >= |w.course(r.st)| then Settles(w, r, end) else Exhausts(w, cfg, r, end)
  }

  lemma SplitAt(a: seq<string>, b: seq<string>, c: seq<string>, d: seq<string>, m: nat)
    requires a + b == c + d && |b| == |d| - m
    ensures a == c + d[..m]
  {
    assert |a| == |c| + m;
    assert a == (a + b)[..|a|] == (c + d)[..|c| + m];
  }

  lemma UnderwayExhausts(w: Workflow, cfg: Config, r: Run, n: int, q: Run)
    requires Proper(r) && Underway(w, cfg, r, n, q) && n > cfg.maxSteps && w.course(q.st) != []
    ensures Ends(w, cfg, r, (q, Stop(MaxSteps)))
  {
    SplitAt(Nexts(q.st.decisionLog), w.course(q.st), Nexts(r.st.decisionLog), w.course(r.st), n - 1);
    var done, all := NodesOf(q.book.task.value.steps), NodesOf(r.book.task.value.steps) + w.ahead(r.st);
    assert done + w.ahead(q.st) == all && done == all[..|done|];
  }

  lemma UnderwayAdvances(w: Workflow, cfg: Config, r: Run, n: int, q: Run, end: (Run, Control))
    requires Proper(r) && Underway(w, cfg, r, n, q) && n <= cfg.maxSteps && Advances(w, q, end)
    ensures if end.1.Next? then Underway(w, cfg, r, n + 1, end.0) else Ends(w, cfg, r, end)
  {
    var log, log1 := Nexts(q.st.decisionLog), Nexts(end.0.st.decisionLog);
    if end.1.Next? {
      assert |log1 + w.course(end.0.st)| == |log + w.course(q.st)|;
    } else {
      assert |log1| == |log + w.course(q.st)|;
    }
  }

  lemma LoopTakesCourse(w: Workflow, cfg: Config, env: Env, r: Run)
    requires AlwaysAdvances(w, cfg, env) && w.ready(r) && Proper(r) && Regular(w)
    ensures Ends(w, cfg, r, Loop(cfg, env, 1, r))
  {
    var holds := (k: int, q: Run) => Underway(w, cfg, r, k, q);
    var ends := (q: Run, c: Control) => Ends(w, cfg, r, (q, c));
    forall k, q | holds(k, q) ensures Carries(cfg, env, k, q, holds, ends) {
      if k > cfg.maxSteps {
        UnderwayExhausts(w, cfg, r, k, q);
      } else {
        UnderwayAdvances(w, cfg, r, k, q, Iterate(cfg, env, k, q));
      }
    }
    LoopRule(cfg, env, 1, r, holds, ends);
  }

  function StepsOf(book: Book): seq<StepRecord> {
    if book.task.Some? then book.task.value.steps else []
  }

  /** The run takes exactly the course of the starting state, executes every node ahead of it, and completes by termination. */
  predicate Completes(w: Workflow, st: M.State, book: Book, r: Run, out: Outcome) {
    && out.Finished? && out.summary.reason == AiTerminate && out.summary.status == M.Completed == r.st.task.status
    && Nexts(r.st.decisionLog) == Nexts(st.decisionLog) + w.course(st)
    && NodesOf(StepsOf(r.book)) == NodesOf(StepsOf(book)) + w.ahead(st) == out.summary.nodeSequence
    && r.st.ext == w.endExt(st) && r.st.input == st.input && w.goal(r.st)
  }

  /** The step budget ends the run first: it fails inside the course. */
  predicate RunsShort(w: Workflow, cfg: Config, st: M.State, book: Book, r: Run, out: Outcome) {
    && out.Finished? && out.summary.reason == MaxSteps && out.summary.status == M.Failed == r.st.task.status
    && Budget(cfg) < |w.course(st)| && Nexts(r.st.decisionLog) == Nexts(st.decisionLog) + w.course(st)[..Budget(cfg)]
    && NodesOf(StepsOf(r.book)) <= NodesOf(StepsOf(book)) + w.ahead(st)
  }

  /** A workflow whose every step advances completes if and only if the step budget covers its course, and otherwise takes as much of the course as the budget allows. */
  lemma WorkflowCompletes(w: Workflow, cfg: Config, env: Env, st: M.State, book: Book)
    requires Healthy(env) && AlwaysAdvances(w, cfg, env) && st.task.status != M.TimedOut
    requires Regular(w) && forall b: Book :: b.task.Some? ==> w.ready(Run(st, b, map[]))
    ensures var (r, out) := RunTask(cfg, env, st, book);
      && (Completes(w, st, book, r, out) <==> cfg.maxSteps >= |w.course(st)|)
      && (RunsShort(w, cfg, st, book, r, out) <==> cfg.maxSteps < |w.course(st)|)
  {
    HealthyOpen(env, book, st);
    var r0 := Run(st, Open(env, book, st).value, map[]);
    L.OpenKeeps(env, book, st);
    LoopTakesCourse(w, cfg, env, r0);
    var (r, c) := Loop(cfg, env, 1, r0);
    HealthyClose(env, r, c.reason);
  }
}
