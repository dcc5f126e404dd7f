// The runtime's authority over a hop: nothing is executed or persisted that was not admitted.
module Admission {
  import opened Basics
  import opened EngineSpec
  import opened Ledger
  import C = Contract
  import L = Lineage
  import M = StateModel
  import R = Rules

  predicate NoRules(rules: R.RuleSet) {
    rules.rules == [] && rules.groups == []
  }

  /** The manifest rules, read as a boolean formula; a state that cannot be converted meets no nonempty rule set. */
  predicate RulesHold(cfg: Config, env: Env, n: int, rules: R.RuleSet, view: M.State) {
    NoRules(rules) || (!env.fails(At(n), ConvertForRules) && R.Holds(cfg.cel, rules, view))
  }

  /** The node is registered, its rules hold of the state, and its own check allows. */
  predicate Admitted(cfg: Config, env: Env, n: int, id: string, view: M.State) {
    && env.lookup(n, id).Found?
    && (env.lookup(n, id).rules.Some? ==> RulesHold(cfg, env, n, env.lookup(n, id).rules.value, view))
    && env.checkBefore(n, id, view).allowed
  }

  /** Where a refusal's reason comes from: a rejecting leaf of the rules, the failed conversion, or the node. */
  ghost predicate RefusedFor(cfg: Config, env: Env, n: int, id: string, view: M.State, reason: string)
    requires env.lookup(n, id).Found?
  {
    var rules := env.lookup(n, id).rules;
    if rules.Some? && !RulesHold(cfg, env, n, rules.value, view) then
      if env.fails(At(n), ConvertForRules) then reason == "marshal readonly state"
      else R.Explained(cfg.cel, rules.value, view, R.Reject(reason))
    else reason == env.checkBefore(n, id, view).reason
  }

  lemma EvaluatedMeans(cfg: Config, env: Env, n: int, rules: R.RuleSet, view: M.State)
    ensures var st := if env.fails(At(n), ConvertForRules) then Err("marshal readonly state") else Ok(view);
      var v := R.Evaluated(cfg.cel, rules, st);
      && (v.allowed <==> RulesHold(cfg, env, n, rules, view))
      && (!v.allowed ==> if env.fails(At(n), ConvertForRules) then v.reason == "marshal readonly state"
                         else R.Explained(cfg.cel, rules, view, R.Reject(v.reason)))
  {
    R.VerdictIsMeaning(cfg.cel, rules, view);
  }

  /** Refusal happens exactly when the hop is not admitted, and says why. */
  lemma RefusalMeans(cfg: Config, env: Env, n: int, id: string, view: M.State)
    requires env.lookup(n, id).Found?
    ensures var refusal := Refusal(cfg, env, n, id, env.lookup(n, id).rules, view);
      && (refusal.None? <==> Admitted(cfg, env, n, id, view))
      && (refusal.Some? ==> RefusedFor(cfg, env, n, id, view, refusal.value))
  {
    if env.lookup(n, id).rules.Some? {
      EvaluatedMeans(cfg, env, n, env.lookup(n, id).rules.value, view);
    }
  }

  /** A counted hop to a registered node: admitted, it runs on the state it was decided on and its patch is persisted; otherwise only the reason is remembered. */
  lemma AdmissionDecides(cfg: Config, env: Env, n: int, r: Run, call: C.FunctionCall, route: C.RouteDecision)
    requires route.nextNode != C.TERMINATE && Visits(r.visited, route.nextNode) < cfg.maxSameNodeVisits
    requires env.lookup(n, route.nextNode).Found?
    ensures var id, logged := route.nextNode, L.Logged(n, r, call, route);
      var end := TakeRoute(cfg, env, n, r, call, route);
      if !Admitted(cfg, env, n, id, r.st) then
        exists reason :: RefusedFor(cfg, env, n, id, r.st, reason)
          && end == (logged.(st := WithExt(logged.st, "last_rejection_reason", Str(reason))), Next)
      else
        match env.execute(n, id, r.st)
        case NodeFailed => end == (logged, Abort(NodeError))
        case NodeSucceeded(patch, output) => end == Persist(cfg, env, n, logged, route, r.st, patch, output)
  {
    var id, logged := route.nextNode, L.Logged(n, r, call, route);
    RefusalMeans(cfg, env, n, id, r.st);
    assert TakeRoute(cfg, env, n, r, call, route) == Visit(cfg, env, n, logged, route, r.st);
  }

  // ----- over whole runs -----

  /** The snapshot is the result of an admitted execution, at the step and of the node its last decision names, on the state it extends. */
  predicate EarnedFrom(cfg: Config, env: Env, snap: SnapshotRecord, view: M.State) {
    var log := snap.state.decisionLog;
    && log != []
    && var d := log[|log| - 1];
      && d.kind == M.RouteDecided && Admitted(cfg, env, d.step, d.nextNode, view)
      && env.execute(d.step, d.nextNode, view).NodeSucceeded? && env.execute(d.step, d.nextNode, view).patch == snap.patch
      && snap.state == M.Patched(M.Appended(view, d), snap.patch, cfg.sensitive)
  }

  ghost predicate Earned(cfg: Config, env: Env, snap: SnapshotRecord) {
    exists view :: EarnedFrom(cfg, env, snap, view)
  }

  /** The step record tells of an admitted execution: its node's output, and the state it ran on unless that could not be converted. */
  predicate StepEarnedFrom(cfg: Config, env: Env, step: StepRecord, view: M.State) {
    && Admitted(cfg, env, step.index, step.node, view)
    && env.execute(step.index, step.node, view).NodeSucceeded? && env.execute(step.index, step.node, view).output == step.output
    && step.status == "success" && step.input == if env.fails(At(step.index), ConvertForStep) then None else Some(view)
  }

  ghost predicate StepEarned(cfg: Config, env: Env, step: StepRecord) {
    exists view :: StepEarnedFrom(cfg, env, step, view)
  }

  /** All snapshots and all steps from the given ones on are earned. */
  ghost predicate AllEarned(cfg: Config, env: Env, book: Book, from: nat, steps0: nat) {
    && book.task.Some?
    && (forall i :: from <= i < |book.task.value.snapshots| ==> Earned(cfg, env, book.task.value.snapshots[i]))
    && forall i :: steps0 <= i < |book.task.value.steps| ==> StepEarned(cfg, env, book.task.value.steps[i])
  }

  ghost predicate AddsEarned(cfg: Config, env: Env, before: Book, after: Book) {
    && before.task.Some? && after.task.Some?
    && var old_, new_ := before.task.value.snapshots, after.task.value.snapshots;
      new_ == old_ || exists snap :: new_ == old_ + [snap] && Earned(cfg, env, snap)
  }

  ghost predicate AddsEarnedStep(cfg: Config, env: Env, before: Book, after: Book) {
    && before.task.Some? && after.task.Some?
    && var old_, new_ := before.task.value.steps, after.task.value.steps;
      new_ == old_ || exists step :: new_ == old_ + [step] && StepEarned(cfg, env, step)
  }

  lemma PersistEarns(cfg: Config, env: Env, n: int, r: Run, call: C.FunctionCall, route: C.RouteDecision)
    requires r.book.task.Some? && Admitted(cfg, env, n, route.nextNode, r.st)
    requires env.execute(n, route.nextNode, r.st).NodeSucceeded?
    ensures var ran := env.execute(n, route.nextNode, r.st);
      var end := Persist(cfg, env, n, L.Logged(n, r, call, route), route, r.st, ran.patch, ran.output);
      AddsEarned(cfg, env, r.book, end.0.book) && AddsEarnedStep(cfg, env, r.book, end.0.book)
  {
    var ran, logged := env.execute(n, route.nextNode, r.st), L.Logged(n, r, call, route);
    var snap := SnapshotOf(M.Patched(logged.st, ran.patch, cfg.sensitive), ran.patch);
    L.PersistShape(cfg, env, n, logged, route, r.st, ran.patch, ran.output);
    assert EarnedFrom(cfg, env, snap, r.st);
    assert StepEarnedFrom(cfg, env, StepOf(env, n, route, r.st, ran.output), r.st);
  }

  lemma VisitEarns(cfg: Config, env: Env, n: int, r: Run, call: C.FunctionCall, route: C.RouteDecision)
    requires r.book.task.Some?
    ensures var end := Visit(cfg, env, n, L.Logged(n, r, call, route), route, r.st);
      AddsEarned(cfg, env, r.book, end.0.book) && AddsEarnedStep(cfg, env, r.book, end.0.book)
  {
    var id, logged := route.nextNode, L.Logged(n, r, call, route);
    if env.lookup(n, id).Found? {
      RefusalMeans(cfg, env, n, id, r.st);
      if Admitted(cfg, env, n, id, r.st) && env.execute(n, id, r.st).NodeSucceeded? {
        PersistEarns(cfg, env, n, r, call, route);
        var ran := env.execute(n, id, r.st);
        assert Visit(cfg, env, n, logged, route, r.st) == Persist(cfg, env, n, logged, route, r.st, ran.patch, ran.output);
      }
    }
  }

  lemma IterateEarns(cfg: Config, env: Env, n: int, r: Run)
    requires r.book.task.Some?
    ensures var end := Iterate(cfg, env, n, r);
      AddsEarned(cfg, env, r.book, end.0.book) && AddsEarnedStep(cfg, env, r.book, end.0.book)
  {
    if !env.fails(At(n), CloneView) {
      var decided := env.decide(n, RequestFor(cfg, env, n, r));
      if decided.Ok? && decided.value.kind == M.RouteDecided && decided.value.route.Some? {
        VisitEarns(cfg, env, n, r, decided.value.call, decided.value.route.value);
        L.TakeRouteCases(cfg, env, n, r, decided.value.call, decided.value.route.value);
      }
    }
  }

  lemma EarnedGrows(cfg: Config, env: Env, before: Book, after: Book, from: nat, steps0: nat)
    requires AllEarned(cfg, env, before, from, steps0) && AddsEarned(cfg, env, before, after) && AddsEarnedStep(cfg, env, before, after)
    ensures AllEarned(cfg, env, after, from, steps0)
  {
  }

  lemma LoopEarns(cfg: Config, env: Env, r: Run, from: nat, steps0: nat)
    requires AllEarned(cfg, env, r.book, from, steps0)
    ensures AllEarned(cfg, env, Loop(cfg, env, 1, r).0.book, from, steps0)
  {
    var holds := (q: Run) => AllEarned(cfg, env, q.book, from, steps0);
    forall k, q | holds(q) ensures holds(Iterate(cfg, env, k, q).0) {
      IterateEarns(cfg, env, k, q);
      EarnedGrows(cfg, env, q.book, Iterate(cfg, env, k, q).0.book, from, steps0);
    }
    L.LoopInduction(cfg, env, r, holds);
  }

  /** Whatever the model decides and whatever fails: every snapshot a run stores is the patch of an admitted, successful execution merged into the state it was decided on, and every step it stores carries the output of one. */
  lemma RunEarns(cfg: Config, env: Env, st: M.State, book: Book)
    ensures var from := if book.task.Some? then |book.task.value.snapshots| else 0;
      var steps0 := if book.task.Some? then |book.task.value.steps| else 0;
      var after := RunTask(cfg, env, st, book).0.book;
      after.task.Some? ==> AllEarned(cfg, env, after, from, steps0)
  {
    var from := if book.task.Some? then |book.task.value.snapshots| else 0;
    var steps0 := if book.task.Some? then |book.task.value.steps| else 0;
    var begun := Open(env, book, st);
    if begun.Some? {
      L.OpenKeeps(env, book, st);
      var r0 := Run(st, begun.value, map[]);
      var end := Loop(cfg, env, 1, r0);
      LoopEarns(cfg, env, r0, from, steps0);
      if end.1.Stop? {
        L.CloseKeeps(env, end.0, end.1.reason);
      }
    }
  }

  // ----- what the model gets to hear -----

  /** The request tells of the live state and of the world at this step, with the canonical hints unless they cannot be read, and with the last rejection exactly when there is one. */
  lemma RequestTells(cfg: Config, env: Env, n: int, r: Run)
    ensures var req := RequestFor(cfg, env, n, r);
      && req.state == r.st && req.taskId == r.st.task.id && req.userInput == r.st.input.text && req.keywords == r.st.input.keywords
      && req.candidates == env.candidates(n) && req.planning == cfg.planning
      && (if env.fails(At(n), RecallPatterns) then req.recommended == []
          else Recommended(req.recommended, r.book.patterns, r.st.input.keywords))
      && (req.lastRejection.Some? <==> "last_rejection_reason" in r.st.ext)
      && (req.lastRejection.Some? ==> req.lastRejection.value == r.st.ext["last_rejection_reason"])
  {
    RecommendationMeans(r.book.patterns, r.st.input.keywords);
  }

  /** The decision after a refusal is made knowing its reason, and nothing else about the task has changed but the log. */
  lemma RefusalIsHeard(cfg: Config, env: Env, n: int, r: Run, call: C.FunctionCall, route: C.RouteDecision)
    requires route.nextNode != C.TERMINATE && Visits(r.visited, route.nextNode) < cfg.maxSameNodeVisits
    requires env.lookup(n, route.nextNode).Found? && !Admitted(cfg, env, n, route.nextNode, r.st)
    ensures var r1 := TakeRoute(cfg, env, n, r, call, route).0;
      var req := RequestFor(cfg, env, n + 1, r1);
      && req.lastRejection.Some? && req.lastRejection.value.Str?
      && RefusedFor(cfg, env, n, route.nextNode, r.st, req.lastRejection.value.s)
      && req.state.workingMemory == r.st.workingMemory && req.state.nodeOutputs == r.st.nodeOutputs && r1.book == r.book
  {
    AdmissionDecides(cfg, env, n, r, call, route);
    RequestTells(cfg, env, n + 1, TakeRoute(cfg, env, n, r, call, route).0);
  }
}
