// The scheduler on the heap: it drives a master state and a store, and does exactly what EngineSpec says.
module Engine {
  import opened Basics
  import opened Contract
  import opened EngineSpec
  import opened StateBus
  import Bounds
  import Ledger
  import M = StateModel
  import Memory
  import R = Rules
  import S = Store

  class Engine {
    const cfg: Config
    const store: S.MemoryStore
    const rules: R.Evaluator

    constructor (cfg: Config, store: S.MemoryStore, rules: R.Evaluator)
      ensures this.cfg == cfg && this.store == store && this.rules == rules
    {
      this.cfg, this.store, this.rules := cfg, store, rules;
    }

    /** Live state and store are well formed, and no stored snapshot shares a container with the live state. */
    ghost predicate Linked(st: MasterState)
      reads st, st.repr, store, store.frozen
    {
      st.Valid() && store.Valid() && st.repr !! store.frozen && store !in st.repr
    }

    /** The rule evaluator is the configured one, and apart from state and store. */
    ghost predicate Ruled(st: MasterState)
      reads st, store, rules
    {
      rules.Valid() && rules.cel == cfg.cel && rules !in st.repr && rules !in store.frozen && store as object != rules
    }

    /** The live state and the task's part of the store, as values. */
    ghost function Book(st: MasterState): Ledger.Book
      requires store.Valid()
      reads st, store, store.frozen
    {
      store.View(st.task.id)
    }

    /** The stored task holds the live state's containers. */
    ghost predicate Shares(st: MasterState)
      reads st, store
    {
      st.task.id in store.tasks && store.tasks[st.task.id].state.Shares(st.Struct())
    }

    ghost predicate Attached(st: MasterState)
      reads st, st.repr, store, store.frozen
    {
      Linked(st) && Shares(st)
    }

    /** The task's id and the records of all other tasks. */
    ghost function Others(st: MasterState): (string, map<string, S.TaskRecord>)
      reads st, store
    {
      (st.task.id, store.tasks - {st.task.id})
    }

    method UpdateTask(env: Env, phase: Phase, st: MasterState, ghost view: M.State) returns (ok: bool)
      requires Linked(st) && view == st.View()
      modifies store`tasks
      ensures Linked(st) && view == st.View()
      ensures Others(st) == old(Others(st)) && (ok || old(Shares(st)) ==> Shares(st))
      ensures UpdatedTask(env, phase, old(Book(st)), view) == if ok then Some(Book(st)) else None
      ensures !ok ==> Book(st) == old(Book(st))
      ensures ok ==> store.tasks[st.task.id].state == st.Struct()
    {
      if env.fails(phase, Op.UpdateTask) {
        return false;
      }
      ok := store.UpdateTask(st.Struct());
    }

    /** The snapshot, as this value, may be stored next to the live state: it shares nothing with it. */
    ghost predicate Separate(st: MasterState, snapshot: Snapshot, snap: Ledger.SnapshotRecord)
      reads st, snapshot.state.Repr()
    {
      && snapshot.taskId == st.task.id && snapshot.state.Repr() !! st.repr && store !in snapshot.state.Repr()
      && snap == Ledger.SnapshotRecord(snapshot.taskId, snapshot.version, snapshot.patch, snapshot.state.View())
    }

    method SaveSnapshot(env: Env, n: int, st: MasterState, snapshot: Snapshot, ghost view: M.State, ghost snap: Ledger.SnapshotRecord) returns (ok: bool)
      requires Attached(st) && view == st.View() && Separate(st, snapshot, snap)
      modifies store`tasks, store`frozen
      ensures Attached(st) && view == st.View() && store.frozen <= old(store.frozen) + snapshot.state.Repr()
      ensures Others(st) == old(Others(st))
      ensures WithSnapshot(env, n, old(Book(st)), snap) == if ok then Some(Book(st)) else None
      ensures !ok ==> Book(st) == old(Book(st))
    {
      if env.fails(At(n), Op.SaveSnapshot) {
        return false;
      }
      ok := StoreSnapshot(st, snapshot, view, snap);
    }

    method StoreSnapshot(st: MasterState, snapshot: Snapshot, ghost view: M.State, ghost snap: Ledger.SnapshotRecord) returns (ok: bool)
      requires Attached(st) && view == st.View() && Separate(st, snapshot, snap)
      modifies store`tasks, store`frozen
      ensures Attached(st) && view == st.View() && store.frozen <= old(store.frozen) + snapshot.state.Repr()
      ensures Others(st) == old(Others(st))
      ensures ok == old(Book(st)).task.Some?
      ensures Book(st) == old(Book(st)).(task := if ok then Some(store.WithOne(old(Book(st)).task.value, snap)) else old(Book(st)).task)
    {
      ghost var valid, book := st.Valid(), Book(st);
      ok := store.SaveSnapshot(snapshot, snap);
      assert st.Valid() == valid;
      assert Book(st) == book.(task := store.TaskView(st.task.id));
    }

    method SaveStep(env: Env, n: int, st: MasterState, step: Ledger.StepRecord, ghost view: M.State) returns (ok: bool)
      requires Attached(st) && view == st.View()
      modifies store`tasks
      ensures Attached(st) && view == st.View()
      ensures Others(st) == old(Others(st))
      ensures WithStep(env, n, old(Book(st)), step) == if ok then Some(Book(st)) else None
      ensures !ok ==> Book(st) == old(Book(st))
    {
      if env.fails(At(n), Op.SaveStep) {
        return false;
      }
      ok := store.SaveStep(st.task.id, step);
    }

    method RecordStep(env: Env, n: int, st: MasterState, id: string, ghost view: M.State)
      requires Attached(st) && view == st.View()
      modifies store`shortTerm
      ensures Attached(st) && view == st.View() && Book(st) == WithTrajectory(env, n, old(Book(st)), view, id)
      ensures Others(st) == old(Others(st))
    {
      if !env.fails(At(n), Op.PutShortTerm) {
        Memory.RecordStep(store, st.View(), id);
      }
    }

    method Record(env: Env, n: int, st: MasterState, snapshot: Snapshot, step: Ledger.StepRecord, ghost view: M.State, ghost snap: Ledger.SnapshotRecord)
      returns (c: Control)
      requires Attached(st) && view == st.View() && Separate(st, snapshot, snap)
      modifies store
      ensures Attached(st) && view == st.View() && store.frozen <= old(store.frozen) + snapshot.state.Repr()
      ensures Others(st) == old(Others(st))
      ensures (Book(st), c) == EngineSpec.Record(env, n, old(Book(st)), view, snap, step)
    {
      ghost var separate := Separate(st, snapshot, snap);
      ghost var book := Book(st);
      var ok := UpdateTask(env, At(n), st, view);
      if !ok {
        return Abort(StoreError);
      }
      assert Separate(st, snapshot, snap) == separate;
      assert UpdatedTask(env, At(n), book, view) == Some(Book(st));
      c := RecordHistory(env, n, st, snapshot, step, view, snap);
    }

    method RecordHistory(env: Env, n: int, st: MasterState, snapshot: Snapshot, step: Ledger.StepRecord, ghost view: M.State, ghost snap: Ledger.SnapshotRecord)
      returns (c: Control)
      requires Attached(st) && view == st.View() && Separate(st, snapshot, snap)
      modifies store
      ensures Attached(st) && view == st.View() && store.frozen <= old(store.frozen) + snapshot.state.Repr()
      ensures Others(st) == old(Others(st))
      ensures (Book(st), c) == EngineSpec.RecordHistory(env, n, old(Book(st)), view, snap, step)
    {
      var ok := SaveSnapshot(env, n, st, snapshot, view, snap);
      if !ok {
        return Abort(StoreError);
      }
      c := RecordVisit(env, n, st, step, view);
    }

    method RecordVisit(env: Env, n: int, st: MasterState, step: Ledger.StepRecord, ghost view: M.State) returns (c: Control)
      requires Attached(st) && view == st.View()
      modifies store`tasks, store`shortTerm
      ensures Attached(st) && view == st.View()
      ensures Others(st) == old(Others(st))
      ensures (Book(st), c) == EngineSpec.RecordVisit(env, n, old(Book(st)), view, step)
    {
      var ok := SaveStep(env, n, st, step, view);
      if !ok {
        return Abort(StoreError);
      }
      RecordStep(env, n, st, step.node, view);
      c := Next;
    }

    /** The live state takes the patch; the store stays, and the snapshot is apart from both. */
    method Merge(env: Env, n: int, st: MasterState, patch: M.Patch) returns (snapshot: Option<Snapshot>)
      requires Attached(st)
      modifies st.repr
      ensures Attached(st) && fresh(st.repr - old(st.repr))
      ensures Others(st) == old(Others(st)) && Book(st) == old(Book(st))
      ensures st.View() == if M.Validated(old(st.View())) then M.Patched(old(st.View()), patch, cfg.sensitive) else old(st.View())
      ensures snapshot.Some? <==> M.Validated(old(st.View())) && !env.fails(At(n), Op.ClonePatched)
      ensures snapshot.Some? ==> fresh(snapshot.value.state.Repr()) && Separate(st, snapshot.value, SnapshotOf(st.View(), patch))
    {
      snapshot := st.ApplyPatch(patch, cfg.sensitive, env.fails(At(n), Op.ClonePatched));
    }

    /** Merge the patch, then record task, snapshot, step and trajectory. */
    method Persist(env: Env, n: int, st: MasterState, route: RouteDecision, view: M.State, patch: M.Patch, output: JsonMap, ghost visited: map<string, int>)
      returns (c: Control)
      requires Attached(st)
      modifies st.repr, store
      ensures Attached(st) && fresh(st.repr - old(st.repr)) && fresh(store.frozen - old(store.frozen))
      ensures Others(st) == old(Others(st))
      ensures (Run(st.View(), Book(st), visited), c)
           == EngineSpec.Persist(cfg, env, n, Run(old(st.View()), old(Book(st)), visited), route, view, patch, output)
    {
      ghost var r := Run(st.View(), Book(st), visited);
      var snapshot := Merge(env, n, st, patch);
      ghost var merged := st.View();
      if snapshot.None? {
        assert EngineSpec.Persist(cfg, env, n, r, route, view, patch, output) == (r.(st := merged), Abort(PatchError));
        return Abort(PatchError);
      }
      c := Record(env, n, st, snapshot.value, StepOf(env, n, route, view, output), merged, SnapshotOf(merged, patch));
      assert EngineSpec.Persist(cfg, env, n, r, route, view, patch, output) == (Run(merged, Book(st), visited), c);
    }

    /** Admission by the cached rule evaluator and the node's own check. */
    method Admit(env: Env, n: int, id: string, set_: Option<R.RuleSet>, view: M.State) returns (refusal: Option<string>)
      requires rules.Valid() && rules.cel == cfg.cel
      modifies rules
      ensures rules.Valid() && refusal == Refusal(cfg, env, n, id, set_, view)
    {
      if set_.Some? {
        var verdict := rules.Evaluate(set_.value, if env.fails(At(n), Op.ConvertForRules) then Err("marshal readonly state") else Ok(view));
        if !verdict.allowed {
          return Some(verdict.reason);
        }
      }
      var check := env.checkBefore(n, id, view);
      refusal := if check.allowed then None else Some(check.reason);
    }

    /** Admission touches the rule cache only. */
    method AdmitHop(env: Env, n: int, st: MasterState, id: string, set_: Option<R.RuleSet>, view: M.State) returns (refusal: Option<string>)
      requires Attached(st) && Ruled(st)
      modifies rules
      ensures Attached(st) && Ruled(st) && st.View() == old(st.View()) && st.repr == old(st.repr) && store.frozen == old(store.frozen)
      ensures Others(st) == old(Others(st)) && Book(st) == old(Book(st))
      ensures refusal == Refusal(cfg, env, n, id, set_, view)
    {
      refusal := Admit(env, n, id, set_, view);
    }

    method Visit(env: Env, n: int, st: MasterState, route: RouteDecision, view: M.State, ghost visited: map<string, int>) returns (c: Control)
      requires Attached(st) && Ruled(st)
      modifies st.repr, store, rules
      ensures Attached(st) && Ruled(st) && fresh(st.repr - old(st.repr)) && fresh(store.frozen - old(store.frozen))
      ensures Others(st) == old(Others(st))
      ensures (Run(st.View(), Book(st), visited), c)
           == EngineSpec.Visit(cfg, env, n, Run(old(st.View()), old(Book(st)), visited), route, view)
    {
      var entry := env.lookup(n, route.nextNode);
      if entry.Missing? {
        return Abort(UnknownNode);
      }
      var refusal := AdmitHop(env, n, st, route.nextNode, entry.rules, view);
      if refusal.Some? {
        Refuse(st, refusal.value);
        return Next;
      }
      c := RunNode(env, n, st, route, view, visited);
    }

    method RunNode(env: Env, n: int, st: MasterState, route: RouteDecision, view: M.State, ghost visited: map<string, int>) returns (c: Control)
      requires Attached(st)
      modifies st.repr, store
      ensures Attached(st) && fresh(st.repr - old(st.repr)) && fresh(store.frozen - old(store.frozen))
      ensures Others(st) == old(Others(st))
      ensures (Run(st.View(), Book(st), visited), c)
           == EngineSpec.RunNode(cfg, env, n, Run(old(st.View()), old(Book(st)), visited), route, view)
    {
      var result := env.execute(n, route.nextNode, view);
      if result.NodeFailed? {
        return Abort(NodeError);
      }
      c := Persist(env, n, st, route, view, result.patch, result.output, visited);
    }

    method Refuse(st: MasterState, reason: string)
      requires Attached(st)
      modifies st.repr
      ensures Attached(st) && st.repr == old(st.repr) && Book(st) == old(Book(st))
      ensures Others(st) == old(Others(st))
      ensures st.View() == WithExt(old(st.View()), "last_rejection_reason", Str(reason))
    {
      st.SetExt("last_rejection_reason", Str(reason));
    }

    method TakeRoute(env: Env, n: int, st: MasterState, visited: map<string, int>, call: FunctionCall, route: RouteDecision, view: M.State)
      returns (visited': map<string, int>, c: Control)
      requires Attached(st) && Ruled(st) && view == st.View()
      modifies st.repr, store, rules
      ensures Attached(st) && Ruled(st) && fresh(st.repr - old(st.repr)) && fresh(store.frozen - old(store.frozen))
      ensures Others(st) == old(Others(st))
      ensures (Run(st.View(), Book(st), visited'), c)
           == EngineSpec.TakeRoute(cfg, env, n, Run(old(st.View()), old(Book(st)), visited), call, route)
    {
      visited' := visited;
      LogHop(st, RouteRecord(n, call, route));
      if route.nextNode == TERMINATE {
        return visited', Stop(Ledger.AiTerminate);
      }
      visited' := visited'[route.nextNode := Visits(visited', route.nextNode) + 1];
      if visited'[route.nextNode] > cfg.maxSameNodeVisits {
        return visited', Stop(Ledger.LoopDetected);
      }
      c := Visit(env, n, st, route, view, visited');
    }

    method LogHop(st: MasterState, record: M.Decision)
      requires Attached(st)
      modifies st
      ensures Attached(st) && st.repr == old(st.repr) && Book(st) == old(Book(st))
      ensures Others(st) == old(Others(st))
      ensures st.View() == M.Appended(old(st.View()), record)
    {
      st.AppendDecision(record);
    }

    method TakePlan(n: int, st: MasterState, call: FunctionCall, plan: Plan)
      requires Attached(st)
      modifies st.repr
      ensures Attached(st) && st.repr == old(st.repr) && Book(st) == old(Book(st))
      ensures Others(st) == old(Others(st))
      ensures st.View() == EngineSpec.TakePlan(n, Run(old(st.View()), Book(st), map[]), call, plan).st
    {
      st.SetExt("latest_plan", PlanJson(plan));
      st.AppendDecision(PlanRecord(n, call, plan));
    }

    /** The routing context: hints from memory and a deep copy of the state. */
    method MakeRequest(env: Env, n: int, st: MasterState, ghost r: Run) returns (request: Request)
      requires Linked(st) && r.st == st.View() && r.book == Book(st)
      ensures request == RequestFor(cfg, env, n, r)
    {
      var recommended := [];
      if !env.fails(At(n), Op.RecallPatterns) {
        recommended := Memory.RecommendNodes(store, st.input.keywords);
      }
      var readonly := st.ReadOnly();
      var view := readonly.View();
      request := Request(view.task.id, view.input.text, view.input.keywords, view, env.candidates(n), recommended,
        if "last_rejection_reason" in view.ext then Some(view.ext["last_rejection_reason"]) else None, cfg.planning);
    }

    /** One iteration: recommendation hints, read-only view, decision, and the branch it selects. */
    method Iterate(env: Env, n: int, st: MasterState, visited: map<string, int>) returns (visited': map<string, int>, c: Control)
      requires Attached(st) && Ruled(st)
      modifies st.repr, store, rules
      ensures Attached(st) && Ruled(st) && fresh(st.repr - old(st.repr)) && fresh(store.frozen - old(store.frozen))
      ensures Others(st) == old(Others(st))
      ensures (Run(st.View(), Book(st), visited'), c)
           == EngineSpec.Iterate(cfg, env, n, Run(old(st.View()), old(Book(st)), visited))
    {
      visited' := visited;
      if env.fails(At(n), Op.CloneView) {
        return visited', Abort(CloneError);
      }
      var request := MakeRequest(env, n, st, Run(st.View(), Book(st), visited));
      visited', c := Proceed(env, n, st, visited, env.decide(n, request), request.state);
    }

    method Proceed(env: Env, n: int, st: MasterState, visited: map<string, int>, answer: Result<Decided, string>, view: M.State)
      returns (visited': map<string, int>, c: Control)
      requires Attached(st) && Ruled(st) && view == st.View()
      modifies st.repr, store, rules
      ensures Attached(st) && Ruled(st) && fresh(st.repr - old(st.repr)) && fresh(store.frozen - old(store.frozen))
      ensures Others(st) == old(Others(st))
      ensures (Run(st.View(), Book(st), visited'), c)
           == EngineSpec.Proceed(cfg, env, n, Run(old(st.View()), old(Book(st)), visited), answer)
    {
      visited' := visited;
      if answer.Err? {
        Fail(st);
        return visited', Abort(DecideError);
      }
      visited', c := Take(env, n, st, visited, answer.value, view);
    }

    /** The failure is noted in the live state only. */
    method Fail(st: MasterState)
      requires Attached(st)
      modifies st
      ensures Attached(st) && st.repr == old(st.repr) && Book(st) == old(Book(st))
      ensures Others(st) == old(Others(st))
      ensures st.View() == old(st.View()).(task := old(st.View()).task.(status := M.Failed))
    {
      st.SetStatus(M.Failed);
    }

    method Take(env: Env, n: int, st: MasterState, visited: map<string, int>, d: Decided, view: M.State)
      returns (visited': map<string, int>, c: Control)
      requires Attached(st) && Ruled(st) && view == st.View()
      modifies st.repr, store, rules
      ensures Attached(st) && Ruled(st) && fresh(st.repr - old(st.repr)) && fresh(store.frozen - old(store.frozen))
      ensures Others(st) == old(Others(st))
      ensures (Run(st.View(), Book(st), visited'), c)
           == EngineSpec.Take(cfg, env, n, Run(old(st.View()), old(Book(st)), visited), d)
    {
      visited' := visited;
      match d.kind {
        case PlanDecided =>
          if d.plan.None? {
            return visited', Abort(MissingPlan);
          }
          TakePlan(n, st, d.call, d.plan.value);
          c := Next;
        case RouteDecided =>
          if d.route.None? {
            return visited', Abort(MissingRoute);
          }
          visited', c := TakeRoute(env, n, st, visited, d.call, d.route.value, view);
        case OtherDecision(_) =>
          c := Abort(UnsupportedType);
      }
    }

    method CreateTask(env: Env, st: MasterState, ghost view: M.State) returns (ok: bool)
      requires Linked(st) && view == st.View()
      modifies store`tasks
      ensures Linked(st) && view == st.View()
      ensures Others(st) == old(Others(st)) && (ok ==> Shares(st))
      ensures Created(env, old(Book(st)), view) == if ok then Some(Book(st)) else None
      ensures !ok ==> Book(st) == old(Book(st))
    {
      if env.fails(Start, Op.CreateTask) {
        return false;
      }
      ok := store.CreateTask(st.Struct());
    }

    /** Create the task when it cannot be read, update it otherwise. */
    method OpenTask(env: Env, st: MasterState) returns (ok: bool)
      requires Linked(st)
      modifies store`tasks
      ensures Linked(st) && st.View() == old(st.View())
      ensures Others(st) == old(Others(st))
      ensures Open(env, old(Book(st)), st.View()) == if ok then Some(Book(st)) else None
      ensures ok ==> Shares(st)
      ensures !ok ==> Book(st) == old(Book(st))
    {
      ghost var view, book := st.View(), Book(st);
      var record := store.GetTask(st.task.id);
      if env.fails(Start, Op.GetTask) || record.None? {
        assert Open(env, book, view) == Created(env, book, view);
        ok := CreateTask(env, st, view);
      } else {
        assert Open(env, book, view) == UpdatedTask(env, Start, book, view);
        ok := UpdateTask(env, Start, st, view);
      }
    }

    /** After the loop: status, pattern memory, summary and the last task update. */
    method CloseTask(env: Env, st: MasterState, reason: Ledger.Reason, ghost visited: map<string, int>) returns (out: Outcome)
      requires Attached(st)
      modifies st`task, store`tasks, store`patterns
      ensures Attached(st)
      ensures Others(st) == old(Others(st))
      ensures (Run(st.View(), Book(st), visited), out) == Close(env, Run(old(st.View()), old(Book(st)), visited), reason)
      ensures out.Finished? ==> st.task.id in store.tasks && store.tasks[st.task.id].state == st.Struct()
    {
      st.SetStatus(FinalStatus(env, reason, st.task.status));
      out := Report(env, st, reason, st.View());
    }

    method Finalize(env: Env, st: MasterState, ghost view: M.State)
      requires Attached(st) && view == st.View()
      modifies store`patterns
      ensures Attached(st) && view == st.View() && Book(st) == Finalized(env, old(Book(st)), view)
      ensures Others(st) == old(Others(st))
    {
      if !env.fails(Finish, Op.UpsertPattern) {
        Memory.Finalize(store, st.View());
      }
    }

    method Report(env: Env, st: MasterState, reason: Ledger.Reason, view: M.State) returns (out: Outcome)
      requires Attached(st) && view == st.View()
      modifies store`tasks, store`patterns
      ensures Attached(st) && view == st.View()
      ensures Others(st) == old(Others(st))
      ensures (Book(st), out) == Reported(env, old(Book(st)), view, reason)
      ensures out.Finished? ==> st.task.id in store.tasks && store.tasks[st.task.id].state == st.Struct()
    {
      var record := store.GetTask(st.task.id);
      if env.fails(Finish, Op.GetTask) || record.None? {
        return Errored(StoreError);
      }
      out := ReportOn(env, st, reason, record.value.steps, view);
    }

    method ReportOn(env: Env, st: MasterState, reason: Ledger.Reason, steps: seq<Ledger.StepRecord>, view: M.State) returns (out: Outcome)
      requires Attached(st) && view == st.View() && Book(st).task.Some? && steps == Book(st).task.value.steps
      modifies store`tasks, store`patterns
      ensures Attached(st) && view == st.View()
      ensures Others(st) == old(Others(st))
      ensures (Book(st), out) == ReportedOn(env, old(Book(st)), view, reason)
      ensures out.Finished? ==> st.task.id in store.tasks && store.tasks[st.task.id].state == st.Struct()
    {
      ghost var before := Book(st);
      Finalize(env, st, view);
      ghost var book := Book(st);
      var summary := BuildSummary(view, steps, FinalReason(env, reason));
      assert ReportedOn(env, before, view, reason) == SavedReport(env, book, view, summary);
      out := SaveReport(env, st, summary, view, book);
    }

    method SaveReport(env: Env, st: MasterState, summary: Ledger.Summary, ghost view: M.State, ghost book: Ledger.Book) returns (out: Outcome)
      requires Attached(st) && view == st.View() && book == Book(st) && book.task.Some?
      modifies store`tasks
      ensures Attached(st) && view == st.View()
      ensures Others(st) == old(Others(st))
      ensures (Book(st), out) == SavedReport(env, book, view, summary)
      ensures out.Finished? ==> st.task.id in store.tasks && store.tasks[st.task.id].state == st.Struct()
    {
      if env.fails(Finish, Op.SaveSummary) {
        return Errored(StoreError);
      }
      var saved := store.SaveSummary(st.task.id, summary);
      var ok := UpdateTask(env, Finish, st, view);
      out := if ok then Finished(summary) else Errored(StoreError);
    }

    /** A whole run does what the specification says; it touches only fresh containers, the live state's own, and the store, and there no other task. */
    method RunTask(env: Env, st: MasterState) returns (out: Outcome, ghost visited: map<string, int>)
      requires Linked(st) && Ruled(st)
      modifies st.repr, store, rules
      ensures Linked(st) && Ruled(st) && fresh(st.repr - old(st.repr)) && fresh(store.frozen - old(store.frozen))
      ensures (Run(st.View(), Book(st), visited), out) == EngineSpec.RunTask(cfg, env, old(st.View()), old(Book(st)))
      ensures out.Finished? ==> st.task.id in store.tasks && store.tasks[st.task.id].state == st.Struct()
      ensures Open(env, old(Book(st)), old(st.View())).Some? ==> Shares(st)
      ensures st.task.id == old(st.task.id) && forall id :: id != st.task.id ==> store.TaskView(id) == old(store.TaskView(id))
    {
      out, visited := RunWhole(env, st);
      store.OthersKept(st.task.id);
    }

    method RunWhole(env: Env, st: MasterState) returns (out: Outcome, ghost visited: map<string, int>)
      requires Linked(st) && Ruled(st)
      modifies st.repr, store, rules
      ensures Linked(st) && Ruled(st) && fresh(st.repr - old(st.repr)) && fresh(store.frozen - old(store.frozen))
      ensures Others(st) == old(Others(st))
      ensures (Run(st.View(), Book(st), visited), out) == EngineSpec.RunTask(cfg, env, old(st.View()), old(Book(st)))
      ensures out.Finished? ==> st.task.id in store.tasks && store.tasks[st.task.id].state == st.Struct()
      ensures Open(env, old(Book(st)), old(st.View())).Some? ==> Shares(st)
    {
      ghost var view, book := st.View(), Book(st);
      var ok := OpenTask(env, st);
      if !ok {
        return Errored(StoreError), map[];
      }
      ghost var r := Run(view, Book(st), map[]);
      assert EngineSpec.RunTask(cfg, env, view, book) == RunFrom(cfg, env, r);
      out, visited := RunOpened(env, st, r);
    }

    method RunOpened(env: Env, st: MasterState, ghost r: Run) returns (out: Outcome, ghost visited: map<string, int>)
      requires Attached(st) && Ruled(st) && r == Run(st.View(), Book(st), map[])
      modifies st.repr, store, rules
      ensures Attached(st) && Ruled(st) && fresh(st.repr - old(st.repr)) && fresh(store.frozen - old(store.frozen))
      ensures Others(st) == old(Others(st))
      ensures (Run(st.View(), Book(st), visited), out) == RunFrom(cfg, env, r)
      ensures out.Finished? ==> st.task.id in store.tasks && store.tasks[st.task.id].state == st.Struct()
    {
      var counters, c := RunLoop(env, st);
      visited := counters;
      match c {
        case Stop(reason) => out := CloseTask(env, st, reason, counters);
        case Abort(error) => out := Errored(error);
      }
    }

    method RunLoop(env: Env, st: MasterState) returns (visited: map<string, int>, c: Control)
      requires Attached(st) && Ruled(st)
      modifies st.repr, store, rules
      ensures Attached(st) && Ruled(st) && fresh(st.repr - old(st.repr)) && fresh(store.frozen - old(store.frozen))
      ensures Others(st) == old(Others(st))
      ensures (Run(st.View(), Book(st), visited), c) == Loop(cfg, env, 1, Run(old(st.View()), old(Book(st)), map[]))
    {
      visited := map[];
      var step := 1;
      while step <= cfg.maxSteps
        invariant Attached(st) && Ruled(st) && Others(st) == old(Others(st)) && fresh(st.repr - old(st.repr)) && fresh(store.frozen - old(store.frozen))
        invariant Loop(cfg, env, step, Run(st.View(), Book(st), visited)) == Loop(cfg, env, 1, Run(old(st.View()), old(Book(st)), map[]))
        decreases cfg.maxSteps - step
      {
        visited, c := Iterate(env, step, st, visited);
        if !c.Next? {
          return;
        }
        step := step + 1;
      }
      c := Stop(Ledger.MaxSteps);
    }
  }

  /** The summary's node sequence is collected from the stored steps. */
  method BuildSummary(st: M.State, steps: seq<Ledger.StepRecord>, reason: Ledger.Reason) returns (payload: Ledger.Summary)
    ensures payload == SummaryOf(st, steps, reason)
    ensures Bounds.Tells(payload, st, steps) && payload.reason == reason && payload.status == st.task.status
  {
    var sequence := [];
    for i := 0 to |steps|
      invariant sequence == Ledger.NodesOf(steps[..i])
    {
      sequence := sequence + [steps[i].node];
    }
    assert steps[..|steps|] == steps;
    payload := Ledger.Summary(st.task.id, st.task.status, st.input.keywords, sequence, reason, st.decisionLog, st.nodeOutputs,
      if "latest_plan" in st.ext then Some(st.ext["latest_plan"]) else None);
  }
}
