// The scheduler as functions on values: what one iteration, one run and a chain of resumes do.
module EngineSpec {
  import opened Basics
  import opened Contract
  import opened Ledger
  import M = StateModel
  import P = Patterns
  import R = Rules

  datatype Config = Config(maxSteps: int, maxSameNodeVisits: int, planning: bool, sensitive: seq<string>, cel: R.Cel)

  /** Where in a run something happens. */
  datatype Phase = Start | At(step: int) | Finish

  /** The calls that may fail. */
  datatype Op =
    | GetTask | CreateTask | UpdateTask | SaveSnapshot | SaveStep | SaveSummary
    | PutShortTerm | UpsertPattern | RecallPatterns
    | CloneView | ClonePatched | ConvertForRules | ConvertForStep

  datatype Lookup = Missing | Found(rules: Option<R.RuleSet>)

  datatype Check = Check(allowed: bool, reason: string)

  datatype Execution = NodeFailed | NodeSucceeded(patch: M.Patch, output: JsonMap)

  /** Everything outside the scheduler during one run: the model, the registry, the nodes, failures and the deadline. */
  datatype Env = Env(
    candidates: int -> seq<string>,
    decide: (int, Request) -> Result<Decided, string>,
    lookup: (int, string) -> Lookup,
    checkBefore: (int, string, M.State) -> Check,
    execute: (int, string, M.State) -> Execution,
    fails: (Phase, Op) -> bool,
    expired: bool)

  datatype Error =
    | StoreError | CloneError | DecideError | MissingPlan | UnsupportedType | MissingRoute
    | UnknownNode | NodeError | PatchError

  /** How an iteration leaves the loop body. */
  datatype Control = Next | Stop(reason: Reason) | Abort(error: Error)

  /** What the loop carries: the live state, the persisted book and the visit counters of this run. */
  datatype Run = Run(st: M.State, book: Book, visited: map<string, int>)

  datatype Outcome = Finished(summary: Summary) | Errored(error: Error)

  function Visits(visited: map<string, int>, id: string): int {
    if id in visited then visited[id] else 0
  }

  ghost function RequestFor(cfg: Config, env: Env, n: int, r: Run): Request {
    Request(r.st.task.id, r.st.input.text, r.st.input.keywords, r.st, env.candidates(n),
            if env.fails(At(n), RecallPatterns) then [] else P.Recommendation(Recalled(r.book.patterns, r.st.input.keywords)),
            if "last_rejection_reason" in r.st.ext then Some(r.st.ext["last_rejection_reason"]) else None,
            cfg.planning)
  }

  function PlanJson(plan: Plan): Json {
    Obj(map["goal" := Str(plan.goal), "nodes" := StrArray(plan.nodes), "edges" := EdgeArray(plan.edges),
            "reasoning" := Str(plan.reasoning), "data" := Obj(plan.data)])
  }

  function Arguments(call: FunctionCall): JsonMap {
    if call.arguments.Some? then call.arguments.value else map[]
  }

  function PlanRecord(n: int, call: FunctionCall, plan: Plan): M.Decision {
    M.Decision(M.PlanDecided, call.name, Arguments(call), n, "", plan.reasoning,
               map["goal" := Str(plan.goal), "nodes" := StrArray(plan.nodes), "edges" := EdgeArray(plan.edges), "data" := Obj(plan.data)])
  }

  function RouteRecord(n: int, call: FunctionCall, route: RouteDecision): M.Decision {
    M.Decision(M.RouteDecided, call.name, Arguments(call), n, route.nextNode, route.reasoning, route.data)
  }

  function WithExt(st: M.State, key: string, value: Json): M.State {
    st.(ext := st.ext[key := value])
  }

  /** The plan branch: the plan is remembered and logged, nothing is executed. */
  function TakePlan(n: int, r: Run, call: FunctionCall, plan: Plan): Run {
    r.(st := M.Appended(WithExt(r.st, "latest_plan", PlanJson(plan)), PlanRecord(n, call, plan)))
  }

  /** Admission: the manifest rules first, then the node's own check; Some(reason) refuses. */
  function Refusal(cfg: Config, env: Env, n: int, id: string, rules: Option<R.RuleSet>, view: M.State): Option<string> {
    var verdict :=
      if rules.None? then R.ALLOW
      else R.Evaluated(cfg.cel, rules.value, if env.fails(At(n), ConvertForRules) then Err("marshal readonly state") else Ok(view));
    if !verdict.allowed then Some(verdict.reason)
    else
      var check := env.checkBefore(n, id, view);
      if check.allowed then None else Some(check.reason)
  }

  function SnapshotOf(st: M.State, patch: M.Patch): SnapshotRecord {
    SnapshotRecord(st.task.id, st.version, patch, st)
  }

  function StepOf(env: Env, n: int, route: RouteDecision, view: M.State, output: JsonMap): StepRecord {
    StepRecord(n, route.nextNode, "success", route.reasoning,
               if env.fails(At(n), ConvertForStep) then None else Some(view), output)
  }

  function SetTask(book: Book, task: TaskRecord): Book {
    book.(task := Some(task))
  }

  /** `UpdateTask`: fails when told to, or when the task is unknown. */
  function UpdatedTask(env: Env, phase: Phase, book: Book, st: M.State): Option<Book> {
    if env.fails(phase, UpdateTask) || book.task.None? then None
    else Some(SetTask(book, book.task.value.(header := HeaderOf(st))))
  }

  function WithSnapshot(env: Env, n: int, book: Book, s: SnapshotRecord): Option<Book> {
    if env.fails(At(n), SaveSnapshot) || book.task.None? then None
    else Some(SetTask(book, book.task.value.(snapshots := book.task.value.snapshots + [s])))
  }

  function WithStep(env: Env, n: int, book: Book, s: StepRecord): Option<Book> {
    if env.fails(At(n), SaveStep) || book.task.None? then None
    else Some(SetTask(book, book.task.value.(steps := book.task.value.steps + [s])))
  }

  function WithTrajectory(env: Env, n: int, book: Book, st: M.State, id: string): Book {
    if env.fails(At(n), PutShortTerm) then book else book.(trajectory := Some(HopsOf(st.decisionLog) + [id]))
  }

  /** Task, snapshot, step and trajectory in this order, stopping at the first failure. */
  function Record(env: Env, n: int, book: Book, st: M.State, snap: SnapshotRecord, step: StepRecord): (Book, Control) {
    match UpdatedTask(env, At(n), book, st)
    case None => (book, Abort(StoreError))
    case Some(book2) => RecordHistory(env, n, book2, st, snap, step)
  }

  function RecordHistory(env: Env, n: int, book: Book, st: M.State, snap: SnapshotRecord, step: StepRecord): (Book, Control) {
    match WithSnapshot(env, n, book, snap)
    case None => (book, Abort(StoreError))
    case Some(book2) => RecordVisit(env, n, book2, st, step)
  }

  function RecordVisit(env: Env, n: int, book: Book, st: M.State, step: StepRecord): (Book, Control) {
    match WithStep(env, n, book, step)
    case None => (book, Abort(StoreError))
    case Some(book2) => (WithTrajectory(env, n, book2, st, step.node), Next)
  }

  /** After a successful node: merge the patch, then record it. */
  function Persist(cfg: Config, env: Env, n: int, r: Run, route: RouteDecision, view: M.State, patch: M.Patch, output: JsonMap): (Run, Control) {
    if !M.Validated(r.st) then (r, Abort(PatchError))
    else
      var st := M.Patched(r.st, patch, cfg.sensitive);
      if env.fails(At(n), ClonePatched) then (r.(st := st), Abort(PatchError))
      else
        var (book, c) := Record(env, n, r.book, st, SnapshotOf(st, patch), StepOf(env, n, route, view, output));
        (r.(st := st, book := book), c)
  }

  /** The hop to a counted, registered node: admission, execution, persistence. */
  function Visit(cfg: Config, env: Env, n: int, r: Run, route: RouteDecision, view: M.State): (Run, Control) {
    match env.lookup(n, route.nextNode)
    case Missing => (r, Abort(UnknownNode))
    case Found(rules) =>
      match Refusal(cfg, env, n, route.nextNode, rules, view)
      case Some(reason) => (r.(st := WithExt(r.st, "last_rejection_reason", Str(reason))), Next)
      case None => RunNode(cfg, env, n, r, route, view)
  }

  function RunNode(cfg: Config, env: Env, n: int, r: Run, route: RouteDecision, view: M.State): (Run, Control) {
    match env.execute(n, route.nextNode, view)
    case NodeFailed => (r, Abort(NodeError))
    case NodeSucceeded(patch, output) => Persist(cfg, env, n, r, route, view, patch, output)
  }

  /** The route branch: log, then terminate, count the visit, or visit. */
  function TakeRoute(cfg: Config, env: Env, n: int, r: Run, call: FunctionCall, route: RouteDecision): (Run, Control) {
    var view := r.st;
    var r1 := r.(st := M.Appended(r.st, RouteRecord(n, call, route)));
    if route.nextNode == TERMINATE then (r1, Stop(AiTerminate))
    else
      var count := Visits(r1.visited, route.nextNode) + 1;
      var r2 := r1.(visited := r1.visited[route.nextNode := count]);
      if count > cfg.maxSameNodeVisits then (r2, Stop(LoopDetected))
      else Visit(cfg, env, n, r2, route, view)
  }

  /** One iteration of the loop. */
  ghost function Iterate(cfg: Config, env: Env, n: int, r: Run): (Run, Control) {
    if env.fails(At(n), CloneView) then (r, Abort(CloneError))
    else Proceed(cfg, env, n, r, env.decide(n, RequestFor(cfg, env, n, r)))
  }

  /** Without a decision the run fails, in the live state only. */
  function Proceed(cfg: Config, env: Env, n: int, r: Run, answer: Result<Decided, string>): (Run, Control) {
    match answer
    case Err(_) => (r.(st := r.st.(task := r.st.task.(status := M.Failed))), Abort(DecideError))
    case Ok(d) => Take(cfg, env, n, r, d)
  }

  function Take(cfg: Config, env: Env, n: int, r: Run, d: Decided): (Run, Control) {
    match d.kind
    case PlanDecided =>
      if d.plan.None? then (r, Abort(MissingPlan)) else (TakePlan(n, r, d.call, d.plan.value), Next)
    case RouteDecided =>
      if d.route.None? then (r, Abort(MissingRoute)) else TakeRoute(cfg, env, n, r, d.call, d.route.value)
    case OtherDecision(_) => (r, Abort(UnsupportedType))
  }

  /** The loop from step n on; falling off its end means the step budget is used up. */
  ghost function Loop(cfg: Config, env: Env, n: int, r: Run): (end: (Run, Control))
    ensures !end.1.Next?
    decreases cfg.maxSteps - n
  {
    if n > cfg.maxSteps then (r, Stop(MaxSteps))
    else
      var (r1, c) := Iterate(cfg, env, n, r);
      if c.Next? then Loop(cfg, env, n + 1, r1) else (r1, c)
  }

  /** What an iteration does to `holds` and `ends`. */
  ghost predicate Carries(cfg: Config, env: Env, n: int, r: Run, holds: (int, Run) -> bool, ends: (Run, Control) -> bool) {
    if n > cfg.maxSteps then ends(r, Stop(MaxSteps))
    else
      var (r1, c) := Iterate(cfg, env, n, r);
      if c.Next? then holds(n + 1, r1) else ends(r1, c)
  }

  /** The proof rule of the loop: what every iteration carries on, or turns into the end, the loop ends with. */
  lemma {:induction false} LoopRule(cfg: Config, env: Env, n: int, r: Run, holds: (int, Run) -> bool, ends: (Run, Control) -> bool)
    requires holds(n, r) && forall k, q :: holds(k, q) ==> Carries(cfg, env, k, q, holds, ends)
    ensures ends(Loop(cfg, env, n, r).0, Loop(cfg, env, n, r).1)
    decreases cfg.maxSteps - n
  {
    assert Carries(cfg, env, n, r, holds, ends);
    if n <= cfg.maxSteps && Iterate(cfg, env, n, r).1.Next? {
      LoopRule(cfg, env, n + 1, Iterate(cfg, env, n, r).0, holds, ends);
    }
  }

  /** The last iteration of the loop and the run it starts from; past the budget when that ends the loop. */
  ghost function Last(cfg: Config, env: Env, n: int, r: Run): (int, Run)
    decreases cfg.maxSteps - n
  {
    if n > cfg.maxSteps || !Iterate(cfg, env, n, r).1.Next? then (n, r)
    else Last(cfg, env, n + 1, Iterate(cfg, env, n, r).0)
  }

  /** How the last iteration ends the loop. */
  ghost function EndOf(cfg: Config, env: Env, last: (int, Run)): (Run, Control) {
    if last.0 > cfg.maxSteps then (last.1, Stop(MaxSteps)) else Iterate(cfg, env, last.0, last.1)
  }

  lemma LoopEndsAtLast(cfg: Config, env: Env, n: int, r: Run)
    ensures Loop(cfg, env, n, r) == EndOf(cfg, env, Last(cfg, env, n, r))
  {
    var last := Last(cfg, env, n, r);
    var end := EndOf(cfg, env, last);
    var holds := (k: int, q: Run) => Last(cfg, env, k, q) == last;
    var ends := (q: Run, c: Control) => (q, c) == end;
    forall k, q | holds(k, q) ensures Carries(cfg, env, k, q, holds, ends) {
    }
    LoopRule(cfg, env, n, r, holds, ends);
  }

  /** What every completed iteration keeps holds before the last one. */
  lemma {:induction false} LastKeeps(cfg: Config, env: Env, n: int, r: Run, holds: Run -> bool)
    requires holds(r) && forall k, q :: holds(q) && Iterate(cfg, env, k, q).1.Next? ==> holds(Iterate(cfg, env, k, q).0)
    ensures holds(Last(cfg, env, n, r).1)
    decreases cfg.maxSteps - n
  {
    if n <= cfg.maxSteps && Iterate(cfg, env, n, r).1.Next? {
      LastKeeps(cfg, env, n + 1, Iterate(cfg, env, n, r).0, holds);
    }
  }

  /** `CreateTask`: fails when told to, or when the task is known. */
  function Created(env: Env, book: Book, st: M.State): Option<Book> {
    if env.fails(Start, CreateTask) || book.task.Some? then None
    else Some(SetTask(book, TaskRecord(HeaderOf(st), [], [], None)))
  }

  /** The task must exist afterwards: it is created when it cannot be read, and updated otherwise. */
  function Open(env: Env, book: Book, st: M.State): Option<Book> {
    if env.fails(Start, GetTask) || book.task.None? then Created(env, book, st)
    else UpdatedTask(env, Start, book, st)
  }

  function FinalReason(env: Env, reason: Reason): Reason {
    if env.expired then TaskTimeout else reason
  }

  function FinalStatus(env: Env, reason: Reason, status: M.Status): M.Status {
    if env.expired then M.TimedOut
    else if reason != AiTerminate then M.Failed
    else if status == M.TimedOut then M.TimedOut
    else M.Completed
  }

  function SummaryOf(st: M.State, steps: seq<StepRecord>, reason: Reason): Summary {
    Summary(st.task.id, st.task.status, st.input.keywords, NodesOf(steps), reason, st.decisionLog, st.nodeOutputs,
            if "latest_plan" in st.ext then Some(st.ext["latest_plan"]) else None)
  }

  function Finalized(env: Env, book: Book, st: M.State): Book {
    if env.fails(Finish, UpsertPattern) then book
    else book.(patterns := P.Upsert(book.patterns, P.Pattern(st.input.keywords, HopsOf(st.decisionLog), 1)))
  }

  function SavedReport(env: Env, book: Book, st: M.State, summary: Summary): (Book, Outcome)
    requires book.task.Some?
  {
    if env.fails(Finish, SaveSummary) then (book, Errored(StoreError))
    else
      var book2 := SetTask(book, book.task.value.(summary := Some(summary)));
      match UpdatedTask(env, Finish, book2, st)
      case None => (book2, Errored(StoreError))
      case Some(book3) => (book3, Finished(summary))
  }

  /** Pattern memory, summary, and the last task update. */
  function Reported(env: Env, book: Book, st: M.State, reason: Reason): (Book, Outcome) {
    if env.fails(Finish, GetTask) || book.task.None? then (book, Errored(StoreError))
    else ReportedOn(env, book, st, reason)
  }

  function ReportedOn(env: Env, book: Book, st: M.State, reason: Reason): (Book, Outcome)
    requires book.task.Some?
  {
    SavedReport(env, Finalized(env, book, st), st, SummaryOf(st, book.task.value.steps, FinalReason(env, reason)))
  }

  /** After the loop: the final status, then the report. */
  function Close(env: Env, r: Run, reason: Reason): (Run, Outcome) {
    var st := r.st.(task := r.st.task.(status := FinalStatus(env, reason, r.st.task.status)));
    var (book, out) := Reported(env, r.book, st, reason);
    (r.(st := st, book := book), out)
  }

  /** The loop and what follows it. */
  ghost function RunFrom(cfg: Config, env: Env, r0: Run): (Run, Outcome) {
    var (r, c) := Loop(cfg, env, 1, r0);
    match c
    case Stop(reason) => Close(env, r, reason)
    case Abort(error) => (r, Errored(error))
  }

  /** A whole run. */
  ghost function RunTask(cfg: Config, env: Env, st: M.State, book: Book): (Run, Outcome) {
    match Open(env, book, st)
    case None => (Run(st, book, map[]), Errored(StoreError))
    case Some(book1) => RunFrom(cfg, env, Run(st, book1, map[]))
  }
}
