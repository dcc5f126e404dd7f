// Persisted history over every run and every chain of resumes: event sourcing and replay.
module Lineage {
  import opened Basics
  import opened Ledger
  import opened EngineSpec
  import C = Contract
  import M = StateModel
  import P = Patterns

  /** The parts of a state that only patches write. */
  datatype Contents = Contents(workingMemory: JsonMap, nodeOutputs: M.Outputs, sensitive: map<string, string>)

  function ContentsOf(st: M.State): Contents {
    Contents(st.workingMemory, st.nodeOutputs, st.sensitive)
  }

  /** The stored patches folded from empty maps, oldest first. */
  function Replay(snaps: seq<SnapshotRecord>, allow: seq<string>): Contents {
    if snaps == [] then Contents(map[], map[], map[])
    else
      var before, p := Replay(snaps[..|snaps| - 1], allow), snaps[|snaps| - 1].patch;
      Contents(before.workingMemory + p.workingMemory, M.MergeOutputs(before.nodeOutputs, p.nodeOutputs),
               before.sensitive + M.Allowed(p.sensitive, allow))
  }

  /** Snapshots are numbered 2, 3, ... and each one is the replay of all patches up to it. */
  ghost predicate Sourced(snaps: seq<SnapshotRecord>, allow: seq<string>, id: string) {
    forall i :: 0 <= i < |snaps| ==>
      && snaps[i].taskId == id == snaps[i].state.task.id
      && snaps[i].version == snaps[i].state.version == i + 2
      && ContentsOf(snaps[i].state) == Replay(snaps[..i + 1], allow)
  }

  /** Step and snapshot belong together: input, logged hop and patch rebuild the stored state. */
  predicate Rebuilds(step: StepRecord, snap: SnapshotRecord, allow: seq<string>) {
    var log := snap.state.decisionLog;
    && step.input.Some? && log != []
    && log[|log| - 1].kind == M.RouteDecided && log[|log| - 1].nextNode == step.node && log[|log| - 1].step == step.index
    && log[|log| - 1].reasoning == step.reasoning
    && M.Patched(M.Appended(step.input.value, log[|log| - 1]), snap.patch, allow) == snap.state
  }

  /** Every snapshot has its step, and the decision logs grow strictly. */
  ghost predicate Traced(task: TaskRecord, allow: seq<string>) {
    && |task.steps| == |task.snapshots|
    && (forall i :: 0 <= i < |task.steps| ==> Rebuilds(task.steps[i], task.snapshots[i], allow))
    && (forall i, j :: 0 <= i < j < |task.snapshots| ==> task.snapshots[i].state.decisionLog < task.snapshots[j].state.decisionLog)
  }

  /** Nothing is lost between a snapshot and its step; every other call may still fail. */
  ghost predicate KeepsSteps(env: Env) {
    forall n :: !env.fails(At(n), SaveStep) && !env.fails(At(n), ConvertForStep)
  }

  /** What holds of the book alone. */
  ghost predicate Kept(book: Book, allow: seq<string>, id: string, traced: bool) {
    book.task.Some? ==> Sourced(book.task.value.snapshots, allow, id) && (traced ==> Traced(book.task.value, allow))
  }

  /** What the loop keeps: the live state continues the stored history. */
  ghost predicate Live(r: Run, allow: seq<string>, id: string, traced: bool) {
    && r.book.task.Some? && Kept(r.book, allow, id, traced)
    && Continues(r.st, r.book.task.value.snapshots, allow, id)
  }

  ghost predicate Continues(st: M.State, snaps: seq<SnapshotRecord>, allow: seq<string>, id: string) {
    && st.task.id == id && st.version == |snaps| + 1
    && ContentsOf(st) == Replay(snaps, allow)
    && (snaps != [] ==> snaps[|snaps| - 1].state.decisionLog <= st.decisionLog)
  }

  lemma SnapshotKeeps(snaps: seq<SnapshotRecord>, st: M.State, d: M.Decision, patch: M.Patch, allow: seq<string>, id: string)
    requires Sourced(snaps, allow, id) && Continues(st, snaps, allow, id)
    ensures var after := M.Patched(M.Appended(st, d), patch, allow);
      var more := snaps + [SnapshotOf(after, patch)];
      Sourced(more, allow, id) && Continues(after, more, allow, id)
  {
    var after := M.Patched(M.Appended(st, d), patch, allow);
    var more := snaps + [SnapshotOf(after, patch)];
    assert more[..|snaps|] == snaps;
    forall i | 0 <= i < |more| ensures ContentsOf(more[i].state) == Replay(more[..i + 1], allow) {
      if i < |snaps| {
        assert more[..i + 1] == snaps[..i + 1];
      } else {
        assert more[..i + 1] == more;
      }
    }
  }

  lemma StepKeeps(task: TaskRecord, st: M.State, step: StepRecord, snap: SnapshotRecord, allow: seq<string>, id: string)
    requires Traced(task, allow) && Continues(st, task.snapshots, allow, id)
    requires Rebuilds(step, snap, allow) && step.input == Some(st)
    ensures Traced(task.(snapshots := task.snapshots + [snap], steps := task.steps + [step]), allow)
  {
    var d := snap.state.decisionLog[|snap.state.decisionLog| - 1];
    assert snap.state.decisionLog == st.decisionLog + [d];
    LogsGrow(task.snapshots, st.decisionLog, snap);
    PairsGrow(task, step, snap, allow);
  }

  lemma LogsGrow(snaps: seq<SnapshotRecord>, live: seq<M.Decision>, snap: SnapshotRecord)
    requires forall i, j :: 0 <= i < j < |snaps| ==> snaps[i].state.decisionLog < snaps[j].state.decisionLog
    requires snaps != [] ==> snaps[|snaps| - 1].state.decisionLog <= live
    requires live < snap.state.decisionLog
    ensures var more := snaps + [snap];
      forall i, j :: 0 <= i < j < |more| ==> more[i].state.decisionLog < more[j].state.decisionLog
  {
  }

  lemma PairsGrow(task: TaskRecord, step: StepRecord, snap: SnapshotRecord, allow: seq<string>)
    requires |task.steps| == |task.snapshots| && Rebuilds(step, snap, allow)
    requires forall i :: 0 <= i < |task.steps| ==> Rebuilds(task.steps[i], task.snapshots[i], allow)
    ensures var steps, snaps := task.steps + [step], task.snapshots + [snap];
      forall i :: 0 <= i < |steps| ==> Rebuilds(steps[i], snaps[i], allow)
  {
  }

  /** The iteration leaves the history alone and touches only status, extensions and the end of the log. */
  predicate Quiet(r: Run, r1: Run) {
    && r1.book == r.book
    && r1.st == r.st.(task := r1.st.task, ext := r1.st.ext, decisionLog := r1.st.decisionLog)
    && r1.st.task.id == r.st.task.id
    && r.st.decisionLog <= r1.st.decisionLog
  }

  /** The state just after a hop was logged and counted. */
  function Logged(n: int, r: Run, call: C.FunctionCall, route: C.RouteDecision): Run {
    r.(st := M.Appended(r.st, RouteRecord(n, call, route)),
       visited := r.visited[route.nextNode := Visits(r.visited, route.nextNode) + 1])
  }

  ghost predicate Persisted(cfg: Config, env: Env, n: int, r: Run, end: (Run, Control)) {
    exists call, route, patch, output :: end == Persist(cfg, env, n, Logged(n, r, call, route), route, r.st, patch, output)
  }

  lemma VisitShape(cfg: Config, env: Env, n: int, r: Run, call: C.FunctionCall, route: C.RouteDecision)
    ensures var end := Visit(cfg, env, n, Logged(n, r, call, route), route, r.st);
      Quiet(r, end.0) || Persisted(cfg, env, n, r, end)
  {
    var logged := Logged(n, r, call, route);
    var found := env.lookup(n, route.nextNode);
    if found.Found? && Refusal(cfg, env, n, route.nextNode, found.rules, r.st).None? {
      var ran := env.execute(n, route.nextNode, r.st);
      if ran.NodeSucceeded? {
        assert Visit(cfg, env, n, logged, route, r.st) == Persist(cfg, env, n, logged, route, r.st, ran.patch, ran.output);
      }
    }
  }

  /** Every iteration is quiet or persists the result of the hop it logged. */
  lemma IterateShape(cfg: Config, env: Env, n: int, r: Run)
    ensures var end := Iterate(cfg, env, n, r);
      Quiet(r, end.0) || Persisted(cfg, env, n, r, end)
  {
    if !env.fails(At(n), CloneView) {
      var decided := env.decide(n, RequestFor(cfg, env, n, r));
      if decided.Ok? {
        TakeShape(cfg, env, n, r, decided.value);
      }
    }
  }

  lemma TakeShape(cfg: Config, env: Env, n: int, r: Run, d: C.Decided)
    ensures var end := Take(cfg, env, n, r, d);
      Quiet(r, end.0) || Persisted(cfg, env, n, r, end)
  {
    if d.kind == M.RouteDecided && d.route.Some? {
      VisitShape(cfg, env, n, r, d.call, d.route.value);
      TakeRouteCases(cfg, env, n, r, d.call, d.route.value);
    }
  }

  lemma TakeRouteCases(cfg: Config, env: Env, n: int, r: Run, call: C.FunctionCall, route: C.RouteDecision)
    ensures var end := TakeRoute(cfg, env, n, r, call, route);
      Quiet(r, end.0) || end == Visit(cfg, env, n, Logged(n, r, call, route), route, r.st)
  {
  }

  /** What persisting can do to the stored history. */
  lemma PersistShape(cfg: Config, env: Env, n: int, r: Run, route: C.RouteDecision, view: M.State, patch: M.Patch, output: JsonMap)
    requires r.book.task.Some?
    ensures var (r1, c) := Persist(cfg, env, n, r, route, view, patch, output);
      var task, snap := r.book.task.value, SnapshotOf(M.Patched(r.st, patch, cfg.sensitive), patch);
      && r1.book.task.Some?
      && var task1 := r1.book.task.value;
        || (c.Abort? && task1.snapshots == task.snapshots && task1.steps == task.steps)
        || (c.Abort? && env.fails(At(n), SaveStep) && task1.snapshots == task.snapshots + [snap] && task1.steps == task.steps)
        || (c.Next? && r1.st == snap.state && task1.snapshots == task.snapshots + [snap]
            && task1.steps == task.steps + [StepOf(env, n, route, view, output)])
  {
  }

  /** Persisting a node's result extends the history by one matching pair. */
  lemma PersistKeeps(cfg: Config, env: Env, n: int, r: Run, call: C.FunctionCall, route: C.RouteDecision, patch: M.Patch, output: JsonMap, id: string, traced: bool)
    requires Live(r, cfg.sensitive, id, traced) && (traced ==> KeepsSteps(env))
    ensures var (r1, c) := Persist(cfg, env, n, Logged(n, r, call, route), route, r.st, patch, output);
      Kept(r1.book, cfg.sensitive, id, traced) && (c.Next? ==> Live(r1, cfg.sensitive, id, traced))
  {
    var allow, task, d := cfg.sensitive, r.book.task.value, RouteRecord(n, call, route);
    var snap := SnapshotOf(M.Patched(M.Appended(r.st, d), patch, allow), patch);
    PersistShape(cfg, env, n, Logged(n, r, call, route), route, r.st, patch, output);
    SnapshotKeeps(task.snapshots, r.st, d, patch, allow, id);
    if traced {
      var step := StepOf(env, n, route, r.st, output);
      assert Rebuilds(step, snap, allow);
      StepKeeps(task, r.st, step, snap, allow, id);
    }
  }

  lemma QuietKeeps(r: Run, r1: Run, allow: seq<string>, id: string, traced: bool)
    requires Live(r, allow, id, traced) && Quiet(r, r1)
    ensures Live(r1, allow, id, traced)
  {
  }

  lemma IterateKeeps(cfg: Config, env: Env, n: int, r: Run, id: string, traced: bool)
    requires Live(r, cfg.sensitive, id, traced) && (traced ==> KeepsSteps(env))
    ensures var (r1, c) := Iterate(cfg, env, n, r);
      Kept(r1.book, cfg.sensitive, id, traced) && (!c.Abort? ==> Live(r1, cfg.sensitive, id, traced))
  {
    IterateShape(cfg, env, n, r);
    ShapeKeeps(cfg, env, n, r, Iterate(cfg, env, n, r), id, traced);
  }

  lemma ShapeKeeps(cfg: Config, env: Env, n: int, r: Run, end: (Run, Control), id: string, traced: bool)
    requires Live(r, cfg.sensitive, id, traced) && (traced ==> KeepsSteps(env))
    requires Quiet(r, end.0) || Persisted(cfg, env, n, r, end)
    ensures Kept(end.0.book, cfg.sensitive, id, traced) && (!end.1.Abort? ==> Live(end.0, cfg.sensitive, id, traced))
  {
    if Quiet(r, end.0) {
      QuietKeeps(r, end.0, cfg.sensitive, id, traced);
    } else {
      var call, route, patch, output :| end == Persist(cfg, env, n, Logged(n, r, call, route), route, r.st, patch, output);
      PersistKeeps(cfg, env, n, r, call, route, patch, output, id, traced);
      PersistShape(cfg, env, n, Logged(n, r, call, route), route, r.st, patch, output);
    }
  }

  lemma LoopKeeps(cfg: Config, env: Env, r: Run, id: string, traced: bool)
    requires Live(r, cfg.sensitive, id, traced) && (traced ==> KeepsSteps(env))
    ensures var (r1, c) := Loop(cfg, env, 1, r);
      Kept(r1.book, cfg.sensitive, id, traced) && (!c.Abort? ==> Live(r1, cfg.sensitive, id, traced))
  {
    var holds := (k: int, q: Run) => Live(q, cfg.sensitive, id, traced);
    var ends := (q: Run, c: Control) => Kept(q.book, cfg.sensitive, id, traced) && (!c.Abort? ==> Live(q, cfg.sensitive, id, traced));
    forall k, q | holds(k, q) ensures Carries(cfg, env, k, q, holds, ends) {
      IterateKeeps(cfg, env, k, q, id, traced);
    }
    LoopRule(cfg, env, 1, r, holds, ends);
  }

  lemma OpenKeeps(env: Env, book: Book, st: M.State)
    requires Open(env, book, st).Some?
    ensures var task := Open(env, book, st).value.task;
      && task.Some?
      && task.value.snapshots == (if book.task.Some? then book.task.value.snapshots else [])
      && task.value.steps == (if book.task.Some? then book.task.value.steps else [])
  {
  }

  /** Closing a run adds nothing to the history. */
  lemma CloseKeeps(env: Env, r: Run, reason: Reason)
    requires r.book.task.Some?
    ensures var book := Close(env, r, reason).0.book;
      book.task.Some? && book.task.value.snapshots == r.book.task.value.snapshots && book.task.value.steps == r.book.task.value.steps
  {
  }

  /** A run that starts where the stored history ends keeps the history, however it ends. */
  lemma RunKeeps(cfg: Config, env: Env, st: M.State, book: Book, traced: bool)
    requires Kept(book, cfg.sensitive, st.task.id, traced) && (traced ==> KeepsSteps(env))
    requires Continues(st, if book.task.Some? then book.task.value.snapshots else [], cfg.sensitive, st.task.id)
    ensures Kept(RunTask(cfg, env, st, book).0.book, cfg.sensitive, st.task.id, traced)
  {
    var begun := Open(env, book, st);
    if begun.Some? {
      OpenKeeps(env, book, st);
      LoopKeeps(cfg, env, Run(st, begun.value, map[]), st.task.id, traced);
      var (r, c) := Loop(cfg, env, 1, Run(st, begun.value, map[]));
      if c.Stop? {
        CloseKeeps(env, r, c.reason);
      }
    }
  }

  // ----- chains of resumes -----

  /** One launch: its configuration, its outside world, and the patterns stored by then. */
  datatype Launch = Launch(cfg: Config, env: Env, patterns: seq<P.Pattern>)

  const NO_BOOK := Book(None, None, [])

  /** Resume: the latest snapshot's state, set to running, is run again; without a snapshot nothing happens. */
  ghost function Resumed(launch: Launch, book: Book): Book {
    if book.task.None? || book.task.value.snapshots == [] then book
    else
      var last := book.task.value.snapshots[|book.task.value.snapshots| - 1].state;
      RunTask(launch.cfg, launch.env, last.(task := last.task.(status := M.Running)), book.(patterns := launch.patterns)).0.book
  }

  /** The book after a first run from a new task and any number of resumes. */
  ghost function Chain(st: M.State, launches: seq<Launch>): Book
    requires launches != []
  {
    var last := launches[|launches| - 1];
    if |launches| == 1 then RunTask(last.cfg, last.env, st, NO_BOOK.(patterns := last.patterns)).0.book
    else Resumed(last, Chain(st, launches[..|launches| - 1]))
  }

  /** The latest snapshot is where the stored history ends, so a resumed run continues it. */
  lemma ResumeKeeps(launch: Launch, book: Book, id: string, traced: bool)
    requires Kept(book, launch.cfg.sensitive, id, traced) && (traced ==> KeepsSteps(launch.env))
    ensures Kept(Resumed(launch, book), launch.cfg.sensitive, id, traced)
  {
    if book.task.Some? && book.task.value.snapshots != [] {
      var snaps := book.task.value.snapshots;
      var again := snaps[|snaps| - 1].state;
      assert snaps[..|snaps|] == snaps;
      RunKeeps(launch.cfg, launch.env, again.(task := again.task.(status := M.Running)), book.(patterns := launch.patterns), traced);
    }
  }

  lemma {:induction false} ChainKeeps(st: M.State, launches: seq<Launch>, allow: seq<string>, traced: bool)
    requires launches != [] && Continues(st, [], allow, st.task.id)
    requires forall l :: l in launches ==> l.cfg.sensitive == allow && (traced ==> KeepsSteps(l.env))
    ensures Kept(Chain(st, launches), allow, st.task.id, traced)
  {
    var last := launches[|launches| - 1];
    if |launches| == 1 {
      RunKeeps(last.cfg, last.env, st, NO_BOOK.(patterns := last.patterns), traced);
    } else {
      var before := Chain(st, launches[..|launches| - 1]);
      ChainKeeps(st, launches[..|launches| - 1], allow, traced);
      ResumeKeeps(last, before, st.task.id, traced);
    }
  }

  /** Event sourcing: whatever fails and however often the task is resumed, the snapshots are versions 2..n+1 and each is the fold of the stored patches. */
  lemma EventSourcing(id: string, trace: string, input: M.UserInput, labels: map<string, string>, launches: seq<Launch>, allow: seq<string>)
    requires launches != [] && forall l :: l in launches ==> l.cfg.sensitive == allow
    ensures var book := Chain(M.NewState(id, trace, input, labels), launches);
      book.task.Some? ==> Sourced(book.task.value.snapshots, allow, id)
  {
    ChainKeeps(M.NewState(id, trace, input, labels), launches, allow, false);
  }

  /** Lineage: when steps are not lost, steps and snapshots pair up, each pair replays, and logs form a strict prefix chain. */
  lemma LineageReplays(id: string, trace: string, input: M.UserInput, labels: map<string, string>, launches: seq<Launch>, allow: seq<string>)
    requires launches != [] && forall l :: l in launches ==> l.cfg.sensitive == allow && KeepsSteps(l.env)
    ensures var book := Chain(M.NewState(id, trace, input, labels), launches);
      book.task.Some? ==> Traced(book.task.value, allow)
  {
    ChainKeeps(M.NewState(id, trace, input, labels), launches, allow, true);
  }

  // ----- stored snapshots are never rewritten -----

  predicate Extends(book: Book, after: Book) {
    book.task.Some? ==> after.task.Some? && book.task.value.snapshots <= after.task.value.snapshots && book.task.value.steps <= after.task.value.steps
  }

  lemma IterateExtends(cfg: Config, env: Env, n: int, r: Run)
    ensures Extends(r.book, Iterate(cfg, env, n, r).0.book)
  {
    var end := Iterate(cfg, env, n, r);
    IterateShape(cfg, env, n, r);
    if !Quiet(r, end.0) && r.book.task.Some? {
      var call, route, patch, output :| end == Persist(cfg, env, n, Logged(n, r, call, route), route, r.st, patch, output);
      PersistShape(cfg, env, n, Logged(n, r, call, route), route, r.st, patch, output);
    }
  }

  /** What every iteration keeps, the loop keeps. */
  lemma LoopInduction(cfg: Config, env: Env, r: Run, holds: Run -> bool)
    requires holds(r) && forall k, q :: holds(q) ==> holds(Iterate(cfg, env, k, q).0)
    ensures holds(Loop(cfg, env, 1, r).0)
  {
    var indexed := (k: int, q: Run) => holds(q);
    var ends := (q: Run, c: Control) => holds(q);
    forall k, q | indexed(k, q) ensures Carries(cfg, env, k, q, indexed, ends) {
      assert holds(Iterate(cfg, env, k, q).0);
    }
    LoopRule(cfg, env, 1, r, indexed, ends);
  }

  lemma LoopExtends(cfg: Config, env: Env, r: Run)
    ensures Extends(r.book, Loop(cfg, env, 1, r).0.book)
  {
    var holds := (q: Run) => Extends(r.book, q.book);
    forall k, q | holds(q) ensures holds(Iterate(cfg, env, k, q).0) {
      IterateExtends(cfg, env, k, q);
      StillExtends(r.book, q.book, Iterate(cfg, env, k, q).0.book);
    }
    LoopInduction(cfg, env, r, holds);
  }

  lemma StillExtends(a: Book, b: Book, c: Book)
    requires Extends(a, b) && Extends(b, c)
    ensures Extends(a, c)
  {
  }

  /** A run only ever appends to the stored snapshots and steps. */
  lemma RunExtends(cfg: Config, env: Env, st: M.State, book: Book)
    ensures Extends(book, RunTask(cfg, env, st, book).0.book)
  {
    var begun := Open(env, book, st);
    if begun.Some? {
      OpenKeeps(env, book, st);
      var (r, c) := Loop(cfg, env, 1, Run(st, begun.value, map[]));
      LoopExtends(cfg, env, Run(st, begun.value, map[]));
      if c.Stop? {
        CloseKeeps(env, r, c.reason);
      }
    }
  }
}
