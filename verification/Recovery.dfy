// What a crash or a failing store can leave behind: the stored task never falls behind its snapshots.
module Recovery {
  import opened Basics
  import opened EngineSpec
  import opened Ledger
  import B = Bounds
  import C = Contract
  import L = Lineage
  import M = StateModel
  import P = Patterns

  /** The step is the visit the snapshot's last decision names, and replays it when its input was kept. */
  predicate Matches(step: StepRecord, snap: SnapshotRecord, allow: seq<string>) {
    var log := snap.state.decisionLog;
    && log != [] && log[|log| - 1].kind == M.RouteDecided
    && step.node == log[|log| - 1].nextNode && step.index == log[|log| - 1].step
    && step.reasoning == log[|log| - 1].reasoning
    && (step.input.Some? ==> L.Rebuilds(step, snap, allow))
  }

  /** The i-th step belongs to the snapshot at places[i]; later steps belong to later snapshots. */
  predicate Placed(steps: seq<StepRecord>, snaps: seq<SnapshotRecord>, allow: seq<string>, places: seq<nat>) {
    && |places| == |steps|
    && (forall i :: 0 <= i < |places| ==> places[i] < |snaps| && Matches(steps[i], snaps[places[i]], allow))
    && forall i, j :: 0 <= i < j < |places| ==> places[i] < places[j]
  }

  /** No step lacks its snapshot. */
  ghost predicate StepsPlaced(steps: seq<StepRecord>, snaps: seq<SnapshotRecord>, allow: seq<string>) {
    exists places :: Placed(steps, snaps, allow, places)
  }

  /** The stored header (version, status and log) contains the last snapshot's log. */
  predicate LogsLead(task: TaskRecord) {
    task.snapshots != [] ==> task.snapshots[|task.snapshots| - 1].state.decisionLog <= task.header.decisionLog
  }

  /** The stored header is never behind the last snapshot and at most one version ahead, and every step has its own snapshot. */
  ghost predicate Recoverable(task: TaskRecord, allow: seq<string>) {
    && StepsPlaced(task.steps, task.snapshots, allow)
    && |task.snapshots| + 1 <= task.header.version <= |task.snapshots| + 2
    && LogsLead(task)
  }

  /** Between two iterations the stored header, its last snapshot and the live state are level. */
  ghost predicate Level(r: Run, allow: seq<string>) {
    && r.book.task.Some?
    && var task := r.book.task.value;
      && StepsPlaced(task.steps, task.snapshots, allow) && r.st.version == task.header.version == |task.snapshots| + 1
      && LogsLead(task) && task.header.decisionLog <= r.st.decisionLog
  }

  ghost predicate After(r: Run, c: Control, allow: seq<string>) {
    r.book.task.Some? && Recoverable(r.book.task.value, allow) && (!c.Abort? ==> Level(r, allow))
  }

  lemma SnapshotKeepsPlaces(steps: seq<StepRecord>, snaps: seq<SnapshotRecord>, snap: SnapshotRecord, allow: seq<string>)
    requires StepsPlaced(steps, snaps, allow)
    ensures StepsPlaced(steps, snaps + [snap], allow)
  {
    var places :| Placed(steps, snaps, allow, places);
    assert Placed(steps, snaps + [snap], allow, places);
  }

  lemma PairKeepsPlaces(steps: seq<StepRecord>, step: StepRecord, snaps: seq<SnapshotRecord>, snap: SnapshotRecord, allow: seq<string>)
    requires StepsPlaced(steps, snaps, allow) && Matches(step, snap, allow)
    ensures StepsPlaced(steps + [step], snaps + [snap], allow)
  {
    var places: seq<nat> :| Placed(steps, snaps, allow, places);
    PlacesGrow(steps, step, snaps, snap, allow, places);
  }

  lemma PlacesGrow(steps: seq<StepRecord>, step: StepRecord, snaps: seq<SnapshotRecord>, snap: SnapshotRecord, allow: seq<string>, places: seq<nat>)
    requires Placed(steps, snaps, allow, places) && Matches(step, snap, allow)
    ensures Placed(steps + [step], snaps + [snap], allow, places + [|snaps|])
  {
    var more := places + [|snaps|];
    forall i | 0 <= i < |more| ensures more[i] < |snaps| + 1 && Matches((steps + [step])[i], (snaps + [snap])[more[i]], allow) {
      if i < |places| {
        assert Matches(steps[i], snaps[places[i]], allow);
      }
    }
  }

  /** What `Record` leaves behind: task, snapshot, step and trajectory are written in this order, and the first failing write ends it with everything before it in place and nothing after it. */
  lemma RecordByCases(env: Env, n: int, book: Book, st: M.State, snap: SnapshotRecord, step: StepRecord)
    requires book.task.Some?
    ensures var (book1, c) := Record(env, n, book, st, snap, step);
      var task := book.task.value;
      var updated := task.(header := HeaderOf(st));
      var snapped := updated.(snapshots := task.snapshots + [snap]);
      && book1.patterns == book.patterns && (c == Next || c == Abort(StoreError))
      && (if env.fails(At(n), UpdateTask) then c.Abort? && book1.task == Some(task)
          else if env.fails(At(n), SaveSnapshot) then c.Abort? && book1.task == Some(updated)
          else if env.fails(At(n), SaveStep) then c.Abort? && book1.task == Some(snapped)
          else c.Next? && book1.task == Some(snapped.(steps := task.steps + [step])))
      && book1.trajectory ==
         if c.Next? && !env.fails(At(n), PutShortTerm) then Some(HopsOf(st.decisionLog) + [step.node]) else book.trajectory
  {
  }

  /** Whichever write fails, the task stays recoverable. */
  lemma RecordRecovers(env: Env, n: int, r: Run, st: M.State, snap: SnapshotRecord, step: StepRecord, allow: seq<string>)
    requires Level(r, allow) && st.version == r.st.version + 1 && r.st.decisionLog <= st.decisionLog
    requires snap.state == st && Matches(step, snap, allow)
    ensures var (book, c) := Record(env, n, r.book, st, snap, step);
      After(Run(st, book, r.visited), c, allow)
  {
    var task := r.book.task.value;
    RecordByCases(env, n, r.book, st, snap, step);
    SnapshotKeepsPlaces(task.steps, task.snapshots, snap, allow);
    PairKeepsPlaces(task.steps, step, task.snapshots, snap, allow);
    var (book, c) := Record(env, n, r.book, st, snap, step);
    TaskRecovers(env, n, r, st, snap, step, allow, book, c);
  }

  lemma TaskRecovers(env: Env, n: int, r: Run, st: M.State, snap: SnapshotRecord, step: StepRecord, allow: seq<string>, book: Book, c: Control)
    requires Level(r, allow) && st.version == r.st.version + 1 && r.st.decisionLog <= st.decisionLog && snap.state == st
    requires var task := r.book.task.value;
      && StepsPlaced(task.steps, task.snapshots + [snap], allow)
      && StepsPlaced(task.steps + [step], task.snapshots + [snap], allow)
    requires var task := r.book.task.value;
      var updated := task.(header := HeaderOf(st));
      || (c.Abort? && book.task == Some(task))
      || (c.Abort? && book.task == Some(updated))
      || (c.Abort? && book.task == Some(updated.(snapshots := task.snapshots + [snap])))
      || book.task == Some(updated.(snapshots := task.snapshots + [snap], steps := task.steps + [step]))
    ensures After(Run(st, book, r.visited), c, allow)
  {
  }

  lemma PersistRecovers(cfg: Config, env: Env, n: int, r: Run, call: C.FunctionCall, route: C.RouteDecision, patch: M.Patch, output: JsonMap)
    requires Level(r, cfg.sensitive)
    ensures var (r1, c) := Persist(cfg, env, n, L.Logged(n, r, call, route), route, r.st, patch, output);
      After(r1, c, cfg.sensitive)
  {
    var logged := L.Logged(n, r, call, route);
    var st := M.Patched(logged.st, patch, cfg.sensitive);
    var snap, step := SnapshotOf(st, patch), StepOf(env, n, route, r.st, output);
    assert Matches(step, snap, cfg.sensitive);
    RecordRecovers(env, n, r, st, snap, step, cfg.sensitive);
  }

  lemma IterateRecovers(cfg: Config, env: Env, n: int, r: Run)
    requires Level(r, cfg.sensitive)
    ensures var end := Iterate(cfg, env, n, r);
      After(end.0, end.1, cfg.sensitive)
  {
    L.IterateShape(cfg, env, n, r);
    ShapeRecovers(cfg, env, n, r, Iterate(cfg, env, n, r));
  }

  lemma ShapeRecovers(cfg: Config, env: Env, n: int, r: Run, end: (Run, Control))
    requires Level(r, cfg.sensitive) && (L.Quiet(r, end.0) || L.Persisted(cfg, env, n, r, end))
    ensures After(end.0, end.1, cfg.sensitive)
  {
    if !L.Quiet(r, end.0) {
      var call, route, patch, output :| end == Persist(cfg, env, n, L.Logged(n, r, call, route), route, r.st, patch, output);
      PersistRecovers(cfg, env, n, r, call, route, patch, output);
    }
  }

  lemma LoopRecovers(cfg: Config, env: Env, r: Run)
    requires Level(r, cfg.sensitive)
    ensures After(Loop(cfg, env, 1, r).0, Loop(cfg, env, 1, r).1, cfg.sensitive)
  {
    var holds := (k: int, q: Run) => Level(q, cfg.sensitive);
    var ends := (q: Run, c: Control) => After(q, c, cfg.sensitive);
    forall k, q | holds(k, q) ensures Carries(cfg, env, k, q, holds, ends) {
      IterateRecovers(cfg, env, k, q);
    }
    LoopRule(cfg, env, 1, r, holds, ends);
  }

  lemma CloseRecovers(env: Env, r: Run, reason: Reason, allow: seq<string>)
    requires Level(r, allow)
    ensures var book := Close(env, r, reason).0.book;
      book.task.Some? && Recoverable(book.task.value, allow)
  {
    CloseWrites(env, r, reason);
  }

  /** Closing a run rewrites at most the header, to the live state's, and the summary. */
  lemma CloseWrites(env: Env, r: Run, reason: Reason)
    requires r.book.task.Some?
    ensures var book := Close(env, r, reason).0.book;
      && book.task.Some? && book.task.value.steps == r.book.task.value.steps && book.task.value.snapshots == r.book.task.value.snapshots
      && (book.task.value.header == r.book.task.value.header
          || (book.task.value.header.version == r.st.version && book.task.value.header.decisionLog == r.st.decisionLog))
  {
  }

  predicate Summarizes(s: Summary, st: M.State, steps: seq<StepRecord>, reason: Reason) {
    B.Tells(s, st, steps) && s.reason == reason && s.status == st.task.status
  }

  predicate ClosedWith(s: Summary, env: Env, task: TaskRecord, r1: Run, out: Outcome) {
    if env.fails(Finish, UpdateTask) then out == Errored(StoreError) && r1.book.task == Some(task.(summary := Some(s)))
    else out == Finished(s) && r1.book.task == Some(task.(summary := Some(s), header := HeaderOf(r1.st)))
  }

  /** What closing leaves behind: pattern, summary and header are written in this order after a successful read, a pattern that cannot be written is passed over, and the first other failure ends it with everything before it in place and nothing after it. */
  lemma CloseByCases(env: Env, r: Run, reason: Reason)
    requires r.book.task.Some?
    ensures var (r1, out) := Close(env, r, reason);
      var task := r.book.task.value;
      && r1.book.trajectory == r.book.trajectory
      && r1.book.patterns ==
         (if env.fails(Finish, GetTask) || env.fails(Finish, UpsertPattern) then r.book.patterns
          else P.Upsert(r.book.patterns, P.Pattern(r.st.input.keywords, HopsOf(r.st.decisionLog), 1)))
      && if env.fails(Finish, GetTask) || env.fails(Finish, SaveSummary) then out == Errored(StoreError) && r1.book.task == Some(task)
         else exists s :: Summarizes(s, r1.st, task.steps, FinalReason(env, reason)) && ClosedWith(s, env, task, r1, out)
  {
    var st := r.st.(task := r.st.task.(status := FinalStatus(env, reason, r.st.task.status)));
    var s := SummaryOf(st, r.book.task.value.steps, FinalReason(env, reason));
    assert Summarizes(s, st, r.book.task.value.steps, FinalReason(env, reason));
  }

  /** A run that starts level with the stored history leaves the task recoverable, wherever it stops. */
  lemma RunRecovers(cfg: Config, env: Env, st: M.State, book: Book)
    requires var snaps := if book.task.Some? then book.task.value.snapshots else [];
      st.version == |snaps| + 1 && (snaps != [] ==> snaps[|snaps| - 1].state.decisionLog <= st.decisionLog)
    requires book.task.Some? ==> Recoverable(book.task.value, cfg.sensitive)
    ensures var after := RunTask(cfg, env, st, book).0.book;
      after.task.Some? ==> Recoverable(after.task.value, cfg.sensitive)
  {
    var begun := Open(env, book, st);
    if begun.Some? {
      var r0 := Run(st, begun.value, map[]);
      var end := Loop(cfg, env, 1, r0);
      assert Placed([], [], cfg.sensitive, []);
      LoopRecovers(cfg, env, r0);
      if end.1.Stop? {
        CloseRecovers(env, end.0, end.1.reason, cfg.sensitive);
      }
    }
  }

  /** Crash consistency: over a first run and any number of resumes, each of which may stop at any error, the stored task stays recoverable. */
  lemma {:induction false} ChainRecovers(st: M.State, launches: seq<L.Launch>, allow: seq<string>)
    requires launches != [] && L.Continues(st, [], allow, st.task.id)
    requires forall l :: l in launches ==> l.cfg.sensitive == allow
    ensures var book := L.Chain(st, launches);
      book.task.Some? ==> Recoverable(book.task.value, allow)
  {
    var last := launches[|launches| - 1];
    if |launches| == 1 {
      RunRecovers(last.cfg, last.env, st, L.NO_BOOK.(patterns := last.patterns));
    } else {
      var front := launches[..|launches| - 1];
      ChainRecovers(st, front, allow);
      L.ChainKeeps(st, front, allow, false);
      ResumeRecovers(last, L.Chain(st, front), allow, st.task.id);
    }
  }

  lemma ResumeRecovers(launch: L.Launch, book: Book, allow: seq<string>, id: string)
    requires launch.cfg.sensitive == allow
    requires book.task.Some? ==> L.Sourced(book.task.value.snapshots, allow, id) && Recoverable(book.task.value, allow)
    ensures var after := L.Resumed(launch, book);
      after.task.Some? ==> Recoverable(after.task.value, allow)
  {
    if book.task.Some? && book.task.value.snapshots != [] {
      var snaps := book.task.value.snapshots;
      var last := snaps[|snaps| - 1].state;
      AgainRecovers(launch, book, last.(task := last.task.(status := M.Running)));
    }
  }

  lemma AgainRecovers(launch: L.Launch, book: Book, again: M.State)
    requires book.task.Some? && Recoverable(book.task.value, launch.cfg.sensitive)
    requires var snaps := book.task.value.snapshots;
      snaps != [] && again.version == |snaps| + 1 && again.decisionLog == snaps[|snaps| - 1].state.decisionLog
    ensures var after := RunTask(launch.cfg, launch.env, again, book.(patterns := launch.patterns)).0.book;
      after.task.Some? ==> Recoverable(after.task.value, launch.cfg.sensitive)
  {
    RunRecovers(launch.cfg, launch.env, again, book.(patterns := launch.patterns));
  }

  // ----- contents ahead of the snapshots -----

  /** The merged patch that no snapshot holds when the iteration stops: the clone, the task update or the snapshot write failed after the merge. */
  ghost function Pending(cfg: Config, env: Env, n: int, r: Run): Option<M.Patch> {
    match B.NodeRun(cfg, env, n, r)
    case None => None
    case Some(id) =>
      match env.execute(n, id, r.st)
      case NodeFailed => None
      case NodeSucceeded(patch, _) => Unstored(env, n, r.st, patch)
  }

  function Unstored(env: Env, n: int, st: M.State, patch: M.Patch): Option<M.Patch> {
    if M.Validated(st) && (env.fails(At(n), ClonePatched) || env.fails(At(n), UpdateTask) || env.fails(At(n), SaveSnapshot)) then Some(patch)
    else None
  }

  /** What the loop's last iteration leaves pending. */
  ghost function LeftOver(cfg: Config, env: Env, r: Run): Option<M.Patch> {
    var (n, last) := Last(cfg, env, 1, r);
    if n > cfg.maxSteps then None else Pending(cfg, env, n, last)
  }

  function WithPatch(c: L.Contents, patch: Option<M.Patch>, allow: seq<string>): L.Contents {
    match patch
    case None => c
    case Some(p) =>
      L.Contents(c.workingMemory + p.workingMemory, M.MergeOutputs(c.nodeOutputs, p.nodeOutputs), c.sensitive + M.Allowed(p.sensitive, allow))
  }

  /** The live contents are the fold of the stored patches and the pending one. */
  ghost predicate Ahead(r: Run, pending: Option<M.Patch>, allow: seq<string>) {
    r.book.task.Some? && L.ContentsOf(r.st) == WithPatch(L.Replay(r.book.task.value.snapshots, allow), pending, allow)
  }

  /** An iteration that reaches no node is quiet; one that does is that node's run. */
  lemma NodeRunShape(cfg: Config, env: Env, n: int, r: Run) returns (call: C.FunctionCall, route: C.RouteDecision)
    ensures var id := B.NodeRun(cfg, env, n, r);
      if id.None? then L.Quiet(r, Iterate(cfg, env, n, r).0)
      else route.nextNode == id.value && Iterate(cfg, env, n, r) == RunNode(cfg, env, n, L.Logged(n, r, call, route), route, r.st)
  {
    call, route := C.FunctionCall("", None), C.RouteDecision("", "", map[]);
    if !env.fails(At(n), CloneView) {
      var answer := env.decide(n, RequestFor(cfg, env, n, r));
      if answer.Ok? && answer.value.kind == M.RouteDecided && answer.value.route.Some? {
        call, route := answer.value.call, answer.value.route.value;
        RouteShape(cfg, env, n, r, answer.value);
      }
    }
  }

  lemma RouteShape(cfg: Config, env: Env, n: int, r: Run, d: C.Decided)
    requires d.kind == M.RouteDecided && d.route.Some?
    ensures var id, route, end := B.NodeTaken(cfg, env, n, r, d), d.route.value, Take(cfg, env, n, r, d);
      if id.None? then L.Quiet(r, end.0)
      else route.nextNode == id.value && end == RunNode(cfg, env, n, L.Logged(n, r, d.call, route), route, r.st)
  {
    var route := d.route.value;
    if route.nextNode != C.TERMINATE && Visits(r.visited, route.nextNode) + 1 <= cfg.maxSameNodeVisits {
      assert Take(cfg, env, n, r, d) == Visit(cfg, env, n, L.Logged(n, r, d.call, route), route, r.st);
    }
  }

  lemma PersistAhead(cfg: Config, env: Env, n: int, r: Run, route: C.RouteDecision, view: M.State, patch: M.Patch, output: JsonMap)
    requires Ahead(r, None, cfg.sensitive)
    ensures var (r1, c) := Persist(cfg, env, n, r, route, view, patch, output);
      Ahead(r1, Unstored(env, n, r.st, patch), cfg.sensitive) && (c.Next? ==> Unstored(env, n, r.st, patch).None?)
  {
    if M.Validated(r.st) {
      var st := M.Patched(r.st, patch, cfg.sensitive);
      var snaps, snap := r.book.task.value.snapshots, SnapshotOf(st, patch);
      RecordByCases(env, n, r.book, st, snap, StepOf(env, n, route, view, output));
      assert (snaps + [snap])[..|snaps|] == snaps;
    }
  }

  lemma IterateAhead(cfg: Config, env: Env, n: int, r: Run)
    requires Ahead(r, None, cfg.sensitive)
    ensures var (r1, c) := Iterate(cfg, env, n, r);
      Ahead(r1, if c.Next? then None else Pending(cfg, env, n, r), cfg.sensitive)
  {
    var call, route := NodeRunShape(cfg, env, n, r);
    var id := B.NodeRun(cfg, env, n, r);
    if id.Some? {
      var ran, logged := env.execute(n, id.value, r.st), L.Logged(n, r, call, route);
      assert logged.st == M.Appended(r.st, RouteRecord(n, call, route));
      if ran.NodeSucceeded? {
        PersistAhead(cfg, env, n, logged, route, r.st, ran.patch, ran.output);
      }
    }
  }

  lemma LastAhead(cfg: Config, env: Env, n: int, r: Run, end: (Run, Control))
    requires Ahead(r, None, cfg.sensitive) && !end.1.Next?
    requires end == EndOf(cfg, env, (n, r))
    ensures Ahead(end.0, if n > cfg.maxSteps then None else Pending(cfg, env, n, r), cfg.sensitive)
  {
    IterateAhead(cfg, env, n, r);
  }

  lemma LoopAhead(cfg: Config, env: Env, r: Run)
    requires Ahead(r, None, cfg.sensitive)
    ensures Ahead(Loop(cfg, env, 1, r).0, LeftOver(cfg, env, r), cfg.sensitive)
  {
    var holds := (q: Run) => Ahead(q, None, cfg.sensitive);
    forall k, q | holds(q) && Iterate(cfg, env, k, q).1.Next? ensures holds(Iterate(cfg, env, k, q).0) {
      IterateAhead(cfg, env, k, q);
    }
    LastKeeps(cfg, env, 1, r, holds);
    LoopEndsAtLast(cfg, env, 1, r);
    var (n, last) := Last(cfg, env, 1, r);
    LastAhead(cfg, env, n, last, Loop(cfg, env, 1, r));
  }

  /** The contents a run leaves are those of the stored snapshots if and only if it did not stop between a merge and its snapshot, or that merge changed nothing. Since the stored task shares its containers with the live state, this is what the stored task holds. */
  lemma ContentsAhead(cfg: Config, env: Env, st: M.State, book: Book)
    requires Open(env, book, st).Some?
    requires L.ContentsOf(st) == L.Replay(if book.task.Some? then book.task.value.snapshots else [], cfg.sensitive)
    ensures var pending := LeftOver(cfg, env, Run(st, Open(env, book, st).value, map[]));
      var r := RunTask(cfg, env, st, book).0;
      && Ahead(r, pending, cfg.sensitive)
      && (Ahead(r, None, cfg.sensitive) <==>
            (var stored := L.Replay(r.book.task.value.snapshots, cfg.sensitive); WithPatch(stored, pending, cfg.sensitive) == stored))
  {
    L.OpenKeeps(env, book, st);
    var r0 := Run(st, Open(env, book, st).value, map[]);
    var end := Loop(cfg, env, 1, r0);
    LoopAhead(cfg, env, r0);
    if end.1.Stop? {
      L.CloseKeeps(env, end.0, end.1.reason);
    }
  }
}
