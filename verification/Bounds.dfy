// How a run ends, and how long it can get.
module Bounds {
  import opened Basics
  import opened Ledger
  import opened EngineSpec
  import C = Contract
  import L = Lineage
  import M = StateModel

  // ----- counting hops -----

  function RouteHops(log: seq<M.Decision>): seq<string> {
    if log == [] then []
    else
      var d := log[|log| - 1];
      RouteHops(log[..|log| - 1]) + if d.kind == M.RouteDecided then [d.nextNode] else []
  }

  function Plans(log: seq<M.Decision>): nat {
    if log == [] then 0 else Plans(log[..|log| - 1]) + if log[|log| - 1].kind == M.PlanDecided then 1 else 0
  }

  function Count(hops: seq<string>, id: string): nat {
    if hops == [] then 0 else (if hops[0] == id then 1 else 0) + Count(hops[1..], id)
  }

  function Without(hops: seq<string>, id: string): seq<string> {
    if hops == [] then []
    else if hops[0] == id then Without(hops[1..], id)
    else [hops[0]] + Without(hops[1..], id)
  }

  lemma {:induction false} CountAppend(hops: seq<string>, hop: string, id: string)
    ensures Count(hops + [hop], id) == Count(hops, id) + if hop == id then 1 else 0
  {
    if hops == [] {
      assert (hops + [hop])[1..] == [];
    } else {
      assert (hops + [hop])[1..] == hops[1..] + [hop];
      CountAppend(hops[1..], hop, id);
    }
  }

  lemma {:induction false} WithoutShape(hops: seq<string>, id: string, other: string)
    ensures |hops| == Count(hops, id) + |Without(hops, id)|
    ensures Count(Without(hops, id), other) == if other == id then 0 else Count(hops, other)
    ensures forall h :: h in Without(hops, id) ==> h in hops && h != id
  {
    if hops != [] {
      WithoutShape(hops[1..], id, other);
      if hops[0] != id {
        assert Without(hops, id)[1..] == Without(hops[1..], id);
      }
    }
  }

  lemma HeadIsMember(hops: seq<string>)
    ensures hops == [] || hops[0] in hops
  {
  }

  /** Pigeonhole: hops over a finite set of ids, each id at most m times. */
  lemma {:induction false} Pigeonhole(hops: seq<string>, ids: set<string>, m: nat)
    requires forall h :: h in hops ==> h in ids
    requires forall id :: Count(hops, id) <= m
    ensures |hops| <= |ids| * m
    decreases |ids|
  {
    HeadIsMember(hops);
    if ids != {} {
      var id :| id in ids;
      forall other ensures Count(Without(hops, id), other) <= m {
        WithoutShape(hops, id, other);
      }
      WithoutShape(hops, id, id);
      Pigeonhole(Without(hops, id), ids - {id}, m);
      assert |ids| * m == |ids - {id}| * m + m;
    }
  }

  // ----- what one iteration does to log, counters and steps -----

  function LastOf(st: M.State): M.Decision
    requires st.decisionLog != []
  {
    st.decisionLog[|st.decisionLog| - 1]
  }

  predicate Unlogged(r: Run, r1: Run, c: Control) {
    c.Abort? && r1.st.decisionLog == r.st.decisionLog && r1.visited == r.visited && r1.book == r.book
  }

  /** One record of step n was appended. */
  predicate LoggedOne(n: int, r: Run, r1: Run) {
    && r1.st.decisionLog != [] && r1.st.decisionLog == r.st.decisionLog + [LastOf(r1.st)]
    && LastOf(r1.st).step == n
  }

  predicate Planned(r: Run, r1: Run, c: Control)
    requires r1.st.decisionLog != []
  {
    && LastOf(r1.st).kind == M.PlanDecided && LastOf(r1.st).nextNode == ""
    && c.Next? && r1.visited == r.visited && r1.book == r.book && r1.st.task == r.st.task
  }

  predicate Halted(cfg: Config, r: Run, r1: Run, c: Control)
    requires r1.st.decisionLog != []
  {
    var hop := LastOf(r1.st).nextNode;
    && LastOf(r1.st).kind == M.RouteDecided && r1.book == r.book && r1.st.task == r.st.task
    && if hop == C.TERMINATE then c == Stop(AiTerminate) && r1.visited == r.visited
       else c == Stop(LoopDetected) && Visits(r.visited, hop) + 1 > cfg.maxSameNodeVisits
  }

  /** A counted hop within its limit: refused, failed, or executed and recorded once. */
  predicate Hopped(cfg: Config, env: Env, n: int, r: Run, r1: Run, c: Control)
    requires r1.st.decisionLog != []
  {
    var hop := LastOf(r1.st).nextNode;
    && LastOf(r1.st).kind == M.RouteDecided && hop != C.TERMINATE && !c.Stop?
    && Visits(r.visited, hop) + 1 <= cfg.maxSameNodeVisits
    && r1.visited == r.visited[hop := Visits(r.visited, hop) + 1]
    && (c.Next? ==> env.lookup(n, hop).Found?)
    && (r.book.task.Some? ==> Recorded(r, r1, c, hop))
  }

  predicate Recorded(r: Run, r1: Run, c: Control, hop: string)
    requires r.book.task.Some?
  {
    && r1.book.task.Some?
    && var task, task1 := r.book.task.value, r1.book.task.value;
      && (|| task1.steps == task.steps
          || (|task1.steps| == |task.steps| + 1 && task1.steps[..|task.steps|] == task.steps && task1.steps[|task.steps|].node == hop))
      && (c.Next? ==>
            || (task1.snapshots == task.snapshots && r1.st.task == r.st.task)
            || (|task1.snapshots| == |task.snapshots| + 1 && r1.st.task.status == M.Running))
  }

  predicate LoggedStep(cfg: Config, env: Env, n: int, r: Run, r1: Run, c: Control) {
    LoggedOne(n, r, r1) && (Planned(r, r1, c) || Halted(cfg, r, r1, c) || Hopped(cfg, env, n, r, r1, c))
  }

  lemma VisitLogs(cfg: Config, env: Env, n: int, r: Run, call: C.FunctionCall, route: C.RouteDecision)
    requires route.nextNode != C.TERMINATE && Visits(r.visited, route.nextNode) + 1 <= cfg.maxSameNodeVisits
    ensures var (r1, c) := Visit(cfg, env, n, L.Logged(n, r, call, route), route, r.st);
      LoggedOne(n, r, r1) && Hopped(cfg, env, n, r, r1, c)
  {
    var logged := L.Logged(n, r, call, route);
    var found := env.lookup(n, route.nextNode);
    if found.Found? && Refusal(cfg, env, n, route.nextNode, found.rules, r.st).None? {
      var ran := env.execute(n, route.nextNode, r.st);
      if ran.NodeSucceeded? {
        PersistLogs(cfg, env, n, r, call, route, ran.patch, ran.output);
        assert Visit(cfg, env, n, logged, route, r.st) == Persist(cfg, env, n, logged, route, r.st, ran.patch, ran.output);
      }
    }
  }

  lemma PersistLogs(cfg: Config, env: Env, n: int, r: Run, call: C.FunctionCall, route: C.RouteDecision, patch: M.Patch, output: JsonMap)
    requires route.nextNode != C.TERMINATE && Visits(r.visited, route.nextNode) + 1 <= cfg.maxSameNodeVisits
    requires env.lookup(n, route.nextNode).Found?
    ensures var (r1, c) := Persist(cfg, env, n, L.Logged(n, r, call, route), route, r.st, patch, output);
      LoggedOne(n, r, r1) && Hopped(cfg, env, n, r, r1, c)
  {
    if r.book.task.Some? {
      L.PersistShape(cfg, env, n, L.Logged(n, r, call, route), route, r.st, patch, output);
    }
  }

  lemma PlanLogs(cfg: Config, env: Env, n: int, r: Run, call: C.FunctionCall, plan: C.Plan)
    ensures LoggedStep(cfg, env, n, r, TakePlan(n, r, call, plan), Next)
  {
  }

  lemma HaltLogs(cfg: Config, env: Env, n: int, r: Run, call: C.FunctionCall, route: C.RouteDecision)
    requires route.nextNode == C.TERMINATE || Visits(r.visited, route.nextNode) + 1 > cfg.maxSameNodeVisits
    ensures var (r1, c) := TakeRoute(cfg, env, n, r, call, route);
      LoggedOne(n, r, r1) && Halted(cfg, r, r1, c)
  {
  }

  lemma RouteLogs(cfg: Config, env: Env, n: int, r: Run, call: C.FunctionCall, route: C.RouteDecision)
    ensures var (r1, c) := TakeRoute(cfg, env, n, r, call, route);
      LoggedStep(cfg, env, n, r, r1, c)
  {
    if route.nextNode != C.TERMINATE && Visits(r.visited, route.nextNode) + 1 <= cfg.maxSameNodeVisits {
      VisitLogs(cfg, env, n, r, call, route);
      assert TakeRoute(cfg, env, n, r, call, route) == Visit(cfg, env, n, L.Logged(n, r, call, route), route, r.st);
    } else {
      HaltLogs(cfg, env, n, r, call, route);
    }
  }

  lemma TakeLogs(cfg: Config, env: Env, n: int, r: Run, d: C.Decided)
    ensures var (r1, c) := Take(cfg, env, n, r, d);
      Unlogged(r, r1, c) || LoggedStep(cfg, env, n, r, r1, c)
  {
    if d.kind == M.RouteDecided && d.route.Some? {
      RouteLogs(cfg, env, n, r, d.call, d.route.value);
    } else if d.kind == M.PlanDecided && d.plan.Some? {
      PlanLogs(cfg, env, n, r, d.call, d.plan.value);
    }
  }

  lemma IterateLogs(cfg: Config, env: Env, n: int, r: Run)
    ensures var (r1, c) := Iterate(cfg, env, n, r);
      Unlogged(r, r1, c) || LoggedStep(cfg, env, n, r, r1, c)
  {
    if !env.fails(At(n), CloneView) {
      var decided := env.decide(n, RequestFor(cfg, env, n, r));
      if decided.Ok? {
        TakeLogs(cfg, env, n, r, decided.value);
      }
    }
  }

  // ----- what the loop keeps -----

  function Limit(cfg: Config): nat {
    if cfg.maxSameNodeVisits > 0 then cfg.maxSameNodeVisits else 0
  }

  /** The decisions of this run. */
  function Added(start: M.State, st: M.State): seq<M.Decision>
    requires start.decisionLog <= st.decisionLog
  {
    st.decisionLog[|start.decisionLog|..]
  }

  /** Steps 1, 2, ... with one decision each, and termination nowhere but at the end. */
  predicate Numbered(added: seq<M.Decision>) {
    forall i :: 0 <= i < |added| ==> added[i].step == i + 1 && (i < |added| - 1 ==> added[i].nextNode != C.TERMINATE)
  }

  predicate NoTermination(added: seq<M.Decision>) {
    forall d :: d in added ==> d.nextNode != C.TERMINATE
  }

  /** New step records of a node. */
  function Executions(book: Book, from: nat, id: string): nat
    requires book.task.Some? && from <= |book.task.value.steps|
  {
    Count(NodesOf(book.task.value.steps[from..]), id)
  }

  ghost predicate Counted(cfg: Config, n: int, start: M.State, r: Run) {
    && start.decisionLog <= r.st.decisionLog
    && |Added(start, r.st)| == n - 1
    && Numbered(Added(start, r.st)) && NoTermination(Added(start, r.st))
    && forall id :: Visits(r.visited, id) == Count(RouteHops(Added(start, r.st)), id) <= Limit(cfg)
  }

  /** The decisions of a run that has left its loop. */
  ghost predicate Ended(cfg: Config, start: M.State, r: Run, c: Control) {
    && start.decisionLog <= r.st.decisionLog
    && var added := Added(start, r.st);
      && Numbered(added)
      && (c == Stop(MaxSteps) ==> |added| == (if cfg.maxSteps > 0 then cfg.maxSteps else 0) && NoTermination(added))
      && (c == Stop(LoopDetected) ==>
            (&& added != [] && NoTermination(added) && added[|added| - 1].kind == M.RouteDecided
             && Count(RouteHops(added), added[|added| - 1].nextNode) == Limit(cfg) + 1))
      && (c == Stop(AiTerminate) ==> added != [] && added[|added| - 1].nextNode == C.TERMINATE && added[|added| - 1].kind == M.RouteDecided)
      && (forall id :: Count(RouteHops(added), id) <= Limit(cfg) + 1)
      && c != Stop(TaskTimeout) && |added| <= (if cfg.maxSteps > 0 then cfg.maxSteps else 0)
  }

  lemma AddOne(start: M.State, r: Run, r1: Run, n: int)
    requires start.decisionLog <= r.st.decisionLog && LoggedOne(n, r, r1)
    ensures start.decisionLog <= r1.st.decisionLog
    ensures Added(start, r1.st) == Added(start, r.st) + [LastOf(r1.st)]
    ensures RouteHops(Added(start, r1.st)) == RouteHops(Added(start, r.st)) + if LastOf(r1.st).kind == M.RouteDecided then [LastOf(r1.st).nextNode] else []
    ensures Plans(Added(start, r1.st)) == Plans(Added(start, r.st)) + if LastOf(r1.st).kind == M.PlanDecided then 1 else 0
  {
    var added, added1 := Added(start, r.st), Added(start, r1.st);
    assert added1 == added + [LastOf(r1.st)];
    assert added1[..|added1| - 1] == added;
  }

  lemma HopCounts(start: M.State, r: Run, r1: Run, n: int, id: string)
    requires start.decisionLog <= r.st.decisionLog && LoggedOne(n, r, r1)
    ensures start.decisionLog <= r1.st.decisionLog
    ensures Count(RouteHops(Added(start, r1.st)), id) == Count(RouteHops(Added(start, r.st)), id)
              + if LastOf(r1.st).kind == M.RouteDecided && LastOf(r1.st).nextNode == id then 1 else 0
  {
    AddOne(start, r, r1, n);
    CountAppend(RouteHops(Added(start, r.st)), LastOf(r1.st).nextNode, id);
    assert RouteHops(Added(start, r.st)) + [] == RouteHops(Added(start, r.st));
  }

  lemma IterateCounts(cfg: Config, env: Env, n: int, start: M.State, r: Run)
    requires 1 <= n <= cfg.maxSteps && Counted(cfg, n, start, r)
    ensures var (r1, c) := Iterate(cfg, env, n, r);
      if c.Next? then Counted(cfg, n + 1, start, r1) else Ended(cfg, start, r1, c)
  {
    var (r1, c) := Iterate(cfg, env, n, r);
    IterateLogs(cfg, env, n, r);
    LoggedCounts(cfg, env, n, start, r, r1, c);
  }

  lemma LoggedCounts(cfg: Config, env: Env, n: int, start: M.State, r: Run, r1: Run, c: Control)
    requires 1 <= n <= cfg.maxSteps && Counted(cfg, n, start, r)
    requires Unlogged(r, r1, c) || LoggedStep(cfg, env, n, r, r1, c)
    ensures if c.Next? then Counted(cfg, n + 1, start, r1) else Ended(cfg, start, r1, c)
  {
    if LoggedStep(cfg, env, n, r, r1, c) {
      AddOne(start, r, r1, n);
      forall id
        ensures Count(RouteHops(Added(start, r1.st)), id) == Count(RouteHops(Added(start, r.st)), id)
                  + if LastOf(r1.st).kind == M.RouteDecided && LastOf(r1.st).nextNode == id then 1 else 0
      {
        HopCounts(start, r, r1, n, id);
      }
    }
  }

  lemma BudgetSpent(cfg: Config, n: int, start: M.State, r: Run)
    requires n > cfg.maxSteps && n >= 1 && (n == 1 || n <= cfg.maxSteps + 1) && Counted(cfg, n, start, r)
    ensures Ended(cfg, start, r, Stop(MaxSteps))
  {
  }

  lemma LoopEnds(cfg: Config, env: Env, start: M.State, r: Run)
    requires Counted(cfg, 1, start, r)
    ensures var (r1, c) := Loop(cfg, env, 1, r);
      Ended(cfg, start, r1, c)
  {
    var holds := (k: int, q: Run) => k >= 1 && (k == 1 || k <= cfg.maxSteps + 1) && Counted(cfg, k, start, q);
    var ends := (q: Run, c: Control) => Ended(cfg, start, q, c);
    forall k, q | holds(k, q) ensures Carries(cfg, env, k, q, holds, ends) {
      if k > cfg.maxSteps {
        BudgetSpent(cfg, k, start, q);
      } else {
        IterateCounts(cfg, env, k, start, q);
      }
    }
    LoopRule(cfg, env, 1, r, holds, ends);
  }

  // ----- status -----

  /** Until a snapshot is stored the status is the one the run started with; afterwards it is running. */
  ghost predicate StatusTracks(status: M.Status, snaps0: nat, r: Run) {
    && r.book.task.Some? && |r.book.task.value.snapshots| >= snaps0
    && r.st.task.status == if |r.book.task.value.snapshots| == snaps0 then status else M.Running
  }

  lemma IterateStatus(cfg: Config, env: Env, n: int, status: M.Status, snaps0: nat, r: Run)
    requires StatusTracks(status, snaps0, r)
    ensures var (r1, c) := Iterate(cfg, env, n, r);
      !c.Abort? ==> StatusTracks(status, snaps0, r1)
  {
    var (r1, c) := Iterate(cfg, env, n, r);
    IterateLogs(cfg, env, n, r);
    LoggedStatus(cfg, env, n, status, snaps0, r, r1, c);
  }

  lemma LoggedStatus(cfg: Config, env: Env, n: int, status: M.Status, snaps0: nat, r: Run, r1: Run, c: Control)
    requires StatusTracks(status, snaps0, r)
    requires Unlogged(r, r1, c) || LoggedStep(cfg, env, n, r, r1, c)
    ensures !c.Abort? ==> StatusTracks(status, snaps0, r1)
  {
  }

  lemma LoopStatus(cfg: Config, env: Env, status: M.Status, snaps0: nat, r: Run)
    requires StatusTracks(status, snaps0, r)
    ensures var (r1, c) := Loop(cfg, env, 1, r);
      !c.Abort? ==> StatusTracks(status, snaps0, r1)
  {
    var holds := (k: int, q: Run) => StatusTracks(status, snaps0, q);
    var ends := (q: Run, c: Control) => !c.Abort? ==> StatusTracks(status, snaps0, q);
    forall k, q | holds(k, q) ensures Carries(cfg, env, k, q, holds, ends) {
      IterateStatus(cfg, env, k, status, snaps0, q);
    }
    LoopRule(cfg, env, 1, r, holds, ends);
  }

  function SnapshotsIn(book: Book): nat {
    if book.task.Some? then |book.task.value.snapshots| else 0
  }

  function StepsIn(book: Book): nat {
    if book.task.Some? then |book.task.value.steps| else 0
  }

  /** The pair of reason and status a finished run reports. */
  predicate Consistent(start: M.Status, untouched: bool, summary: Summary) {
    match summary.reason
    case AiTerminate => summary.status == if start == M.TimedOut && untouched then M.TimedOut else M.Completed
    case LoopDetected => summary.status == M.Failed
    case MaxSteps => summary.status == M.Failed
    case TaskTimeout => summary.status == M.TimedOut
  }

  /** What the decisions of a finished run say about the reported reason. */
  ghost predicate Explains(cfg: Config, added: seq<M.Decision>, reason: Reason) {
    && Numbered(added)
    && match reason
       case AiTerminate => added != [] && added[|added| - 1].nextNode == C.TERMINATE
       case LoopDetected => added != [] && Count(RouteHops(added), added[|added| - 1].nextNode) == Limit(cfg) + 1 && NoTermination(added)
       case MaxSteps => |added| == (if cfg.maxSteps > 0 then cfg.maxSteps else 0) && NoTermination(added)
       case TaskTimeout => true
  }

  /** The summary tells of the final state and of the stored steps. */
  predicate Tells(summary: Summary, st: M.State, steps: seq<StepRecord>) {
    && summary.taskId == st.task.id && summary.keywords == st.input.keywords
    && summary.reasoningLog == st.decisionLog && summary.keyResults == st.nodeOutputs
    && |summary.nodeSequence| == |steps| && (forall i :: 0 <= i < |steps| ==> summary.nodeSequence[i] == steps[i].node)
    && summary.latestPlan == if "latest_plan" in st.ext then Some(st.ext["latest_plan"]) else None
  }

  ghost predicate Reports(cfg: Config, env: Env, st: M.State, book: Book, r: Run, summary: Summary) {
    && st.decisionLog <= r.st.decisionLog
    && Consistent(st.task.status, SnapshotsIn(r.book) == SnapshotsIn(book), summary)
    && Explains(cfg, Added(st, r.st), summary.reason)
    && r.st.task.status == summary.status
    && (summary.reason == TaskTimeout <==> env.expired)
    && r.book.task.Some? && r.book.task.value.header == HeaderOf(r.st) && r.book.task.value.summary == Some(summary)
    && Tells(summary, r.st, r.book.task.value.steps)
  }

  /** Every finished run reports a consistent pair, stores the status it reports, and its decisions explain the reason. */
  lemma OutcomeIsConsistent(cfg: Config, env: Env, st: M.State, book: Book)
    ensures var (r, out) := RunTask(cfg, env, st, book);
      out.Finished? ==> Reports(cfg, env, st, book, r, out.summary)
  {
    var begun := Open(env, book, st);
    if begun.Some? {
      L.OpenKeeps(env, book, st);
      var r0 := Run(st, begun.value, map[]);
      assert Added(st, st) == [];
      LoopEnds(cfg, env, st, r0);
      LoopStatus(cfg, env, st.task.status, SnapshotsIn(book), r0);
      var (r, c) := Loop(cfg, env, 1, r0);
      if c.Stop? {
        CloseIsConsistent(cfg, env, st, book, r, c.reason);
      }
    }
  }

  lemma CloseIsConsistent(cfg: Config, env: Env, st: M.State, book: Book, r: Run, reason: Reason)
    requires Ended(cfg, st, r, Stop(reason)) && StatusTracks(st.task.status, SnapshotsIn(book), r)
    ensures var (r1, out) := Close(env, r, reason);
      out.Finished? ==> Reports(cfg, env, st, book, r1, out.summary)
  {
    CloseReports(env, r, reason);
    assert Added(st, Close(env, r, reason).0.st) == Added(st, r.st);
  }

  lemma CloseReports(env: Env, r: Run, reason: Reason)
    requires r.book.task.Some?
    ensures var (r1, out) := Close(env, r, reason);
      && r1.st == r.st.(task := r.st.task.(status := FinalStatus(env, reason, r.st.task.status)))
      && (out.Finished? ==>
            && out.summary.reason == FinalReason(env, reason) && out.summary.status == r1.st.task.status
            && r1.book.task.Some? && r1.book.task.value.header == HeaderOf(r1.st) && r1.book.task.value.summary == Some(out.summary)
            && r1.book.task.value.snapshots == r.book.task.value.snapshots
            && Tells(out.summary, r1.st, r1.book.task.value.steps))
  {
  }

  // ----- hops and executions, whatever ends the run -----

  /** The node that tripped the loop detector, if one did: the last hop, chosen once more than allowed. */
  function Tripped(cfg: Config, added: seq<M.Decision>): Option<string> {
    if added == [] then None
    else
      var d := added[|added| - 1];
      if d.kind == M.RouteDecided && d.nextNode != C.TERMINATE && Count(RouteHops(added), d.nextNode) == Limit(cfg) + 1 then Some(d.nextNode)
      else None
  }

  /** Every node is chosen at most M times, and M + 1 times only if it tripped the loop detector. */
  ghost predicate HopsWithin(cfg: Config, added: seq<M.Decision>) {
    forall id :: id != C.TERMINATE ==> Count(RouteHops(added), id) <= Limit(cfg) + if Tripped(cfg, added) == Some(id) then 1 else 0
  }

  ghost predicate HopsEnded(cfg: Config, start: M.State, r: Run, c: Control) {
    && start.decisionLog <= r.st.decisionLog
    && HopsWithin(cfg, Added(start, r.st))
    && (Tripped(cfg, Added(start, r.st)).Some? <==> c == Stop(LoopDetected))
  }

  /** A tripped detector ends the run as a detected loop, unless the deadline or the store overrules it. */
  ghost predicate HopsReported(cfg: Config, added: seq<M.Decision>, out: Outcome) {
    && HopsWithin(cfg, added)
    && (out.Finished? && out.summary.reason == LoopDetected ==> Tripped(cfg, added).Some?)
    && (Tripped(cfg, added).Some? ==>
          if out.Finished? then out.summary.reason == LoopDetected || out.summary.reason == TaskTimeout else out.error == StoreError)
  }

  lemma CountedHops(cfg: Config, n: int, start: M.State, r: Run, c: Control)
    requires Counted(cfg, n, start, r) && c != Stop(LoopDetected)
    ensures HopsEnded(cfg, start, r, c)
  {
    assert forall id :: Count(RouteHops(Added(start, r.st)), id) <= Limit(cfg);
  }

  lemma LoggedHops(cfg: Config, env: Env, n: int, start: M.State, r: Run, r1: Run, c: Control)
    requires Counted(cfg, n, start, r) && LoggedStep(cfg, env, n, r, r1, c) && !c.Next?
    ensures HopsEnded(cfg, start, r1, c)
  {
    AddOne(start, r, r1, n);
    var added, added1, last := Added(start, r.st), Added(start, r1.st), LastOf(r1.st);
    assert added1[|added1| - 1] == last;
    forall id ensures Count(RouteHops(added1), id) == Visits(r.visited, id) + if last.kind == M.RouteDecided && last.nextNode == id then 1 else 0 {
      HopCounts(start, r, r1, n, id);
      assert Visits(r.visited, id) == Count(RouteHops(added), id);
    }
    assert Visits(r.visited, last.nextNode) <= Limit(cfg);
  }

  lemma IterateHops(cfg: Config, env: Env, n: int, start: M.State, r: Run, r1: Run, c: Control)
    requires Counted(cfg, n, start, r) && (r1, c) == Iterate(cfg, env, n, r) && !c.Next?
    ensures HopsEnded(cfg, start, r1, c)
  {
    IterateLogs(cfg, env, n, r);
    if LoggedStep(cfg, env, n, r, r1, c) {
      LoggedHops(cfg, env, n, start, r, r1, c);
    } else {
      UnloggedHops(cfg, n, start, r, r1, c);
    }
  }

  lemma UnloggedHops(cfg: Config, n: int, start: M.State, r: Run, r1: Run, c: Control)
    requires Counted(cfg, n, start, r) && Unlogged(r, r1, c)
    ensures HopsEnded(cfg, start, r1, c)
  {
    assert Added(start, r1.st) == Added(start, r.st);
    CountedHops(cfg, n, start, r, c);
  }

  lemma LoopHops(cfg: Config, env: Env, start: M.State, r: Run)
    requires Counted(cfg, 1, start, r)
    ensures HopsEnded(cfg, start, Loop(cfg, env, 1, r).0, Loop(cfg, env, 1, r).1)
  {
    var holds := (k: int, q: Run) => k >= 1 && Counted(cfg, k, start, q);
    var ends := (q: Run, c: Control) => HopsEnded(cfg, start, q, c);
    forall k, q | holds(k, q) ensures Carries(cfg, env, k, q, holds, ends) {
      if k > cfg.maxSteps {
        CountedHops(cfg, k, start, q, Stop(MaxSteps));
      } else {
        var (q1, c) := Iterate(cfg, env, k, q);
        IterateCounts(cfg, env, k, start, q);
        if !c.Next? {
          IterateHops(cfg, env, k, start, q, q1, c);
        }
      }
    }
    LoopRule(cfg, env, 1, r, holds, ends);
  }

  /** The node whose execution the iteration reaches, if any. */
  ghost function NodeRun(cfg: Config, env: Env, n: int, r: Run): Option<string> {
    if env.fails(At(n), CloneView) then None
    else
      match env.decide(n, RequestFor(cfg, env, n, r))
      case Err(_) => None
      case Ok(d) => NodeTaken(cfg, env, n, r, d)
  }

  function NodeTaken(cfg: Config, env: Env, n: int, r: Run, d: C.Decided): Option<string> {
    if d.kind != M.RouteDecided || d.route.None? then None
    else
      var id := d.route.value.nextNode;
      if id == C.TERMINATE || Visits(r.visited, id) + 1 > cfg.maxSameNodeVisits then None
      else
        match env.lookup(n, id)
        case Missing => None
        case Found(rules) => if Refusal(cfg, env, n, id, rules, r.st).None? then Some(id) else None
  }

  // ----- which iteration ends the loop, and how -----

  /** What the model answers, when it is asked. */
  ghost function Answer(cfg: Config, env: Env, n: int, r: Run): Option<Result<C.Decided, string>> {
    if env.fails(At(n), CloneView) then None else Some(env.decide(n, RequestFor(cfg, env, n, r)))
  }

  ghost predicate Decides(cfg: Config, env: Env, n: int, r: Run, kind: M.DecisionType) {
    var answer := Answer(cfg, env, n, r);
    answer.Some? && answer.value.Ok? && answer.value.value.kind == kind
  }

  /** The hop decided on, termination included. */
  ghost function HopDecided(cfg: Config, env: Env, n: int, r: Run): Option<string> {
    if Decides(cfg, env, n, r, M.RouteDecided) && Answer(cfg, env, n, r).value.value.route.Some? then
      Some(Answer(cfg, env, n, r).value.value.route.value.nextNode)
    else None
  }

  predicate OverLimit(cfg: Config, r: Run, id: string) {
    Visits(r.visited, id) + 1 > cfg.maxSameNodeVisits
  }

  /** The model ends the loop, or the hop it names is one too many. */
  ghost predicate StopsExactly(cfg: Config, env: Env, n: int, r: Run, c: Control) {
    var hop := HopDecided(cfg, env, n, r);
    && (c == Stop(AiTerminate) <==> hop == Some(C.TERMINATE))
    && (c == Stop(LoopDetected) <==> hop.Some? && hop.value != C.TERMINATE && OverLimit(cfg, r, hop.value))
    && c != Stop(MaxSteps) && c != Stop(TaskTimeout)
  }

  /** Errors before a node is reached. */
  ghost predicate RefusesExactly(cfg: Config, env: Env, n: int, r: Run, c: Control) {
    var answer, hop := Answer(cfg, env, n, r), HopDecided(cfg, env, n, r);
    && (c == Abort(CloneError) <==> env.fails(At(n), CloneView))
    && (c == Abort(DecideError) <==> answer.Some? && answer.value.Err?)
    && (c == Abort(MissingPlan) <==> Decides(cfg, env, n, r, M.PlanDecided) && answer.value.value.plan.None?)
    && (c == Abort(MissingRoute) <==> Decides(cfg, env, n, r, M.RouteDecided) && answer.value.value.route.None?)
    && (c == Abort(UnsupportedType) <==> answer.Some? && answer.value.Ok? && answer.value.value.kind.OtherDecision?)
    && (c == Abort(UnknownNode) <==> hop.Some? && hop.value != C.TERMINATE && !OverLimit(cfg, r, hop.value) && env.lookup(n, hop.value).Missing?)
  }

  /** Errors of a node that runs, and of recording its result. */
  ghost predicate FailsExactly(cfg: Config, env: Env, n: int, r: Run, c: Control) {
    var id := NodeRun(cfg, env, n, r);
    var patched := id.Some? && env.execute(n, id.value, r.st).NodeSucceeded? && M.Validated(r.st) && !env.fails(At(n), ClonePatched);
    && (c == Abort(NodeError) <==> id.Some? && env.execute(n, id.value, r.st).NodeFailed?)
    && (c == Abort(PatchError) <==> id.Some? && env.execute(n, id.value, r.st).NodeSucceeded? && !patched)
    && (c == Abort(StoreError) <==> patched && (env.fails(At(n), UpdateTask) || env.fails(At(n), SaveSnapshot) || env.fails(At(n), SaveStep)))
  }

  lemma PersistEnds(cfg: Config, env: Env, n: int, r: Run, route: C.RouteDecision, view: M.State, patch: M.Patch, output: JsonMap)
    requires r.book.task.Some?
    ensures var c := Persist(cfg, env, n, r, route, view, patch, output).1;
      var patched := M.Validated(r.st) && !env.fails(At(n), ClonePatched);
      && (c == Abort(PatchError) <==> !patched)
      && (c == Abort(StoreError) <==> patched && (env.fails(At(n), UpdateTask) || env.fails(At(n), SaveSnapshot) || env.fails(At(n), SaveStep)))
      && (c.Next? || c == Abort(PatchError) || c == Abort(StoreError))
  {
  }

  /** How a counted hop within its limit ends. */
  ghost predicate VisitEnds(cfg: Config, env: Env, n: int, id: string, view: M.State, c: Control) {
    var found := env.lookup(n, id);
    var runs := found.Found? && Refusal(cfg, env, n, id, found.rules, view).None?;
    var patched := runs && env.execute(n, id, view).NodeSucceeded? && M.Validated(view) && !env.fails(At(n), ClonePatched);
    if found.Missing? then c == Abort(UnknownNode)
    else if !runs then c == Next
    else if env.execute(n, id, view).NodeFailed? then c == Abort(NodeError)
    else if !patched then c == Abort(PatchError)
    else if env.fails(At(n), UpdateTask) || env.fails(At(n), SaveSnapshot) || env.fails(At(n), SaveStep) then c == Abort(StoreError)
    else c == Next
  }

  lemma VisitEndsSo(cfg: Config, env: Env, n: int, r: Run, call: C.FunctionCall, route: C.RouteDecision)
    requires r.book.task.Some?
    ensures VisitEnds(cfg, env, n, route.nextNode, r.st, Visit(cfg, env, n, L.Logged(n, r, call, route), route, r.st).1)
  {
    var logged, id := L.Logged(n, r, call, route), route.nextNode;
    var found := env.lookup(n, id);
    if found.Found? && Refusal(cfg, env, n, id, found.rules, r.st).None? && env.execute(n, id, r.st).NodeSucceeded? {
      var ran := env.execute(n, id, r.st);
      PersistEnds(cfg, env, n, logged, route, r.st, ran.patch, ran.output);
      assert Visit(cfg, env, n, logged, route, r.st) == Persist(cfg, env, n, logged, route, r.st, ran.patch, ran.output);
    }
  }

  /** The hop is counted and within its limit. */
  ghost predicate Counts(cfg: Config, env: Env, n: int, r: Run) {
    var hop := HopDecided(cfg, env, n, r);
    hop.Some? && hop.value != C.TERMINATE && !OverLimit(cfg, r, hop.value)
  }

  lemma CountedEnds(cfg: Config, env: Env, n: int, r: Run)
    requires r.book.task.Some? && Counts(cfg, env, n, r)
    ensures VisitEnds(cfg, env, n, HopDecided(cfg, env, n, r).value, r.st, Iterate(cfg, env, n, r).1)
  {
    var d := env.decide(n, RequestFor(cfg, env, n, r)).value;
    VisitEndsSo(cfg, env, n, r, d.call, d.route.value);
    assert Iterate(cfg, env, n, r) == Visit(cfg, env, n, L.Logged(n, r, d.call, d.route.value), d.route.value, r.st);
  }

  lemma CountedEndsExactly(cfg: Config, env: Env, n: int, r: Run, c: Control)
    requires Counts(cfg, env, n, r) && VisitEnds(cfg, env, n, HopDecided(cfg, env, n, r).value, r.st, c)
    ensures StopsExactly(cfg, env, n, r, c) && RefusesExactly(cfg, env, n, r, c) && FailsExactly(cfg, env, n, r, c)
  {
  }

  /** When and how an iteration ends the loop, each way exactly; in all other cases the run goes on. */
  lemma IterateEndsExactly(cfg: Config, env: Env, n: int, r: Run, c: Control)
    requires r.book.task.Some? && c == Iterate(cfg, env, n, r).1
    ensures StopsExactly(cfg, env, n, r, c) && RefusesExactly(cfg, env, n, r, c) && FailsExactly(cfg, env, n, r, c)
    ensures c == Abort(DecideError) ==> Iterate(cfg, env, n, r).0 == r.(st := r.st.(task := r.st.task.(status := M.Failed)))
  {
    if Counts(cfg, env, n, r) {
      CountedEnds(cfg, env, n, r);
      CountedEndsExactly(cfg, env, n, r, c);
    } else {
      assert NodeRun(cfg, env, n, r).None?;
    }
  }

  predicate CloseFails(env: Env) {
    env.fails(Finish, GetTask) || env.fails(Finish, SaveSummary) || env.fails(Finish, UpdateTask)
  }

  /** When a run ends in an error, and in which: it cannot be opened, its last iteration aborts, or closing it fails. */
  lemma RunErrsExactly(cfg: Config, env: Env, st: M.State, book: Book, error: Error)
    ensures RunTask(cfg, env, st, book).1 == Errored(error) <==>
      if Open(env, book, st).None? then error == StoreError
      else
        var (n, q) := Last(cfg, env, 1, Run(st, Open(env, book, st).value, map[]));
        if n <= cfg.maxSteps && Iterate(cfg, env, n, q).1.Abort? then error == Iterate(cfg, env, n, q).1.error
        else error == StoreError && CloseFails(env)
    ensures Open(env, book, st).None? <==>
      if book.task.None? then env.fails(Start, CreateTask) else env.fails(Start, GetTask) || env.fails(Start, UpdateTask)
    ensures Open(env, book, st).None? ==> RunTask(cfg, env, st, book).0.st == st && RunTask(cfg, env, st, book).0.book == book
  {
    if Open(env, book, st).Some? {
      var r0 := Run(st, Open(env, book, st).value, map[]);
      LoopEndsAtLast(cfg, env, 1, r0);
      var (r, c) := Loop(cfg, env, 1, r0);
      LoopKeepsTask(cfg, env, r0);
      if c.Stop? {
        CloseErrsExactly(env, r, c.reason);
      }
    }
  }

  lemma LoopKeepsTask(cfg: Config, env: Env, r: Run)
    requires r.book.task.Some?
    ensures Loop(cfg, env, 1, r).0.book.task.Some?
  {
    L.LoopExtends(cfg, env, r);
  }

  lemma CloseErrsExactly(env: Env, r: Run, reason: Reason)
    requires r.book.task.Some?
    ensures Close(env, r, reason).1.Errored? <==> CloseFails(env)
    ensures Close(env, r, reason).1.Errored? ==> Close(env, r, reason).1.error == StoreError
  {
  }

  /** That is where nodes are executed, and nowhere else: the iteration depends on `execute` only at that node, step and state. */
  lemma ExecutesOnlyThere(cfg: Config, env: Env, n: int, r: Run, other: (int, string, M.State) -> Execution)
    requires NodeRun(cfg, env, n, r).Some? ==>
      other(n, NodeRun(cfg, env, n, r).value, r.st) == env.execute(n, NodeRun(cfg, env, n, r).value, r.st)
    ensures Iterate(cfg, env.(execute := other), n, r) == Iterate(cfg, env, n, r)
  {
    if !env.fails(At(n), CloneView) {
      var req := RequestFor(cfg, env, n, r);
      assert RequestFor(cfg, env.(execute := other), n, r) == req;
      if env.decide(n, req).Ok? {
        TakesOnlyThere(cfg, env, n, r, env.decide(n, req).value, other);
      }
    }
  }

  lemma TakesOnlyThere(cfg: Config, env: Env, n: int, r: Run, d: C.Decided, other: (int, string, M.State) -> Execution)
    requires var id := NodeTaken(cfg, env, n, r, d);
      id.Some? ==> other(n, id.value, r.st) == env.execute(n, id.value, r.st)
    ensures Take(cfg, env.(execute := other), n, r, d) == Take(cfg, env, n, r, d)
  {
    if d.kind == M.RouteDecided && d.route.Some? {
      var route := d.route.value;
      if route.nextNode != C.TERMINATE && Visits(r.visited, route.nextNode) + 1 <= cfg.maxSameNodeVisits {
        VisitsOnlyThere(cfg, env, n, L.Logged(n, r, d.call, route), route, r.st, other);
        assert Take(cfg, env, n, r, d) == Visit(cfg, env, n, L.Logged(n, r, d.call, route), route, r.st);
      }
    }
  }

  lemma VisitsOnlyThere(cfg: Config, env: Env, n: int, r: Run, route: C.RouteDecision, view: M.State, other: (int, string, M.State) -> Execution)
    requires env.lookup(n, route.nextNode).Found? && Refusal(cfg, env, n, route.nextNode, env.lookup(n, route.nextNode).rules, view).None?
      ==> other(n, route.nextNode, view) == env.execute(n, route.nextNode, view)
    ensures Visit(cfg, env.(execute := other), n, r, route, view) == Visit(cfg, env, n, r, route, view)
  {
    var env2 := env.(execute := other);
    var ran := env.execute(n, route.nextNode, view);
    if ran.NodeSucceeded? {
      assert Persist(cfg, env2, n, r, route, view, ran.patch, ran.output) == Persist(cfg, env, n, r, route, view, ran.patch, ran.output);
    }
  }

  /** An executed node was counted by this hop, within its limit. */
  lemma RunNodeIsCounted(cfg: Config, env: Env, n: int, r: Run)
    ensures var id := NodeRun(cfg, env, n, r);
      id.Some? ==>
        && Visits(r.visited, id.value) + 1 <= cfg.maxSameNodeVisits
        && Iterate(cfg, env, n, r).0.visited == r.visited[id.value := Visits(r.visited, id.value) + 1]
  {
    IterateLogs(cfg, env, n, r);
  }

  /** How often the loop executes a node, its failing executions included. */
  ghost function Invocations(cfg: Config, env: Env, n: int, r: Run, id: string): nat
    decreases cfg.maxSteps - n
  {
    if n > cfg.maxSteps then 0
    else
      var (r1, c) := Iterate(cfg, env, n, r);
      (if NodeRun(cfg, env, n, r) == Some(id) then 1 else 0) + if c.Next? then Invocations(cfg, env, n + 1, r1, id) else 0
  }

  /** One iteration's execution is paid for by its visit. */
  lemma InvocationStep(cfg: Config, env: Env, n: int, r: Run, id: string, end: (Run, Control))
    requires Visits(r.visited, id) <= Limit(cfg) && end == Iterate(cfg, env, n, r)
    ensures var paid := Visits(r.visited, id) + if NodeRun(cfg, env, n, r) == Some(id) then 1 else 0;
      paid <= Limit(cfg) && (end.1.Next? ==> paid <= Visits(end.0.visited, id) <= Limit(cfg))
  {
    RunNodeIsCounted(cfg, env, n, r);
    IterateLogs(cfg, env, n, r);
  }

  lemma InvocationsUnfold(cfg: Config, env: Env, n: int, r: Run, id: string, end: (Run, Control))
    requires n <= cfg.maxSteps && end == Iterate(cfg, env, n, r)
    ensures Invocations(cfg, env, n, r, id)
         == (if NodeRun(cfg, env, n, r) == Some(id) then 1 else 0) + if end.1.Next? then Invocations(cfg, env, n + 1, end.0, id) else 0
  {
  }

  lemma {:induction false} InvocationsBounded(cfg: Config, env: Env, n: int, r: Run, id: string)
    requires Visits(r.visited, id) <= Limit(cfg)
    ensures Invocations(cfg, env, n, r, id) + Visits(r.visited, id) <= Limit(cfg)
    decreases cfg.maxSteps - n
  {
    if n <= cfg.maxSteps {
      var end := Iterate(cfg, env, n, r);
      InvocationStep(cfg, env, n, r, id, end);
      InvocationsUnfold(cfg, env, n, r, id, end);
      if end.1.Next? {
        InvocationsBounded(cfg, env, n + 1, end.0, id);
      }
    }
  }

  lemma CloseHops(cfg: Config, env: Env, start: M.State, r: Run, reason: Reason)
    requires r.book.task.Some? && HopsEnded(cfg, start, r, Stop(reason)) && reason != TaskTimeout
    ensures var (r1, out) := Close(env, r, reason);
      start.decisionLog <= r1.st.decisionLog && HopsReported(cfg, Added(start, r1.st), out)
  {
    CloseReports(env, r, reason);
    CloseErrs(env, r, reason);
    assert Added(start, Close(env, r, reason).0.st) == Added(start, r.st);
  }

  lemma CloseErrs(env: Env, r: Run, reason: Reason)
    ensures Close(env, r, reason).1.Errored? ==> Close(env, r, reason).1.error == StoreError
  {
  }

  /** In every run, however it ends: each node is chosen at most M times, and M + 1 times only if it tripped the loop detector; and each node is executed at most M times, failing executions included. */
  lemma HopsAreLimited(cfg: Config, env: Env, st: M.State, book: Book)
    requires Open(env, book, st).Some?
    ensures var (r, out) := RunTask(cfg, env, st, book);
      st.decisionLog <= r.st.decisionLog && HopsReported(cfg, Added(st, r.st), out)
    ensures forall id :: Invocations(cfg, env, 1, Run(st, Open(env, book, st).value, map[]), id) <= Limit(cfg)
  {
    var r0 := Run(st, Open(env, book, st).value, map[]);
    assert Added(st, st) == [];
    var (r, c) := Loop(cfg, env, 1, r0);
    LoopHops(cfg, env, st, r0);
    LoopEnds(cfg, env, st, r0);
    LoopStatus(cfg, env, st.task.status, SnapshotsIn(book), r0);
    if c.Stop? {
      CloseHops(cfg, env, st, r, c.reason);
    }
    forall id ensures Invocations(cfg, env, 1, r0, id) <= Limit(cfg) {
      InvocationsBounded(cfg, env, 1, r0, id);
    }
  }

  // ----- a fixed registry -----

  /** Only these ids can be looked up. */
  ghost predicate OnlyRegistered(env: Env, ids: set<string>) {
    forall n, id :: id !in ids ==> env.lookup(n, id).Missing?
  }

  ghost predicate Within(cfg: Config, n: int, start: M.State, steps0: nat, r: Run, ids: set<string>) {
    && Counted(cfg, n, start, r)
    && (forall h :: h in RouteHops(Added(start, r.st)) ==> h in ids)
    && |RouteHops(Added(start, r.st))| + Plans(Added(start, r.st)) == n - 1
    && r.book.task.Some? && |r.book.task.value.steps| >= steps0
    && (forall id :: Executions(r.book, steps0, id) <= Visits(r.visited, id))
  }

  /** The bounds on a run that has left its loop. */
  ghost predicate Bounded(cfg: Config, start: M.State, steps0: nat, r: Run, c: Control, ids: set<string>) {
    && start.decisionLog <= r.st.decisionLog
    && var added := Added(start, r.st);
      && |added| <= Plans(added) + |ids| * Limit(cfg) + (if c == Stop(MaxSteps) then 0 else 1)
      && r.book.task.Some? && |r.book.task.value.steps| >= steps0
      && (forall id :: Executions(r.book, steps0, id) <= Limit(cfg))
  }

  lemma ExecutionsGrow(r: Run, r1: Run, c: Control, hop: string, steps0: nat, id: string)
    requires r.book.task.Some? && Recorded(r, r1, c, hop) && steps0 <= |r.book.task.value.steps|
    ensures steps0 <= |r1.book.task.value.steps|
    ensures Executions(r1.book, steps0, id) <= Executions(r.book, steps0, id) + if id == hop then 1 else 0
  {
    var steps, steps1 := r.book.task.value.steps, r1.book.task.value.steps;
    if steps1 != steps {
      var nodes, nodes1 := NodesOf(steps[steps0..]), NodesOf(steps1[steps0..]);
      assert steps1 == steps + [steps1[|steps|]];
      assert nodes1 == nodes + [hop];
      CountAppend(nodes, hop, id);
    }
  }

  lemma IterateWithin(cfg: Config, env: Env, n: int, start: M.State, steps0: nat, r: Run, ids: set<string>)
    requires 1 <= n <= cfg.maxSteps && Within(cfg, n, start, steps0, r, ids) && OnlyRegistered(env, ids)
    ensures var (r1, c) := Iterate(cfg, env, n, r);
      if c.Next? then Within(cfg, n + 1, start, steps0, r1, ids) else Bounded(cfg, start, steps0, r1, c, ids)
  {
    var (r1, c) := Iterate(cfg, env, n, r);
    IterateLogs(cfg, env, n, r);
    IterateCounts(cfg, env, n, start, r);
    Pigeonhole(RouteHops(Added(start, r.st)), ids, Limit(cfg));
    if LoggedStep(cfg, env, n, r, r1, c) {
      LoggedWithin(cfg, env, n, start, steps0, r, r1, c, ids);
    }
  }

  lemma LoggedWithin(cfg: Config, env: Env, n: int, start: M.State, steps0: nat, r: Run, r1: Run, c: Control, ids: set<string>)
    requires 1 <= n <= cfg.maxSteps && Within(cfg, n, start, steps0, r, ids) && OnlyRegistered(env, ids)
    requires LoggedStep(cfg, env, n, r, r1, c)
    requires |RouteHops(Added(start, r.st))| <= |ids| * Limit(cfg)
    requires c.Next? ==> Counted(cfg, n + 1, start, r1)
    ensures if c.Next? then Within(cfg, n + 1, start, steps0, r1, ids) else Bounded(cfg, start, steps0, r1, c, ids)
  {
    AddOne(start, r, r1, n);
    var hop := LastOf(r1.st).nextNode;
    if Hopped(cfg, env, n, r, r1, c) {
      forall id ensures Executions(r1.book, steps0, id) <= Visits(r1.visited, id) <= Limit(cfg) {
        ExecutionsGrow(r, r1, c, hop, steps0, id);
        assert Visits(r.visited, id) <= Limit(cfg);
      }
    } else {
      forall id ensures Executions(r1.book, steps0, id) <= Visits(r.visited, id) <= Limit(cfg) {
      }
    }
  }

  lemma LoopWithin(cfg: Config, env: Env, start: M.State, steps0: nat, r: Run, ids: set<string>)
    requires Within(cfg, 1, start, steps0, r, ids) && OnlyRegistered(env, ids)
    ensures var (r1, c) := Loop(cfg, env, 1, r);
      Bounded(cfg, start, steps0, r1, c, ids)
  {
    var holds := (k: int, q: Run) => k >= 1 && Within(cfg, k, start, steps0, q, ids);
    var ends := (q: Run, c: Control) => Bounded(cfg, start, steps0, q, c, ids);
    forall k, q | holds(k, q) ensures Carries(cfg, env, k, q, holds, ends) {
      if k > cfg.maxSteps {
        Pigeonhole(RouteHops(Added(start, q.st)), ids, Limit(cfg));
      } else {
        IterateWithin(cfg, env, k, start, steps0, q, ids);
      }
    }
    LoopRule(cfg, env, 1, r, holds, ends);
  }

  ghost predicate RunBounded(cfg: Config, st: M.State, steps0: nat, r: Run, out: Outcome, ids: set<string>) {
    && st.decisionLog <= r.st.decisionLog
    && var added := Added(st, r.st);
      && |added| <= Plans(added) + |ids| * Limit(cfg) + 1
      && (out.Finished? && out.summary.reason == MaxSteps ==> cfg.maxSteps <= Plans(added) + |ids| * Limit(cfg))
      && (r.book.task.Some? ==>
            && |r.book.task.value.steps| >= steps0
            && forall id :: Executions(r.book, steps0, id) <= Limit(cfg))
  }

  lemma CloseIsBounded(cfg: Config, env: Env, start: M.State, steps0: nat, r: Run, reason: Reason, ids: set<string>)
    requires Ended(cfg, start, r, Stop(reason)) && Bounded(cfg, start, steps0, r, Stop(reason), ids)
    ensures var (r1, out) := Close(env, r, reason);
      RunBounded(cfg, start, steps0, r1, out, ids)
  {
    L.CloseKeeps(env, r, reason);
    CloseReports(env, r, reason);
    var (r1, out) := Close(env, r, reason);
    assert Added(start, r1.st) == Added(start, r.st);
    forall id ensures Executions(r1.book, steps0, id) <= Limit(cfg) {
      assert Executions(r1.book, steps0, id) == Executions(r.book, steps0, id);
    }
  }

  lemma BeginsWithin(cfg: Config, env: Env, st: M.State, book: Book, ids: set<string>)
    requires Open(env, book, st).Some?
    ensures Within(cfg, 1, st, StepsIn(book), Run(st, Open(env, book, st).value, map[]), ids)
  {
    L.OpenKeeps(env, book, st);
    assert Added(st, st) == [];
    assert Open(env, book, st).value.task.value.steps[StepsIn(book)..] == [];
  }

  /** With N registered ids, visit limit M and P plans a run logs at most P + N*M + 1 decisions, stores at most M steps of each node, and cannot exhaust a step budget above P + N*M. */
  lemma RunIsBounded(cfg: Config, env: Env, st: M.State, book: Book, ids: set<string>)
    requires OnlyRegistered(env, ids)
    ensures var (r, out) := RunTask(cfg, env, st, book);
      Open(env, book, st).Some? ==> RunBounded(cfg, st, StepsIn(book), r, out, ids) && HopsReported(cfg, Added(st, r.st), out)
  {
    var begun := Open(env, book, st);
    if begun.Some? {
      var r0 := Run(st, begun.value, map[]);
      HopsAreLimited(cfg, env, st, book);
      BeginsWithin(cfg, env, st, book, ids);
      LoopEnds(cfg, env, st, r0);
      LoopWithin(cfg, env, st, StepsIn(book), r0, ids);
      var (r, c) := Loop(cfg, env, 1, r0);
      if c.Stop? {
        CloseIsBounded(cfg, env, st, StepsIn(book), r, c.reason, ids);
      }
    }
  }
}
