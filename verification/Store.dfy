// The in-memory store: task records sharing containers with live states, snapshots owning theirs.
module Store {
  import opened Basics
  import opened StateBus
  import Ledger
  import P = Patterns

  /** The stored struct is a shallow copy; steps and summary are values; each snapshot owns its containers. */
  datatype TaskRecord = TaskRecord(
    state: StateStruct, steps: seq<Ledger.StepRecord>, summary: Option<Ledger.Summary>, snapshots: seq<Snapshot>)

  function HeaderOf(s: StateStruct): Ledger.Header {
    Ledger.Header(s.version, s.task.status, s.decisionLog)
  }

  ghost predicate Inside(s: Snapshot, frozen: set<object>)
    reads frozen
  {
    s.state.nodeOutputs as object in frozen && s.state.Repr() <= frozen
  }

  ghost predicate AllInside(snaps: seq<Snapshot>, frozen: set<object>)
    reads frozen
  {
    forall s :: s in snaps ==> Inside(s, frozen)
  }

  ghost function RecordOf(s: Snapshot, frozen: set<object>): Ledger.SnapshotRecord
    requires Inside(s, frozen)
    reads frozen
  {
    Ledger.SnapshotRecord(s.taskId, s.version, s.patch, s.state.View())
  }

  ghost function RecordsOf(snaps: seq<Snapshot>, frozen: set<object>): (r: seq<Ledger.SnapshotRecord>)
    requires AllInside(snaps, frozen)
    ensures |r| == |snaps|
    ensures forall i :: 0 <= i < |snaps| ==> r[i] == RecordOf(snaps[i], frozen)
    reads frozen
  {
    if snaps == [] then []
    else RecordsOf(snaps[..|snaps| - 1], frozen) + [RecordOf(snaps[|snaps| - 1], frozen)]
  }

  /** A record as a value. */
  ghost function ViewOf(record: TaskRecord, frozen: set<object>): Ledger.TaskRecord
    requires AllInside(record.snapshots, frozen)
    reads frozen
  {
    Ledger.TaskRecord(HeaderOf(record.state), record.steps, RecordsOf(record.snapshots, frozen), record.summary)
  }

  lemma MoreFrozen(snaps: seq<Snapshot>, frozen: set<object>, more: set<object>)
    requires AllInside(snaps, frozen) && frozen <= more
    ensures AllInside(snaps, more) && RecordsOf(snaps, more) == RecordsOf(snaps, frozen)
  {
    forall s | s in snaps ensures Inside(s, more) && RecordOf(s, more) == RecordOf(s, frozen) {
      assert Inside(s, frozen);
    }
  }

  lemma SameRecords(snaps: seq<Snapshot>, a: set<object>, b: set<object>)
    requires AllInside(snaps, a) && AllInside(snaps, b)
    ensures RecordsOf(snaps, a) == RecordsOf(snaps, b)
  {
    forall i | 0 <= i < |snaps| ensures RecordOf(snaps[i], a) == RecordOf(snaps[i], b) {
    }
  }

  lemma MoreFrozenAll(tasks: map<string, TaskRecord>, frozen: set<object>, more: set<object>)
    requires frozen <= more && forall id :: id in tasks ==> AllInside(tasks[id].snapshots, frozen)
    ensures forall id :: id in tasks ==> AllInside(tasks[id].snapshots, more)
    ensures forall id :: id in tasks ==> RecordsOf(tasks[id].snapshots, more) == RecordsOf(tasks[id].snapshots, frozen)
  {
    forall id | id in tasks
      ensures AllInside(tasks[id].snapshots, more)
      ensures RecordsOf(tasks[id].snapshots, more) == RecordsOf(tasks[id].snapshots, frozen)
    {
      MoreFrozen(tasks[id].snapshots, frozen, more);
    }
  }

  lemma AppendRecord(snaps: seq<Snapshot>, s: Snapshot, frozen: set<object>)
    requires AllInside(snaps, frozen) && Inside(s, frozen)
    ensures AllInside(snaps + [s], frozen)
    ensures RecordsOf(snaps + [s], frozen) == RecordsOf(snaps, frozen) + [RecordOf(s, frozen)]
  {
    assert (snaps + [s])[..|snaps|] == snaps;
  }

  lemma OthersStay<V>(m: map<string, V>, k: string, v: V)
    ensures m[k := v] - {k} == m - {k}
  {
  }

  class MemoryStore {
    var tasks: map<string, TaskRecord>
    var shortTerm: map<string, seq<string>>
    var patterns: seq<P.Pattern>
    /** All containers of all stored snapshots. */
    ghost var frozen: set<object>

    ghost predicate Valid()
      reads this, frozen
    {
      this !in frozen && forall id :: id in tasks ==> AllInside(tasks[id].snapshots, frozen)
    }

    ghost function TaskView(id: string): Option<Ledger.TaskRecord>
      requires Valid()
      reads this, frozen
    {
      if id in tasks then Some(ViewOf(tasks[id], frozen)) else None
    }

    /** What the store keeps about one task. */
    ghost function View(id: string): Ledger.Book
      requires Valid()
      reads this, frozen
    {
      Ledger.Book(TaskView(id), if id in shortTerm then Some(shortTerm[id]) else None, patterns)
    }

    /** The records of the other tasks read the same wherever the frozen containers have grown. */
    twostate lemma OthersKept(taskId: string)
      requires old(Valid()) && Valid() && tasks - {taskId} == old(tasks) - {taskId}
      requires unchanged(old(frozen))
      ensures forall id :: id != taskId ==> TaskView(id) == old(TaskView(id))
    {
      forall id | id != taskId ensures TaskView(id) == old(TaskView(id)) {
        assert id in tasks <==> id in tasks - {taskId};
        assert id in old(tasks) <==> id in old(tasks) - {taskId};
        if id in tasks {
          assert tasks[id] == (tasks - {taskId})[id] == old(tasks)[id];
          SameRecords(tasks[id].snapshots, old(frozen), frozen);
        }
      }
    }

    constructor ()
      ensures Valid() && frozen == {} && forall id :: View(id) == Ledger.Book(None, None, [])
    {
      tasks, shortTerm, patterns, frozen := map[], map[], [], {};
    }

    method CreateTask(st: StateStruct) returns (ok: bool)
      requires Valid()
      modifies this`tasks
      ensures Valid() && ok == (st.task.id !in old(tasks))
      ensures tasks == if ok then old(tasks)[st.task.id := TaskRecord(st, [], None, [])] else old(tasks)
      ensures tasks - {st.task.id} == old(tasks) - {st.task.id}
      ensures ok ==> TaskView(st.task.id) == Some(Ledger.TaskRecord(HeaderOf(st), [], [], None))
    {
      if st.task.id in tasks {
        return false;
      }
      OthersStay(tasks, st.task.id, TaskRecord(st, [], None, []));
      tasks := tasks[st.task.id := TaskRecord(st, [], None, [])];
      ok := true;
    }

    method UpdateTask(st: StateStruct) returns (ok: bool)
      requires Valid()
      modifies this`tasks
      ensures Valid() && ok == (st.task.id in old(tasks))
      ensures tasks == if ok then old(tasks)[st.task.id := old(tasks)[st.task.id].(state := st)] else old(tasks)
      ensures tasks - {st.task.id} == old(tasks) - {st.task.id}
      ensures ok ==> TaskView(st.task.id) == Some(old(TaskView(st.task.id)).value.(header := HeaderOf(st)))
    {
      if st.task.id !in tasks {
        return false;
      }
      OthersStay(tasks, st.task.id, tasks[st.task.id].(state := st));
      tasks := tasks[st.task.id := tasks[st.task.id].(state := st)];
      ok := true;
    }

    method SaveStep(taskId: string, step: Ledger.StepRecord) returns (ok: bool)
      requires Valid()
      modifies this`tasks
      ensures Valid() && ok == (taskId in old(tasks))
      ensures tasks == if ok then old(tasks)[taskId := old(tasks)[taskId].(steps := old(tasks)[taskId].steps + [step])] else old(tasks)
      ensures tasks - {taskId} == old(tasks) - {taskId}
      ensures ok ==> TaskView(taskId) == Some(old(TaskView(taskId)).value.(steps := old(TaskView(taskId)).value.steps + [step]))
    {
      if taskId !in tasks {
        return false;
      }
      OthersStay(tasks, taskId, tasks[taskId].(steps := tasks[taskId].steps + [step]));
      tasks := tasks[taskId := tasks[taskId].(steps := tasks[taskId].steps + [step])];
      ok := true;
    }

    ghost method Freeze(more: set<object>)
      requires Valid() && this !in more
      modifies this`frozen
      ensures Valid() && frozen == old(frozen) + more
      ensures forall id :: TaskView(id) == old(TaskView(id))
    {
      MoreFrozenAll(tasks, frozen, frozen + more);
      frozen := frozen + more;
    }

    method AppendSnapshot(snapshot: Snapshot)
      requires Valid() && snapshot.taskId in tasks && Inside(snapshot, frozen)
      modifies this`tasks
      ensures Valid()
      ensures tasks == old(tasks)[snapshot.taskId := old(tasks)[snapshot.taskId].(snapshots := old(tasks)[snapshot.taskId].snapshots + [snapshot])]
      ensures tasks - {snapshot.taskId} == old(tasks) - {snapshot.taskId}
      ensures TaskView(snapshot.taskId) == Some(old(TaskView(snapshot.taskId)).value.(
                snapshots := old(TaskView(snapshot.taskId)).value.snapshots + [old(RecordOf(snapshot, frozen))]))
    {
      var record := tasks[snapshot.taskId];
      AppendRecord(record.snapshots, snapshot, frozen);
      OthersStay(tasks, snapshot.taskId, record.(snapshots := record.snapshots + [snapshot]));
      tasks := tasks[snapshot.taskId := record.(snapshots := record.snapshots + [snapshot])];
    }

    /** The stored snapshot's containers join the frozen ones. */
    method SaveSnapshot(snapshot: Snapshot, ghost snap: Ledger.SnapshotRecord) returns (ok: bool)
      requires Valid() && this !in snapshot.state.Repr()
      requires snap == Ledger.SnapshotRecord(snapshot.taskId, snapshot.version, snapshot.patch, snapshot.state.View())
      modifies this`tasks, this`frozen
      ensures Valid() && ok == (snapshot.taskId in old(tasks))
      ensures frozen == if ok then old(frozen) + snapshot.state.Repr() else old(frozen)
      ensures tasks == if ok then old(tasks)[snapshot.taskId := old(tasks)[snapshot.taskId].(snapshots := old(tasks)[snapshot.taskId].snapshots + [snapshot])] else old(tasks)
      ensures tasks - {snapshot.taskId} == old(tasks) - {snapshot.taskId}
      ensures TaskView(snapshot.taskId) == if ok then Some(WithOne(old(TaskView(snapshot.taskId)).value, snap)) else None
    {
      if snapshot.taskId !in tasks {
        return false;
      }
      Freeze(snapshot.state.Repr());
      AppendSnapshot(snapshot);
      ok := true;
    }

    ghost function WithOne(task: Ledger.TaskRecord, snap: Ledger.SnapshotRecord): Ledger.TaskRecord {
      task.(snapshots := task.snapshots + [snap])
    }

    method SaveSummary(taskId: string, summary: Ledger.Summary) returns (ok: bool)
      requires Valid()
      modifies this`tasks
      ensures Valid() && ok == (taskId in old(tasks))
      ensures tasks == if ok then old(tasks)[taskId := old(tasks)[taskId].(summary := Some(summary))] else old(tasks)
      ensures tasks - {taskId} == old(tasks) - {taskId}
      ensures ok ==> TaskView(taskId) == Some(old(TaskView(taskId)).value.(summary := Some(summary)))
    {
      if taskId !in tasks {
        return false;
      }
      OthersStay(tasks, taskId, tasks[taskId].(summary := Some(summary)));
      tasks := tasks[taskId := tasks[taskId].(summary := Some(summary))];
      ok := true;
    }

    /** The record behind the task's view; an unknown task has none. */
    method GetTask(taskId: string) returns (record: Option<TaskRecord>)
      requires Valid()
      ensures record.Some? <==> TaskView(taskId).Some?
      ensures record.Some? ==> AllInside(record.value.snapshots, frozen) && ViewOf(record.value, frozen) == TaskView(taskId).value
    {
      if taskId !in tasks {
        return None;
      }
      record := Some(tasks[taskId]);
    }

    /** The last appended snapshot. */
    method GetLatestSnapshot(taskId: string) returns (latest: Option<Snapshot>)
      requires Valid()
      ensures latest.Some? <==> TaskView(taskId).Some? && TaskView(taskId).value.snapshots != []
      ensures latest.Some? ==> Inside(latest.value, frozen)
      ensures latest.Some? ==>
        var snaps := TaskView(taskId).value.snapshots; RecordOf(latest.value, frozen) == snaps[|snaps| - 1]
    {
      if taskId !in tasks || |tasks[taskId].snapshots| == 0 {
        return None;
      }
      var snaps := tasks[taskId].snapshots;
      assert snaps[|snaps| - 1] in snaps;
      latest := Some(snaps[|snaps| - 1]);
    }

    method PutShortTerm(taskId: string, nodes: seq<string>)
      requires Valid()
      modifies this`shortTerm
      ensures Valid() && shortTerm == old(shortTerm)[taskId := nodes]
    {
      shortTerm := shortTerm[taskId := nodes];
    }

    method UpsertPattern(pattern: P.Pattern)
      requires Valid()
      modifies this`patterns
      ensures Valid() && patterns == P.Upsert(old(patterns), pattern)
    {
      for idx := 0 to |patterns|
        invariant patterns == old(patterns)
        invariant forall k :: 0 <= k < idx ==> !P.Same(patterns[k], pattern)
      {
        var same := SamePattern(patterns[idx], pattern);
        if same {
          UpsertAtFirst(patterns, pattern, idx);
          patterns := patterns[idx := patterns[idx].(hits := patterns[idx].hits + pattern.hits)];
          return;
        }
      }
      UpsertAtFirst(patterns, pattern, |patterns|);
      patterns := patterns + [pattern];
    }

    /** Every pattern without keywords, else those sharing a keyword, in an order only fixed up to equal hit counts. */
    method RecallPatterns(keywords: seq<string>) returns (out: seq<P.Pattern>)
      requires Valid()
      ensures forall p :: multiset(out)[p] == if Ledger.Wanted(p, keywords) then multiset(patterns)[p] else 0
      ensures multiset(out) == multiset(Ledger.Recalled(patterns, keywords))
      ensures keywords != [] ==> Descending(out)
    {
      Ledger.RecallCounts(patterns, keywords);
      if |keywords| == 0 {
        return patterns;
      }
      var matching := [];
      for i := 0 to |patterns|
        invariant matching == Ledger.Sharing(patterns[..i], keywords)
      {
        assert patterns[..i + 1][..i] == patterns[..i];
        var shares := Overlaps(patterns[i].keywords, keywords);
        if shares {
          matching := matching + [patterns[i]];
        }
      }
      assert patterns[..|patterns|] == patterns;
      out := SortByHits(matching);
    }
  }

  /** Where the first same pattern is, or the length when there is none. */
  predicate FirstSame(patterns: seq<P.Pattern>, p: P.Pattern, at: nat) {
    && at <= |patterns| && (forall k :: 0 <= k < at ==> !P.Same(patterns[k], p))
    && (at < |patterns| ==> P.Same(patterns[at], p))
  }

  function UpsertedAt(patterns: seq<P.Pattern>, p: P.Pattern, at: nat): seq<P.Pattern>
    requires at <= |patterns|
  {
    if at < |patterns| then patterns[at := patterns[at].(hits := patterns[at].hits + p.hits)] else patterns + [p]
  }

  lemma FirstSameInRest(patterns: seq<P.Pattern>, p: P.Pattern, at: nat)
    requires FirstSame(patterns, p, at) && at > 0
    ensures !P.Same(patterns[0], p) && FirstSame(patterns[1..], p, at - 1)
  {
    forall k | 0 <= k < at - 1 ensures !P.Same(patterns[1..][k], p) {
      assert patterns[1..][k] == patterns[k + 1];
    }
  }

  lemma UpsertedInRest(patterns: seq<P.Pattern>, p: P.Pattern, at: nat)
    requires 0 < at <= |patterns|
    ensures UpsertedAt(patterns, p, at) == [patterns[0]] + UpsertedAt(patterns[1..], p, at - 1)
  {
  }

  lemma {:induction false} UpsertAtFirst(patterns: seq<P.Pattern>, p: P.Pattern, at: nat)
    requires FirstSame(patterns, p, at)
    ensures P.Upsert(patterns, p) == UpsertedAt(patterns, p, at)
  {
    if at > 0 {
      FirstSameInRest(patterns, p, at);
      UpsertAtFirst(patterns[1..], p, at - 1);
      UpsertedInRest(patterns, p, at);
    }
  }

  method Overlaps(left: seq<string>, right: seq<string>) returns (r: bool)
    ensures r <==> exists k :: k in left && k in right
  {
    var items := {};
    for i := 0 to |left|
      invariant forall k :: k in items <==> k in left[..i]
    {
      items := items + {left[i]};
    }
    assert left[..|left|] == left;
    for i := 0 to |right|
      invariant forall k :: 0 <= k < i ==> right[k] !in left
    {
      if right[i] in items {
        return true;
      }
    }
    return false;
  }

  method SamePattern(left: P.Pattern, right: P.Pattern) returns (r: bool)
    ensures r <==> left.nodes == right.nodes && exists k :: k in left.keywords && k in right.keywords
  {
    if |left.nodes| != |right.nodes| {
      return false;
    }
    for i := 0 to |left.nodes|
      invariant left.nodes[..i] == right.nodes[..i]
    {
      if left.nodes[i] != right.nodes[i] {
        return false;
      }
    }
    assert left.nodes == left.nodes[..|left.nodes|] == right.nodes;
    r := Overlaps(left.keywords, right.keywords);
  }

  predicate Descending(items: seq<P.Pattern>) {
    forall i, j :: 0 <= i < j < |items| ==> items[i].hits >= items[j].hits
  }

  method InsertByHits(items: seq<P.Pattern>, p: P.Pattern) returns (out: seq<P.Pattern>)
    requires Descending(items)
    ensures Descending(out) && multiset(out) == multiset(items) + multiset{p}
  {
    var at := 0;
    while at < |items| && items[at].hits >= p.hits
      invariant 0 <= at <= |items|
      invariant forall k :: 0 <= k < at ==> items[k].hits >= p.hits
    {
      at := at + 1;
    }
    assert items == items[..at] + items[at..];
    out := items[..at] + [p] + items[at..];
  }

  /** `sort.Slice` by descending hit count: some descending permutation. */
  method SortByHits(items: seq<P.Pattern>) returns (out: seq<P.Pattern>)
    ensures multiset(out) == multiset(items) && Descending(out)
  {
    out := [];
    for n := 0 to |items|
      invariant multiset(out) == multiset(items[..n]) && Descending(out)
    {
      assert items[..n + 1] == items[..n] + [items[n]];
      out := InsertByHits(out, items[n]);
    }
    assert items[..|items|] == items;
  }
}
