// Snapshots in a table keyed by task and version, compared with the append log of the memory store.
module KeyedSnapshots {
  import opened Basics
  import opened EngineSpec
  import opened Ledger
  import opened Lineage
  import M = StateModel

  type Key = (string, int)

  type Rows = map<Key, SnapshotRecord>

  function KeyOf(s: SnapshotRecord): Key {
    (s.taskId, s.version)
  }

  predicate Keyed(rows: Rows) {
    forall k :: k in rows ==> KeyOf(rows[k]) == k
  }

  /** The table after upserting a log, oldest first. */
  function Upserted(log: seq<SnapshotRecord>): Rows {
    if log == [] then map[]
    else
      var s := log[|log| - 1];
      Upserted(log[..|log| - 1])[KeyOf(s) := s]
  }

  /** The row of a task with the greatest version. */
  predicate IsLatest(rows: Rows, id: string, s: SnapshotRecord) {
    s.taskId == id && KeyOf(s) in rows && rows[KeyOf(s)] == s && forall k :: k in rows && k.0 == id ==> k.1 <= s.version
  }

  class SnapshotTable {
    var rows: Rows
    ghost var saved: seq<SnapshotRecord>

    ghost predicate Valid()
      reads this
    {
      rows == Upserted(saved)
    }

    constructor ()
      ensures Valid() && saved == []
    {
      rows, saved := map[], [];
    }

    /** Insert, or overwrite the row with the same task and version. */
    method SaveSnapshot(s: SnapshotRecord)
      requires Valid()
      modifies this
      ensures Valid() && saved == old(saved) + [s]
    {
      rows := rows[KeyOf(s) := s];
      saved := saved + [s];
      assert saved[..|saved| - 1] == old(saved);
    }

    /** The first row by descending version, if the task has any. */
    method GetLatestSnapshot(id: string) returns (r: Option<SnapshotRecord>)
      requires Valid()
      ensures r.None? <==> forall s :: s in saved ==> s.taskId != id
      ensures r.Some? ==> IsLatest(Upserted(saved), id, r.value)
    {
      UpsertedRows(saved);
      r := None;
      var left := rows.Keys;
      while left != {}
        invariant left <= rows.Keys
        invariant r.None? ==> forall k :: k in rows && k !in left ==> k.0 != id
        invariant r.Some? ==>
          && r.value.taskId == id && KeyOf(r.value) in rows && rows[KeyOf(r.value)] == r.value
          && forall k :: k in rows && k !in left && k.0 == id ==> k.1 <= r.value.version
        decreases |left|
      {
        var k :| k in left;
        left := left - {k};
        if k.0 == id && (r.None? || k.1 > r.value.version) {
          r := Some(rows[k]);
        }
      }
      TaskHasRow(saved, id);
    }
  }

  /** No two snapshots of a log have the same task and version. */
  predicate DistinctKeys(log: seq<SnapshotRecord>) {
    forall i, j :: 0 <= i < j < |log| ==> KeyOf(log[i]) != KeyOf(log[j])
  }

  predicate HasKey(log: seq<SnapshotRecord>, k: Key) {
    exists i :: 0 <= i < |log| && KeyOf(log[i]) == k
  }

  lemma HasKeyLast(log: seq<SnapshotRecord>, k: Key)
    requires log != []
    ensures HasKey(log, k) <==> HasKey(log[..|log| - 1], k) || KeyOf(log[|log| - 1]) == k
  {
    var front := log[..|log| - 1];
    if HasKey(front, k) {
      var i :| 0 <= i < |front| && KeyOf(front[i]) == k;
      assert KeyOf(log[i]) == k;
    }
    if HasKey(log, k) {
      var i :| 0 <= i < |log| && KeyOf(log[i]) == k;
      assert i < |front| ==> KeyOf(front[i]) == k;
    }
  }

  lemma UpsertSize(rows: Rows, s: SnapshotRecord)
    ensures |rows[KeyOf(s) := s]| == |rows| + if KeyOf(s) in rows then 0 else 1
  {
    var more := rows[KeyOf(s) := s];
    assert more.Keys == rows.Keys + {KeyOf(s)};
    assert |more.Keys| == |rows.Keys| + if KeyOf(s) in rows then 0 else 1;
  }

  lemma {:induction false} UpsertedRows(log: seq<SnapshotRecord>)
    ensures Keyed(Upserted(log)) && |Upserted(log)| <= |log|
    ensures forall k :: k in Upserted(log) <==> HasKey(log, k)
  {
    if log != [] {
      UpsertedRows(log[..|log| - 1]);
      UpsertSize(Upserted(log[..|log| - 1]), log[|log| - 1]);
      forall k ensures k in Upserted(log) <==> HasKey(log, k) {
        HasKeyLast(log, k);
      }
    }
  }

  lemma TaskHasRow(log: seq<SnapshotRecord>, id: string)
    ensures (exists k :: k in Upserted(log) && k.0 == id) <==> exists s :: s in log && s.taskId == id
  {
    UpsertedRows(log);
    if k :| k in Upserted(log) && k.0 == id {
      assert HasKey(log, k);
    }
    if s :| s in log && s.taskId == id {
      assert HasKey(log, KeyOf(s)) && KeyOf(s).0 == id;
    }
  }

  predicate AllKept(log: seq<SnapshotRecord>) {
    forall i :: 0 <= i < |log| ==> KeyOf(log[i]) in Upserted(log) && Upserted(log)[KeyOf(log[i])] == log[i]
  }

  /** Upserting loses nothing exactly when no key repeats. */
  lemma {:induction false} NothingOverwritten(log: seq<SnapshotRecord>)
    ensures |Upserted(log)| == |log| <==> DistinctKeys(log)
    ensures DistinctKeys(log) ==> AllKept(log)
  {
    if log != [] {
      var front, s := log[..|log| - 1], log[|log| - 1];
      NothingOverwritten(front);
      UpsertedRows(front);
      UpsertSize(Upserted(front), s);
      DistinctLast(log);
      if DistinctKeys(log) {
        StillKept(log);
      }
    }
  }

  lemma DistinctLast(log: seq<SnapshotRecord>)
    requires log != []
    ensures DistinctKeys(log) <==> DistinctKeys(log[..|log| - 1]) && !HasKey(log[..|log| - 1], KeyOf(log[|log| - 1]))
  {
    var front := log[..|log| - 1];
    assert forall i :: 0 <= i < |front| ==> front[i] == log[i];
    if HasKey(front, KeyOf(log[|log| - 1])) {
      var i :| 0 <= i < |front| && KeyOf(front[i]) == KeyOf(log[|log| - 1]);
      assert KeyOf(log[i]) == KeyOf(log[|log| - 1]);
    }
  }

  lemma StillKept(log: seq<SnapshotRecord>)
    requires log != [] && DistinctKeys(log) && AllKept(log[..|log| - 1])
    ensures AllKept(log)
  {
    var front := log[..|log| - 1];
    forall i | 0 <= i < |front| ensures KeyOf(log[i]) in Upserted(log) && Upserted(log)[KeyOf(log[i])] == log[i] {
      assert front[i] == log[i];
    }
  }

  // ----- several tasks in one table -----

  function OfTask(log: seq<SnapshotRecord>, id: string): seq<SnapshotRecord> {
    if log == [] then []
    else OfTask(log[..|log| - 1], id) + if log[|log| - 1].taskId == id then [log[|log| - 1]] else []
  }

  /** The rows of one task are those its own snapshots make, whatever other tasks save in between. */
  lemma {:induction false} TasksApart(log: seq<SnapshotRecord>, id: string)
    ensures forall v: int ::
      && ((id, v) in Upserted(log) <==> (id, v) in Upserted(OfTask(log, id)))
      && ((id, v) in Upserted(log) ==> Upserted(log)[(id, v)] == Upserted(OfTask(log, id))[(id, v)])
  {
    if log != [] {
      var front, s := log[..|log| - 1], log[|log| - 1];
      TasksApart(front, id);
      if s.taskId == id {
        assert OfTask(log, id)[..|OfTask(log, id)| - 1] == OfTask(front, id);
      } else {
        assert OfTask(log, id) == OfTask(front, id);
      }
    }
  }

  lemma LatestOfTask(log: seq<SnapshotRecord>, id: string, s: SnapshotRecord)
    ensures IsLatest(Upserted(log), id, s) <==> IsLatest(Upserted(OfTask(log, id)), id, s)
  {
    TasksApart(log, id);
    UpsertedRows(OfTask(log, id));
    assert s.taskId == id ==> KeyOf(s) == (id, s.version);
    if IsLatest(Upserted(log), id, s) {
      forall k | k in Upserted(OfTask(log, id)) && k.0 == id ensures k.1 <= s.version {
        assert k == (id, k.1);
      }
    }
    if IsLatest(Upserted(OfTask(log, id)), id, s) {
      forall k | k in Upserted(log) && k.0 == id ensures k.1 <= s.version {
        assert k == (id, k.1);
      }
    }
  }

  lemma LatestIsUnique(rows: Rows, id: string, s: SnapshotRecord, t: SnapshotRecord)
    requires IsLatest(rows, id, s) && IsLatest(rows, id, t)
    ensures s == t
  {
    assert s.version <= t.version <= s.version;
  }

  /** On a stored history the two stores agree: no row is overwritten and the greatest version is the last one appended. */
  lemma StoresAgree(snaps: seq<SnapshotRecord>, allow: seq<string>, id: string)
    requires Sourced(snaps, allow, id)
    ensures |Upserted(snaps)| == |snaps|
    ensures forall s :: IsLatest(Upserted(snaps), id, s) <==> snaps != [] && s == snaps[|snaps| - 1]
  {
    NothingOverwritten(snaps);
    UpsertedRows(snaps);
    if snaps != [] {
      var last := snaps[|snaps| - 1];
      assert KeyOf(last) == (id, |snaps| + 1);
      forall k | k in Upserted(snaps) && k.0 == id ensures k.1 <= last.version {
        assert HasKey(snaps, k);
      }
      assert IsLatest(Upserted(snaps), id, last);
      forall s | IsLatest(Upserted(snaps), id, s) ensures s == last {
        LatestIsUnique(Upserted(snaps), id, s, last);
      }
    }
  }

  // ----- resuming from the table -----

  /** Resume as over the keyed table: the row of the task with the greatest version. */
  ghost function KeyedResumed(launch: Launch, book: Book, id: string): Book {
    if book.task.None? || !exists s :: IsLatest(Upserted(book.task.value.snapshots), id, s) then book
    else
      var latest :| IsLatest(Upserted(book.task.value.snapshots), id, latest);
      RunTask(launch.cfg, launch.env, latest.state.(task := latest.state.task.(status := M.Running)), book.(patterns := launch.patterns)).0.book
  }

  ghost function KeyedChain(st: M.State, launches: seq<Launch>): Book
    requires launches != []
  {
    var last := launches[|launches| - 1];
    if |launches| == 1 then RunTask(last.cfg, last.env, st, NO_BOOK.(patterns := last.patterns)).0.book
    else KeyedResumed(last, KeyedChain(st, launches[..|launches| - 1]), st.task.id)
  }

  /** Over any run and any number of resumes, with any failures, both ways to resume give the same history. */
  lemma {:induction false} ChainsAgree(st: M.State, launches: seq<Launch>, allow: seq<string>)
    requires launches != [] && Continues(st, [], allow, st.task.id)
    requires forall l :: l in launches ==> l.cfg.sensitive == allow
    ensures KeyedChain(st, launches) == Chain(st, launches)
  {
    if |launches| > 1 {
      var front := launches[..|launches| - 1];
      ChainsAgree(st, front, allow);
      ChainKeeps(st, front, allow, false);
      var book := Chain(st, front);
      if book.task.Some? {
        ResumesAgree(launches[|launches| - 1], book, allow, st.task.id);
      }
    }
  }

  lemma ResumesAgree(launch: Launch, book: Book, allow: seq<string>, id: string)
    requires book.task.Some? && Sourced(book.task.value.snapshots, allow, id)
    ensures KeyedResumed(launch, book, id) == Resumed(launch, book)
  {
    var snaps := book.task.value.snapshots;
    StoresAgree(snaps, allow, id);
    if snaps != [] {
      assert IsLatest(Upserted(snaps), id, snaps[|snaps| - 1]);
    }
  }
}
