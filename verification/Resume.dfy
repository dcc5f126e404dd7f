// First runs and resumes on the heap, and the isolation of states, views and snapshots.
module Resume {
  import opened Basics
  import opened EngineSpec
  import opened StateBus
  import Ledger
  import Engine
  import L = Lineage
  import M = StateModel
  import Recovery
  import S = Store

  /** Engine, rules and store belong together. */
  ghost predicate Ready(e: Engine.Engine)
    reads e.store, e.store.frozen, e.rules
  {
    e.store.Valid() && e.rules.Valid() && e.rules.cel == e.cfg.cel && e.rules !in e.store.frozen && e.store as object != e.rules
  }

  /** The first run of a new task. */
  method StartTask(e: Engine.Engine, env: Env, taskId: string, traceId: string, input: M.UserInput, labels: map<string, string>)
    returns (out: Option<Outcome>)
    requires Ready(e) && e.store.View(taskId) == L.NO_BOOK.(patterns := e.store.patterns)
    modifies e.store, e.rules
    ensures Ready(e)
    ensures out.None? <==> taskId == "" || traceId == ""
    ensures out.Some? ==>
      e.store.View(taskId) == L.Chain(M.NewState(taskId, traceId, input, labels), [L.Launch(e.cfg, env, old(e.store.patterns))])
    ensures forall id :: id != taskId ==> e.store.TaskView(id) == old(e.store.TaskView(id))
  {
    var st, failed := MasterState.New(taskId, traceId, input, labels);
    if failed {
      return None;
    }
    assert e.Linked(st) && e.Ruled(st) && e.Book(st) == old(e.store.View(taskId));
    var result, visited := e.RunTask(env, st);
    out := Some(result);
  }

  /** `LatestSnapshot`: a deep copy of the last stored snapshot's state. */
  method LatestSnapshot(store: S.MemoryStore, taskId: string) returns (st: Option<StateStruct>)
    requires store.Valid()
    ensures st.Some? <==> store.TaskView(taskId).Some? && store.TaskView(taskId).value.snapshots != []
    ensures st.Some? ==> st.value.Apart() && fresh(st.value.Repr())
    ensures st.Some? ==> var snaps := store.TaskView(taskId).value.snapshots; st.value.View() == snaps[|snaps| - 1].state
  {
    var latest := store.GetLatestSnapshot(taskId);
    if latest.None? {
      return None;
    }
    var clone := latest.value.state.Clone();
    st := Some(clone);
  }

  /** The state a resume runs again. */
  ghost function Again(book: Ledger.Book): M.State
    requires book.task.Some? && book.task.value.snapshots != []
  {
    var last := book.task.value.snapshots[|book.task.value.snapshots| - 1].state;
    last.(task := last.task.(status := M.Running))
  }

  /** A resume answers nothing exactly without a snapshot; otherwise it is a run from the latest one, does to the store what the chain of launches says, keeps the history replayable, and leaves all other tasks alone. */
  method ResumeTask(e: Engine.Engine, env: Env, taskId: string) returns (out: Option<Outcome>)
    requires Ready(e) && L.Kept(e.store.View(taskId), e.cfg.sensitive, taskId, false)
    modifies e.store, e.rules
    ensures Ready(e)
    ensures var book := old(e.store.View(taskId));
      if book.task.None? || book.task.value.snapshots == [] then out == None && e.store.View(taskId) == book
      else out == Some(RunTask(e.cfg, env, Again(book), book).1)
    ensures e.store.View(taskId) == L.Resumed(L.Launch(e.cfg, env, old(e.store.patterns)), old(e.store.View(taskId)))
    ensures L.Kept(e.store.View(taskId), e.cfg.sensitive, taskId, false)
    ensures L.Extends(old(e.store.View(taskId)), e.store.View(taskId))
    ensures forall id :: id != taskId ==> e.store.TaskView(id) == old(e.store.TaskView(id))
  {
    ghost var book := e.store.View(taskId);
    L.ResumeKeeps(L.Launch(e.cfg, env, e.store.patterns), book, taskId, false);
    var latest := LatestSnapshot(e.store, taskId);
    if latest.None? {
      return None;
    }
    ghost var snaps := book.task.value.snapshots;
    ghost var again := snaps[|snaps| - 1].state;
    assert latest.value.Repr() !! e.store.frozen;
    out := RunAgain(e, env, taskId, latest.value, book, again);
  }

  /** The clone as a live state, running. */
  method Revive(e: Engine.Engine, taskId: string, clone: StateStruct, ghost book: Ledger.Book, ghost again: M.State) returns (st: MasterState)
    requires Ready(e) && book == e.store.View(taskId)
    requires clone.Apart() && clone.Repr() !! e.store.frozen && e.store !in clone.Repr() && e.rules !in clone.Repr()
    requires clone.View() == again && again.task.id == taskId
    ensures e.Linked(st) && e.Ruled(st) && fresh(st) && st.repr == {st} + clone.Repr()
    ensures st.View() == again.(task := again.task.(status := M.Running)) && st.task.id == taskId && e.Book(st) == book
  {
    st := new MasterState.FromStruct(clone);
    st.SetStatus(M.Running);
  }

  method RunAgain(e: Engine.Engine, env: Env, taskId: string, clone: StateStruct, ghost book: Ledger.Book, ghost again: M.State) returns (out: Option<Outcome>)
    requires Ready(e) && book == e.store.View(taskId)
    requires clone.Apart() && clone.Repr() !! e.store.frozen && e.store !in clone.Repr() && e.rules !in clone.Repr()
    requires clone.View() == again && again.task.id == taskId
    modifies e.store, e.rules, clone.Repr()
    ensures Ready(e)
    ensures var end := RunTask(e.cfg, env, again.(task := again.task.(status := M.Running)), book);
      e.store.View(taskId) == end.0.book && out == Some(end.1)
    ensures L.Extends(book, e.store.View(taskId))
    ensures forall id :: id != taskId ==> e.store.TaskView(id) == old(e.store.TaskView(id))
  {
    var st := Revive(e, taskId, clone, book, again);
    L.RunExtends(e.cfg, env, again.(task := again.task.(status := M.Running)), book);
    var result, visited := e.RunTask(env, st);
    out := Some(result);
  }

  // ----- isolation -----

  /** A node that overwrites every container it can reach through a view. */
  method Scribble(view: StateStruct, wm: JsonMap, node: string, outputs: JsonMap, secrets: map<string, string>, extra: JsonMap)
    requires view.Apart()
    modifies view.Repr()
    ensures view.workingMemory.m == wm && view.sensitive.m == secrets && view.ext.m == extra
    ensures node in view.nodeOutputs.m ==> view.nodeOutputs.m[node].m == outputs
    ensures view.nodeOutputs.m.Keys <= {node} && view.Repr() <= old(view.Repr())
  {
    if node in view.nodeOutputs.m {
      view.nodeOutputs.m[node].m := outputs;
    }
    view.nodeOutputs.m := map k | k in view.nodeOutputs.m && k == node :: view.nodeOutputs.m[k];
    view.workingMemory.m := wm;
    view.sensitive.m := secrets;
    view.ext.m := extra;
  }

  /** Whatever a node writes into its read-only view, the master state does not change. */
  method WriteThroughView(st: MasterState, wm: JsonMap, node: string, outputs: JsonMap, secrets: map<string, string>, extra: JsonMap)
    returns (view: StateStruct)
    requires st.Valid()
    ensures st.Valid() && st.View() == old(st.View())
    ensures fresh(view.Repr()) && view.workingMemory.m == wm && view.sensitive.m == secrets && view.ext.m == extra
  {
    view := st.ReadOnly();
    Scribble(view, wm, node, outputs, secrets, extra);
  }

  /** The stored task is a shallow copy: a later write to the live state shows in it without any store call, while stored snapshots stay. */
  method WriteAfterUpdate(store: S.MemoryStore, st: MasterState, key: string, value: Json)
    requires store.Valid() && st.Valid() && store !in st.repr && st.repr !! store.frozen && st.task.id in store.tasks
    modifies store`tasks, st.ext
    ensures store.Valid() && st.task.id in store.tasks && store.tasks[st.task.id].state.ext.m == old(st.ext.m)[key := value]
    ensures store.TaskView(st.task.id).value.snapshots == old(store.TaskView(st.task.id)).value.snapshots
  {
    var ok := store.UpdateTask(st.Struct());
    st.SetExt(key, value);
  }

  /** While the stored task shares the live containers, its contents are the live ones, whatever its header says. */
  lemma StoredContents(e: Engine.Engine, st: MasterState)
    requires e.Linked(st) && e.Shares(st)
    ensures var stored := e.store.tasks[st.task.id].state;
      L.Contents(stored.workingMemory.m, Rows(stored.nodeOutputs), stored.sensitive.m) == L.ContentsOf(st.View())
  {
  }

  /** A run and the contents its task is stored with: the fold of the stored snapshots' patches and of the one left pending, if any. */
  method RunAndInspect(e: Engine.Engine, env: Env, st: MasterState, ghost book: Ledger.Book)
    requires e.Linked(st) && e.Ruled(st) && book == e.Book(st) && Open(env, book, st.View()).Some?
    requires L.ContentsOf(st.View()) == L.Replay(if book.task.Some? then book.task.value.snapshots else [], e.cfg.sensitive)
    modifies st.repr, e.store, e.rules
    ensures e.Linked(st) && e.Shares(st) && e.Book(st).task.Some?
    ensures var stored := e.store.tasks[st.task.id].state;
      var pending := Recovery.LeftOver(e.cfg, env, Run(old(st.View()), Open(env, book, old(st.View())).value, map[]));
      L.Contents(stored.workingMemory.m, Rows(stored.nodeOutputs), stored.sensitive.m)
      == Recovery.WithPatch(L.Replay(e.Book(st).task.value.snapshots, e.cfg.sensitive), pending, e.cfg.sensitive)
  {
    Recovery.ContentsAhead(e.cfg, env, st.View(), book);
    var out, visited := e.RunTask(env, st);
    StoredContents(e, st);
  }
}
