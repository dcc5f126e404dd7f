// The task state on the heap: Go maps are shared containers, and a struct copy shares them.
module StateBus {
  import opened Basics
  import M = StateModel

  /** A Go map: a container that several structs may hold. */
  class Dict<V> {
    var m: map<string, V>

    constructor (m: map<string, V>)
      ensures this.m == m
    {
      this.m := m;
    }
  }

  type OutputDict = Dict<Dict<Json>>

  /** The containers of the node outputs, one per node plus the outer one. */
  ghost function RowObjects(d: OutputDict): set<object>
    reads d
  {
    set node | node in d.m :: d.m[node] as object
  }

  /** No two nodes share a row. */
  ghost predicate RowsApart(d: OutputDict)
    reads d
  {
    forall a, b :: a in d.m && b in d.m && d.m[a] == d.m[b] ==> a == b
  }

  function Rows(d: OutputDict): M.Outputs
    reads d, RowObjects(d)
  {
    map node | node in d.m :: d.m[node].m
  }

  /** Go's `State` struct: copying it copies the references to its maps. */
  datatype StateStruct = StateStruct(
    version: int, task: M.TaskMeta, input: M.UserInput,
    workingMemory: Dict<Json>, nodeOutputs: OutputDict, decisionLog: seq<M.Decision>,
    traceId: string, sensitive: Dict<string>, ext: Dict<Json>)
  {
    /** Every container the struct can reach. */
    ghost function Repr(): set<object>
      reads nodeOutputs
    {
      {workingMemory, nodeOutputs, sensitive, ext} + RowObjects(nodeOutputs)
    }

    /** The containers are pairwise different. */
    ghost predicate Apart()
      reads nodeOutputs
    {
      && workingMemory as object !in {nodeOutputs as object, sensitive, ext} + RowObjects(nodeOutputs)
      && nodeOutputs as object !in {sensitive as object, ext} + RowObjects(nodeOutputs)
      && sensitive as object !in {ext as object} + RowObjects(nodeOutputs)
      && ext as object !in RowObjects(nodeOutputs)
      && RowsApart(nodeOutputs)
    }

    /** Both structs hold the same containers. */
    ghost predicate Shares(other: StateStruct) {
      && workingMemory == other.workingMemory && nodeOutputs == other.nodeOutputs
      && sensitive == other.sensitive && ext == other.ext
    }

    function View(): M.State
      reads Repr()
    {
      M.State(version, task, input, workingMemory.m, Rows(nodeOutputs), decisionLog, traceId, sensitive.m, ext.m)
    }

    /** A deep copy in fresh containers. */
    method Clone() returns (c: StateStruct)
      ensures c.View() == View() && c.Apart() && fresh(c.Repr())
    {
      var wm := new Dict(workingMemory.m);
      var sens := new Dict(sensitive.m);
      var e := new Dict(ext.m);
      var outputs := CloneRows(nodeOutputs);
      c := this.(workingMemory := wm, nodeOutputs := outputs, sensitive := sens, ext := e);
    }
  }

  method CloneRows(d: OutputDict) returns (c: OutputDict)
    ensures fresh(c) && fresh(RowObjects(c)) && RowsApart(c) && Rows(c) == Rows(d)
  {
    c := new Dict(map[]);
    var todo := d.m.Keys;
    while todo != {}
      invariant todo <= d.m.Keys
      invariant fresh(c) && RowsApart(c)
      invariant forall node :: node in c.m ==> fresh(c.m[node]) && c.m[node] as object != c
      invariant c.m.Keys == d.m.Keys - todo
      invariant forall node :: node in c.m ==> c.m[node].m == d.m[node].m
      decreases |todo|
    {
      var node :| node in todo;
      var row := new Dict(d.m[node].m);
      c.m := c.m[node := row];
      todo := todo - {node};
    }
  }

  /** The entries of p outside the keys still to visit, as far as allowed. */
  function Visited<V>(p: map<string, V>, left: set<string>, allowed: set<string>): map<string, V> {
    map k | k in p && k !in left && k in allowed :: p[k]
  }

  lemma VisitOne<V>(m: map<string, V>, p: map<string, V>, left: set<string>, allowed: set<string>, key: string)
    requires key in p && key in left
    ensures var before := m + Visited(p, left, allowed);
      (if key in allowed then before[key := p[key]] else before) == m + Visited(p, left - {key}, allowed)
  {
  }

  lemma VisitAll<V>(m: map<string, V>, p: map<string, V>)
    ensures m + Visited(p, p.Keys, p.Keys) == m && Visited(p, {}, p.Keys) == p
  {
  }

  lemma VisitAllowed(m: map<string, string>, p: map<string, string>, allow: seq<string>)
    ensures var allowed := set k | k in allow;
      m + Visited(p, p.Keys, allowed) == m && Visited(p, {}, allowed) == M.Allowed(p, allow)
  {
  }

  /** `for key, value := range p { d[key] = value }`, visiting the keys in any order. */
  method WriteAll<V>(d: Dict<V>, p: map<string, V>)
    modifies d
    ensures d.m == old(d.m) + p
  {
    ghost var was := d.m;
    var todo := p.Keys;
    VisitAll(was, p);
    while todo != {}
      invariant todo <= p.Keys && d.m == was + Visited(p, todo, p.Keys)
      decreases |todo|
    {
      var key :| key in todo;
      VisitOne(was, p, todo, p.Keys, key);
      d.m := d.m[key := p[key]];
      todo := todo - {key};
    }
  }

  /** The same loop for sensitive values, skipping every key outside the allow-list. */
  method WriteAllowed(d: Dict<string>, p: map<string, string>, allow: seq<string>)
    modifies d
    ensures d.m == old(d.m) + M.Allowed(p, allow)
  {
    ghost var was, allowed := d.m, set k | k in allow;
    var todo := p.Keys;
    VisitAllowed(was, p, allow);
    while todo != {}
      invariant todo <= p.Keys && d.m == was + Visited(p, todo, allowed)
      decreases |todo|
    {
      var key :| key in todo;
      VisitOne(was, p, todo, allowed, key);
      if key in allow {
        d.m := d.m[key := p[key]];
      }
      todo := todo - {key};
    }
  }

  method AddRow(d: OutputDict, node: string)
    requires RowsApart(d) && d as object !in RowObjects(d) && node !in d.m
    modifies d
    ensures RowsApart(d) && d as object !in RowObjects(d) && fresh(RowObjects(d) - old(RowObjects(d)))
    ensures node in d.m && Rows(d) == old(Rows(d))[node := map[]]
  {
    var row := new Dict(map[]);
    d.m := d.m[node := row];
  }

  method WriteInRow(d: OutputDict, node: string, entries: JsonMap)
    requires RowsApart(d) && d as object !in RowObjects(d) && node in d.m
    modifies d.m[node]
    ensures RowsApart(d) && d as object !in RowObjects(d)
    ensures Rows(d) == old(Rows(d))[node := old(Rows(d))[node] + entries]
  {
    WriteAll(d.m[node], entries);
  }

  /** One node's outputs: a node without a container gets one of its own, never the patch's. */
  method WriteRow(d: OutputDict, node: string, entries: JsonMap)
    requires RowsApart(d) && d as object !in RowObjects(d)
    modifies d, RowObjects(d)
    ensures RowsApart(d) && d as object !in RowObjects(d) && fresh(RowObjects(d) - old(RowObjects(d)))
    ensures Rows(d) == old(Rows(d))[node := M.Row(old(Rows(d)), node) + entries]
  {
    if node !in d.m {
      AddRow(d, node);
    }
    WriteInRow(d, node, entries);
  }

  /** The part of a patch already written. */
  function Written(p: M.Outputs, todo: set<string>): M.Outputs {
    map k | k in p && k !in todo :: p[k]
  }

  lemma WriteOneMore(a: M.Outputs, p: M.Outputs, todo: set<string>, node: string)
    requires node in p && node in todo
    ensures var before := M.MergeOutputs(a, Written(p, todo));
      before[node := M.Row(before, node) + p[node]] == M.MergeOutputs(a, Written(p, todo - {node}))
  {
    var before, after := M.MergeOutputs(a, Written(p, todo)), M.MergeOutputs(a, Written(p, todo - {node}));
    var next := before[node := M.Row(before, node) + p[node]];
    assert M.Row(before, node) == M.Row(a, node) by {
      M.MergedRow(a, Written(p, todo), node);
      NothingAdded(M.Row(a, node));
    }
    assert after.Keys == next.Keys;
    forall n | n in after ensures next[n] == after[n] {
      assert n != node ==> M.Row(Written(p, todo), n) == M.Row(Written(p, todo - {node}), n);
    }
  }

  lemma NothingAdded<V>(m: map<string, V>)
    ensures m + map[] == m
  {
  }

  /** The nested merge loop, visiting the nodes in any order. */
  method WriteRows(d: OutputDict, p: M.Outputs)
    requires RowsApart(d) && d as object !in RowObjects(d)
    modifies d, RowObjects(d)
    ensures RowsApart(d) && d as object !in RowObjects(d) && fresh(RowObjects(d) - old(RowObjects(d)))
    ensures Rows(d) == M.MergeOutputs(old(Rows(d)), p)
  {
    ghost var was := Rows(d);
    var todo := p.Keys;
    M.MergeOutputsUnit(was);
    assert Written(p, p.Keys) == map[];
    while todo != {}
      invariant RowsApart(d) && d as object !in RowObjects(d)
      invariant fresh(RowObjects(d) - old(RowObjects(d)))
      invariant todo <= p.Keys && Rows(d) == M.MergeOutputs(was, Written(p, todo))
      decreases |todo|
    {
      var node :| node in todo;
      WriteOneMore(was, p, todo, node);
      WriteRow(d, node, p[node]);
      todo := todo - {node};
    }
    assert Written(p, {}) == p;
  }

  /** The four merge loops of `ApplyPatch`, on the containers of the live struct. */
  method WriteContainers(s: StateStruct, patch: M.Patch, allow: seq<string>)
    requires s.Apart()
    modifies s.Repr()
    ensures s.Apart() && fresh(s.Repr() - old(s.Repr()))
    ensures s.workingMemory.m == old(s.workingMemory.m) + patch.workingMemory
    ensures Rows(s.nodeOutputs) == M.MergeOutputs(old(Rows(s.nodeOutputs)), patch.nodeOutputs)
    ensures s.sensitive.m == old(s.sensitive.m) + M.Allowed(patch.sensitive, allow)
    ensures s.ext.m == old(s.ext.m) + patch.ext
  {
    WriteAll(s.workingMemory, patch.workingMemory);
    assert Rows(s.nodeOutputs) == old(Rows(s.nodeOutputs));
    WriteRows(s.nodeOutputs, patch.nodeOutputs);
    ghost var merged := Rows(s.nodeOutputs);
    WriteAllowed(s.sensitive, patch.sensitive, allow);
    WriteAll(s.ext, patch.ext);
    assert Rows(s.nodeOutputs) == merged;
  }

  /** A stored version of the state; the patch is a value, the state has containers of its own. */
  datatype Snapshot = Snapshot(taskId: string, version: int, patch: M.Patch, state: StateStruct)

  /** The struct of a new task, with empty containers of its own. */
  method NewStruct(taskId: string, traceId: string, input: M.UserInput, labels: map<string, string>)
    returns (s: StateStruct)
    ensures s.Apart() && fresh(s.Repr()) && s.View() == M.NewState(taskId, traceId, input, labels)
  {
    var wm := new Dict(map[]);
    var sens := new Dict(map[]);
    var e := new Dict(map[]);
    var outputs := new Dict(map[]);
    s := StateStruct(1, M.TaskMeta(taskId, M.Pending, labels), input, wm, outputs, [], traceId, sens, e);
    assert RowObjects(outputs) == {};
  }

  /** Go's `*State`: the only writable task state. */
  class MasterState {
    var version: int
    var task: M.TaskMeta
    var input: M.UserInput
    var decisionLog: seq<M.Decision>
    var traceId: string
    ghost var repr: set<object>

    // The containers are written to but never replaced.
    const workingMemory: Dict<Json>
    const nodeOutputs: OutputDict
    const sensitive: Dict<string>
    const ext: Dict<Json>

    /** The struct `*st`: same containers, fields copied. */
    function Struct(): StateStruct
      reads this
    {
      StateStruct(version, task, input, workingMemory, nodeOutputs, decisionLog, traceId, sensitive, ext)
    }

    ghost predicate Valid()
      reads this, repr
    {
      && this in repr && nodeOutputs as object in repr
      && Struct().Repr() <= repr && this !in Struct().Repr() && Struct().Apart()
    }

    function View(): M.State
      requires Valid()
      reads this, repr
    {
      Struct().View()
    }

    /** Takes over the fields and containers of a struct. */
    constructor FromStruct(s: StateStruct)
      requires s.Apart()
      ensures Valid() && Struct() == s && repr == {this} + s.Repr()
    {
      version, task, input, decisionLog, traceId := s.version, s.task, s.input, s.decisionLog, s.traceId;
      workingMemory, nodeOutputs, sensitive, ext := s.workingMemory, s.nodeOutputs, s.sensitive, s.ext;
      repr := {this} + s.Repr();
    }

    /** `New`: no state without a task id, and an error beside the state without a trace id. */
    static method New(taskId: string, traceId: string, input: M.UserInput, labels: map<string, string>)
      returns (st: MasterState?, failed: bool)
      ensures st == null <==> taskId == ""
      ensures failed <==> taskId == "" || traceId == ""
      ensures st != null ==> st.Valid() && fresh(st.repr) && st.View() == M.NewState(taskId, traceId, input, labels)
      ensures st != null ==>
        st.View() == M.State(1, M.TaskMeta(taskId, M.Pending, labels), input, map[], map[], [], traceId, map[], map[])
    {
      if taskId == "" {
        return null, true;
      }
      var s := NewStruct(taskId, traceId, input, labels);
      st := new MasterState.FromStruct(s);
      failed := traceId == "";
    }

    /** `ReadOnly`: a deep copy for nodes, rules and the model. */
    method ReadOnly() returns (view: StateStruct)
      requires Valid()
      ensures view.View() == View() && view.Apart() && fresh(view.Repr()) && view.Repr() !! repr
    {
      var s := Struct();
      view := s.Clone();
    }

    method SetStatus(status: M.Status)
      requires Valid()
      modifies this`task
      ensures Valid() && View() == old(View()).(task := old(task).(status := status))
    {
      task := task.(status := status);
    }

    method AppendDecision(record: M.Decision)
      requires Valid()
      modifies this`decisionLog
      ensures Valid() && View() == M.Appended(old(View()), record)
    {
      decisionLog := decisionLog + [record];
    }

    /** `st.Ext[key] = value`. */
    method SetExt(key: string, value: Json)
      requires Valid()
      modifies ext
      ensures Valid() && View() == old(View()).(ext := old(View()).ext[key := value])
    {
      ext.m := ext.m[key := value];
    }

    /** `ApplyPatch`: merges in place, then clones; a failing clone leaves the merged state without a snapshot. */
    method ApplyPatch(patch: M.Patch, allow: seq<string>, cloneFails: bool) returns (r: Option<Snapshot>)
      requires Valid()
      modifies repr
      ensures Valid() && old(repr) <= repr && fresh(repr - old(repr))
      ensures View() == if M.Validated(old(View())) then M.Patched(old(View()), patch, allow) else old(View())
      ensures r.Some? <==> M.Validated(old(View())) && !cloneFails
      ensures r.Some? ==>
        && r.value.taskId == task.id && r.value.version == version && r.value.patch == patch
        && r.value.state.View() == View() && r.value.state.Apart()
        && fresh(r.value.state.Repr()) && r.value.state.Repr() !! repr
    {
      if task.id == "" || traceId == "" {
        return None;
      }
      var before := version;
      MergePatch(patch, allow);
      if cloneFails {
        return None;
      }
      var clone := ReadOnly();
      r := Some(Snapshot(task.id, before + 1, patch, clone));
    }

    method MergePatch(patch: M.Patch, allow: seq<string>)
      requires Valid()
      modifies repr
      ensures Valid() && old(repr) <= repr && fresh(repr - old(repr))
      ensures View() == M.Patched(old(View()), patch, allow) && version == old(version) + 1
    {
      var s := Struct();
      WriteContainers(s, patch, allow);
      version := version + 1;
      task := task.(status := M.Running);
      repr := repr + s.Repr();
      assert Struct() == s.(version := version, task := task);
      assert Struct().Apart() && Struct().Repr() == s.Repr();
    }
  }
}
