// The task state as a value, and the patch algebra of internal/state.
module StateModel {
  import opened Basics

  datatype Status = Pending | Running | Completed | Failed | TimedOut

  datatype TaskMeta = TaskMeta(id: string, status: Status, labels: map<string, string>)

  datatype UserInput = UserInput(text: string, keywords: seq<string>, ext: JsonMap)

  datatype DecisionType = RouteDecided | PlanDecided | OtherDecision(name: string)

  datatype Decision = Decision(
    kind: DecisionType, functionName: string, functionArgs: JsonMap,
    step: int, nextNode: string, reasoning: string, data: JsonMap)

  type Outputs = map<string, JsonMap>

  datatype State = State(
    version: int, task: TaskMeta, input: UserInput,
    workingMemory: JsonMap, nodeOutputs: Outputs, decisionLog: seq<Decision>,
    traceId: string, sensitive: map<string, string>, ext: JsonMap)

  datatype Patch = Patch(
    workingMemory: JsonMap, nodeOutputs: Outputs, sensitive: map<string, string>, ext: JsonMap)

  const EMPTY_PATCH := Patch(map[], map[], map[], map[])

  /** A fresh task, as `New` builds it. */
  function NewState(taskId: string, traceId: string, input: UserInput, labels: map<string, string>): State {
    State(1, TaskMeta(taskId, Pending, labels), input, map[], map[], [], traceId, map[], map[])
  }

  predicate Validated(st: State) {
    st.task.id != "" && st.traceId != ""
  }

  /** The outputs of one node, empty when it has none. */
  function Row(outputs: Outputs, node: string): JsonMap {
    if node in outputs then outputs[node] else map[]
  }

  /** Two-level merge: the right side wins key by key inside each node's outputs. */
  function MergeOutputs(a: Outputs, b: Outputs): Outputs {
    map node | node in a.Keys + b.Keys :: Row(a, node) + Row(b, node)
  }

  function Allowed(sensitive: map<string, string>, allow: seq<string>): map<string, string> {
    map key | key in sensitive && key in allow :: sensitive[key]
  }

  /** The state after a patch is merged. */
  function Patched(st: State, p: Patch, allow: seq<string>): State {
    st.(version := st.version + 1,
        task := st.task.(status := Running),
        workingMemory := st.workingMemory + p.workingMemory,
        nodeOutputs := MergeOutputs(st.nodeOutputs, p.nodeOutputs),
        sensitive := st.sensitive + Allowed(p.sensitive, allow),
        ext := st.ext + p.ext)
  }

  /** What the map holds for the key after the patch's map is written over it. */
  predicate ReadsOver<V(==)>(after: map<string, V>, before: map<string, V>, patch: map<string, V>, key: string) {
    if key in patch then key in after && after[key] == patch[key]
    else (key in after <==> key in before) && (key in after ==> after[key] == before[key])
  }

  /** Reading a patched state key by key: the patch's value where it has one, the old value elsewhere, and sensitive values from the allow-list only; input, identity and log stay. */
  lemma PatchReads(st: State, p: Patch, allow: seq<string>, node: string, key: string)
    ensures var after := Patched(st, p, allow);
      && ReadsOver(after.workingMemory, st.workingMemory, p.workingMemory, key)
      && ReadsOver(after.ext, st.ext, p.ext, key)
      && ReadsOver(Row(after.nodeOutputs, node), Row(st.nodeOutputs, node), Row(p.nodeOutputs, node), key)
      && (node in after.nodeOutputs <==> node in st.nodeOutputs || node in p.nodeOutputs)
      && (if key in allow then ReadsOver(after.sensitive, st.sensitive, p.sensitive, key)
          else ReadsOver(after.sensitive, st.sensitive, map[], key))
      && after.version == st.version + 1 && after.task.status == Running
      && after.task.id == st.task.id && after.task.labels == st.task.labels && after.input == st.input
      && after.decisionLog == st.decisionLog && after.traceId == st.traceId
  {
    MergedRow(st.nodeOutputs, p.nodeOutputs, node);
  }

  function Appended(st: State, d: Decision): State {
    st.(decisionLog := st.decisionLog + [d])
  }

  /** One patch doing the work of p and then q. */
  function Merge(p: Patch, q: Patch): Patch {
    Patch(p.workingMemory + q.workingMemory, MergeOutputs(p.nodeOutputs, q.nodeOutputs),
          p.sensitive + q.sensitive, p.ext + q.ext)
  }

  lemma PlusAssociative<V>(a: map<string, V>, b: map<string, V>, c: map<string, V>)
    ensures (a + b) + c == a + (b + c)
  {
  }

  lemma MergeOutputsAssociative(a: Outputs, b: Outputs, c: Outputs)
    ensures MergeOutputs(MergeOutputs(a, b), c) == MergeOutputs(a, MergeOutputs(b, c))
  {
    var l, r := MergeOutputs(MergeOutputs(a, b), c), MergeOutputs(a, MergeOutputs(b, c));
    assert l.Keys == r.Keys;
    forall n | n in l.Keys ensures l[n] == r[n] {
      MergedRow(a, b, n);
      MergedRow(b, c, n);
      PlusAssociative(Row(a, n), Row(b, n), Row(c, n));
    }
  }

  lemma MergedRow(a: Outputs, b: Outputs, n: string)
    ensures Row(MergeOutputs(a, b), n) == Row(a, n) + Row(b, n)
  {
    if n !in a.Keys + b.Keys {
      assert Row(a, n) + Row(b, n) == map[];
    }
  }

  lemma MergeOutputsUnit(a: Outputs)
    ensures MergeOutputs(map[], a) == a == MergeOutputs(a, map[])
  {
    forall n | n in a ensures MergeOutputs(map[], a)[n] == a[n] == MergeOutputs(a, map[])[n] {
      MergedRow(map[], a, n);
      MergedRow(a, map[], n);
      assert map[] + a[n] == a[n] == a[n] + map[];
    }
    assert MergeOutputs(map[], a).Keys == a.Keys == MergeOutputs(a, map[]).Keys;
  }

  /** Patches form a monoid. */
  lemma MergeMonoid(p: Patch, q: Patch, r: Patch)
    ensures Merge(Merge(p, q), r) == Merge(p, Merge(q, r))
    ensures Merge(EMPTY_PATCH, p) == p == Merge(p, EMPTY_PATCH)
  {
    MergeOutputsAssociative(p.nodeOutputs, q.nodeOutputs, r.nodeOutputs);
    PlusAssociative(p.workingMemory, q.workingMemory, r.workingMemory);
    PlusAssociative(p.sensitive, q.sensitive, r.sensitive);
    PlusAssociative(p.ext, q.ext, r.ext);
    MergeOutputsUnit(p.nodeOutputs);
    assert map[] + p.workingMemory == p.workingMemory == p.workingMemory + map[];
    assert map[] + p.sensitive == p.sensitive == p.sensitive + map[];
    assert map[] + p.ext == p.ext == p.ext + map[];
  }

  lemma AllowedOfMerge(s: map<string, string>, p: map<string, string>, q: map<string, string>, allow: seq<string>)
    ensures (s + Allowed(p, allow)) + Allowed(q, allow) == s + Allowed(p + q, allow)
  {
  }

  /** Applying two patches is applying their merge, except that the version counts both. */
  lemma PatchTwice(st: State, p: Patch, q: Patch, allow: seq<string>)
    ensures Patched(Patched(st, p, allow), q, allow)
         == Patched(st, Merge(p, q), allow).(version := st.version + 2)
  {
    MergeOutputsAssociative(st.nodeOutputs, p.nodeOutputs, q.nodeOutputs);
    PlusAssociative(st.workingMemory, p.workingMemory, q.workingMemory);
    PlusAssociative(st.ext, p.ext, q.ext);
    AllowedOfMerge(st.sensitive, p.sensitive, q.sensitive, allow);
  }

  // ----- the merge loop, in any iteration order -----

  /** Writing the entries of p into m one key at a time, in the given order. */
  function WriteInOrder<V>(m: map<string, V>, p: map<string, V>, order: seq<string>): map<string, V>
    requires forall k :: k in order ==> k in p
    decreases |order|
  {
    if order == [] then m else WriteInOrder(m[order[0] := p[order[0]]], p, order[1..])
  }

  function Picked<V>(p: map<string, V>, keys: seq<string>): map<string, V> {
    map k | k in p && k in keys :: p[k]
  }

  lemma PickedFirst<V>(m: map<string, V>, p: map<string, V>, order: seq<string>)
    requires order != [] && order[0] in p
    ensures m[order[0] := p[order[0]]] + Picked(p, order[1..]) == m + Picked(p, order)
  {
    assert forall k :: k in order <==> k == order[0] || k in order[1..];
  }

  lemma {:induction false} AnyOrderSameMap<V>(m: map<string, V>, p: map<string, V>, order: seq<string>)
    requires forall k :: k in order ==> k in p
    ensures WriteInOrder(m, p, order) == m + Picked(p, order)
    ensures (forall k :: k in p ==> k in order) ==> WriteInOrder(m, p, order) == m + p
    decreases |order|
  {
    if order == [] {
      assert m + Picked(p, order) == m;
    } else {
      AnyOrderSameMap(m[order[0] := p[order[0]]], p, order[1..]);
      PickedFirst(m, p, order);
    }
    if forall k :: k in p ==> k in order {
      assert Picked(p, order) == p;
    }
  }
}
