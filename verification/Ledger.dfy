// What a store keeps about one task, as values.
module Ledger {
  import opened Basics
  import M = StateModel
  import P = Patterns

  datatype StepRecord = StepRecord(
    index: int, node: string, status: string, reasoning: string, input: Option<M.State>, output: JsonMap)

  datatype SnapshotRecord = SnapshotRecord(taskId: string, version: int, patch: M.Patch, state: M.State)

  /** The fields of a saved state struct that are copied rather than shared. */
  datatype Header = Header(version: int, status: M.Status, decisionLog: seq<M.Decision>)

  datatype Reason = AiTerminate | LoopDetected | MaxSteps | TaskTimeout

  datatype Summary = Summary(
    taskId: string, status: M.Status, keywords: seq<string>, nodeSequence: seq<string>,
    reason: Reason, reasoningLog: seq<M.Decision>, keyResults: M.Outputs, latestPlan: Option<Json>)

  datatype TaskRecord = TaskRecord(
    header: Header, steps: seq<StepRecord>, snapshots: seq<SnapshotRecord>, summary: Option<Summary>)

  datatype Book = Book(task: Option<TaskRecord>, trajectory: Option<seq<string>>, patterns: seq<P.Pattern>)

  function HeaderOf(st: M.State): Header {
    Header(st.version, st.task.status, st.decisionLog)
  }

  function NodesOf(steps: seq<StepRecord>): seq<string> {
    seq(|steps|, i requires 0 <= i < |steps| => steps[i].node)
  }

  /** Every decided hop except termination; plans and rejected hops stay in. */
  function HopsOf(log: seq<M.Decision>): seq<string> {
    if log == [] then []
    else
      var before := HopsOf(log[..|log| - 1]);
      var hop := log[|log| - 1].nextNode;
      if hop == "__terminate__" then before else before + [hop]
  }

  /** Patterns returned for a query: all of them without keywords, else those sharing one. */
  function Recalled(patterns: seq<P.Pattern>, keywords: seq<string>): seq<P.Pattern> {
    if keywords == [] then patterns else Sharing(patterns, keywords)
  }

  function Sharing(patterns: seq<P.Pattern>, keywords: seq<string>): seq<P.Pattern> {
    if patterns == [] then []
    else
      var before := Sharing(patterns[..|patterns| - 1], keywords);
      var last := patterns[|patterns| - 1];
      if P.Overlap(last.keywords, keywords) then before + [last] else before
  }

  /** What a query asks for. */
  predicate Wanted(p: P.Pattern, keywords: seq<string>) {
    keywords == [] || exists k :: k in p.keywords && k in keywords
  }

  lemma {:induction false} SharingCounts(patterns: seq<P.Pattern>, keywords: seq<string>, p: P.Pattern)
    requires keywords != []
    ensures multiset(Sharing(patterns, keywords))[p] == if Wanted(p, keywords) then multiset(patterns)[p] else 0
  {
    if patterns != [] {
      var front, last := patterns[..|patterns| - 1], patterns[|patterns| - 1];
      SharingCounts(front, keywords, p);
      assert patterns == front + [last];
    }
  }

  /** Recall gives back exactly the stored patterns the query asks for, each as often as it is stored. */
  lemma RecallCounts(patterns: seq<P.Pattern>, keywords: seq<string>)
    ensures forall p :: multiset(Recalled(patterns, keywords))[p] == if Wanted(p, keywords) then multiset(patterns)[p] else 0
  {
    forall p ensures multiset(Recalled(patterns, keywords))[p] == if Wanted(p, keywords) then multiset(patterns)[p] else 0 {
      if keywords != [] {
        SharingCounts(patterns, keywords, p);
      }
    }
  }

  /** What the wanted patterns say for a node: hits times occurrences. */
  function Support(patterns: seq<P.Pattern>, keywords: seq<string>, id: string): int {
    if patterns == [] then 0
    else
      var last := patterns[|patterns| - 1];
      Support(patterns[..|patterns| - 1], keywords, id) + if Wanted(last, keywords) then last.hits * P.Occurrences(last.nodes, id) else 0
  }

  lemma {:induction false} SupportIsTotal(patterns: seq<P.Pattern>, keywords: seq<string>, id: string)
    ensures P.Total(Recalled(patterns, keywords), id) == Support(patterns, keywords, id)
  {
    if patterns != [] {
      var front, last := patterns[..|patterns| - 1], patterns[|patterns| - 1];
      SupportIsTotal(front, keywords, id);
      assert patterns == front + [last];
      P.AppendSums(Recalled(front, keywords), last, [], id);
    }
  }

  lemma RecalledAppears(patterns: seq<P.Pattern>, keywords: seq<string>, id: string)
    ensures P.Appears(Recalled(patterns, keywords), id) <==> exists p :: p in patterns && Wanted(p, keywords) && id in p.nodes
  {
    RecallCounts(patterns, keywords);
    assert forall p :: p in Recalled(patterns, keywords) <==> multiset(Recalled(patterns, keywords))[p] > 0;
    assert forall p :: p in patterns <==> multiset(patterns)[p] > 0;
  }

  /** By support, and equal support by id. */
  predicate Recommends(patterns: seq<P.Pattern>, keywords: seq<string>, a: string, b: string) {
    var x, y := Support(patterns, keywords, a), Support(patterns, keywords, b);
    x > y || (x == y && P.Less(a, b))
  }

  /** The recommendation for a query: exactly the nodes of the wanted patterns, each before those with less support. */
  ghost predicate Recommended(list: seq<string>, patterns: seq<P.Pattern>, keywords: seq<string>) {
    && (forall id :: id in list <==> exists p :: p in patterns && Wanted(p, keywords) && id in p.nodes)
    && (forall i, j :: 0 <= i < j < |list| ==> Recommends(patterns, keywords, list[i], list[j]))
  }

  lemma RecommendationMeans(patterns: seq<P.Pattern>, keywords: seq<string>)
    ensures Recommended(P.Recommendation(Recalled(patterns, keywords)), patterns, keywords)
  {
    var recalled := Recalled(patterns, keywords);
    var list := P.Recommendation(recalled);
    P.RecommendationRanks(recalled);
    var score :| P.IsScoreOf(score, recalled) && P.IsRanking(list, score);
    forall id ensures id in list <==> exists p :: p in patterns && Wanted(p, keywords) && id in p.nodes {
      RecalledAppears(patterns, keywords, id);
    }
    forall i, j | 0 <= i < j < |list| ensures Recommends(patterns, keywords, list[i], list[j]) {
      assert list[i] in list && list[j] in list;
      SupportIsTotal(patterns, keywords, list[i]);
      SupportIsTotal(patterns, keywords, list[j]);
    }
  }

  // ----- the decided hops -----

  /** Termination leaves no hop, every other decision its own, in order. */
  lemma {:induction false} HopsInOrder(log: seq<M.Decision>, more: seq<M.Decision>)
    ensures HopsOf([]) == []
    ensures forall d: M.Decision :: HopsOf([d]) == if d.nextNode == "__terminate__" then [] else [d.nextNode]
    ensures HopsOf(log + more) == HopsOf(log) + HopsOf(more)
    decreases |more|
  {
    forall d: M.Decision ensures HopsOf([d]) == if d.nextNode == "__terminate__" then [] else [d.nextNode] {
      assert [d][..0] == [];
    }
    if more == [] {
      assert log + more == log;
    } else {
      var front := more[..|more| - 1];
      HopsInOrder(log, front);
      assert (log + more)[..|log + more| - 1] == log + front;
    }
  }
}
