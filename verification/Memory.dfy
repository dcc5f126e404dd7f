// The memory engine: trajectories, pattern updates and node recommendations over a store.
module Memory {
  import Ledger
  import M = StateModel
  import P = Patterns
  import S = Store

  /** `currentSequence`: decided hops without terminations; plans and refused hops are kept. */
  method CurrentSequence(log: seq<M.Decision>) returns (sequence: seq<string>)
    ensures sequence == Ledger.HopsOf(log)
  {
    sequence := [];
    for i := 0 to |log|
      invariant sequence == Ledger.HopsOf(log[..i])
    {
      assert log[..i + 1][..i] == log[..i];
      if log[i].nextNode != "__terminate__" {
        sequence := sequence + [log[i].nextNode];
      }
    }
    assert log[..|log|] == log;
  }

  method RecordStep(store: S.MemoryStore, st: M.State, nodeId: string)
    requires store.Valid()
    modifies store`shortTerm
    ensures store.Valid() && store.shortTerm == old(store.shortTerm)[st.task.id := Ledger.HopsOf(st.decisionLog) + [nodeId]]
  {
    var trajectory := CurrentSequence(st.decisionLog);
    store.PutShortTerm(st.task.id, trajectory + [nodeId]);
  }

  method Finalize(store: S.MemoryStore, st: M.State)
    requires store.Valid()
    modifies store`patterns
    ensures store.Valid()
    ensures store.patterns == P.Upsert(old(store.patterns), P.Pattern(st.input.keywords, Ledger.HopsOf(st.decisionLog), 1))
  {
    var sequence := CurrentSequence(st.decisionLog);
    store.UpsertPattern(P.Pattern(st.input.keywords, sequence, 1));
  }

  lemma {:induction false} OccurrencesAppend(nodes: seq<string>, node: string, id: string)
    ensures P.Occurrences(nodes + [node], id) == P.Occurrences(nodes, id) + if node == id then 1 else 0
  {
    if nodes == [] {
      assert (nodes + [node])[1..] == [];
    } else {
      assert (nodes + [node])[1..] == nodes[1..] + [node];
      OccurrencesAppend(nodes[1..], node, id);
    }
  }

  /** A node's score part-way through one more pattern. */
  function PartValue(before: P.Scores, hits: int, nodes: seq<string>, id: string): int {
    (if id in before then before[id] else 0) + hits * P.Occurrences(nodes, id)
  }

  ghost predicate PartScore(score: P.Scores, before: P.Scores, hits: int, nodes: seq<string>) {
    && (forall id :: id in score <==> id in before || id in nodes)
    && (forall id :: id in score ==> score[id] == PartValue(before, hits, nodes, id))
  }

  method AddPattern(before: P.Scores, pattern: P.Pattern) returns (score: P.Scores)
    ensures PartScore(score, before, pattern.hits, pattern.nodes)
  {
    score := before;
    for k := 0 to |pattern.nodes|
      invariant PartScore(score, before, pattern.hits, pattern.nodes[..k])
    {
      assert pattern.nodes[..k + 1] == pattern.nodes[..k] + [pattern.nodes[k]];
      score := AddNode(score, before, pattern.hits, pattern.nodes[..k], pattern.nodes[k]);
    }
    assert pattern.nodes[..|pattern.nodes|] == pattern.nodes;
  }

  /** `score[nodeID] += pattern.HitCount`. */
  method AddNode(was: P.Scores, ghost before: P.Scores, hits: int, ghost nodes: seq<string>, id: string) returns (score: P.Scores)
    requires PartScore(was, before, hits, nodes)
    ensures PartScore(score, before, hits, nodes + [id])
  {
    score := was[id := (if id in was then was[id] else 0) + hits];
    forall x | x in score ensures score[x] == PartValue(before, hits, nodes + [id], x) {
      NextValue(before, hits, nodes, id, x);
    }
  }

  lemma NextValue(before: P.Scores, hits: int, nodes: seq<string>, id: string, x: string)
    ensures PartValue(before, hits, nodes + [id], x) == PartValue(before, hits, nodes, x) + if x == id then hits else 0
    ensures x !in before && x !in nodes ==> PartValue(before, hits, nodes, x) == 0
  {
    OccurrencesAppend(nodes, id, x);
    var occ := P.Occurrences(nodes, x);
    assert hits * (occ + 1) == hits * occ + hits;
    if x !in nodes {
      NoOccurrence(nodes, x);
      assert hits * 0 == 0;
    }
  }

  lemma NoOccurrence(nodes: seq<string>, id: string)
    requires id !in nodes
    ensures P.Occurrences(nodes, id) == 0
  {
  }

  lemma {:induction false} NotSeenScoresZero(patterns: seq<P.Pattern>, id: string)
    requires !P.Appears(patterns, id)
    ensures P.Total(patterns, id) == 0
  {
    if patterns != [] {
      assert patterns[0] in patterns;
      NoOccurrence(patterns[0].nodes, id);
      assert forall p :: p in patterns[1..] ==> p in patterns;
      NotSeenScoresZero(patterns[1..], id);
    }
  }

  lemma ScoreOneMore(score: P.Scores, before: P.Scores, patterns: seq<P.Pattern>, p: P.Pattern)
    requires P.IsScoreOf(before, patterns) && PartScore(score, before, p.hits, p.nodes)
    ensures P.IsScoreOf(score, patterns + [p])
  {
    forall id ensures P.Appears(patterns + [p], id) <==> P.Appears(patterns, id) || id in p.nodes {
      assert p in patterns + [p];
      assert forall q :: q in patterns + [p] <==> q in patterns || q == p;
    }
    forall id | id in score ensures score[id] == P.Total(patterns + [p], id) {
      P.AppendSums(patterns, p, [], id);
      if id !in before {
        NotSeenScoresZero(patterns, id);
      }
    }
  }

  method ScorePatterns(patterns: seq<P.Pattern>) returns (score: P.Scores)
    ensures P.IsScoreOf(score, patterns)
  {
    score := map[];
    for i := 0 to |patterns|
      invariant P.IsScoreOf(score, patterns[..i])
    {
      var more := AddPattern(score, patterns[i]);
      assert patterns[..i + 1] == patterns[..i] + [patterns[i]];
      ScoreOneMore(more, score, patterns[..i], patterns[i]);
      score := more;
    }
    assert patterns[..|patterns|] == patterns;
  }

  /** Ids in ranking order. */
  ghost predicate Ranked(list: seq<string>, score: P.Scores) {
    && (forall id :: id in list ==> id in score)
    && (forall i, j :: 0 <= i < j < |list| ==> P.Before(score, list[i], list[j]))
  }

  /** Where an id belongs: after all that go before it, and before the next. */
  lemma InsertionRanked(list: seq<string>, id: string, at: nat, score: P.Scores)
    requires Ranked(list, score) && id in score && id !in list && at <= |list|
    requires forall k :: 0 <= k < at ==> P.Before(score, list[k], id)
    requires at < |list| ==> !P.Before(score, list[at], id)
    ensures Ranked(list[..at] + [id] + list[at..], score)
    ensures forall x :: x in list[..at] + [id] + list[at..] <==> x in list || x == id
  {
    assert list == list[..at] + list[at..];
    forall k | at <= k < |list| ensures P.Before(score, id, list[k]) {
      P.LessIsTotal(list[at], id);
      if k > at {
        P.BeforeIsTransitive(score, id, list[at], list[k]);
      }
    }
    Spliced(list, id, at, score);
  }

  lemma Spliced(list: seq<string>, id: string, at: nat, score: P.Scores)
    requires Ranked(list, score) && id in score && at <= |list|
    requires forall k :: 0 <= k < at ==> P.Before(score, list[k], id)
    requires forall k :: at <= k < |list| ==> P.Before(score, id, list[k])
    ensures Ranked(list[..at] + [id] + list[at..], score)
  {
    var out := list[..at] + [id] + list[at..];
    forall i, j | 0 <= i < j < |out| ensures P.Before(score, out[i], out[j]) {
      var a, b := if i < at then i else i - 1, if j < at then j else j - 1;
      assert i != at ==> out[i] == list[a];
      assert j != at ==> out[j] == list[b];
    }
  }

  method InsertRanked(list: seq<string>, id: string, score: P.Scores) returns (out: seq<string>)
    requires Ranked(list, score) && id in score && id !in list
    ensures Ranked(out, score) && (forall x :: x in out <==> x in list || x == id)
  {
    var at := 0;
    while at < |list| && P.Before(score, list[at], id)
      invariant 0 <= at <= |list|
      invariant forall k :: 0 <= k < at ==> P.Before(score, list[k], id)
    {
      at := at + 1;
    }
    InsertionRanked(list, id, at, score);
    out := list[..at] + [id] + list[at..];
  }

  /** `sort.Slice` by score and id. */
  method SortRanked(items: seq<string>, score: P.Scores) returns (out: seq<string>)
    requires forall id :: id in items ==> id in score
    requires forall i, j :: 0 <= i < j < |items| ==> items[i] != items[j]
    ensures Ranked(out, score) && (forall id :: id in out <==> id in items)
  {
    out := [];
    for i := 0 to |items|
      invariant Ranked(out, score) && (forall id :: id in out <==> id in items[..i])
    {
      out := InsertRanked(out, items[i], score);
    }
    assert items[..|items|] == items;
  }

  /** Collects the scored nodes in whatever order the map yields them, then sorts them. */
  method RankNodes(score: P.Scores) returns (out: seq<string>)
    ensures P.IsRanking(out, score)
  {
    var ranking: seq<string> := [];
    var todo := score.Keys;
    while todo != {}
      invariant todo <= score.Keys
      invariant forall id :: id in ranking <==> id in score && id !in todo
      invariant forall i, j :: 0 <= i < j < |ranking| ==> ranking[i] != ranking[j]
      decreases |todo|
    {
      var id :| id in todo;
      ranking := ranking + [id];
      todo := todo - {id};
    }
    out := SortRanked(ranking, score);
  }

  /** The recommendation list is the canonical one, whatever order recall and map iteration chose. */
  method RecommendNodes(store: S.MemoryStore, keywords: seq<string>) returns (out: seq<string>)
    requires store.Valid()
    ensures out == P.Recommendation(Ledger.Recalled(store.patterns, keywords))
    ensures Ledger.Recommended(out, store.patterns, keywords)
  {
    var patterns := store.RecallPatterns(keywords);
    var score := ScorePatterns(patterns);
    out := RankNodes(score);
    assert P.IsRecommendation(out, patterns);
    Ledger.RecommendationMeans(store.patterns, keywords);
    P.RecommendationRanks(Ledger.Recalled(store.patterns, keywords));
    P.RecommendationIsCanonical(out, patterns,
      P.Recommendation(Ledger.Recalled(store.patterns, keywords)), Ledger.Recalled(store.patterns, keywords));
  }
}
