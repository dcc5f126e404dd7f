// Pattern memory: the compacted index of past runs, and the ranking computed from it.
module Patterns {
  datatype Pattern = Pattern(keywords: seq<string>, nodes: seq<string>, hits: int)

  predicate Overlap(left: seq<string>, right: seq<string>) {
    exists k :: k in left && k in right
  }

  predicate Same(left: Pattern, right: Pattern) {
    left.nodes == right.nodes && Overlap(left.keywords, right.keywords)
  }

  /** The first same pattern takes the hits; without one the pattern is appended. */
  function Upsert(patterns: seq<Pattern>, p: Pattern): seq<Pattern> {
    if patterns == [] then [p]
    else if Same(patterns[0], p) then [patterns[0].(hits := patterns[0].hits + p.hits)] + patterns[1..]
    else [patterns[0]] + Upsert(patterns[1..], p)
  }

  /** The index after a history of upserts, oldest first. */
  function Index(history: seq<Pattern>): seq<Pattern> {
    if history == [] then []
    else Upsert(Index(history[..|history| - 1]), history[|history| - 1])
  }

  /** All hits recorded for exactly this node sequence. */
  function HitsFor(patterns: seq<Pattern>, nodes: seq<string>): int {
    if patterns == [] then 0
    else (if patterns[0].nodes == nodes then patterns[0].hits else 0) + HitsFor(patterns[1..], nodes)
  }

  function Occurrences(nodes: seq<string>, id: string): nat {
    if nodes == [] then 0 else (if nodes[0] == id then 1 else 0) + Occurrences(nodes[1..], id)
  }

  /** The score of a node: hits times occurrences, over all patterns. */
  function Total(patterns: seq<Pattern>, id: string): int {
    if patterns == [] then 0
    else patterns[0].hits * Occurrences(patterns[0].nodes, id) + Total(patterns[1..], id)
  }

  predicate Appears(patterns: seq<Pattern>, id: string) {
    exists p :: p in patterns && id in p.nodes
  }

  ghost predicate NoneSame(patterns: seq<Pattern>) {
    forall i, j :: 0 <= i < j < |patterns| ==> !Same(patterns[i], patterns[j])
  }

  lemma {:induction false} UpsertShape(patterns: seq<Pattern>, p: Pattern)
    ensures var after := Upsert(patterns, p);
      || (exists i :: 0 <= i < |patterns| && Same(patterns[i], p) && after == patterns[i := patterns[i].(hits := patterns[i].hits + p.hits)])
      || ((forall i :: 0 <= i < |patterns| ==> !Same(patterns[i], p)) && after == patterns + [p])
  {
    if patterns != [] {
      if Same(patterns[0], p) {
        assert Upsert(patterns, p) == patterns[0 := patterns[0].(hits := patterns[0].hits + p.hits)];
      } else {
        var rest := patterns[1..];
        UpsertShape(rest, p);
        if i :| 0 <= i < |rest| && Same(rest[i], p) && Upsert(rest, p) == rest[i := rest[i].(hits := rest[i].hits + p.hits)] {
          assert Upsert(patterns, p) == patterns[i + 1 := patterns[i + 1].(hits := patterns[i + 1].hits + p.hits)];
        } else {
          forall i | 0 <= i < |patterns| ensures !Same(patterns[i], p) {
            assert i > 0 ==> patterns[i] == rest[i - 1];
          }
          assert Upsert(patterns, p) == patterns + [p];
        }
      }
    }
  }

  lemma {:induction false} UpsertSums(patterns: seq<Pattern>, p: Pattern, nodes: seq<string>, id: string)
    ensures HitsFor(Upsert(patterns, p), nodes) == HitsFor(patterns, nodes) + if p.nodes == nodes then p.hits else 0
    ensures Total(Upsert(patterns, p), id) == Total(patterns, id) + p.hits * Occurrences(p.nodes, id)
  {
    if patterns == [] {
      assert Upsert(patterns, p)[1..] == [];
    } else {
      var after := Upsert(patterns, p);
      if Same(patterns[0], p) {
        assert after[1..] == patterns[1..];
        var occ := Occurrences(p.nodes, id);
        assert (patterns[0].hits + p.hits) * occ == patterns[0].hits * occ + p.hits * occ;
      } else {
        assert after[1..] == Upsert(patterns[1..], p);
        UpsertSums(patterns[1..], p, nodes, id);
      }
    }
  }

  lemma {:induction false} AppendSums(history: seq<Pattern>, p: Pattern, nodes: seq<string>, id: string)
    ensures HitsFor(history + [p], nodes) == HitsFor(history, nodes) + if p.nodes == nodes then p.hits else 0
    ensures Total(history + [p], id) == Total(history, id) + p.hits * Occurrences(p.nodes, id)
  {
    if history == [] {
      assert (history + [p])[1..] == [];
    } else {
      assert (history + [p])[1..] == history[1..] + [p];
      AppendSums(history[1..], p, nodes, id);
    }
  }

  lemma UpsertKeepsNoneSame(patterns: seq<Pattern>, p: Pattern)
    requires NoneSame(patterns)
    ensures NoneSame(Upsert(patterns, p))
  {
    UpsertShape(patterns, p);
  }

  lemma UpsertAppears(patterns: seq<Pattern>, p: Pattern, id: string)
    ensures Appears(Upsert(patterns, p), id) <==> Appears(patterns, id) || id in p.nodes
  {
    var after := Upsert(patterns, p);
    UpsertShape(patterns, p);
    if i :| 0 <= i < |patterns| && Same(patterns[i], p) && after == patterns[i := patterns[i].(hits := patterns[i].hits + p.hits)] {
      assert after[i] in after && patterns[i] in patterns;
      if q :| q in patterns && id in q.nodes {
        var k :| 0 <= k < |patterns| && patterns[k] == q;
        assert after[k] in after;
      }
    } else {
      assert p in after;
    }
  }

  /** The index agrees with the raw history: hits per sequence, node scores, nodes seen, and no two entries the same. */
  lemma {:induction false} IndexAgrees(history: seq<Pattern>, nodes: seq<string>, id: string)
    ensures HitsFor(Index(history), nodes) == HitsFor(history, nodes)
    ensures Total(Index(history), id) == Total(history, id)
    ensures Appears(Index(history), id) <==> Appears(history, id)
    ensures NoneSame(Index(history))
  {
    if history != [] {
      var before, p := history[..|history| - 1], history[|history| - 1];
      IndexAgrees(before, nodes, id);
      assert history == before + [p];
      UpsertSums(Index(before), p, nodes, id);
      AppendSums(before, p, nodes, id);
      UpsertKeepsNoneSame(Index(before), p);
      UpsertAppears(Index(before), p, id);
    }
  }

  // ----- the ranking -----

  /** `strings.Compare(a, b) < 0`. */
  predicate Less(a: string, b: string) {
    if b == [] then false
    else if a == [] then true
    else a[0] < b[0] || (a[0] == b[0] && Less(a[1..], b[1..]))
  }

  lemma {:induction false} LessIsTotal(a: string, b: string)
    ensures a != b <==> Less(a, b) || Less(b, a)
    ensures !(Less(a, b) && Less(b, a))
  {
    if a != [] && b != [] {
      LessIsTotal(a[1..], b[1..]);
      assert a == [a[0]] + a[1..] && b == [b[0]] + b[1..];
    }
  }

  lemma {:induction false} LessIsTransitive(a: string, b: string, c: string)
    requires Less(a, b) && Less(b, c)
    ensures Less(a, c)
  {
    if a != [] && a[0] == b[0] == c[0] {
      LessIsTransitive(a[1..], b[1..], c[1..]);
    }
  }

  /** a and b agree up to i, and there a ends first or has the smaller character. */
  predicate PartsAt(a: string, b: string, i: nat) {
    && i <= |a| && i < |b| && a[..i] == b[..i]
    && (i == |a| || a[i] < b[i])
  }

  /** The order is the lexicographic one. */
  lemma {:induction false} LessIsLexicographic(a: string, b: string)
    ensures Less(a, b) <==> exists i: nat :: PartsAt(a, b, i)
  {
    if a == [] || b == [] || a[0] != b[0] {
      assert b != [] && (a == [] || a[0] < b[0]) ==> PartsAt(a, b, 0);
      assert forall i: nat :: PartsAt(a, b, i) && i > 0 ==> a[..i][0] == b[..i][0];
    } else {
      LessIsLexicographic(a[1..], b[1..]);
      if i: nat :| PartsAt(a[1..], b[1..], i) {
        assert a[..i + 1] == [a[0]] + a[1..][..i] && b[..i + 1] == [b[0]] + b[1..][..i];
        assert PartsAt(a, b, i + 1);
      }
      if i: nat :| PartsAt(a, b, i) {
        assert i > 0;
        assert a[1..][..i - 1] == a[..i][1..] == b[..i][1..] == b[1..][..i - 1];
        assert PartsAt(a[1..], b[1..], i - 1);
      }
    }
  }

  type Scores = map<string, int>

  /** Higher score first; equal scores by id. */
  predicate Before(score: Scores, a: string, b: string)
    requires a in score && b in score
  {
    score[a] > score[b] || (score[a] == score[b] && Less(a, b))
  }

  /** The order of the recommendation list: every scored node once, each before all later ones. */
  ghost predicate IsRanking(list: seq<string>, score: Scores) {
    && (forall id :: id in list <==> id in score)
    && (forall i, j :: 0 <= i < j < |list| ==> Before(score, list[i], list[j]))
  }

  /** The ranking of a score table is unique: no iteration or sort order can change it. */
  lemma {:induction false} RankingIsUnique(a: seq<string>, b: seq<string>, score: Scores)
    requires IsRanking(a, score) && IsRanking(b, score)
    ensures a == b
    decreases |a|
  {
    EmptyTogether(a, b);
    if a != [] {
      assert a[0] in b && b[0] in a;
      if a[0] != b[0] {
        var i :| 0 <= i < |b| && b[i] == a[0];
        var j :| 0 <= j < |a| && a[j] == b[0];
        LessIsTotal(a[0], b[0]);
        assert false;
      }
      TailIsRanking(a, score);
      TailIsRanking(b, score);
      RankingIsUnique(a[1..], b[1..], score - {a[0]});
      assert a == [a[0]] + a[1..] && b == [b[0]] + b[1..];
    }
  }

  lemma EmptyTogether(a: seq<string>, b: seq<string>)
    requires forall id :: id in a <==> id in b
    ensures a == [] <==> b == []
  {
    if a != [] {
      assert a[0] in b;
    }
    if b != [] {
      assert b[0] in a;
    }
  }

  lemma TailIsRanking(list: seq<string>, score: Scores)
    requires IsRanking(list, score) && list != []
    ensures IsRanking(list[1..], score - {list[0]})
  {
    var rest := score - {list[0]};
    forall id ensures id in list[1..] <==> id in rest {
      if id in list[1..] {
        var i :| 1 <= i < |list| && list[i] == id;
        LessIsTotal(list[0], id);
      }
    }
    forall i, j | 0 <= i < j < |list[1..]| ensures Before(rest, list[1..][i], list[1..][j]) {
      assert Before(score, list[i + 1], list[j + 1]);
      assert list[1..][i] in list[1..] && list[1..][j] in list[1..];
    }
  }

  lemma BeforeIsTransitive(score: Scores, a: string, b: string, c: string)
    requires a in score && b in score && c in score && Before(score, a, b) && Before(score, b, c)
    ensures Before(score, a, c)
  {
    if score[a] == score[c] {
      LessIsTransitive(a, b, c);
    }
  }

  /** Score tables of patterns. */
  ghost predicate IsScoreOf(score: Scores, patterns: seq<Pattern>) {
    && (forall id :: id in score <==> Appears(patterns, id))
    && (forall id :: id in score ==> score[id] == Total(patterns, id))
  }

  lemma ScoreIsUnique(a: Scores, b: Scores, patterns: seq<Pattern>)
    requires IsScoreOf(a, patterns) && IsScoreOf(b, patterns)
    ensures a == b
  {
    forall id ensures id in a <==> id in b {
      assert id in a <==> Appears(patterns, id);
    }
  }

  lemma {:induction false} TotalOfSplit(a: seq<Pattern>, p: Pattern, b: seq<Pattern>, id: string)
    ensures Total(a + [p] + b, id) == p.hits * Occurrences(p.nodes, id) + Total(a + b, id)
  {
    if a == [] {
      assert a + [p] + b == [p] + b && a + b == b && ([p] + b)[1..] == b;
    } else {
      assert (a + [p] + b)[1..] == a[1..] + [p] + b && (a + b)[1..] == a[1..] + b;
      TotalOfSplit(a[1..], p, b, id);
    }
  }

  lemma Remove(b: seq<Pattern>, p: Pattern) returns (k: nat)
    requires p in multiset(b)
    ensures k < |b| && b == b[..k] + [p] + b[k + 1..]
    ensures multiset(b[..k] + b[k + 1..]) == multiset(b) - multiset{p}
  {
    k :| 0 <= k < |b| && b[k] == p;
    assert b == b[..k] + [p] + b[k + 1..];
  }

  /** Scores do not depend on the order the patterns come back in. */
  lemma {:induction false} TotalOfPermutation(a: seq<Pattern>, b: seq<Pattern>, id: string)
    requires multiset(a) == multiset(b)
    ensures Total(a, id) == Total(b, id)
  {
    if a == [] {
      assert |b| == |multiset(b)| == 0;
    } else {
      assert a == [a[0]] + a[1..];
      var k := Remove(b, a[0]);
      TotalOfPermutation(a[1..], b[..k] + b[k + 1..], id);
      TotalOfSplit(b[..k], a[0], b[k + 1..], id);
    }
  }

  lemma AppearsInPermutation(a: seq<Pattern>, b: seq<Pattern>, id: string)
    requires multiset(a) == multiset(b)
    ensures Appears(a, id) <==> Appears(b, id)
  {
    assert forall p :: p in a <==> p in multiset(a);
    assert forall p :: p in b <==> p in multiset(b);
  }

  function NodesIn(patterns: seq<Pattern>): set<string> {
    set p, id | p in patterns && id in p.nodes :: id
  }

  /** Every node of the patterns with its total score. */
  function ScoreOf(patterns: seq<Pattern>): Scores {
    map id | id in NodesIn(patterns) :: Total(patterns, id)
  }

  /** A scored node that goes before all others. */
  predicate IsBest(score: Scores, b: string) {
    b in score && forall k :: k in score && k != b ==> Before(score, b, k)
  }

  lemma {:induction false} BestExists(score: Scores)
    requires score != map[]
    ensures exists b :: IsBest(score, b)
  {
    var k :| k in score;
    var rest := score - {k};
    if rest == map[] {
      assert forall x :: x in score && x != k ==> x in rest;
      assert IsBest(score, k);
    } else {
      BestExists(rest);
      var b :| IsBest(rest, b);
      LessIsTotal(b, k);
      if Before(score, k, b) {
        forall x | x in score && x != k ensures Before(score, k, x) {
          if x != b {
            assert x in rest && Before(rest, b, x);
            BeforeIsTransitive(score, k, b, x);
          }
        }
        assert IsBest(score, k);
      } else {
        forall x | x in score && x != b ensures Before(score, b, x) {
          assert x != k ==> x in rest && Before(rest, b, x);
        }
        assert IsBest(score, b);
      }
    }
  }

  lemma BestFirst(score: Scores, b: string, tail: seq<string>)
    requires IsBest(score, b)
    requires IsRanking(tail, score - {b})
    ensures IsRanking([b] + tail, score)
  {
    var list := [b] + tail;
    forall id ensures id in list <==> id in score {
      assert id in list <==> id == b || id in tail;
    }
    forall i, j | 0 <= i < j < |list| ensures Before(score, list[i], list[j]) {
      assert list[j] in tail;
      if i > 0 {
        assert list[i] in tail && Before(score - {b}, tail[i - 1], tail[j - 1]);
      }
    }
  }

  lemma OneFewer(score: Scores, b: string)
    requires b in score
    ensures |score - {b}| < |score|
  {
    assert score.Keys == (score - {b}).Keys + {b};
  }

  /** The ranking of a score table, best node first. */
  ghost function Ranking(score: Scores): seq<string>
    decreases |score|
  {
    if score == map[] then []
    else
      BestExists(score);
      var b :| IsBest(score, b);
      OneFewer(score, b);
      [b] + Ranking(score - {b})
  }

  lemma {:induction false} RankingRanks(score: Scores)
    ensures IsRanking(Ranking(score), score)
    decreases |score|
  {
    if score != map[] {
      BestExists(score);
      var b := Ranking(score)[0];
      assert IsBest(score, b);
      OneFewer(score, b);
      RankingRanks(score - {b});
      BestFirst(score, b, Ranking(score - {b}));
    }
  }

  ghost function Recommendation(patterns: seq<Pattern>): seq<string> {
    Ranking(ScoreOf(patterns))
  }

  lemma RecommendationRanks(patterns: seq<Pattern>)
    ensures IsRecommendation(Recommendation(patterns), patterns)
  {
    assert IsScoreOf(ScoreOf(patterns), patterns);
    RankingRanks(ScoreOf(patterns));
  }

  /** The recommendation list for a pattern collection. */
  ghost predicate IsRecommendation(list: seq<string>, patterns: seq<Pattern>) {
    exists score :: IsScoreOf(score, patterns) && IsRanking(list, score)
  }

  lemma SameScore(a: seq<Pattern>, b: seq<Pattern>, score: Scores)
    requires IsScoreOf(score, a)
    requires forall id :: Total(a, id) == Total(b, id) && (Appears(a, id) <==> Appears(b, id))
    ensures IsScoreOf(score, b)
  {
  }

  /** The list is canonical: patterns recalled in any order, scored and sorted in any way, recommend the same list. */
  lemma RecommendationIsCanonical(x: seq<string>, a: seq<Pattern>, y: seq<string>, b: seq<Pattern>)
    requires IsRecommendation(x, a) && IsRecommendation(y, b) && multiset(a) == multiset(b)
    ensures x == y
  {
    forall id ensures Total(a, id) == Total(b, id) && (Appears(a, id) <==> Appears(b, id)) {
      TotalOfPermutation(a, b, id);
      AppearsInPermutation(a, b, id);
    }
    SameRecommendation(x, a, y, b);
  }

  lemma SameRecommendation(x: seq<string>, a: seq<Pattern>, y: seq<string>, b: seq<Pattern>)
    requires IsRecommendation(x, a) && IsRecommendation(y, b)
    requires forall id :: Total(a, id) == Total(b, id) && (Appears(a, id) <==> Appears(b, id))
    ensures x == y
  {
    var s :| IsScoreOf(s, a) && IsRanking(x, s);
    var t :| IsScoreOf(t, b) && IsRanking(y, t);
    SameScore(a, b, s);
    ScoreIsUnique(s, t, b);
    RankingIsUnique(x, y, s);
  }

  /** Without keywords every stored pattern is recalled, and the compacted index recommends what the raw history would. */
  lemma IndexRecommendsLikeHistory(history: seq<Pattern>, x: seq<string>, y: seq<string>)
    requires IsRecommendation(x, Index(history)) && IsRecommendation(y, history)
    ensures x == y
  {
    forall id ensures Total(Index(history), id) == Total(history, id) && (Appears(Index(history), id) <==> Appears(history, id)) {
      IndexAgrees(history, [], id);
    }
    SameRecommendation(x, Index(history), y, history);
  }
}
