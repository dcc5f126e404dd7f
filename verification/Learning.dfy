// What a run leaves in pattern memory, and what the next run with the same keywords gets to hear of it.
module Learning {
  import opened Basics
  import opened EngineSpec
  import opened Ledger
  import C = Contract
  import L = Lineage
  import M = StateModel
  import P = Patterns
  import Recovery

  lemma {:induction false} SupportUpdate(patterns: seq<P.Pattern>, i: nat, hits: int, keywords: seq<string>, id: string)
    requires i < |patterns| && Wanted(patterns[i], keywords)
    ensures Support(patterns[i := patterns[i].(hits := patterns[i].hits + hits)], keywords, id)
         == Support(patterns, keywords, id) + hits * P.Occurrences(patterns[i].nodes, id)
  {
    var last := |patterns| - 1;
    var after := patterns[i := patterns[i].(hits := patterns[i].hits + hits)];
    if i < last {
      SupportUpdate(patterns[..last], i, hits, keywords, id);
      assert after[..last] == patterns[..last][i := after[i]];
    } else {
      assert after[..last] == patterns[..last];
      var occ := P.Occurrences(patterns[i].nodes, id);
      assert (patterns[i].hits + hits) * occ == patterns[i].hits * occ + hits * occ;
    }
  }

  /** Whether merged or appended, a pattern adds its own weight to what its keywords recall. */
  lemma UpsertSupport(patterns: seq<P.Pattern>, p: P.Pattern, id: string)
    ensures Support(P.Upsert(patterns, p), p.keywords, id) == Support(patterns, p.keywords, id) + p.hits * P.Occurrences(p.nodes, id)
  {
    P.UpsertShape(patterns, p);
    var after := P.Upsert(patterns, p);
    if i :| 0 <= i < |patterns| && P.Same(patterns[i], p) && after == patterns[i := patterns[i].(hits := patterns[i].hits + p.hits)] {
      SupportUpdate(patterns, i, p.hits, p.keywords, id);
    } else {
      assert after[..|after| - 1] == patterns;
      assert p.keywords != [] ==> p.keywords[0] in p.keywords;
    }
  }

  lemma PersistKeepsPatterns(cfg: Config, env: Env, n: int, r: Run, call: C.FunctionCall, route: C.RouteDecision, patch: M.Patch, output: JsonMap)
    requires r.book.task.Some?
    ensures var r1 := Persist(cfg, env, n, L.Logged(n, r, call, route), route, r.st, patch, output).0;
      r1.book.task.Some? && r1.book.patterns == r.book.patterns && r1.st.input == r.st.input
  {
    var st := M.Patched(L.Logged(n, r, call, route).st, patch, cfg.sensitive);
    Recovery.RecordByCases(env, n, r.book, st, SnapshotOf(st, patch), StepOf(env, n, route, r.st, output));
  }

  lemma ShapeKeepsPatterns(cfg: Config, env: Env, n: int, r: Run, end: (Run, Control))
    requires r.book.task.Some? && (L.Quiet(r, end.0) || L.Persisted(cfg, env, n, r, end))
    ensures end.0.book.task.Some? && end.0.book.patterns == r.book.patterns && end.0.st.input == r.st.input
  {
    if !L.Quiet(r, end.0) {
      var call, route, patch, output :| end == Persist(cfg, env, n, L.Logged(n, r, call, route), route, r.st, patch, output);
      PersistKeepsPatterns(cfg, env, n, r, call, route, patch, output);
    }
  }

  lemma IterateKeepsPatterns(cfg: Config, env: Env, n: int, r: Run)
    requires r.book.task.Some?
    ensures var r1 := Iterate(cfg, env, n, r).0;
      r1.book.task.Some? && r1.book.patterns == r.book.patterns && r1.st.input == r.st.input
  {
    L.IterateShape(cfg, env, n, r);
    ShapeKeepsPatterns(cfg, env, n, r, Iterate(cfg, env, n, r));
  }

  lemma LoopKeepsPatterns(cfg: Config, env: Env, r: Run)
    requires r.book.task.Some?
    ensures var r1 := Loop(cfg, env, 1, r).0;
      r1.book.task.Some? && r1.book.patterns == r.book.patterns && r1.st.input == r.st.input
  {
    var holds := (q: Run) => q.book.task.Some? && q.book.patterns == r.book.patterns && q.st.input == r.st.input;
    forall k, q | holds(q) ensures holds(Iterate(cfg, env, k, q).0) {
      IterateKeepsPatterns(cfg, env, k, q);
    }
    L.LoopInduction(cfg, env, r, holds);
  }

  /** One more hit for exactly this hop sequence, and one more vote per occurrence for its nodes when the same keywords are asked for. */
  ghost predicate Remembers(before: seq<P.Pattern>, after: seq<P.Pattern>, keywords: seq<string>, hops: seq<string>) {
    && (forall nodes :: P.HitsFor(after, nodes) == P.HitsFor(before, nodes) + if nodes == hops then 1 else 0)
    && (forall id :: Support(after, keywords, id) == Support(before, keywords, id) + P.Occurrences(hops, id))
    && (forall id :: P.Appears(after, id) <==> P.Appears(before, id) || id in hops)
    && (exists p :: p in after && p.nodes == hops && Wanted(p, keywords))
  }

  lemma HoldsTheRun(patterns: seq<P.Pattern>, p: P.Pattern)
    ensures exists q :: q in P.Upsert(patterns, p) && q.nodes == p.nodes && Wanted(q, p.keywords)
  {
    P.UpsertShape(patterns, p);
    var after := P.Upsert(patterns, p);
    if i :| 0 <= i < |patterns| && P.Same(patterns[i], p) && after == patterns[i := patterns[i].(hits := patterns[i].hits + p.hits)] {
      assert after[i] in after && Wanted(after[i], p.keywords);
    } else {
      assert p.keywords != [] ==> p.keywords[0] in p.keywords;
      assert p in after && Wanted(p, p.keywords);
    }
  }

  lemma UpsertRemembers(patterns: seq<P.Pattern>, keywords: seq<string>, hops: seq<string>)
    ensures Remembers(patterns, P.Upsert(patterns, P.Pattern(keywords, hops, 1)), keywords, hops)
  {
    var p := P.Pattern(keywords, hops, 1);
    forall nodes ensures P.HitsFor(P.Upsert(patterns, p), nodes) == P.HitsFor(patterns, nodes) + if nodes == hops then 1 else 0 {
      P.UpsertSums(patterns, p, nodes, "");
    }
    forall id ensures Support(P.Upsert(patterns, p), keywords, id) == Support(patterns, keywords, id) + P.Occurrences(hops, id) {
      UpsertSupport(patterns, p, id);
    }
    forall id ensures P.Appears(P.Upsert(patterns, p), id) <==> P.Appears(patterns, id) || id in hops {
      P.UpsertAppears(patterns, p, id);
    }
    HoldsTheRun(patterns, p);
  }

  lemma CloseRemembers(env: Env, r: Run, reason: Reason)
    ensures var (r1, out) := Close(env, r, reason);
      && r1.st.input == r.st.input && r1.st.decisionLog == r.st.decisionLog
      && (out.Finished? ==>
            r1.book.patterns == if env.fails(Finish, UpsertPattern) then r.book.patterns
                                else P.Upsert(r.book.patterns, P.Pattern(r.st.input.keywords, HopsOf(r.st.decisionLog), 1)))
  {
  }

  /** A finished run is remembered once, under its own keywords and with every decided hop; memory changes in no other way. */
  lemma RunIsRemembered(cfg: Config, env: Env, st: M.State, book: Book)
    ensures var (r, out) := RunTask(cfg, env, st, book);
      out.Finished? ==>
        && r.st.input == st.input
        && (env.fails(Finish, UpsertPattern) ==> r.book.patterns == book.patterns)
        && (!env.fails(Finish, UpsertPattern) ==> Remembers(book.patterns, r.book.patterns, st.input.keywords, HopsOf(r.st.decisionLog)))
  {
    var begun := Open(env, book, st);
    if begun.Some? {
      var r0 := Run(st, begun.value, map[]);
      LoopKeepsPatterns(cfg, env, r0);
      var (r, c) := Loop(cfg, env, 1, r0);
      UpsertRemembers(book.patterns, st.input.keywords, HopsOf(r.st.decisionLog));
      if c.Stop? {
        CloseRemembers(env, r, c.reason);
      }
    }
  }

  /** The next run asked for the same keywords is recommended every hop this one decided on. */
  lemma NextRunIsAdvised(cfg: Config, env: Env, st: M.State, book: Book, cfg2: Config, env2: Env, n: int, next: Run, id: string)
    requires RunTask(cfg, env, st, book).1.Finished? && !env.fails(Finish, UpsertPattern)
    requires next.book.patterns == RunTask(cfg, env, st, book).0.book.patterns && next.st.input.keywords == st.input.keywords
    requires id in HopsOf(RunTask(cfg, env, st, book).0.st.decisionLog) && !env2.fails(At(n), RecallPatterns)
    ensures id in RequestFor(cfg2, env2, n, next).recommended
  {
    RunIsRemembered(cfg, env, st, book);
    RecommendationMeans(next.book.patterns, st.input.keywords);
  }
}
