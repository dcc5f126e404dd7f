// The node registry, and the candidate list the scheduler builds from it.
module Registry {
  import opened Basics
  import B = Bounds
  import Composition
  import E = EngineSpec
  import G = Gateway
  import Ledger
  import M = StateModel
  import P = Patterns
  import R = Rules

  /** A registered node: the id in its own metadata and the manifest's rules. */
  datatype Entry = Entry(id: string, rules: Option<R.RuleSet>)

  type Entries = map<string, Entry>

  class Registry {
    var builtins: Entries
    var dynamic: Entries

    /** A builtin is stored under its own nonempty id. */
    ghost predicate Valid()
      reads this
    {
      forall key :: key in builtins ==> key != "" && builtins[key] == Entry(key, None)
    }

    constructor ()
      ensures Valid() && builtins == map[] && dynamic == map[]
    {
      builtins, dynamic := map[], map[];
    }

    method RegisterBuiltin(id: string) returns (error: Option<string>)
      requires Valid()
      modifies this
      ensures Valid() && dynamic == old(dynamic)
      ensures error.Some? <==> id == ""
      ensures builtins == if id == "" then old(builtins) else old(builtins)[id := Entry(id, None)]
    {
      if id == "" {
        return Some("node id is required");
      }
      builtins := builtins[id := Entry(id, None)];
      error := None;
    }

    /** What loading a manifest stores: the node behind it may carry another id. */
    method StoreDynamic(manifestId: string, entry: Entry)
      requires Valid()
      modifies this
      ensures Valid() && builtins == old(builtins) && dynamic == old(dynamic)[manifestId := entry]
    {
      dynamic := dynamic[manifestId := entry];
    }

    /** A dynamic entry shadows a builtin. */
    method Get(id: string) returns (entry: Option<Entry>)
      ensures entry == Looked(builtins + dynamic, id)
    {
      if id in dynamic {
        return Some(dynamic[id]);
      }
      entry := if id in builtins then Some(builtins[id]) else None;
    }

    /** One id for every entry, builtins first, each part in any order; a shadowed builtin is listed too. */
    method List() returns (ids: seq<string>)
      ensures |builtins| <= |ids| && IsListing(ids[..|builtins|], builtins) && IsListing(ids[|builtins|..], dynamic)
    {
      var first := ListOf(builtins);
      var second := ListOf(dynamic);
      ids := first + second;
      ListingSize(first, builtins);
      assert ids[..|builtins|] == first && ids[|builtins|..] == second;
    }

    /** What List returns, in ascending order: one id for every entry whatever the map order, and the canonical list while only builtins are registered. */
    method BuildCandidates() returns (ids: seq<string>)
      requires Valid()
      ensures Ascending(ids) && forall id :: multiset(ids)[id] == Entered(builtins, id) + Entered(dynamic, id)
      ensures dynamic == map[] ==> ids == Candidates(builtins)
    {
      var listed := List();
      ListedCounts(listed, |builtins|, builtins, dynamic);
      ids := SortIds(listed);
      if dynamic == map[] {
        BuiltinCandidates(ids, builtins);
      }
    }
  }

  /** The keys of the entries, each once. */
  ghost predicate Enumerates(keys: seq<string>, entries: Entries) {
    && (forall key :: key in keys <==> key in entries)
    && forall i, j :: 0 <= i < j < |keys| ==> keys[i] != keys[j]
  }

  ghost predicate ListedBy(ids: seq<string>, keys: seq<string>, entries: Entries) {
    Enumerates(keys, entries) && |ids| == |keys| && forall i :: 0 <= i < |keys| ==> keys[i] in entries && ids[i] == entries[keys[i]].id
  }

  /** The ids of the entries in some order of their keys, one for each. */
  ghost predicate IsListing(ids: seq<string>, entries: Entries) {
    exists keys :: ListedBy(ids, keys, entries)
  }

  lemma WithoutLast(keys: seq<string>, entries: Entries)
    requires Enumerates(keys, entries) && keys != []
    ensures Enumerates(keys[..|keys| - 1], entries - {keys[|keys| - 1]})
  {
    var n := |keys| - 1;
    var rest := entries - {keys[n]};
    assert keys[n] in keys;
    forall key ensures key in keys[..n] <==> key in rest {
      if key in keys && key != keys[n] {
        var i :| 0 <= i < |keys| && keys[i] == key;
        assert keys[..n][i] == key;
      }
    }
  }

  lemma {:induction false} EnumerationSize(keys: seq<string>, entries: Entries)
    requires Enumerates(keys, entries)
    ensures |keys| == |entries|
  {
    if keys == [] {
      assert entries.Keys == {};
    } else {
      var n := |keys| - 1;
      WithoutLast(keys, entries);
      EnumerationSize(keys[..n], entries - {keys[n]});
      assert keys[n] in keys && (entries - {keys[n]}).Keys == entries.Keys - {keys[n]};
    }
  }

  lemma ListingSize(ids: seq<string>, entries: Entries)
    requires IsListing(ids, entries)
    ensures |ids| == |entries|
  {
    var keys :| ListedBy(ids, keys, entries);
    EnumerationSize(keys, entries);
  }

  /** Builtins are stored under their own ids, so their listing enumerates them. */
  lemma BuiltinListing(ids: seq<string>, builtins: Entries)
    requires IsListing(ids, builtins) && forall key :: key in builtins ==> builtins[key].id == key
    ensures Enumerates(ids, builtins)
  {
    var keys :| ListedBy(ids, keys, builtins);
    assert ids == keys;
  }

  // ----- sorting by id -----

  predicate Ascending(ids: seq<string>) {
    forall i, j :: 0 <= i < j < |ids| ==> !P.Less(ids[j], ids[i])
  }

  /** How many entries carry the id. */
  ghost function Entered(entries: Entries, id: string): nat {
    |set key | key in entries && entries[key].id == id|
  }

  lemma EnteredRest(entries: Entries, key: string, id: string)
    requires key in entries
    ensures Entered(entries, id) == Entered(entries - {key}, id) + if entries[key].id == id then 1 else 0
  {
    var named := set k | k in entries && entries[k].id == id;
    assert named - {key} == set k | k in entries - {key} && (entries - {key})[k].id == id;
  }

  lemma CountLast(ids: seq<string>, id: string)
    requires ids != []
    ensures multiset(ids)[id] == multiset(ids[..|ids| - 1])[id] + if ids[|ids| - 1] == id then 1 else 0
  {
    assert ids == ids[..|ids| - 1] + [ids[|ids| - 1]];
  }

  lemma {:induction false} EnteredOnce(ids: seq<string>, keys: seq<string>, entries: Entries, id: string)
    requires ListedBy(ids, keys, entries)
    ensures multiset(ids)[id] == Entered(entries, id)
  {
    if keys == [] {
      assert entries == map[];
    } else {
      var n := |keys| - 1;
      WithoutLast(keys, entries);
      EnteredOnce(ids[..n], keys[..n], entries - {keys[n]}, id);
      CountLast(ids, id);
      EnteredRest(entries, keys[n], id);
    }
  }

  lemma ListingCounts(ids: seq<string>, entries: Entries)
    requires IsListing(ids, entries)
    ensures forall id :: multiset(ids)[id] == Entered(entries, id)
  {
    var keys :| ListedBy(ids, keys, entries);
    forall id ensures multiset(ids)[id] == Entered(entries, id) {
      EnteredOnce(ids, keys, entries, id);
    }
  }

  lemma CountsAdd(ids: seq<string>, at: nat, builtins: Entries, dynamic: Entries)
    requires at <= |ids|
    requires forall id :: multiset(ids[..at])[id] == Entered(builtins, id)
    requires forall id :: multiset(ids[at..])[id] == Entered(dynamic, id)
    ensures forall id :: multiset(ids)[id] == Entered(builtins, id) + Entered(dynamic, id)
  {
    assert ids == ids[..at] + ids[at..];
    assert multiset(ids) == multiset(ids[..at]) + multiset(ids[at..]);
  }

  lemma ListedCounts(ids: seq<string>, at: nat, builtins: Entries, dynamic: Entries)
    requires at <= |ids| && IsListing(ids[..at], builtins) && IsListing(ids[at..], dynamic)
    ensures forall id :: multiset(ids)[id] == Entered(builtins, id) + Entered(dynamic, id)
  {
    ListingCounts(ids[..at], builtins);
    ListingCounts(ids[at..], dynamic);
    CountsAdd(ids, at, builtins, dynamic);
  }

  lemma LeastFirst(a: seq<string>, b: seq<string>)
    requires Ascending(a) && Ascending(b) && a != [] && b != []
    requires a[0] in b && b[0] in a
    ensures a[0] == b[0]
  {
    P.LessIsTotal(a[0], b[0]);
  }

  lemma RestCounts(a: seq<string>)
    requires a != []
    ensures multiset(a[1..]) == multiset(a) - multiset{a[0]}
  {
    assert a == [a[0]] + a[1..];
  }

  /** Ids in ascending order are determined by how often each occurs: neither map order nor the sort can change the candidate list. */
  lemma {:induction false} AscendingIsUnique(a: seq<string>, b: seq<string>)
    requires Ascending(a) && Ascending(b) && multiset(a) == multiset(b)
    ensures a == b
  {
    assert |multiset(a)| == |a| && |multiset(b)| == |b|;
    if a != [] {
      assert a[0] in multiset(b) && b[0] in multiset(a);
      LeastFirst(a, b);
      RestCounts(a);
      RestCounts(b);
      AscendingIsUnique(a[1..], b[1..]);
      assert a == [a[0]] + a[1..];
    }
  }

  lemma {:induction false} OccursOnce(ids: seq<string>, id: string)
    requires forall i, j :: 0 <= i < j < |ids| ==> ids[i] != ids[j]
    ensures multiset(ids)[id] == if id in ids then 1 else 0
  {
    if ids != [] {
      assert ids == [ids[0]] + ids[1..];
      OccursOnce(ids[1..], id);
    }
  }

  lemma BuiltinCandidates(ids: seq<string>, builtins: Entries)
    requires Ascending(ids) && forall id :: multiset(ids)[id] == Entered(builtins, id) + Entered(map[], id)
    requires forall key :: key in builtins ==> builtins[key].id == key
    ensures ids == Candidates(builtins)
  {
    var sorted := Candidates(builtins);
    CandidatesAreSorted(builtins, sorted);
    forall i, j | 0 <= i < j < |sorted| ensures !P.Less(sorted[j], sorted[i]) && sorted[i] != sorted[j] {
      P.LessIsTotal(sorted[i], sorted[j]);
    }
    forall id ensures multiset(ids)[id] == multiset(sorted)[id] {
      OccursOnce(sorted, id);
      assert (set key | key in builtins && builtins[key].id == id) == if id in builtins then {id} else {};
    }
    AscendingIsUnique(ids, sorted);
  }

  method InsertId(list: seq<string>, id: string) returns (out: seq<string>)
    requires Ascending(list)
    ensures Ascending(out) && multiset(out) == multiset(list) + multiset{id}
  {
    var at := 0;
    while at < |list| && P.Less(list[at], id)
      invariant 0 <= at <= |list|
      invariant forall k :: 0 <= k < at ==> P.Less(list[k], id)
    {
      at := at + 1;
    }
    out := list[..at] + [id] + list[at..];
    assert list == list[..at] + list[at..];
    InsertionAscends(list, id, at);
  }

  lemma InsertionAscends(list: seq<string>, id: string, at: nat)
    requires Ascending(list) && at <= |list|
    requires forall k :: 0 <= k < at ==> P.Less(list[k], id)
    requires at < |list| ==> !P.Less(list[at], id)
    ensures Ascending(list[..at] + [id] + list[at..])
  {
    var out := list[..at] + [id] + list[at..];
    forall k | at < k < |list| ensures !P.Less(list[k], id) {
      P.LessIsTotal(list[at], list[k]);
      if P.Less(list[k], id) && list[at] != list[k] {
        P.LessIsTransitive(list[at], list[k], id);
      }
    }
    forall i, j | 0 <= i < j < |out| ensures !P.Less(out[j], out[i]) {
      assert i < at ==> out[i] == list[i];
      assert i > at ==> out[i] == list[i - 1];
      assert j < at ==> out[j] == list[j];
      assert j > at ==> out[j] == list[j - 1];
      P.LessIsTotal(out[i], out[j]);
    }
  }

  /** `sort.Slice` by id. */
  method SortIds(ids: seq<string>) returns (out: seq<string>)
    ensures Ascending(out) && multiset(out) == multiset(ids)
  {
    out := [];
    for i := 0 to |ids|
      invariant Ascending(out) && multiset(out) == multiset(ids[..i])
    {
      out := InsertId(out, ids[i]);
      assert ids[..i + 1] == ids[..i] + [ids[i]];
    }
    assert ids[..|ids|] == ids;
  }

  method ListOf(entries: Entries) returns (ids: seq<string>)
    ensures IsListing(ids, entries)
  {
    ids := [];
    ghost var keys: seq<string> := [];
    var left := entries.Keys;
    while left != {}
      invariant left <= entries.Keys
      invariant forall key :: key in keys <==> key in entries && key !in left
      invariant forall i, j :: 0 <= i < j < |keys| ==> keys[i] != keys[j]
      invariant |ids| == |keys| && forall i :: 0 <= i < |keys| ==> keys[i] in entries && ids[i] == entries[keys[i]].id
      decreases |left|
    {
      var key :| key in left;
      ids := ids + [entries[key].id];
      keys := keys + [key];
      left := left - {key};
    }
    assert ListedBy(ids, keys, entries);
  }

  function Looked(entries: Entries, id: string): Option<Entry> {
    if id in entries then Some(entries[id]) else None
  }

  /** The same score for every id: their ranking is by id alone. */
  function Even(ids: set<string>): P.Scores {
    map id | id in ids :: 0
  }

  ghost function Candidates(builtins: Entries): seq<string> {
    P.Ranking(Even(builtins.Keys))
  }

  /** Candidates are exactly the builtin ids, each once, in ascending order; no other list is. */
  lemma CandidatesAreSorted(builtins: Entries, ids: seq<string>)
    ensures ids == Candidates(builtins) <==>
      && (forall id :: id in ids <==> id in builtins)
      && (forall i, j :: 0 <= i < j < |ids| ==> P.Less(ids[i], ids[j]))
  {
    var score := Even(builtins.Keys);
    P.RankingRanks(score);
    if (forall id :: id in ids <==> id in builtins) && (forall i, j :: 0 <= i < j < |ids| ==> P.Less(ids[i], ids[j])) {
      P.RankingIsUnique(ids, Candidates(builtins), score);
    }
  }

  /** Whatever is listed can be looked up if and only if each dynamic node's own id is registered. */
  lemma ListedIsRegistered(builtins: Entries, dynamic: Entries, first: seq<string>, second: seq<string>)
    requires IsListing(first, builtins) && IsListing(second, dynamic)
    requires forall key :: key in builtins ==> builtins[key].id == key
    ensures (forall id :: id in first + second ==> Looked(builtins + dynamic, id).Some?)
       <==> (forall key :: key in dynamic ==> dynamic[key].id in builtins || dynamic[key].id in dynamic)
  {
    BuiltinListing(first, builtins);
    var keys :| ListedBy(second, keys, dynamic);
    if forall id :: id in first + second ==> Looked(builtins + dynamic, id).Some? {
      forall key | key in dynamic ensures dynamic[key].id in builtins || dynamic[key].id in dynamic {
        var i :| 0 <= i < |keys| && keys[i] == key;
        assert second[i] in first + second;
      }
    }
  }

  // ----- runs over a registry of builtins -----

  /** The registry holds these builtins for the whole run. */
  ghost predicate ServedBy(env: E.Env, builtins: Entries) {
    && (forall n :: env.candidates(n) == Candidates(builtins))
    && (forall n, id :: env.lookup(n, id) == if id in builtins then E.Found(None) else E.Missing)
  }

  /** With the gateway in front, builtins only, planning off and more steps than nodes times visits, a run that returns normally was ended by the model, the loop detector or the deadline. */
  lemma BuiltinRuns(
    cfg: E.Config, env: E.Env, gw: G.Config, worlds: int -> G.World, st: M.State, book: Ledger.Book, builtins: Entries)
    requires Composition.DecidedBy(env, gw, worlds) && ServedBy(env, builtins) && gw.retry.maxAttempts >= 1
    ensures var (r, out) := E.RunTask(cfg, env, st, book);
      && (out.Errored? ==> !Composition.ProtocolError(out.error))
      && (!cfg.planning && cfg.maxSteps > |builtins| * B.Limit(cfg) && out.Finished? ==> out.summary.reason != Ledger.MaxSteps)
  {
    forall n, id | id in env.candidates(n) ensures env.lookup(n, id).Found? {
      CandidatesAreSorted(builtins, env.candidates(n));
    }
    Composition.GatewayRunsAreOrderly(cfg, env, gw, worlds, st, book);
    assert B.OnlyRegistered(env, builtins.Keys);
    assert |builtins.Keys| == |builtins|;
    if !cfg.planning && cfg.maxSteps > |builtins| * B.Limit(cfg) {
      Composition.NeverOutOfSteps(cfg, env, gw, worlds, st, book, builtins.Keys);
    }
  }
}
