// Admission rules: nested and/or groups of expressions, with a cache of compiled expressions.
module Rules {
  import opened Basics
  import opened Text
  import opened Expressions
  import M = StateModel

  datatype Rule = Rule(expression: string, reason: string)

  datatype RuleSet = RuleSet(operator: string, rules: seq<Rule>, groups: seq<RuleSet>)

  datatype Verdict = Verdict(allowed: bool, reason: string, details: Option<string>)

  const ALLOW := Verdict(true, "", None)

  function Reject(reason: string): Verdict {
    Verdict(false, reason, None)
  }

  /** A compiled expression; nothing is known about it but its identity. */
  datatype Ast = Ast(handle: int)

  /** The expression library: compile covers parsing and checking, build and eval run a compiled expression. */
  datatype Cel = Cel(
    parse: string -> Option<string>,
    check: string -> Result<Ast, string>,
    build: Ast -> Option<string>,
    eval: (Ast, M.State) -> Result<Json, string>)

  function Quoted(expr: string): string {
    "\"" + expr + "\""
  }

  /** Compilation without a cache: the parser's complaint first, then the checker's. */
  function Compile(cel: Cel, expr: string): Result<Ast, string> {
    match cel.parse(expr)
    case Some(issue) => Err("parse rule " + Quoted(expr) + ": " + issue)
    case None =>
      match cel.check(expr)
      case Err(issue) => Err("check rule " + Quoted(expr) + ": " + issue)
      case Ok(ast) => Ok(ast)
  }

  function RunCompiled(cel: Cel, rule: Rule, expr: string, ast: Ast, st: M.State): Verdict {
    match cel.build(ast)
    case Some(err) => Reject("build program " + Quoted(expr) + ": " + err)
    case None =>
      match cel.eval(ast, st)
      case Err(err) => Reject("eval rule " + Quoted(expr) + ": " + err)
      case Ok(Bool(true)) => ALLOW
      case Ok(Bool(false)) =>
        var reason := TrimSpace(rule.reason);
        Verdict(false, if reason == "" then "rule rejected: " + expr else reason, Some(expr))
      case Ok(_) => Reject("rule " + Quoted(expr) + " did not return bool")
  }

  /** One rule, evaluated without any cache. */
  function RuleVerdict(cel: Cel, rule: Rule, st: M.State): Verdict {
    var expr := Normalized(TrimSpace(rule.expression));
    if expr == "" then ALLOW
    else
      match Compile(cel, expr)
      case Err(reason) => Reject(reason)
      case Ok(ast) => RunCompiled(cel, rule, expr, ast, st)
  }

  function Operator(set_: RuleSet): string {
    var op := ToLower(TrimSpace(set_.operator));
    if op == "" then "and" else op
  }

  /** The first nonempty reason. */
  function FirstReason(results: seq<Verdict>): string {
    if results == [] then "all rules rejected"
    else if results[0].reason != "" then results[0].reason
    else FirstReason(results[1..])
  }

  function FirstRejected(results: seq<Verdict>): Verdict {
    if results == [] then ALLOW
    else if !results[0].allowed then results[0]
    else FirstRejected(results[1..])
  }

  function Combine(op: string, results: seq<Verdict>): Verdict {
    if op == "or" then
      if exists r :: r in results && r.allowed then ALLOW else Reject(FirstReason(results))
    else FirstRejected(results)
  }

  /** Cache-free evaluation of a rule set on a converted state. */
  function SetVerdict(cel: Cel, rules: RuleSet, st: M.State): Verdict {
    if rules.rules == [] && rules.groups == [] then ALLOW
    else Combine(Operator(rules), RuleVerdicts(cel, rules.rules, st) + GroupVerdicts(cel, rules.groups, st))
  }

  function RuleVerdicts(cel: Cel, rules: seq<Rule>, st: M.State): seq<Verdict> {
    seq(|rules|, i requires 0 <= i < |rules| => RuleVerdict(cel, rules[i], st))
  }

  function GroupVerdicts(cel: Cel, groups: seq<RuleSet>, st: M.State): (r: seq<Verdict>)
    ensures |r| == |groups|
    ensures forall i :: 0 <= i < |groups| ==> r[i] == SetVerdict(cel, groups[i], st)
  {
    if groups == [] then [] else [SetVerdict(cel, groups[0], st)] + GroupVerdicts(cel, groups[1..], st)
  }

  /** Evaluation including a failed conversion of the state. */
  function Evaluated(cel: Cel, rules: RuleSet, st: Result<M.State, string>): Verdict {
    match st
    case Ok(view) => SetVerdict(cel, rules, view)
    case Err(err) => if rules.rules == [] && rules.groups == [] then ALLOW else Reject(err)
  }

  /** The evaluator object: its cache only ever saves work. */
  class Evaluator {
    const cel: Cel
    var cache: map<string, Ast>

    /** Each entry is the successful compilation of its own key. */
    ghost predicate Valid()
      reads this
    {
      forall expr :: expr in cache ==> Compile(cel, expr) == Ok(cache[expr])
    }

    constructor (cel: Cel)
      ensures Valid() && this.cel == cel && cache == map[]
    {
      this.cel := cel;
      cache := map[];
    }

    method EvaluateRule(rule: Rule, st: M.State) returns (r: Verdict)
      requires Valid()
      modifies this
      ensures Valid() && old(cache.Keys) <= cache.Keys
      ensures r == RuleVerdict(cel, rule, st) && (r.allowed <==> LeafHolds(cel, rule, st))
    {
      LeafVerdict(cel, rule, st);
      var expr := NormalizeExpression(TrimSpace(rule.expression));
      if expr == "" {
        return ALLOW;
      }
      var checked: Ast;
      if expr in cache {
        checked := cache[expr];
      } else {
        match Compile(cel, expr) {
          case Err(reason) => return Reject(reason);
          case Ok(compiled) =>
            cache := cache[expr := compiled];
            checked := compiled;
        }
      }
      r := RunCompiled(cel, rule, expr, checked, st);
    }

    method EvaluateRules(rules: seq<Rule>, st: M.State) returns (results: seq<Verdict>)
      requires Valid()
      modifies this
      ensures Valid() && old(cache.Keys) <= cache.Keys
      ensures results == RuleVerdicts(cel, rules, st)
    {
      results := [];
      for i := 0 to |rules|
        invariant Valid() && old(cache.Keys) <= cache.Keys
        invariant |results| == i && forall k :: 0 <= k < i ==> results[k] == RuleVerdict(cel, rules[k], st)
      {
        var r := EvaluateRule(rules[i], st);
        results := results + [r];
      }
    }

    method EvaluateGroups(rules: RuleSet, st: M.State) returns (results: seq<Verdict>)
      requires Valid()
      modifies this
      ensures Valid() && old(cache.Keys) <= cache.Keys
      ensures results == GroupVerdicts(cel, rules.groups, st)
      decreases rules, 0
    {
      results := [];
      for i := 0 to |rules.groups|
        invariant Valid() && old(cache.Keys) <= cache.Keys
        invariant |results| == i && forall k :: 0 <= k < i ==> results[k] == SetVerdict(cel, rules.groups[k], st)
      {
        var g := Evaluate(rules.groups[i], Ok(st));
        results := results + [g];
      }
    }

    method Evaluate(rules: RuleSet, st: Result<M.State, string>) returns (r: Verdict)
      requires Valid()
      modifies this
      ensures Valid() && old(cache.Keys) <= cache.Keys
      ensures r == Evaluated(cel, rules, st)
      decreases rules, 1
    {
      if |rules.rules| == 0 && |rules.groups| == 0 {
        return ALLOW;
      }
      var operator := Operator(rules);
      if st.Err? {
        return Reject(st.error);
      }
      var results := EvaluateRules(rules.rules, st.value);
      var groups := EvaluateGroups(rules, st.value);
      r := CombineResults(operator, results + groups);
    }
  }

  method CombineResults(operator: string, results: seq<Verdict>) returns (r: Verdict)
    ensures r == Combine(operator, results)
  {
    if operator == "or" {
      for i := 0 to |results|
        invariant forall k :: 0 <= k < i ==> !results[k].allowed
      {
        if results[i].allowed {
          return ALLOW;
        }
      }
      return Reject(FirstReason(results));
    }
    for i := 0 to |results|
      invariant FirstRejected(results) == FirstRejected(results[i..])
    {
      assert results[i..][1..] == results[i + 1..];
      if !results[i].allowed {
        return results[i];
      }
    }
    assert results[|results|..] == [];
    return ALLOW;
  }

  // ----- what a rule set means -----

  /** The expression library takes the expression all the way to this boolean. */
  predicate EvaluatesTo(cel: Cel, expr: string, st: M.State, b: bool) {
    && cel.parse(expr).None? && cel.check(expr).Ok? && cel.build(cel.check(expr).value).None?
    && cel.eval(cel.check(expr).value, st) == Ok(Bool(b))
  }

  /** What the library complains about, at the first stage that goes wrong. */
  predicate Complains(cel: Cel, expr: string, st: M.State, complaint: string) {
    if cel.parse(expr).Some? then complaint == cel.parse(expr).value
    else if cel.check(expr).Err? then complaint == cel.check(expr).error
    else
      var ast := cel.check(expr).value;
      if cel.build(ast).Some? then complaint == cel.build(ast).value
      else if cel.eval(ast, st).Err? then complaint == cel.eval(ast, st).error
      else !cel.eval(ast, st).value.Bool? && complaint == " did not return bool"
  }

  function Expression(rule: Rule): string {
    Normalized(TrimSpace(rule.expression))
  }

  /** A leaf holds when its expression is empty or evaluates to true. */
  predicate LeafHolds(cel: Cel, rule: Rule, st: M.State) {
    Expression(rule) == "" || EvaluatesTo(cel, Expression(rule), st, true)
  }

  predicate EndsWith(s: string, end: string) {
    |end| <= |s| && s[|s| - |end|..] == end
  }

  /** A leaf that evaluates to false gives its own reason, or names the expression when it has none; any other one passes the library's complaint on. */
  ghost predicate LeafReason(cel: Cel, rule: Rule, st: M.State, reason: string) {
    if EvaluatesTo(cel, Expression(rule), st, false) then
      reason == if Blank(rule.reason) then "rule rejected: " + Expression(rule) else TrimSpace(rule.reason)
    else exists complaint :: Complains(cel, Expression(rule), st, complaint) && EndsWith(reason, complaint)
  }

  /** A rule is allowed exactly when its leaf holds, and otherwise says why. */
  lemma LeafVerdict(cel: Cel, rule: Rule, st: M.State)
    ensures RuleVerdict(cel, rule, st).allowed <==> LeafHolds(cel, rule, st)
    ensures RuleVerdict(cel, rule, st).allowed ==> RuleVerdict(cel, rule, st) == ALLOW
    ensures !LeafHolds(cel, rule, st) ==> LeafReason(cel, rule, st, RuleVerdict(cel, rule, st).reason)
  {
    var expr, reason := Expression(rule), RuleVerdict(cel, rule, st).reason;
    if !LeafHolds(cel, rule, st) && !EvaluatesTo(cel, expr, st, false) {
      var complaint := Complaint(cel, expr, st);
      ReasonComplains(cel, rule, st, complaint);
    }
  }

  lemma Complaint(cel: Cel, expr: string, st: M.State) returns (complaint: string)
    requires !EvaluatesTo(cel, expr, st, true) && !EvaluatesTo(cel, expr, st, false)
    ensures Complains(cel, expr, st, complaint)
  {
    complaint := if cel.parse(expr).Some? then cel.parse(expr).value
      else if cel.check(expr).Err? then cel.check(expr).error
      else if cel.build(cel.check(expr).value).Some? then cel.build(cel.check(expr).value).value
      else if cel.eval(cel.check(expr).value, st).Err? then cel.eval(cel.check(expr).value, st).error
      else " did not return bool";
  }

  lemma ReasonComplains(cel: Cel, rule: Rule, st: M.State, complaint: string)
    requires Expression(rule) != "" && Complains(cel, Expression(rule), st, complaint)
    ensures EndsWith(RuleVerdict(cel, rule, st).reason, complaint)
  {
  }

  /** Boolean meaning: "or" is disjunction, every other operator conjunction, and an empty set is true. */
  predicate Holds(cel: Cel, rules: RuleSet, st: M.State) {
    if rules.rules == [] && rules.groups == [] then true
    else if ToLower(TrimSpace(rules.operator)) == "or" then
      || (exists r :: r in rules.rules && LeafHolds(cel, r, st))
      || (exists g :: g in rules.groups && Holds(cel, g, st))
    else
      && (forall r :: r in rules.rules ==> LeafHolds(cel, r, st))
      && (forall g :: g in rules.groups ==> Holds(cel, g, st))
  }

  predicate IsLeaf(rule: Rule, rules: RuleSet) {
    || rule in rules.rules
    || exists g :: g in rules.groups && IsLeaf(rule, g)
  }

  /** A rejection carries the nonempty reason of some leaf of the tree that itself rejects. */
  ghost predicate Explained(cel: Cel, rules: RuleSet, st: M.State, v: Verdict) {
    v.reason != "" && exists leaf :: IsLeaf(leaf, rules) && RejectsWith(cel, leaf, st, v.reason)
  }

  ghost predicate RejectsWith(cel: Cel, leaf: Rule, st: M.State, reason: string) {
    !LeafHolds(cel, leaf, st) && LeafReason(cel, leaf, st, reason)
  }

  lemma RejectionHasReason(cel: Cel, rule: Rule, st: M.State)
    ensures RuleVerdict(cel, rule, st).allowed <==> RuleVerdict(cel, rule, st).reason == ""
  {
  }

  /** How the collected verdicts combine: "or" allows as soon as one does and else gives the first nonempty reason; any other operator gives the first rejection. */
  lemma CombineFinds(op: string, results: seq<Verdict>)
    ensures op == "or" && (exists r :: r in results && r.allowed) ==> Combine(op, results) == ALLOW
    ensures op == "or" && (forall r :: r in results ==> !r.allowed) ==>
      if exists r :: r in results && r.reason != "" then
        exists i :: 0 <= i < |results| && Combine(op, results) == Reject(results[i].reason) && FirstWithReason(results, i)
      else Combine(op, results) == Reject("all rules rejected")
    ensures op != "or" ==>
      if forall r :: r in results ==> r.allowed then Combine(op, results) == ALLOW
      else exists i :: 0 <= i < |results| && Combine(op, results) == results[i] && FirstRejecting(results, i)
  {
    FirstReasonFinds(results);
    FirstRejectedFinds(results);
  }

  predicate FirstWithReason(results: seq<Verdict>, i: nat)
    requires i < |results|
  {
    results[i].reason != "" && forall k :: 0 <= k < i ==> results[k].reason == ""
  }

  predicate FirstRejecting(results: seq<Verdict>, i: nat)
    requires i < |results|
  {
    !results[i].allowed && forall k :: 0 <= k < i ==> results[k].allowed
  }

  lemma {:induction false} FirstReasonFinds(results: seq<Verdict>)
    ensures if exists r :: r in results && r.reason != "" then
        exists i :: 0 <= i < |results| && FirstReason(results) == results[i].reason && FirstWithReason(results, i)
      else FirstReason(results) == "all rules rejected"
  {
    if results != [] {
      FirstReasonFinds(results[1..]);
      if results[0].reason != "" {
        assert FirstWithReason(results, 0);
      } else if r :| r in results && r.reason != "" {
        assert r in results[1..];
        var i :| 0 <= i < |results[1..]| && FirstReason(results[1..]) == results[1..][i].reason && FirstWithReason(results[1..], i);
        assert results[i + 1] == results[1..][i];
        assert forall k :: 0 < k < i + 1 ==> results[k] == results[1..][k - 1];
        assert FirstWithReason(results, i + 1);
      }
    }
  }

  lemma {:induction false} FirstRejectedFinds(results: seq<Verdict>)
    ensures if forall r :: r in results ==> r.allowed then FirstRejected(results) == ALLOW
      else exists i :: 0 <= i < |results| && FirstRejected(results) == results[i] && FirstRejecting(results, i)
  {
    if results != [] {
      FirstRejectedFinds(results[1..]);
      if !results[0].allowed {
        assert FirstRejecting(results, 0);
      } else if r :| r in results && !r.allowed {
        assert r in results[1..];
        var i :| 0 <= i < |results[1..]| && FirstRejected(results[1..]) == results[1..][i] && FirstRejecting(results[1..], i);
        assert results[i + 1] == results[1..][i];
        assert forall k :: 0 < k < i + 1 ==> results[k] == results[1..][k - 1];
        assert FirstRejecting(results, i + 1);
      }
    }
  }

  lemma FirstRejectedShape(results: seq<Verdict>)
    ensures (forall r :: r in results ==> r.allowed) ==> FirstRejected(results) == ALLOW
    ensures (exists r :: r in results && !r.allowed) ==> FirstRejected(results) in results && !FirstRejected(results).allowed
  {
  }

  /** Evaluation is the boolean meaning of the tree, and every rejection is explained by a rejecting leaf. */
  lemma {:induction false} VerdictIsMeaning(cel: Cel, rules: RuleSet, st: M.State)
    ensures SetVerdict(cel, rules, st).allowed <==> Holds(cel, rules, st)
    ensures SetVerdict(cel, rules, st).allowed ==> SetVerdict(cel, rules, st) == ALLOW
    ensures !SetVerdict(cel, rules, st).allowed ==> Explained(cel, rules, st, SetVerdict(cel, rules, st))
    decreases rules
  {
    if rules.rules != [] || rules.groups != [] {
      var results := Results(cel, rules, st);
      forall g | g in rules.groups
        ensures SetVerdict(cel, g, st).allowed <==> Holds(cel, g, st)
        ensures SetVerdict(cel, g, st).allowed ==> SetVerdict(cel, g, st) == ALLOW
        ensures !SetVerdict(cel, g, st).allowed ==> Explained(cel, g, st, SetVerdict(cel, g, st))
      {
        VerdictIsMeaning(cel, g, st);
      }
      ResultsAreExplained(cel, rules, st);
      if Operator(rules) == "or" {
        assert results[0] in results;
        OrMeaning(cel, rules, st);
      } else {
        FirstRejectedShape(results);
        AndMeaning(cel, rules, st);
      }
    }
  }

  lemma ResultsAreExplained(cel: Cel, rules: RuleSet, st: M.State)
    requires forall g :: g in rules.groups ==>
      !SetVerdict(cel, g, st).allowed ==> Explained(cel, g, st, SetVerdict(cel, g, st))
    ensures forall r :: r in RuleVerdicts(cel, rules.rules, st) + GroupVerdicts(cel, rules.groups, st) && !r.allowed ==>
      Explained(cel, rules, st, r)
  {
    var leaves, groups := RuleVerdicts(cel, rules.rules, st), GroupVerdicts(cel, rules.groups, st);
    forall r: Verdict | r in leaves + groups && !r.allowed ensures Explained(cel, rules, st, r) {
      if r in leaves {
        var i :| 0 <= i < |leaves| && leaves[i] == r;
        LeafVerdict(cel, rules.rules[i], st);
        RejectionHasReason(cel, rules.rules[i], st);
        assert IsLeaf(rules.rules[i], rules) && RejectsWith(cel, rules.rules[i], st, r.reason);
      } else {
        var i :| 0 <= i < |groups| && groups[i] == r;
        assert Explained(cel, rules.groups[i], st, r);
        var leaf :| IsLeaf(leaf, rules.groups[i]) && RejectsWith(cel, leaf, st, r.reason);
        assert IsLeaf(leaf, rules);
      }
    }
  }

  lemma LeavesMean(cel: Cel, rules: seq<Rule>, st: M.State)
    ensures SomeAllows(RuleVerdicts(cel, rules, st)) <==> (exists l :: l in rules && LeafHolds(cel, l, st))
    ensures AllAllow(RuleVerdicts(cel, rules, st)) <==> (forall l :: l in rules ==> LeafHolds(cel, l, st))
  {
    var leaves := RuleVerdicts(cel, rules, st);
    forall i | 0 <= i < |rules| ensures leaves[i] in leaves && leaves[i].allowed == LeafHolds(cel, rules[i], st) {
      LeafVerdict(cel, rules[i], st);
    }
  }

  /** Two lists that agree position by position have a true entry together, and are all true together. */
  lemma Agree(verdicts: seq<Verdict>, meanings: seq<bool>)
    requires |verdicts| == |meanings|
    requires forall i :: 0 <= i < |meanings| ==> verdicts[i].allowed == meanings[i]
    ensures SomeAllows(verdicts) <==> true in meanings
    ensures AllAllow(verdicts) <==> false !in meanings
  {
    forall i | 0 <= i < |meanings| ensures verdicts[i] in verdicts {
    }
  }

  function GroupMeanings(cel: Cel, groups: seq<RuleSet>, st: M.State): (r: seq<bool>)
    ensures |r| == |groups|
    ensures forall i :: 0 <= i < |groups| ==> r[i] == Holds(cel, groups[i], st)
    ensures true in r <==> exists g :: g in groups && Holds(cel, g, st)
    ensures false in r <==> exists g :: g in groups && !Holds(cel, g, st)
  {
    if groups == [] then [] else [Holds(cel, groups[0], st)] + GroupMeanings(cel, groups[1..], st)
  }

  lemma GroupsMean(cel: Cel, groups: seq<RuleSet>, st: M.State)
    requires forall g :: g in groups ==> (SetVerdict(cel, g, st).allowed <==> Holds(cel, g, st))
    ensures SomeAllows(GroupVerdicts(cel, groups, st)) <==> (exists g :: g in groups && Holds(cel, g, st))
    ensures AllAllow(GroupVerdicts(cel, groups, st)) <==> (forall g :: g in groups ==> Holds(cel, g, st))
  {
    var verdicts := GroupVerdicts(cel, groups, st);
    var meanings := GroupMeanings(cel, groups, st);
    forall i | 0 <= i < |groups| ensures verdicts[i].allowed == meanings[i] {
      assert groups[i] in groups;
    }
    Agree(verdicts, meanings);
  }

  /** The collected verdicts, rules first. */
  function Results(cel: Cel, rules: RuleSet, st: M.State): seq<Verdict> {
    RuleVerdicts(cel, rules.rules, st) + GroupVerdicts(cel, rules.groups, st)
  }

  predicate SomeAllows(results: seq<Verdict>) {
    exists r :: r in results && r.allowed
  }

  predicate AllAllow(results: seq<Verdict>) {
    forall r :: r in results ==> r.allowed
  }

  lemma OrMeaning(cel: Cel, rules: RuleSet, st: M.State)
    requires (rules.rules != [] || rules.groups != []) && Operator(rules) == "or"
    requires forall g :: g in rules.groups ==> (SetVerdict(cel, g, st).allowed <==> Holds(cel, g, st))
    ensures Holds(cel, rules, st) <==> SomeAllows(Results(cel, rules, st))
  {
    LeavesMean(cel, rules.rules, st);
    GroupsMean(cel, rules.groups, st);
    OfBoth(RuleVerdicts(cel, rules.rules, st), GroupVerdicts(cel, rules.groups, st));
  }

  lemma AndMeaning(cel: Cel, rules: RuleSet, st: M.State)
    requires (rules.rules != [] || rules.groups != []) && Operator(rules) != "or"
    requires forall g :: g in rules.groups ==> (SetVerdict(cel, g, st).allowed <==> Holds(cel, g, st))
    ensures Holds(cel, rules, st) <==> AllAllow(Results(cel, rules, st))
  {
    LeavesMean(cel, rules.rules, st);
    GroupsMean(cel, rules.groups, st);
    OfBoth(RuleVerdicts(cel, rules.rules, st), GroupVerdicts(cel, rules.groups, st));
  }

  lemma OfBoth(a: seq<Verdict>, b: seq<Verdict>)
    ensures SomeAllows(a + b) <==> SomeAllows(a) || SomeAllows(b)
    ensures AllAllow(a + b) <==> AllAllow(a) && AllAllow(b)
  {
    assert forall r :: r in a + b <==> r in a || r in b;
  }
}
