// Rule expressions: the dotted-path rewriter of internal/rules and the path walk of internal/state.
module Expressions {
  import opened Basics
  import opened Text

  const PREFIX := "state."

  /** One `["segment"]` per segment. */
  function Brackets(segments: seq<string>): string {
    if segments == [] then ""
    else "[\"" + TrimSpace(segments[0]) + "\"]" + Brackets(segments[1..])
  }

  function RewriteToken(part: string): string {
    if HasPrefix(part, PREFIX) then "state" + Brackets(Split(part[|PREFIX|..], '.')) else part
  }

  function RewriteAll(parts: seq<string>): seq<string> {
    seq(|parts|, i requires 0 <= i < |parts| => RewriteToken(parts[i]))
  }

  function Normalized(expr: string): string {
    Join(RewriteAll(Split(expr, ' ')), ' ')
  }

  method BuildBrackets(path: string) returns (builder: string)
    ensures builder == "state" + Brackets(Split(path, '.'))
  {
    var segments := Split(path, '.');
    builder := "state";
    for k := 0 to |segments|
      invariant builder + Brackets(segments[k..]) == "state" + Brackets(segments)
    {
      ghost var was := builder;
      var piece := "[\"" + TrimSpace(segments[k]) + "\"]";
      builder := builder + piece;
      assert segments[k..][1..] == segments[k + 1..];
      assert Brackets(segments[k..]) == piece + Brackets(segments[k + 1..]);
      assert (was + piece) + Brackets(segments[k + 1..]) == was + (piece + Brackets(segments[k + 1..]));
    }
    assert segments[|segments|..] == [];
  }

  /** Rewrites the tokens in place. */
  method RewriteParts(parts: array<string>)
    modifies parts
    ensures parts[..] == RewriteAll(old(parts[..]))
  {
    for index := 0 to parts.Length
      invariant forall i :: 0 <= i < index ==> parts[i] == RewriteToken(old(parts[i]))
      invariant forall i :: index <= i < parts.Length ==> parts[i] == old(parts[i])
    {
      if HasPrefix(parts[index], PREFIX) {
        parts[index] := BuildBrackets(parts[index][|PREFIX|..]);
      }
    }
  }

  /** The two early returns are shortcuts: they give what rewriting every token gives. */
  method NormalizeExpression(expr: string) returns (r: string)
    ensures r == Normalized(expr)
  {
    if expr == "" {
      return expr;
    }
    if !Contains(expr, PREFIX) {
      NoPathNoChange(expr);
      return expr;
    }
    var split := Split(expr, ' ');
    var parts := new string[|split|](i requires 0 <= i < |split| => split[i]);
    assert parts[..] == split;
    RewriteParts(parts);
    r := Join(parts[..], ' ');
  }

  lemma {:induction false} TokenIsInside(s: string, sep: char, part: string, sub: string)
    requires part in Split(s, sep) && sub <= part
    ensures Contains(s, sub)
    ensures part == Split(s, sep)[0] ==> sub <= s
  {
    if s == [] {
      assert sub <= s[0..];
    } else {
      var rest := Split(s[1..], sep);
      if part == Split(s, sep)[0] {
        if s[0] == sep {
          assert sub == [];
        } else if sub != [] {
          TokenIsInside(s[1..], sep, rest[0], sub[1..]);
          assert s == [s[0]] + s[1..];
        }
        assert s[0..] == s;
      } else {
        assert part in rest;
        TokenIsInside(s[1..], sep, part, sub);
        var i :| 0 <= i <= |s[1..]| && sub <= s[1..][i..];
        assert s[1..][i..] == s[i + 1..];
      }
    }
  }

  lemma NoPathNoChange(expr: string)
    requires !Contains(expr, PREFIX)
    ensures Normalized(expr) == expr
  {
    var parts := Split(expr, ' ');
    forall i | 0 <= i < |parts| ensures RewriteToken(parts[i]) == parts[i] {
      if HasPrefix(parts[i], PREFIX) {
        TokenIsInside(expr, ' ', parts[i], PREFIX);
      }
    }
    assert RewriteAll(parts) == parts;
    JoinSplit(expr, ' ');
  }

  lemma {:induction false} BracketsHaveNoSpace(segments: seq<string>)
    requires forall p :: p in segments ==> ' ' !in p
    ensures ' ' !in Brackets(segments)
  {
    if segments != [] {
      TrimSpaceShape(segments[0]);
      BracketsHaveNoSpace(segments[1..]);
    }
  }

  lemma RewriteKeepsToken(part: string)
    requires ' ' !in part
    ensures ' ' !in RewriteToken(part)
    ensures RewriteToken(RewriteToken(part)) == RewriteToken(part)
  {
    if HasPrefix(part, PREFIX) {
      SplitParts(part[|PREFIX|..], '.');
      BracketsHaveNoSpace(Split(part[|PREFIX|..], '.'));
      assert RewriteToken(part)[5] == '[';
    }
  }

  /** Rewriting works token by token: the rewritten text splits into exactly the rewritten tokens, as many as before. */
  lemma NormalizedTokens(expr: string)
    ensures Split(Normalized(expr), ' ') == RewriteAll(Split(expr, ' '))
    ensures |Split(Normalized(expr), ' ')| == |Split(expr, ' ')|
  {
    var parts := Split(expr, ' ');
    SplitParts(expr, ' ');
    forall p | p in RewriteAll(parts) ensures ' ' !in p {
      var i :| 0 <= i < |parts| && p == RewriteToken(parts[i]);
      RewriteKeepsToken(parts[i]);
    }
    SplitJoin(RewriteAll(parts), ' ');
  }

  lemma NormalizeIdempotent(expr: string)
    ensures Normalized(Normalized(expr)) == Normalized(expr)
  {
    var parts := Split(expr, ' ');
    NormalizedTokens(expr);
    SplitParts(expr, ' ');
    forall i | 0 <= i < |parts| ensures RewriteAll(RewriteAll(parts))[i] == RewriteAll(parts)[i] {
      RewriteKeepsToken(parts[i]);
    }
    assert RewriteAll(RewriteAll(parts)) == RewriteAll(parts);
  }

  // ----- reading the bracket form back -----

  /** Position of the first double quote, or the length when there is none. */
  function Quote(s: string): (i: nat)
    ensures i <= |s| && '"' !in s[..i] && (i < |s| ==> s[i] == '"')
  {
    if s == [] || s[0] == '"' then 0
    else
      var i := Quote(s[1..]) + 1;
      assert s[..i] == [s[0]] + s[1..][..i - 1];
      i
  }

  /** What a double-quoted literal of the expression language can hold as it is: no quote, no backslash, no line break. */
  predicate Bare(s: string) {
    '"' !in s && '\\' !in s && '\n' !in s && '\r' !in s
  }

  /** A reader of index chains `["a"]["b"]`; a backslash would start an escape and a line break would end the line, so both are refused. */
  function ReadBrackets(s: string): Option<seq<string>>
    decreases |s|
  {
    if s == "" then Some([])
    else if !("[\"" <= s) then None
    else
      var q := Quote(s[2..]);
      var key := s[2..2 + q];
      if !Bare(key) || !("\"]" <= s[2 + q..]) then None
      else
        match ReadBrackets(s[2 + q + 2..])
        case None => None
        case Some(rest) => Some([key] + rest)
  }

  function ReadPath(token: string): Option<seq<string>> {
    if "state" <= token then ReadBrackets(token[5..]) else None
  }

  /** Segments the bracket form can carry unchanged. */
  predicate Clean(segment: string) {
    Tight(segment) && Bare(segment)
  }

  lemma QuoteSkips(a: string, b: string)
    requires '"' !in a
    ensures Quote(a + b) == |a| + Quote(b)
  {
    if a == [] {
      assert a + b == b;
    } else {
      assert (a + b)[1..] == a[1..] + b;
      QuoteSkips(a[1..], b);
    }
  }

  /** Reading one rendered key leaves the rest to be read. */
  lemma ReadOne(key: string, rest: string, keys: seq<string>)
    requires Bare(key)
    requires ReadBrackets(rest) == Some(keys)
    ensures ReadBrackets("[\"" + key + "\"]" + rest) == Some([key] + keys)
  {
    var close := "\"]" + rest;
    var s := "[\"" + key + "\"]" + rest;
    assert s[2..] == key + close;
    QuoteSkips(key, close);
    assert Quote(s[2..]) == |key| by {
      assert Quote(close) == 0;
    }
    assert s[2..2 + |key|] == key;
    assert s[2 + |key|..] == close;
    assert s[2 + |key| + 2..] == rest;
  }

  lemma {:induction false} ReadRendered(segments: seq<string>)
    requires forall p :: p in segments ==> Clean(p)
    ensures ReadBrackets(Brackets(segments)) == Some(segments)
  {
    if segments != [] {
      assert segments[0] in segments;
      TrimSpaceShape(segments[0]);
      ReadRendered(segments[1..]);
      ReadOne(segments[0], Brackets(segments[1..]), segments[1..]);
      assert segments == [segments[0]] + segments[1..];
    }
  }

  lemma {:induction false} ReadIsClean(s: string, keys: seq<string>)
    requires ReadBrackets(s) == Some(keys)
    ensures forall k :: k in keys ==> Bare(k)
    decreases |s|
  {
    if s != "" {
      var q := Quote(s[2..]);
      assert s[2..2 + q] == s[2..][..q];
      ReadIsClean(s[2 + q + 2..], keys[1..]);
    }
  }

  lemma {:induction false} RenderTrims(segments: seq<string>, trimmed: seq<string>)
    requires |trimmed| == |segments|
    requires forall i :: 0 <= i < |segments| ==> trimmed[i] == TrimSpace(segments[i])
    ensures Brackets(trimmed) == Brackets(segments)
  {
    if segments != [] {
      TrimSpaceShape(segments[0]);
      TrimSpaceShape(trimmed[0]);
      RenderTrims(segments[1..], trimmed[1..]);
    }
  }

  /** A key read back was rendered from some segment by trimming, when every trimmed segment is bare. */
  lemma ReadOfTrimmed(segments: seq<string>, trimmed: seq<string>)
    requires |trimmed| == |segments|
    requires forall i :: 0 <= i < |segments| ==> trimmed[i] == TrimSpace(segments[i])
    requires forall p :: p in trimmed ==> Bare(p)
    ensures ReadBrackets(Brackets(segments)) == Some(trimmed)
  {
    forall p | p in trimmed ensures Clean(p) {
      var i :| 0 <= i < |trimmed| && trimmed[i] == p;
      TrimSpaceShape(segments[i]);
    }
    RenderTrims(segments, trimmed);
    ReadRendered(trimmed);
  }

  /** The bracket form of `state.<path>` reads back to the segments of the path exactly when every segment is clean. */
  lemma BracketRoundTrip(path: string)
    ensures ReadPath(RewriteToken(PREFIX + path)) == Some(Split(path, '.'))
       <==> forall p :: p in Split(path, '.') ==> Clean(p)
  {
    var segments := Split(path, '.');
    assert (PREFIX + path)[|PREFIX|..] == path;
    assert ("state" + Brackets(segments))[5..] == Brackets(segments);
    if forall p :: p in segments ==> Clean(p) {
      ReadRendered(segments);
    } else if ReadBrackets(Brackets(segments)) == Some(segments) {
      ReadIsClean(Brackets(segments), segments);
      UncleanIsTrimmed(segments);
    }
  }

  /** Bare segments that are not all clean read back trimmed, so differently. */
  lemma UncleanIsTrimmed(segments: seq<string>)
    requires forall p :: p in segments ==> Bare(p)
    requires exists p :: p in segments && !Clean(p)
    ensures ReadBrackets(Brackets(segments)) != Some(segments)
  {
    var bad :| 0 <= bad < |segments| && !Clean(segments[bad]);
    var trimmed := seq(|segments|, i requires 0 <= i < |segments| => TrimSpace(segments[i]));
    forall p | p in trimmed ensures Bare(p) {
      var i :| 0 <= i < |trimmed| && trimmed[i] == p;
      TrimSpaceShape(segments[i]);
      assert segments[i] in segments;
    }
    TrimSpaceShape(segments[bad]);
    assert trimmed[bad] != segments[bad];
    ReadOfTrimmed(segments, trimmed);
  }

  // ----- walking a path -----

  /** Follows keys through nested objects. */
  function Walk(current: Json, keys: seq<string>): Option<Json> {
    if keys == [] then Some(current)
    else if current.Obj? && keys[0] in current.fields then Walk(current.fields[keys[0]], keys[1..])
    else None
  }

  /** One key is one field, and a path is walked piece by piece. */
  lemma {:induction false} WalkPieces(current: Json, keys: seq<string>, more: seq<string>)
    ensures Walk(current, []) == Some(current)
    ensures forall key :: Walk(current, [key]) == if current.Obj? && key in current.fields then Some(current.fields[key]) else None
    ensures Walk(current, keys + more) == if Walk(current, keys).None? then None else Walk(Walk(current, keys).value, more)
    decreases |keys|
  {
    forall key ensures Walk(current, [key]) == if current.Obj? && key in current.fields then Some(current.fields[key]) else None {
      assert [key][1..] == [];
    }
    if keys == [] {
      assert keys + more == more;
    } else if current.Obj? && keys[0] in current.fields {
      assert (keys + more)[1..] == keys[1..] + more;
      WalkPieces(current.fields[keys[0]], keys[1..], more);
    }
  }

  method LookupPath(input: JsonMap, path: string) returns (found: Option<Json>)
    ensures found == Walk(Obj(input), Split(path, '.'))
  {
    var parts := Split(path, '.');
    var current := Obj(input);
    for i := 0 to |parts|
      invariant Walk(current, parts[i..]) == Walk(Obj(input), parts)
    {
      assert parts[i..][1..] == parts[i + 1..];
      if !current.Obj? {
        return None;
      }
      if parts[i] !in current.fields {
        return None;
      }
      current := current.fields[parts[i]];
    }
    assert parts[|parts|..] == [];
    return Some(current);
  }

  /** On a clean path the rewritten rule indexes the state map by the very keys the path lookup walks. */
  lemma RewrittenPathReadsSameValue(input: JsonMap, path: string)
    requires forall p :: p in Split(path, '.') ==> Clean(p)
    ensures ReadPath(RewriteToken(PREFIX + path)).Some?
    ensures Walk(Obj(input), ReadPath(RewriteToken(PREFIX + path)).value) == Walk(Obj(input), Split(path, '.'))
  {
    BracketRoundTrip(path);
  }
}
