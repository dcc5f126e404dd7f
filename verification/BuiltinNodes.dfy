// The builtin nodes: when they admit a state and what they write.
module BuiltinNodes {
  import opened Basics
  import opened EngineSpec
  import opened Text
  import C = Contract
  import M = StateModel

  const PARSE := "intent_parse"
  const TRANSFORM := "text_transform"
  const FINALIZE := "finalize"

  const BUILTINS: seq<string> := [PARSE, TRANSFORM, FINALIZE]

  const TRANSFORMED := "transformed_text"

  // ----- keywords -----

  predicate IsSeparator(c: char) {
    c == ' ' || c == ',' || c == '.' || c == ';' || c == ':' || c == '\n' || c == '\t'
  }

  function Flush(field: string): seq<string> {
    if field == "" then [] else [field]
  }

  /** `strings.FieldsFunc`, with the field read so far. */
  function Fields(text: string, field: string): seq<string> {
    if text == "" then Flush(field)
    else if IsSeparator(text[0]) then Flush(field) + Fields(text[1..], "")
    else Fields(text[1..], field + [text[0]])
  }

  predicate Word(s: string) {
    forall c :: c in s ==> !IsSeparator(c)
  }

  lemma {:induction false} WordGathers(word: string, rest: string, field: string)
    requires Word(word)
    ensures Fields(word + rest, field) == Fields(rest, field + word)
    decreases |word|
  {
    if word == [] {
      assert word + rest == rest && field + word == field;
    } else {
      assert (word + rest)[1..] == word[1..] + rest;
      WordGathers(word[1..], rest, field + [word[0]]);
      assert field + [word[0]] + word[1..] == field + word;
    }
  }

  /** A text is cut at its separators and nowhere else, and empty fields are dropped: a word alone is one field, and what follows a separator is cut by itself. */
  lemma FieldsAreWords(word: string, sep: char, rest: string)
    requires Word(word) && IsSeparator(sep)
    ensures Fields(word, "") == if word == "" then [] else [word]
    ensures Fields(word + ([sep] + rest), "") == (if word == "" then [] else [word]) + Fields(rest, "")
  {
    WordGathers(word, [], "");
    WordGathers(word, [sep] + rest, "");
    assert word + [] == word && [] + word == word;
    assert ([sep] + rest)[1..] == rest;
  }

  /** Bytes of the UTF-8 form. */
  function ByteLength(s: string): nat {
    if s == "" then 0
    else ByteLength(s[1..]) + if s[0] < '\U{80}' then 1 else if s[0] < '\U{800}' then 2 else if s[0] < '\U{10000}' then 3 else 4
  }

  predicate IsKeyword(item: string) {
    ByteLength(TrimSpace(item)) >= 4
  }

  /** The trimmed long items, each where it occurs first. */
  function KeywordsOf(raw: seq<string>): seq<string> {
    if raw == [] then []
    else
      var before, item := KeywordsOf(raw[..|raw| - 1]), raw[|raw| - 1];
      if IsKeyword(item) && TrimSpace(item) !in before then before + [TrimSpace(item)] else before
  }

  /** A long item that trims to k. */
  predicate Occurs(k: string, raw: seq<string>) {
    exists i :: 0 <= i < |raw| && IsKeyword(raw[i]) && TrimSpace(raw[i]) == k
  }

  /** Exactly the trimmed long items, none of them twice, and what more text adds comes after. */
  lemma {:induction false} KeywordsOnce(raw: seq<string>, more: seq<string>)
    ensures var out := KeywordsOf(raw);
      && (forall i, j :: 0 <= i < j < |out| ==> out[i] != out[j])
      && (forall k :: k in out <==> Occurs(k, raw))
      && out <= KeywordsOf(raw + more)
    decreases |raw| + |more|, |more|
  {
    if more != [] {
      KeywordsOnce(raw, more[..|more| - 1]);
      assert (raw + more)[..|raw + more| - 1] == raw + more[..|more| - 1];
    } else {
      assert raw + more == raw;
      if raw != [] {
        KeywordsOnce(raw[..|raw| - 1], []);
        forall k ensures k in KeywordsOf(raw) <==> Occurs(k, raw) {
          LastOccurs(k, raw);
        }
      }
    }
  }

  lemma LastOccurs(k: string, raw: seq<string>)
    requires raw != []
    ensures var last := raw[|raw| - 1];
      Occurs(k, raw) <==> Occurs(k, raw[..|raw| - 1]) || (IsKeyword(last) && TrimSpace(last) == k)
  {
    var front := raw[..|raw| - 1];
    if Occurs(k, front) {
      var i :| 0 <= i < |front| && IsKeyword(front[i]) && TrimSpace(front[i]) == k;
      assert raw[i] == front[i];
    }
    if Occurs(k, raw) {
      var i :| 0 <= i < |raw| && IsKeyword(raw[i]) && TrimSpace(raw[i]) == k;
      assert i < |front| ==> front[i] == raw[i];
    }
  }

  method ExtractKeywords(text: string) returns (out: seq<string>)
    ensures out == KeywordsOf(Fields(text, ""))
  {
    var raw := Fields(text, "");
    var seen: set<string> := {};
    out := [];
    for i := 0 to |raw|
      invariant out == KeywordsOf(raw[..i])
      invariant forall k :: k in seen <==> k in out
    {
      assert raw[..i + 1][..i] == raw[..i];
      var item := TrimSpace(raw[i]);
      if ByteLength(item) < 4 || item in seen {
        continue;
      }
      seen := seen + {item};
      out := out + [item];
    }
    assert raw[..|raw|] == raw;
  }

  // ----- the nodes -----

  const ALLOWED := Check(true, "")

  function CheckBefore(id: string, view: M.State): Check
    requires id in BUILTINS
  {
    if id == FINALIZE then
      if TRANSFORMED !in view.workingMemory && Blank(view.input.text) then Check(false, "nothing to finalize") else ALLOWED
    else if Blank(view.input.text) then Check(false, "user input text is empty")
    else ALLOWED
  }

  function Intent(text: string): string {
    var lower := ToLower(TrimSpace(text));
    if Contains(lower, "translate") then "translate"
    else if Contains(lower, "summarize") then "summarize"
    else if Contains(lower, "http") || Contains(lower, "api") then "external_call"
    else "general"
  }

  function FinalText(view: M.State): string {
    var transformed := StringAt(view.workingMemory, TRANSFORMED);
    "intent=" + StringAt(view.workingMemory, "intent") + " result=" + if transformed != "" then transformed else view.input.text
  }

  function Writing(id: string, memory: JsonMap, output: JsonMap): Execution {
    NodeSucceeded(M.EMPTY_PATCH.(workingMemory := memory, nodeOutputs := map[id := output]), output)
  }

  function Execute(id: string, view: M.State): Execution
    requires id in BUILTINS
  {
    var text := view.input.text;
    if id == PARSE then
      Writing(id, map["intent" := Str(Intent(text))],
              map["intent" := Str(Intent(text)), "keywords" := C.StrArray(KeywordsOf(Fields(ToLower(TrimSpace(text)), "")))])
    else if id == TRANSFORM then
      var transformed := ToUpper(TrimSpace(text));
      Writing(id, map[TRANSFORMED := Str(transformed)], map[TRANSFORMED := Str(transformed)])
    else Writing(id, map["final_text" := Str(FinalText(view))], map["final_text" := Str(FinalText(view))])
  }

  // ----- what the nodes say -----

  /** What the text asks for, by the first of these words it has. */
  predicate IsIntent(text: string, intent: string) {
    var lower := ToLower(TrimSpace(text));
    var translates, summarizes := Contains(lower, "translate"), Contains(lower, "summarize");
    var calls := Contains(lower, "http") || Contains(lower, "api");
    && (intent == "translate" <==> translates)
    && (intent == "summarize" <==> summarizes && !translates)
    && (intent == "external_call" <==> calls && !translates && !summarizes)
    && (intent == "general" <==> !calls && !translates && !summarizes)
  }

  /** Character by character the upper-case form. */
  predicate IsUpper(s: string, upper: string) {
    |upper| == |s| && forall i :: 0 <= i < |s| ==> upper[i] == if 'a' <= s[i] <= 'z' then s[i] - 32 as char else s[i]
  }

  /** The intent and the result, the transformed text when there is one and the user's otherwise. */
  predicate Tells(text: string, wm: JsonMap, final: string) {
    var intent, transformed := StringAt(wm, "intent"), StringAt(wm, TRANSFORMED);
    final == "intent=" + intent + " result=" + if transformed == "" then text else transformed
  }

  function FactOf(id: string): string {
    if id == PARSE then "intent" else if id == TRANSFORM then TRANSFORMED else "final_text"
  }

  predicate Truthful(id: string, text: string, wm: JsonMap, fact: string) {
    if id == PARSE then IsIntent(text, fact)
    else if id == TRANSFORM then IsUpper(TrimSpace(text), fact)
    else Tells(text, wm, fact)
  }

  /** The patch holds its node's fact and nothing else, in memory and output alike. */
  predicate Says(id: string, text: string, wm: JsonMap, patch: M.Patch) {
    && patch.ext == map[] && patch.workingMemory.Keys == {FactOf(id)} && patch.nodeOutputs.Keys == {id}
    && StringAt(patch.nodeOutputs[id], FactOf(id)) == StringAt(patch.workingMemory, FactOf(id))
    && Truthful(id, text, wm, StringAt(patch.workingMemory, FactOf(id)))
  }

  lemma IntentIsIntent(text: string)
    ensures IsIntent(text, Intent(text))
  {
  }

  lemma UpperIsUpper(s: string)
    ensures IsUpper(s, ToUpper(s))
  {
  }

  /** Every builtin node succeeds and says what it is to say; the parser's output also has the keywords. */
  lemma BuiltinSays(id: string, view: M.State)
    requires id in BUILTINS
    ensures var ran := Execute(id, view);
      ran.NodeSucceeded? && Says(id, view.input.text, view.workingMemory, ran.patch) && ran.patch.nodeOutputs[id] == ran.output
  {
    IntentIsIntent(view.input.text);
    UpperIsUpper(TrimSpace(view.input.text));
  }
}
