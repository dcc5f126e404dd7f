// The three nodes of the weather demo: when they admit a state and what they write.
module WeatherNodes {
  import opened Basics
  import opened EngineSpec
  import opened Text
  import M = StateModel
  import Mock = MockProvider

  const LOCATION := "location"
  const WEATHER := "weather"
  const FINAL_TEXT := "final_text"

  /** `fmt.Sprint(m[key])`; how other values than strings print is left to `show`. */
  function Sprint(show: Json -> string, m: JsonMap, key: string): string {
    if key !in m || m[key].Null? then "<nil>"
    else if m[key].Str? then m[key].s
    else show(m[key])
  }

  datatype Generation = Generation(text: string, provider: string, model: string)

  /** The text generation of the node runtime: prompt, location and weather in, text out. */
  type Generator = (string, string, string) -> Result<Generation, string>

  const ALLOWED := Check(true, "")

  function Denied(reason: string): Check {
    Check(false, reason)
  }

  function CheckBefore(show: Json -> string, id: string, view: M.State): Check
    requires id in Mock.WEATHER_NODES
  {
    var wm := view.workingMemory;
    if id == Mock.RESOLVE then
      if Blank(view.input.text) then Denied("user input text is empty")
      else if LOCATION in wm then Denied("location already exists")
      else ALLOWED
    else if Blank(Sprint(show, wm, LOCATION)) then Denied("location is empty")
    else if id == Mock.QUERY then
      if WEATHER in wm then Denied("weather already exists") else ALLOWED
    else if Blank(Sprint(show, wm, WEATHER)) then Denied("weather is empty")
    else if FINAL_TEXT in wm then Denied("final_text already exists")
    else ALLOWED
  }

  /** A weather node admits a state exactly when what it needs is there and what it adds is not: it never overwrites its fact. */
  lemma AdmitsExactly(show: Json -> string, id: string, view: M.State)
    requires id in Mock.WEATHER_NODES
    ensures var wm := view.workingMemory;
      var located, known := !Blank(Sprint(show, wm, LOCATION)), !Blank(Sprint(show, wm, WEATHER));
      && (id == Mock.RESOLVE ==> (CheckBefore(show, id, view).allowed <==> !Blank(view.input.text) && LOCATION !in wm))
      && (id == Mock.QUERY ==> (CheckBefore(show, id, view).allowed <==> located && WEATHER !in wm))
      && (id == Mock.ANSWER ==> (CheckBefore(show, id, view).allowed <==> located && known && FINAL_TEXT !in wm))
  {
    assert Mock.RESOLVE[0] != Mock.QUERY[0] && Mock.RESOLVE[0] != Mock.ANSWER[0] && Mock.QUERY[0] != Mock.ANSWER[0];
  }

  const HERE := "上海市浦东新区"
  const TODAY := "多云，24°C，东南风 3 级"

  function Writing(memory: JsonMap, id: string, outputs: JsonMap): M.Patch {
    M.EMPTY_PATCH.(workingMemory := memory, nodeOutputs := map[id := outputs])
  }

  function Prompt(text: string, location: string, weather: string): string {
    "用户问题：" + text + "\n当前位置：" + location + "\n天气事实：" + weather
    + "\n请生成 1 段简洁中文结论，必须包含天气概述和是否带伞的建议。"
  }

  function Answered(g: Generation): Execution {
    var text := TrimSpace(g.text);
    if text == "" then NodeFailed
    else NodeSucceeded(
      Writing(map[FINAL_TEXT := Str(text), "final_text_provider" := Str(g.provider), "final_text_model" := Str(g.model),
                  "final_text_generated_by" := Str("llm")],
              Mock.ANSWER,
              map[FINAL_TEXT := Str(text), "generation_provider" := Str(g.provider), "generation_model" := Str(g.model),
                  "generation_mode" := Str("node_llm_generation")]),
      map[FINAL_TEXT := Str(text), "generation_provider" := Str(g.provider), "generation_model" := Str(g.model)])
  }

  function Execute(show: Json -> string, generate: Generator, id: string, view: M.State): Execution
    requires id in Mock.WEATHER_NODES
  {
    var location, weather := Sprint(show, view.workingMemory, LOCATION), Sprint(show, view.workingMemory, WEATHER);
    if id == Mock.RESOLVE then
      NodeSucceeded(Writing(map[LOCATION := Str(HERE)], id, map[LOCATION := Str(HERE)]), map[LOCATION := Str(HERE)])
    else if id == Mock.QUERY then
      var output := map[LOCATION := Str(location), WEATHER := Str(TODAY)];
      NodeSucceeded(Writing(map[WEATHER := Str(TODAY)], id, output), output)
    else
      match generate(Prompt(view.input.text, location, weather), location, weather)
      case Err(_) => NodeFailed
      case Ok(g) => Answered(g)
  }

  /** The mock provider's text: about the two facts when both are there, else the prompt itself. */
  function MockText(prompt: string, location: string, weather: string): string {
    var l, w := TrimSpace(location), TrimSpace(weather);
    if l != "" && w != "" then "你当前在" + l + "，天气" + w + "。建议带伞，穿一件轻薄外套。"
    else TrimSpace(prompt)
  }

  /** The mock provider behind the runtime's text generation, which refuses a blank prompt. */
  function MockGenerate(model: string): Generator {
    (prompt, location, weather) =>
      if Blank(prompt) then Err("text generation user_prompt must not be empty")
      else Ok(Generation(MockText(prompt, location, weather), "mock_function", model))
  }

  /** Starts with something other than white space. */
  predicate Fronted(s: string) {
    |s| > 0 && !IsSpace(s[0])
  }

  lemma FrontedIsNotBlank(s: string)
    requires Fronted(s)
    ensures !Blank(s)
  {
    BlankMeansOnlySpace(s);
  }

  lemma LabelsAreSolid()
    ensures Fronted("你当前在") && Fronted("用户问题：")
    ensures !Blank("<nil>") && !Blank(HERE) && !Blank(TODAY)
  {
  }

  lemma FrontedSentence(a: string, b: string, c: string, d: string, e: string)
    requires Fronted(a)
    ensures Fronted(a + b + c + d + e)
  {
  }

  lemma TrimmedStaysSolid(s: string)
    requires !Blank(s)
    ensures !Blank(TrimSpace(s))
  {
    TrimSpaceShape(s);
    TrimSpaceShape(TrimSpace(s));
  }

  lemma PromptIsSolid(text: string, location: string, weather: string)
    ensures !Blank(Prompt(text, location, weather))
  {
    LabelsAreSolid();
    FrontedSentence("用户问题：", text, "\n当前位置：", location, "\n天气事实：");
    FrontedSentence("用户问题：" + text + "\n当前位置：" + location + "\n天气事实：", weather,
                    "\n请生成 1 段简洁中文结论，必须包含天气概述和是否带伞的建议。", "", "");
    FrontedIsNotBlank(Prompt(text, location, weather));
  }

  lemma SentenceIsSolid(l: string, w: string)
    ensures !Blank("你当前在" + l + "，天气" + w + "。建议带伞，穿一件轻薄外套。")
  {
    LabelsAreSolid();
    FrontedSentence("你当前在", l, "，天气", w, "。建议带伞，穿一件轻薄外套。");
    FrontedIsNotBlank("你当前在" + l + "，天气" + w + "。建议带伞，穿一件轻薄外套。");
  }

  /** The mock text is never blank for a prompt that is not. */
  lemma MockTextIsSolid(prompt: string, location: string, weather: string)
    requires !Blank(prompt)
    ensures !Blank(MockText(prompt, location, weather))
  {
    SentenceIsSolid(TrimSpace(location), TrimSpace(weather));
    TrimmedStaysSolid(prompt);
  }

  const CLOSING := "。建议带伞，穿一件轻薄外套。"

  /** The sentence about two facts holds both of them, and trimming leaves it as it is. */
  lemma SentenceHolds(l: string, w: string)
    ensures var sentence := "你当前在" + l + "，天气" + w + "。建议带伞，穿一件轻薄外套。";
      Tight(sentence) && Contains(sentence, l) && Contains(sentence, w)
  {
    var sentence := "你当前在" + l + "，天气" + w + "。建议带伞，穿一件轻薄外套。";
    ContainsMiddle("你当前在", l, "，天气" + w + CLOSING);
    assert sentence == "你当前在" + l + ("，天气" + w + CLOSING);
    ContainsMiddle("你当前在" + l + "，天气", w, CLOSING);
    LabelsAreSolid();
    FrontedSentence("你当前在", l, "，天气", w, CLOSING);
    ClosedSentence("你当前在" + l + "，天气" + w);
  }

  lemma ClosedSentence(front: string)
    ensures var s := front + CLOSING;
      s != [] && !IsSpace(s[|s| - 1])
  {
    var s := front + CLOSING;
    assert s[|s| - 1] == CLOSING[|CLOSING| - 1];
  }

  /** The prompt holds the question and both facts. */
  lemma PromptHolds(text: string, location: string, weather: string)
    ensures var prompt := Prompt(text, location, weather);
      Contains(prompt, text) && Contains(prompt, location) && Contains(prompt, weather)
  {
    var ask := "\n请生成 1 段简洁中文结论，必须包含天气概述和是否带伞的建议。";
    var l, w := "\n当前位置：", "\n天气事实：";
    ContainsMiddle("用户问题：", text, l + location + w + weather + ask);
    assert Prompt(text, location, weather) == "用户问题：" + text + (l + location + w + weather + ask);
    ContainsMiddle("用户问题：" + text + l, location, w + weather + ask);
    assert Prompt(text, location, weather) == "用户问题：" + text + l + location + (w + weather + ask);
    ContainsMiddle("用户问题：" + text + l + location + w, weather, ask);
  }
}
