// The conclusion a summary reports.
module Summary {
  import opened Basics
  import opened Text
  import E = EngineSpec
  import G = Gateway
  import Ledger
  import Live = Liveness
  import M = StateModel
  import Mock = MockProvider
  import W = WeatherNodes

  const FINAL_TEXT := "final_text"

  /** Some node's output holds this nonempty text. */
  predicate Offered(outputs: M.Outputs, text: string) {
    text != "" && exists node :: node in outputs && StringAt(outputs[node], FINAL_TEXT) == text
  }

  /** Working memory first, then any output, else nothing. */
  ghost predicate IsConclusion(st: M.State, text: string) {
    var own := StringAt(st.workingMemory, FINAL_TEXT);
    if own != "" then text == own
    else Offered(st.nodeOutputs, text) || (text == "" && forall t :: !Offered(st.nodeOutputs, t))
  }

  /** The search visits the outputs in any order. */
  method ExtractFinalConclusion(st: M.State) returns (text: string)
    ensures IsConclusion(st, text)
  {
    text := StringAt(st.workingMemory, FINAL_TEXT);
    if text != "" {
      return;
    }
    var left := st.nodeOutputs.Keys;
    while left != {}
      invariant left <= st.nodeOutputs.Keys
      invariant forall node :: node in st.nodeOutputs && node !in left ==> StringAt(st.nodeOutputs[node], FINAL_TEXT) == ""
      decreases |left|
    {
      var node :| node in left;
      var value := StringAt(st.nodeOutputs[node], FINAL_TEXT);
      if value != "" {
        return value;
      }
      left := left - {node};
    }
    return "";
  }

  /** The conclusion does not depend on the visiting order exactly when working memory has one or all nonempty output texts agree. */
  lemma ConclusionIsUnique(st: M.State)
    ensures (forall s, t :: IsConclusion(st, s) && IsConclusion(st, t) ==> s == t)
       <==> StringAt(st.workingMemory, FINAL_TEXT) != ""
            || forall s, t :: Offered(st.nodeOutputs, s) && Offered(st.nodeOutputs, t) ==> s == t
  {
    if StringAt(st.workingMemory, FINAL_TEXT) == "" {
      forall s, t | Offered(st.nodeOutputs, s) && Offered(st.nodeOutputs, t) && s != t
        ensures IsConclusion(st, s) && IsConclusion(st, t)
      {
      }
    }
  }

  /** A weather run that was asked about the weather and has the budget ends with one conclusion only: the nonblank answer, which, unless it was given, speaks of the location and the weather the run ends with. */
  lemma WeatherConclusion(
    cfg: E.Config, env: E.Env, gw: G.Config, worlds: int -> G.World, show: Json -> string, model: string, st: M.State, book: Ledger.Book, text: string)
    requires Live.WeatherDemo(env, gw, worlds, show, model) && Mock.AsksWeather(st.input.text)
    requires Live.PlainFacts(st.workingMemory) && M.Validated(st) && st.task.status != M.TimedOut
    requires cfg.maxSameNodeVisits >= 1 && cfg.maxSteps >= |Live.Course(cfg, st)|
    ensures var end := E.RunTask(cfg, env, st, book).0.st;
      && (IsConclusion(end, text) <==> text == StringAt(end.workingMemory, W.FINAL_TEXT) && !Blank(text))
      && (IsConclusion(end, text) && W.FINAL_TEXT !in st.workingMemory ==> Live.Mentions(text, end.workingMemory))
      && Live.FactsKept(st.workingMemory, end.workingMemory)
  {
    Live.WeatherCompletes(cfg, env, gw, worlds, show, model, st, book);
    AnswerIsOwn(st.workingMemory, E.RunTask(cfg, env, st, book).0.st);
    AnswerIsConclusion(E.RunTask(cfg, env, st, book).0.st, text);
  }

  lemma AnswerIsOwn(wm0: JsonMap, st: M.State)
    requires Live.Done(st) && Mock.AsksWeather(st.input.text) && Live.FactsKept(wm0, st.workingMemory)
    ensures W.FINAL_TEXT !in wm0 ==> Live.Mentions(StringAt(st.workingMemory, W.FINAL_TEXT), st.workingMemory)
  {
    Live.NamesDiffer();
    Live.AskedMeansAnswered(st);
    assert Live.FactKept(Mock.ANSWER, wm0, st.workingMemory);
  }

  lemma AnswerIsConclusion(st: M.State, text: string)
    requires Live.Done(st) && Mock.AsksWeather(st.input.text)
    ensures IsConclusion(st, text) <==> text == StringAt(st.workingMemory, W.FINAL_TEXT) && !Blank(text)
  {
    Live.AskedMeansAnswered(st);
    TrimSpaceShape("");
  }
}
