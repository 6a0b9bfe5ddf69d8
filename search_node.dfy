/**
 * The two query-writing nodes: `FirstSearchNode` asks the language model
 * for a first search query for a paragraph, `ReflectionNode` for a follow-up
 * query given the paragraph's latest summary. A reply that yields no usable
 * query is replaced by a fixed default, so a run always produces a
 * non-empty query.
 */
module SearchNode {
  import opened Wrappers
  import opened Json
  import opened NodeBase

  /** The dict `process_output` returns: `search_query` and `reasoning`. */
  datatype SearchPlan = SearchPlan(searchQuery: string, reasoning: string)

  /** `FirstSearchNode`'s answer when the reply cannot be used. */
  const FirstSearchFallback := SearchPlan("相关主题研究", "由于解析失败，使用默认搜索查询")

  /** `ReflectionNode`'s answer when the reply cannot be used. */
  const ReflectionFallback := SearchPlan("深度研究补充信息", "由于解析失败，使用默认反思搜索查询")

  /** `validate_input` of `FirstSearchNode` for a dict: it holds `title` and `content`. */
  function FirstSearchValidateInput(input: Json): (ok: bool)
    ensures ok <==> input.JObject? && "title" in input.fields && "content" in input.fields
  {
    HasRequiredKeys(input, ["title", "content"])
  }

  /** `validate_input` of `ReflectionNode` for a dict: it also holds `paragraph_latest_state`. */
  function ReflectionValidateInput(input: Json): (ok: bool)
    ensures ok <==> FirstSearchValidateInput(input) && "paragraph_latest_state" in input.fields
  {
    HasRequiredKeys(input, ["title", "content", "paragraph_latest_state"])
  }

  /**
   * The plan a parsed reply carries: a dict whose `search_query` is a
   * non-empty string, with `reasoning` defaulting to `""`; `None` for
   * anything else, where `process_output` falls back on its default.
   */
  function PlanIn(parsed: Option<Json>): (r: Option<SearchPlan>)
    ensures r.Some? ==> r.value.searchQuery != ""
    ensures r.Some? <==> parsed.Some? && parsed.value.JObject?
                         && "search_query" in parsed.value.fields
                         && parsed.value.fields["search_query"] != JStr("")
                         && parsed.value.fields["search_query"].JStr?
  {
    match parsed
    case Some(JObject(fields)) =>
      var query := GetString(fields, "search_query", "");
      if query == "" then None else Some(SearchPlan(query, GetString(fields, "reasoning", "")))
    case _ => None
  }

  /** The plan the raw reply `output` carries, after cleaning and parsing. */
  function ReplyPlan(parser: Parser, output: string): Option<SearchPlan> {
    PlanIn(ParseReply(parser, CleanReply(output)))
  }

  /** `FirstSearchNode.process_output`: the reply's plan, or the default one; never an empty query. */
  function FirstSearchProcessOutput(parser: Parser, output: string): (r: SearchPlan)
    ensures r.searchQuery != ""
    ensures ReplyPlan(parser, output).Some? ==> r == ReplyPlan(parser, output).value
    ensures ReplyPlan(parser, output).None? ==> r == FirstSearchFallback
  {
    ReplyPlan(parser, output).GetOr(FirstSearchFallback)
  }

  /** `ReflectionNode.process_output`: the same, with the reflection default. */
  function ReflectionProcessOutput(parser: Parser, output: string): (r: SearchPlan)
    ensures r.searchQuery != ""
    ensures ReplyPlan(parser, output).Some? ==> r == ReplyPlan(parser, output).value
    ensures ReplyPlan(parser, output).None? ==> r == ReflectionFallback
  {
    ReplyPlan(parser, output).GetOr(ReflectionFallback)
  }

  /**
   * `FirstSearchNode.run` as the `call`-th language-model call: invalid
   * input raises before the model is asked, a failing call raises, and
   * otherwise the processed reply is returned.
   */
  function FirstSearchRun(llm: Llm, call: nat, parser: Parser, input: Json): (r: Result<SearchPlan, Error>)
    ensures !FirstSearchValidateInput(input) ==> r == Failure(InvalidInput(FirstSearch))
    ensures FirstSearchValidateInput(input) ==>
      (r.Failure? <==> llm(call, FirstSearch, input).None?)
    ensures FirstSearchValidateInput(input) && r.Failure? ==> r.error == LlmFailed(FirstSearch)
    ensures r.Success? ==> r.value.searchQuery != ""
  {
    if !FirstSearchValidateInput(input) then Failure(InvalidInput(FirstSearch))
    else match llm(call, FirstSearch, input)
      case None => Failure(LlmFailed(FirstSearch))
      case Some(output) => Success(FirstSearchProcessOutput(parser, output))
  }

  /** `ReflectionNode.run`, likewise. */
  function ReflectionRun(llm: Llm, call: nat, parser: Parser, input: Json): (r: Result<SearchPlan, Error>)
    ensures !ReflectionValidateInput(input) ==> r == Failure(InvalidInput(Reflection))
    ensures ReflectionValidateInput(input) ==>
      (r.Failure? <==> llm(call, Reflection, input).None?)
    ensures ReflectionValidateInput(input) && r.Failure? ==> r.error == LlmFailed(Reflection)
    ensures r.Success? ==> r.value.searchQuery != ""
  {
    if !ReflectionValidateInput(input) then Failure(InvalidInput(Reflection))
    else match llm(call, Reflection, input)
      case None => Failure(LlmFailed(Reflection))
      case Some(output) => Success(ReflectionProcessOutput(parser, output))
  }
}
