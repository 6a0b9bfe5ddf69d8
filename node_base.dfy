/**
 * What every processing node shares: the stages a node can be, the
 * language model seen as an oracle, the JSON parsing of its replies, the
 * errors a node run can end in, and the required-key check of the inputs.
 */
module NodeBase {
  import opened Wrappers
  import opened Json
  import opened TextProcessing

  /** The node, and with it the system prompt of a language-model call. */
  datatype Stage =
    | ReportStructure
    | FirstSearch
    | Reflection
    | FirstSummary
    | ReflectionSummary
    | ReportFormatting

  /**
   * The language model: the reply to the `n`-th call of a run, given the
   * system prompt of `stage` and the user message (the node's input, which
   * the node serialises). `None` when the call raises.
   */
  type Llm = (nat, Stage, Json) -> Option<string>

  /**
   * `json.loads` on text (`None` on a decode error) and
   * `extract_clean_response`, whose recovery heuristics are not modelled.
   */
  datatype Parser = Parser(loads: string -> Option<Json>, extractCleanResponse: string -> Json)

  /** Why a node run or the agent stops with an exception. */
  datatype Error =
    | InvalidInput(stage: Stage)
    | LlmFailed(stage: Stage)
    | IndexOutOfRange(index: int)
    | UnsupportedProvider(provider: string)

  /** The dict branch of the nodes' `validate_input`: a dict holding every required key. */
  function HasRequiredKeys(input: Json, keys: seq<string>): (ok: bool)
    ensures ok <==> input.JObject? && forall k :: k in keys ==> k in input.fields
  {
    input.JObject? && ValidateJsonSchema(input.fields, keys)
  }

  /** The first two steps of every `process_output`: `clean_json_tags(remove_reasoning_from_output(output))`. */
  function CleanReply(output: string): string {
    CleanJsonTags(RemoveReasoningFromOutput(output))
  }

  /**
   * `"error" in result` for what `extract_clean_response` returned: a key of
   * a dict, an element of a list. For any other value the node rejects the
   * result right afterwards anyway (it is neither the dict nor the list it
   * needs), so those are left unmarked here.
   */
  predicate ErrorMarked(v: Json) {
    match v
    case JObject(fields) => "error" in fields
    case JArray(items) => JStr("error") in items
    case _ => false
  }

  /**
   * `json.loads(cleaned)`, falling back on `extract_clean_response(cleaned)`
   * when that fails; `None` where the node raises `JSON解析失败` because the
   * fallback result is marked with `error`.
   */
  function ParseReply(parser: Parser, cleaned: string): (r: Option<Json>)
    ensures parser.loads(cleaned).Some? ==> r == parser.loads(cleaned)
    ensures parser.loads(cleaned).None? ==>
      (r.None? <==> ErrorMarked(parser.extractCleanResponse(cleaned)))
  {
    match parser.loads(cleaned)
    case Some(v) => Some(v)
    case None =>
      var recovered := parser.extractCleanResponse(cleaned);
      if ErrorMarked(recovered) then None else Some(recovered)
  }
}
