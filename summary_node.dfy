/**
 * The two summary-writing nodes: `FirstSummaryNode` writes a paragraph's
 * first summary from its first search, `ReflectionSummaryNode` rewrites it
 * from a reflection search. Each one's `mutate_state` stores the summary in
 * exactly one paragraph's research, and the reflection node also counts
 * the round.
 */
module SummaryNode {
  import opened Wrappers
  import opened Json
  import opened NodeBase
  import opened ResearchState

  const FirstSummaryKeys: seq<string> := ["title", "content", "search_query", "search_results"]
  const ReflectionSummaryKeys: seq<string> := FirstSummaryKeys + ["paragraph_latest_state"]

  /** `FirstSummaryNode.validate_input` for a dict: the four keys of a first summary request. */
  function FirstSummaryValidateInput(input: Json): (ok: bool)
    ensures ok <==> input.JObject? && "title" in input.fields && "content" in input.fields
                    && "search_query" in input.fields && "search_results" in input.fields
  {
    HasRequiredKeys(input, FirstSummaryKeys)
  }

  /** `ReflectionSummaryNode.validate_input` for a dict: those four and `paragraph_latest_state`. */
  function ReflectionSummaryValidateInput(input: Json): (ok: bool)
    ensures ok <==> FirstSummaryValidateInput(input) && "paragraph_latest_state" in input.fields
  {
    assert forall k :: k in ReflectionSummaryKeys <==> k in FirstSummaryKeys || k == "paragraph_latest_state";
    HasRequiredKeys(input, ReflectionSummaryKeys)
  }

  /**
   * The summary a reply carries under `key`: the parsed reply is a dict
   * holding a non-empty string there. `None` when the cleaned reply is not
   * JSON, not a dict, or lacks the field.
   */
  function ReplyField(parser: Parser, output: string, key: string): (r: Option<string>)
    ensures r.Some? ==> r.value != ""
    ensures parser.loads(CleanReply(output)).None? ==> r.None?
    ensures var parsed := parser.loads(CleanReply(output));
      r.Some? <==>
        parsed.Some? && parsed.value.JObject? && key in parsed.value.fields &&
        parsed.value.fields[key].JStr? && parsed.value.fields[key].s != ""
    ensures r.Some? ==> parser.loads(CleanReply(output)).value.fields[key] == JStr(r.value)
  {
    match parser.loads(CleanReply(output))
    case Some(JObject(fields)) =>
      if key in fields && fields[key].JStr? && fields[key].s != "" then Some(fields[key].s) else None
    case _ => None
  }

  /**
   * `FirstSummaryNode.process_output`: the reply's `paragraph_latest_state`
   * when it has a usable one, the cleaned reply text otherwise (in
   * particular when that text is not JSON at all).
   */
  function FirstSummaryProcessOutput(parser: Parser, output: string): (r: string)
    ensures ReplyField(parser, output, "paragraph_latest_state").Some? ==>
      r == ReplyField(parser, output, "paragraph_latest_state").value
    ensures ReplyField(parser, output, "paragraph_latest_state").None? ==> r == CleanReply(output)
    ensures parser.loads(CleanReply(output)).None? ==> r == CleanReply(output)
  {
    ReplyField(parser, output, "paragraph_latest_state").GetOr(CleanReply(output))
  }

  /** `ReflectionSummaryNode.process_output`: the same with `updated_paragraph_latest_state`. */
  function ReflectionSummaryProcessOutput(parser: Parser, output: string): (r: string)
    ensures ReplyField(parser, output, "updated_paragraph_latest_state").Some? ==>
      r == ReplyField(parser, output, "updated_paragraph_latest_state").value
    ensures ReplyField(parser, output, "updated_paragraph_latest_state").None? ==> r == CleanReply(output)
    ensures parser.loads(CleanReply(output)).None? ==> r == CleanReply(output)
  {
    ReplyField(parser, output, "updated_paragraph_latest_state").GetOr(CleanReply(output))
  }

  /** `FirstSummaryNode.run` as the `call`-th model call: invalid input raises before the call. */
  function FirstSummaryRun(llm: Llm, call: nat, parser: Parser, input: Json): (r: Result<string, Error>)
    ensures !FirstSummaryValidateInput(input) ==> r == Failure(InvalidInput(FirstSummary))
    ensures FirstSummaryValidateInput(input) ==>
      match llm(call, FirstSummary, input)
      case None => r == Failure(LlmFailed(FirstSummary))
      case Some(output) => r == Success(FirstSummaryProcessOutput(parser, output))
  {
    if !FirstSummaryValidateInput(input) then Failure(InvalidInput(FirstSummary))
    else match llm(call, FirstSummary, input)
      case None => Failure(LlmFailed(FirstSummary))
      case Some(output) => Success(FirstSummaryProcessOutput(parser, output))
  }

  /** `ReflectionSummaryNode.run`, likewise. */
  function ReflectionSummaryRun(llm: Llm, call: nat, parser: Parser, input: Json): (r: Result<string, Error>)
    ensures !ReflectionSummaryValidateInput(input) ==> r == Failure(InvalidInput(ReflectionSummary))
    ensures ReflectionSummaryValidateInput(input) ==>
      match llm(call, ReflectionSummary, input)
      case None => r == Failure(LlmFailed(ReflectionSummary))
      case Some(output) => r == Success(ReflectionSummaryProcessOutput(parser, output))
  {
    if !ReflectionSummaryValidateInput(input) then Failure(InvalidInput(ReflectionSummary))
    else match llm(call, ReflectionSummary, input)
      case None => Failure(LlmFailed(ReflectionSummary))
      case Some(output) => Success(ReflectionSummaryProcessOutput(parser, output))
  }

  /**
   * The part of `FirstSummaryNode.mutate_state` after `self.run`: a failed
   * run is re-raised; otherwise the summary becomes the latest summary of
   * paragraph `paragraphIndex` and the state is stamped, or an index outside
   * the paragraph list raises. Nothing but that one summary and the
   * timestamp changes.
   */
  method StoreFirstSummary(summary: Result<string, Error>, state: State, paragraphIndex: int, now: string)
    returns (r: Result<string, Error>)
    requires state.Valid()
    modifies state`updatedAt, if 0 <= paragraphIndex < |state.paragraphs| then {state.paragraphs[paragraphIndex].research} else {}
    ensures r == if summary.Failure? || 0 <= paragraphIndex < |state.paragraphs| then summary
                 else Failure(IndexOutOfRange(paragraphIndex))
    ensures r.Failure? ==> state.updatedAt == old(state.updatedAt)
    ensures r.Success? ==> state.updatedAt == now
    ensures 0 <= paragraphIndex < |state.paragraphs| ==>
      var research := state.paragraphs[paragraphIndex].research;
      && research.searchHistory == old(research.searchHistory) && research.isCompleted == old(research.isCompleted)
      && research.latestSummary == (if r.Success? then r.value else old(research.latestSummary))
      && research.reflectionIteration == old(research.reflectionIteration)
    ensures forall k :: 0 <= k < |state.paragraphs| && k != paragraphIndex ==>
      state.paragraphs[k].research.Record() == old(state.paragraphs[k].research.Record())
  {
    r := summary;
    if r.Failure? {
      return;
    }
    if 0 <= paragraphIndex < |state.paragraphs| {
      var research := state.paragraphs[paragraphIndex].research;
      assert research in state.Repr();
      research.latestSummary := r.value;
    } else {
      return Failure(IndexOutOfRange(paragraphIndex));
    }
    state.UpdateTimestamp(now);
  }

  /** `FirstSummaryNode.mutate_state`: runs the node, then stores its summary. */
  method FirstSummaryMutateState(llm: Llm, call: nat, parser: Parser, input: Json,
                                 state: State, paragraphIndex: int, now: string)
    returns (r: Result<string, Error>)
    requires state.Valid()
    modifies state`updatedAt, state.Repr()
    ensures var run := FirstSummaryRun(llm, call, parser, input);
      r == if run.Failure? || 0 <= paragraphIndex < |state.paragraphs| then run
           else Failure(IndexOutOfRange(paragraphIndex))
    ensures r.Failure? ==> state.updatedAt == old(state.updatedAt)
    ensures r.Success? ==> state.updatedAt == now
    ensures 0 <= paragraphIndex < |state.paragraphs| ==>
      var research := state.paragraphs[paragraphIndex].research;
      && research.searchHistory == old(research.searchHistory) && research.isCompleted == old(research.isCompleted)
      && research.latestSummary == (if r.Success? then r.value else old(research.latestSummary))
      && research.reflectionIteration == old(research.reflectionIteration)
    ensures forall k :: 0 <= k < |state.paragraphs| && k != paragraphIndex ==>
      state.paragraphs[k].research.Record() == old(state.paragraphs[k].research.Record())
  {
    var summary := FirstSummaryRun(llm, call, parser, input);
    r := StoreFirstSummary(summary, state, paragraphIndex, now);
  }

  /**
   * The part of `ReflectionSummaryNode.mutate_state` after `self.run`: as
   * above, but the new summary replaces the old one and the paragraph's
   * reflection count goes up by exactly one.
   */
  method StoreReflectionSummary(summary: Result<string, Error>, state: State, paragraphIndex: int, now: string)
    returns (r: Result<string, Error>)
    requires state.Valid()
    modifies state`updatedAt, if 0 <= paragraphIndex < |state.paragraphs| then {state.paragraphs[paragraphIndex].research} else {}
    ensures r == if summary.Failure? || 0 <= paragraphIndex < |state.paragraphs| then summary
                 else Failure(IndexOutOfRange(paragraphIndex))
    ensures r.Failure? ==> state.updatedAt == old(state.updatedAt)
    ensures r.Success? ==> state.updatedAt == now
    ensures 0 <= paragraphIndex < |state.paragraphs| ==>
      var research := state.paragraphs[paragraphIndex].research;
      && research.searchHistory == old(research.searchHistory) && research.isCompleted == old(research.isCompleted)
      && research.latestSummary == (if r.Success? then r.value else old(research.latestSummary))
      && research.reflectionIteration == old(research.reflectionIteration) + (if r.Success? then 1 else 0)
    ensures forall k :: 0 <= k < |state.paragraphs| && k != paragraphIndex ==>
      state.paragraphs[k].research.Record() == old(state.paragraphs[k].research.Record())
  {
    r := summary;
    if r.Failure? {
      return;
    }
    if 0 <= paragraphIndex < |state.paragraphs| {
      var research := state.paragraphs[paragraphIndex].research;
      assert research in state.Repr();
      research.latestSummary := r.value;
      research.IncrementReflection();
    } else {
      return Failure(IndexOutOfRange(paragraphIndex));
    }
    state.UpdateTimestamp(now);
  }

  /** `ReflectionSummaryNode.mutate_state`: runs the node, then stores its summary. */
  method ReflectionSummaryMutateState(llm: Llm, call: nat, parser: Parser, input: Json,
                                      state: State, paragraphIndex: int, now: string)
    returns (r: Result<string, Error>)
    requires state.Valid()
    modifies state`updatedAt, state.Repr()
    ensures var run := ReflectionSummaryRun(llm, call, parser, input);
      r == if run.Failure? || 0 <= paragraphIndex < |state.paragraphs| then run
           else Failure(IndexOutOfRange(paragraphIndex))
    ensures r.Failure? ==> state.updatedAt == old(state.updatedAt)
    ensures r.Success? ==> state.updatedAt == now
    ensures 0 <= paragraphIndex < |state.paragraphs| ==>
      var research := state.paragraphs[paragraphIndex].research;
      && research.searchHistory == old(research.searchHistory) && research.isCompleted == old(research.isCompleted)
      && research.latestSummary == (if r.Success? then r.value else old(research.latestSummary))
      && research.reflectionIteration == old(research.reflectionIteration) + (if r.Success? then 1 else 0)
    ensures forall k :: 0 <= k < |state.paragraphs| && k != paragraphIndex ==>
      state.paragraphs[k].research.Record() == old(state.paragraphs[k].research.Record())
  {
    var summary := ReflectionSummaryRun(llm, call, parser, input);
    r := StoreReflectionSummary(summary, state, paragraphIndex, now);
  }
}
