# DeepSearchAgent research pipeline in Dafny

This project models the core of DeepSearchAgentDemo, a research agent that turns one
query into a Markdown report:

1. A report-structure node asks the language model for an outline.
2. Each planned paragraph is researched in order. A first-search node writes a web
   query and a first-summary node summarises the hits. Then `max_reflections`
   reflection rounds follow: the reflection node writes a follow-up query from the
   latest summary, and the reflection-summary node rewrites that summary from the
   new hits. Finally the paragraph is marked completed.
3. A formatting node writes the report. When the model call raises, a manual
   formatter builds the report line by line instead.
4. The report (and, optionally, the state) is saved under a file name derived from
   a sanitised prefix of the query.

The model keeps the source's own shapes:

- `Research` and `State` (`state.dfy`) are classes, because the pipeline updates
  them in place, and the agent holds references to a paragraph's research object
  while nodes write to it through the state.
- `Search` and `Paragraph` are values.
- `to_dict`/`from_dict` work on plain-value snapshots over a small JSON-value
  datatype (`json.dfy`).
- Loops in the source are Dafny loops with invariants:
  - `add_search_results`
  - `format_search_results_for_prompt`
  - the outline validation and `mutate_state` of the structure node
  - `format_report_manually`
  - `_process_paragraphs`, `_reflection_loop` and the report-data loop of the agent
- The nodes' pure parts are functions: input checks, reply post-processing and
  fallbacks.

The language model and the web search are oracles. Each is a function of the call
number and of what the agent hands it:

- the model returns a reply or fails;
- the search returns a possibly empty list of hits.

The agent (`agent.dfy`) counts its calls and keeps a ghost log of every search. Its
methods are proved against step functions:

- `InitialStep` and `ReflectionStep` for one paragraph;
- `ReflectionSteps` for the loop;
- `ParagraphOutcome` and `ProcessAll` for all paragraphs.

Lemmas about those functions state the properties of the pipeline:

- paragraphs are researched strictly in order and every one ends completed;
- a successful paragraph runs exactly `max_reflections` reflection rounds;
- its history holds exactly the hits of its searches;
- every search query is non-empty;
- each round feeds the current summary forward;
- the final report always opens with a heading.

Behaviour of the source worth noting, which the model keeps:

- `from_dict` fills defaults for missing fields rather than rejecting the data.
- `mark_completed` is unguarded and may be called twice.
- The outline may be empty.
- The manual report uses `---` rules, skips paragraphs with an empty summary and ends
  with a conclusion section when there is more than one paragraph.
- Truncated content is marked with `...`, so an entry can be three characters longer
  than `max_content_length`.

## Model

| member | source | states |
|---|---|---|
| Json.GetString | deep_research/state/state.py:36-43 | `d.get(key, default)` yields the stored string when the key holds one and the default when the key is missing |
| Json.GetInt | deep_research/state/state.py:98 | the stored integer when present, the default when the key is missing |
| Json.GetBool | deep_research/state/state.py:99 | the stored boolean when present, the default when the key is missing |
| Json.StringList | deep_research/agent.py:192-194 | the formatted hits handed to a prompt form a JSON list of the same strings in the same order |
| Strings.StripLeft | deep_research/utils/text_processing.py:27 | the result is a suffix of the input, does not start with whitespace, and everything dropped is whitespace |
| Strings.StripRight | deep_research/agent.py:294 | `rstrip`: the result is a prefix of the input, does not end with whitespace, and everything dropped is whitespace |
| Strings.Strip | deep_research/utils/text_processing.py:27 | `strip`: the result neither starts nor ends with whitespace |
| Strings.StripKeepsVisibleHead | deep_research/nodes/formatting_node.py:103-106 | stripping text that starts with a visible character keeps that character in front |
| Strings.StripIdempotent | deep_research/utils/text_processing.py:27 | stripping twice is stripping once |
| Strings.ReplaceChar | deep_research/agent.py:295 | `replace(' ', '_')` keeps the length and changes exactly the matching characters |
| Strings.JoinStartsWithFirst | deep_research/nodes/formatting_node.py:160 | `"\n".join(lines)` starts with the first line |
| Strings.NatToString | deep_research/nodes/report_structure_node.py:99 | `str(n)`: non-empty decimal digits whose value is `n`, with no leading zero except for `0` itself |
| ResearchState.SearchesOf | deep_research/state/state.py:58-68 | the records for a hit list: one per hit, in hit order, each carrying the query and the hit's fields with `""` for missing ones |
| ResearchState.Research.constructor | deep_research/state/state.py:46-52 | a new research has no history, an empty summary, zero reflections and is not completed |
| ResearchState.Research.FromRecord | deep_research/state/state.py:91-100 | the research object built by `from_dict` holds exactly the decoded fields |
| ResearchState.Research.AddSearch | deep_research/state/state.py:54-56 | the history grows by exactly that one record, at the end |
| ResearchState.Research.AddSearchResults | deep_research/state/state.py:58-72 | the history becomes the old history plus one record per hit, in hit order; the search count grows by the number of hits; an empty hit list changes nothing; every new record carries the query; no other field changes |
| ResearchState.Research.IncrementReflection | deep_research/state/state.py:74-76 | the reflection count goes up by exactly one and nothing else changes |
| ResearchState.Research.MarkCompleted | deep_research/state/state.py:78-80 | the flag becomes true whatever it was (so a second call changes nothing) and nothing else changes |
| ResearchState.Paragraph.GetFinalContent | deep_research/state/state.py:111-117 | `latest_summary or content`: the latest summary whenever it is non-empty (completed or not), the planned content otherwise; the result is empty exactly when both are |
| ResearchState.CountCompleted | deep_research/state/state.py:176-178 | the completed count never exceeds the paragraph count and equals it exactly when every paragraph is completed |
| ResearchState.State.constructor | deep_research/state/state.py:142-151 | a new state is empty, not completed, and created and updated at the same time |
| ResearchState.State.AddParagraph | deep_research/state/state.py:153-168 | returns the old paragraph count; exactly one paragraph is appended at that index, with that `order`, the given title and content and a fresh empty research; earlier paragraphs and other fields stay; the timestamp is updated |
| ResearchState.State.GetParagraph | deep_research/state/state.py:170-174 | the paragraph at the index when `0 <= index < len(paragraphs)`, `None` otherwise |
| ResearchState.State.GetCompletedParagraphsCount | deep_research/state/state.py:176-182 | the completed count never exceeds the total count |
| ResearchState.State.IsAllParagraphsCompleted | deep_research/state/state.py:184-186 | false without paragraphs; otherwise true exactly when the completed count equals the total |
| ResearchState.State.MarkCompleted | deep_research/state/state.py:188-191 | sets the flag and the timestamp without looking at the final report; the other fields stay |
| ResearchState.State.UpdateTimestamp | deep_research/state/state.py:193-195 | `updated_at` becomes the current time |
| ResearchState.State.GetProgressSummary | deep_research/state/state.py:197-209 | the totals are the two counts; the percentage is 0 without paragraphs, lies in [0, 100] and is 100 exactly when all paragraphs are completed; the flag and timestamps are the state's |
| ResearchState.State.FromDict | deep_research/state/state.py:227-240 | succeeds exactly when the data decodes; the new state holds the decoded fields and every paragraph owns a fresh research object of its own |
| ResearchState.NewParagraphs | deep_research/state/state.py:230 | the paragraphs built from decoded records hold exactly those records, each with a distinct fresh research object |
| ResearchState.Percentage | deep_research/state/state.py:205 | `completed / total * 100` lies in [0, 100] and is 100 exactly when completed equals total |
| ResearchState.SearchRoundTrip | deep_research/state/state.py:22-43 | `Search.from_dict(s.to_dict()) == s` |
| ResearchState.SearchesRoundTrip | deep_research/state/state.py:85 | a list of searches survives `to_dict`/`from_dict` unchanged |
| ResearchState.ResearchRoundTrip | deep_research/state/state.py:82-100 | `Research.from_dict(r.to_dict()) == r` |
| ResearchState.ParagraphRoundTrip | deep_research/state/state.py:119-139 | `Paragraph.from_dict(p.to_dict()) == p`, including a paragraph whose research is empty |
| ResearchState.ParagraphsRoundTrip | deep_research/state/state.py:216 | a list of paragraphs survives the round trip unchanged |
| ResearchState.StateRoundTrip | deep_research/state/state.py:211-240 | `State.from_dict(s.to_dict()) == s` for every state, whatever the current time |
| ResearchState.EncodedStateFields | deep_research/state/state.py:211-221 | what `to_dict` stores under each key |
| ResearchState.DecodeDefaults | deep_research/state/state.py:227-240 | an empty dict decodes, for each record, to its defaults: `""`, `0`, `False`, an empty list, a fresh research and the current time, and not to an error |
| TextProcessing.TrimFenceAtEnd | deep_research/utils/text_processing.py:24 | removing a final fence keeps a prefix of the text |
| TextProcessing.RemoveFencesHead1 | deep_research/utils/text_processing.py:25 | a backtick in front after fence removal was in front before it |
| TextProcessing.RemoveFencesHead2 | deep_research/utils/text_processing.py:25 | two backticks in front after fence removal were in front before it |
| TextProcessing.RemoveFencesNoFence | deep_research/utils/text_processing.py:25 | after removing every fence no three consecutive backticks remain |
| TextProcessing.FenceInSuffix | deep_research/utils/text_processing.py:27 | a fence in a suffix is a fence in the whole text |
| TextProcessing.FenceInPrefix | deep_research/utils/text_processing.py:27 | a fence in a prefix is a fence in the whole text |
| TextProcessing.StripKeepsNoFence | deep_research/utils/text_processing.py:27 | stripping cannot create a fence |
| TextProcessing.CleanFenceTags | deep_research/utils/text_processing.py:22-27 | the cleaned text holds no three consecutive backticks and neither starts nor ends with whitespace |
| TextProcessing.CleanJsonTags | deep_research/utils/text_processing.py:12-27 | `clean_json_tags`: no fence left, no surrounding whitespace |
| TextProcessing.CleanMarkdownTags | deep_research/utils/text_processing.py:30-45 | `clean_markdown_tags`: no fence left, no surrounding whitespace |
| TextProcessing.RemoveTaggedNoFence | deep_research/utils/text_processing.py:23 | text without a fence is untouched by the tagged-fence substitution |
| TextProcessing.TrimFenceAtEndNoFence | deep_research/utils/text_processing.py:24 | text without a fence is untouched by the final-fence substitution |
| TextProcessing.RemoveFencesNoFenceIdentity | deep_research/utils/text_processing.py:25 | text without a fence is untouched by the fence substitution |
| TextProcessing.FenceFreeIsStripped | deep_research/utils/text_processing.py:22-27 | a reply without any fence is only stripped |
| TextProcessing.CleanFenceTagsIdempotent | deep_research/utils/text_processing.py:22-27 | cleaning a cleaned reply changes nothing |
| TextProcessing.FirstBracket | deep_research/utils/text_processing.py:62 | the position the lookahead `(?=\{\|\[)` first succeeds at: a bracket with none before it, or none when the text has no bracket |
| TextProcessing.RemoveReasoningFromOutput | deep_research/utils/text_processing.py:48-68 | text without `{` or `[` is only stripped; otherwise the result is the text from its first bracket on, with trailing whitespace stripped, so it starts with that bracket |
| TextProcessing.RFind | deep_research/utils/text_processing.py:172 | `rfind(' ')`: the last index holding a space, or -1 when there is none |
| TextProcessing.PyPrefix | deep_research/utils/text_processing.py:171 | Python's `s[:i]`: a prefix of length `i` when in range, counting from the end for negative `i` |
| TextProcessing.TruncateContent | deep_research/utils/text_processing.py:156-177 | content within the limit is returned unchanged; longer content becomes a prefix followed by `...` of at most `max_length + 3` characters, cut at the last space of the first `max_length` characters when that space lies beyond 80% of the limit and at the limit otherwise |
| TextProcessing.FormattedContents | deep_research/utils/text_processing.py:192-200 | at most one entry per hit, each non-empty and, for a non-negative limit, at most `max_length + 3` long |
| TextProcessing.FormatSearchResultsForPrompt | deep_research/utils/text_processing.py:180-200 | the loop yields exactly the truncated contents of the hits that have content, in order |
| TextProcessing.FormattedContentsAppend | deep_research/utils/text_processing.py:194-198 | the entries for two hit lists in a row are the two entry lists in a row: order is kept |
| TextProcessing.FormattedContentsAllPresent | deep_research/utils/text_processing.py:194-198 | when every hit has content, entry `k` is the truncated content of hit `k` |
| TextProcessing.ValidateJsonSchema | deep_research/utils/text_processing.py:142-153 | true exactly when every required field is a key of the data |
| TextProcessing.UpdateStateWithSearchResults | deep_research/utils/text_processing.py:114-139 | an index outside the paragraphs changes nothing; otherwise that paragraph's history grows by one record per hit tagged `搜索查询`; no other paragraph changes |
| AppConfig.Validate | src/utils/config.py:38-53 | false when the chosen `deepseek` or `openai` provider lacks its key, false without a Tavily key, true otherwise, other provider names included |
| AppConfig.WithKeys | src/utils/config.py:12-36 | the declared defaults (3 results, 240 s, 20000 characters, 2 reflections, 5 paragraphs, intermediate states saved, provider `deepseek`); such settings are valid exactly when the DeepSeek and Tavily keys are set |
| NodeBase.HasRequiredKeys | deep_research/nodes/summary_node.py:40-42 | the dict branch of `validate_input`: a dict holding every required key |
| NodeBase.ParseReply | deep_research/nodes/search_node.py:95-101 | `json.loads` when it succeeds; otherwise the recovered value, or a parse failure exactly when that value is marked with `error` |
| SearchNode.FirstSearchValidateInput | deep_research/nodes/search_node.py:31-41 | a dict is accepted exactly when it holds `title` and `content` |
| SearchNode.ReflectionValidateInput | deep_research/nodes/search_node.py:136-148 | the same with `paragraph_latest_state` as well |
| SearchNode.PlanIn | deep_research/nodes/search_node.py:104-113 | a plan exactly when the parsed reply is a dict with a non-empty string `search_query`, whose query is then non-empty |
| SearchNode.FirstSearchProcessOutput | deep_research/nodes/search_node.py:79-121 | the reply's plan when it has one, the default `相关主题研究` plan otherwise; the query is never empty |
| SearchNode.ReflectionProcessOutput | deep_research/nodes/search_node.py:186-228 | the reply's plan when it has one, the default `深度研究补充信息` plan otherwise; the query is never empty |
| SearchNode.FirstSearchRun | deep_research/nodes/search_node.py:43-77 | invalid input raises before the model is called; otherwise it fails exactly when the model call fails; a result has a non-empty query |
| SearchNode.ReflectionRun | deep_research/nodes/search_node.py:150-184 | the same for the reflection node |
| SummaryNode.FirstSummaryValidateInput | deep_research/nodes/summary_node.py:31-43 | a dict is accepted exactly when it holds `title`, `content`, `search_query` and `search_results` |
| SummaryNode.ReflectionSummaryValidateInput | deep_research/nodes/summary_node.py:160-172 | the same with `paragraph_latest_state` as well |
| SummaryNode.ReplyField | deep_research/nodes/summary_node.py:97-107 | a field is found exactly when the cleaned reply parses to a dict holding a non-empty string under the key, and then it is that string; never when the reply is not JSON |
| SummaryNode.FirstSummaryProcessOutput | deep_research/nodes/summary_node.py:81-114 | the reply's non-empty `paragraph_latest_state` when it has one, the cleaned reply text otherwise, in particular when that text is not JSON |
| SummaryNode.ReflectionSummaryProcessOutput | deep_research/nodes/summary_node.py:210-243 | the same with `updated_paragraph_latest_state` |
| SummaryNode.FirstSummaryRun | deep_research/nodes/summary_node.py:45-79 | invalid input raises before the model is called; a failing call raises; otherwise the processed reply |
| SummaryNode.ReflectionSummaryRun | deep_research/nodes/summary_node.py:174-208 | the same for the reflection summary node |
| SummaryNode.StoreFirstSummary | deep_research/nodes/summary_node.py:133-141 | a successful summary replaces only that paragraph's latest summary and stamps the state; an index outside the paragraphs raises; history, reflection count and all other paragraphs stay |
| SummaryNode.FirstSummaryMutateState | deep_research/nodes/summary_node.py:116-145 | the node's run followed by that store: the same guarantees, with a failed run re-raised before anything changes |
| SummaryNode.StoreReflectionSummary | deep_research/nodes/summary_node.py:262-271 | the new summary replaces (does not extend) the latest summary and the reflection count goes up by exactly one; an index outside the paragraphs raises; other paragraphs stay |
| SummaryNode.ReflectionSummaryMutateState | deep_research/nodes/summary_node.py:245-275 | the node's run followed by that store |
| ReportStructureNode.ValidateInput | deep_research/nodes/report_structure_node.py:34-36 | true exactly when the query contains a non-whitespace character |
| ReportStructureNode.DefaultOutline | deep_research/nodes/report_structure_node.py:109-121 | the fallback outline has two entries titled `概述` and `详细分析` |
| ReportStructureNode.ValidatedStructure | deep_research/nodes/report_structure_node.py:93-107 | the validated outline is never longer than the reply's list |
| ReportStructureNode.ValidatedStructureSnoc | deep_research/nodes/report_structure_node.py:95-105 | one more reply entry adds at most its own outline entry, at the end |
| ReportStructureNode.ProcessOutput | deep_research/nodes/report_structure_node.py:65-121 | the outline of the cleaned and parsed reply: a list's validated entries, the default outline otherwise |
| ReportStructureNode.ValidateReportStructure | deep_research/nodes/report_structure_node.py:89-107 | the loop keeps the dict entries of a list in order, titles defaulting by position; anything else gives the default outline |
| ReportStructureNode.UntitledEntryNamedByPosition | deep_research/nodes/report_structure_node.py:99-100 | an untitled entry is named `段落 {i+1}` after its position in the whole reply, skipped entries counted, and its missing content is `""` |
| ReportStructureNode.NoEntrySkipped | deep_research/nodes/report_structure_node.py:95-97 | the outline is as long as the reply exactly when every entry is a dict |
| ReportStructureNode.AllDictsKeepPositions | deep_research/nodes/report_structure_node.py:94-107 | when every entry is a dict, outline entry `k` comes from reply entry `k` |
| ReportStructureNode.Run | deep_research/nodes/report_structure_node.py:38-63 | the outline of the model's reply to the query, or the failure of the call; `validate_input` is not consulted, as in the source |
| ReportStructureNode.MutateState | deep_research/nodes/report_structure_node.py:123-159 | a missing state is replaced by a fresh one; after a successful run the query is set, an empty title gets the default while an existing one stays, and one fresh paragraph per outline entry is appended in order after the existing ones; a failed run raises before the state changes at all; the report, its completion flag and the creation time keep their values (`""`, false and `now` for a new state) |
| ReportStructureNode.AddOutline | deep_research/nodes/report_structure_node.py:147-152 | the loop appends one fresh empty paragraph per outline entry, in order, with `order` its index, keeping earlier paragraphs, the query, the title, the report, its completion flag and the creation time |
| ReportStructureNode.ApplyOutline | deep_research/nodes/report_structure_node.py:142-152 | the query is set, the title rule applied, the outline appended, and the report, its completion flag and the creation time kept |
| ReportStructureNode.AppendedOutlineRecords | deep_research/nodes/report_structure_node.py:147-152 | after the outline is appended, the paragraph records are the old ones followed by one empty record per outline entry with `order` its index |
| FormattingNode.AllEntries | deep_research/nodes/formatting_node.py:41-44 | true exactly when every item is a dict holding `title` and `paragraph_latest_state` |
| FormattingNode.ValidateInput | deep_research/nodes/formatting_node.py:29-45 | a list is accepted exactly when every item holds both keys (so the empty list is); other values are not |
| FormattingNode.ProcessOutput | deep_research/nodes/formatting_node.py:83-110 | blank cleaned text gives the fixed failure report; text starting with `#` is kept; other text gets `# 深度研究报告` in front; the result always starts with `#` |
| FormattingNode.ReportOf | deep_research/nodes/formatting_node.py:98-106 | the heading rule of `process_output` on stripped text |
| FormattingNode.StrippedTextKept | deep_research/nodes/formatting_node.py:106 | text without surrounding whitespace strips to itself |
| FormattingNode.Run | deep_research/nodes/formatting_node.py:47-81 | invalid input raises before the model is called; otherwise it fails exactly when the call fails; a report starts with `#` |
| FormattingNode.FormatReportManually | deep_research/nodes/formatting_node.py:112-164 | the loop builds exactly the manual report: the header, one section per paragraph with truthy content, the conclusion for more than one paragraph, joined by newlines; the failure report where building raises |
| FormattingNode.BodyLinesFailureSticks | deep_research/nodes/formatting_node.py:162-164 | once a paragraph makes formatting raise, the whole manual report is the failure report |
| FormattingNode.ManualReportHeading | deep_research/nodes/formatting_node.py:128-133 | the manual report starts with `# {report_title}`, or is the failure report; either way it starts with `#` |
| FormattingNode.BodyLinesShape | deep_research/nodes/formatting_node.py:140-148 | the body comes in whole six-line sections, the last ending with a rule |
| FormattingNode.ManualLinesShape | deep_research/nodes/formatting_node.py:150-158 | the lines start with the header and end with the conclusion exactly when there is more than one paragraph, skipped ones counted |
| FormattingNode.ReportEntries | deep_research/agent.py:266-271 | one `{title, paragraph_latest_state}` entry per pair, in order |
| FormattingNode.ReportEntriesFormat | deep_research/nodes/formatting_node.py:136-148 | on the agent's entries the input check passes and the manual formatter never raises: its body is the sections of the paragraphs with a non-empty summary, in order |
| FormattingNode.ReportEntriesValid | deep_research/nodes/formatting_node.py:40-44 | every entry the agent builds passes the formatting node's input check |
| FormattingNode.EntrySection | deep_research/nodes/formatting_node.py:137-148 | an entry contributes nothing for an empty summary and its titled section otherwise |
| Agent.InitializeLlm | deep_research/agent.py:52-65 | a DeepSeek client exactly for `deepseek` and an OpenAI client for `openai`, each with that provider's key and model name; any other provider raises |
| Agent.DefaultProviderSupported | deep_research/agent.py:54-58 | with the default settings the provider check of `_initialize_llm` chooses the DeepSeek client for `deepseek-chat` |
| Agent.InitialStepPlanned | deep_research/agent.py:148-204 | after a planned first search the hits join the history before the summary step, and a successful summary becomes the latest summary |
| Agent.ReflectionStepPlanned | deep_research/agent.py:213-257 | after a planned reflection search the hits join the history, and a successful summary replaces the latest summary and counts the round |
| Agent.ProcessAll | deep_research/agent.py:128-146 | one research record per paragraph |
| Agent.ReflectionStepsCounts | deep_research/agent.py:210-257 | `n` successful rounds raise the reflection count by exactly `n`, make two model calls and one search each and log one search each, leaving the completion flag alone |
| Agent.ReflectionStepsHistory | deep_research/agent.py:228-240 | successful rounds add to the history exactly the hits of the searches they logged, in order |
| Agent.ReflectionStepsQueries | deep_research/agent.py:221-240 | every search a reflection round makes uses a non-empty query |
| Agent.ReflectionStepsStuck | deep_research/agent.py:254-257 | once a round raises, no later round runs |
| Agent.HistoryOfConcat | deep_research/agent.py:240 | the history of two search logs in a row is the two histories in a row |
| Agent.ParagraphOutcomeCounts | deep_research/agent.py:136-143 | a successfully researched paragraph ends completed with exactly `max_reflections` more reflections, after `1 + max_reflections` searches and twice as many model calls |
| Agent.ParagraphOutcomeHistory | deep_research/agent.py:184-240 | a successfully researched paragraph has exactly the hits of its searches, and nothing else, added to its history |
| Agent.InitialStepHistory | deep_research/agent.py:169-184 | a successful first search logs one search and adds exactly its hits |
| Agent.HistoryChain | deep_research/agent.py:240 | two history extensions over adjacent stretches of the log are one extension |
| Agent.ParagraphOutcomeQueries | deep_research/agent.py:160-169 | every search a paragraph's research makes uses a non-empty query |
| Agent.FreshParagraphReflections | deep_research/agent.py:210-257 | a fresh paragraph researched successfully ends completed with `reflection_iteration == max_reflections` and a history of exactly its hits |
| Agent.ReflectionRoundFeedsSummary | deep_research/agent.py:214-257 | a successful round asks both the reflection node and the reflection summary node with the current latest summary, and its summary replaces it |
| Agent.ProcessAllStuck | deep_research/agent.py:128-146 | once a paragraph raises, the run stops: later paragraphs keep their records |
| Agent.ProcessAllKeepsEarlier | deep_research/agent.py:132-143 | researching one more paragraph leaves the earlier records as they were |
| Agent.ProcessAllNext | deep_research/agent.py:132-143 | the next paragraph is researched after the ones before it and only when none of them raised |
| Agent.ProcessAllOrder | deep_research/agent.py:128-146 | paragraphs are researched strictly in order: those before the last one started are completed, the later ones are untouched, and without an error every paragraph is completed |
| Agent.ReportPairs | deep_research/agent.py:266-271 | the `(title, latest_summary)` pairs, one per paragraph, in paragraph order |
| Agent.FinalReport | deep_research/agent.py:266-284 | the formatting node's report of the `(title, latest_summary)` entries when the model answers, else exactly the manual report of those entries under `report_title`, which starts with `# {report_title}`; either way non-empty and starting with `#` |
| Agent.KeepSafe | deep_research/agent.py:294 | only alphanumerics, spaces, `-` and `_` are kept, and the result is no longer than the query |
| Agent.KeepSafeCounts | deep_research/agent.py:294 | every safe character is kept as often as it occurs in the query, every other character is dropped |
| Agent.KeepSafeAppend | deep_research/agent.py:294 | the filter works piece by piece, so the kept characters stay in query order |
| Agent.QuerySafe | deep_research/agent.py:294-295 | at most 30 characters, no spaces, each alphanumeric, `-` or `_` |
| Agent.QuerySafeOfSafe | deep_research/agent.py:294-295 | a query of safe characters that does not end in whitespace becomes itself with spaces turned into `_`, cut to 30 characters |
| Agent.QuerySafeTrailingSpace | deep_research/agent.py:294 | a trailing space does not change the result |
| Agent.QuerySafeDropsUnsafe | deep_research/agent.py:294 | removing an unsafe character anywhere in the query does not change the result |
| Agent.QuerySafeOfAlnum | deep_research/agent.py:294-295 | a query of visible alphanumerics is kept as it is, cut to 30 characters |
| Agent.KeepSafeOfSafe | deep_research/agent.py:294 | a query made only of safe characters loses no character |
| Agent.PathJoin | deep_research/agent.py:298 | `os.path.join` of the output directory and a relative name: the name alone for an empty directory, one `/` between them unless the directory already ends in `/` |
| Agent.DeepSearchAgent.WiredPlansHaveQueries | deep_research/agent.py:67-73 | an agent whose nodes are the search nodes only ever plans non-empty queries, whatever the model replies |
| Agent.DeepSearchAgent.constructor | deep_research/agent.py:27-50 | a fresh empty state, the nodes built over the client, no calls made yet |
| Agent.DeepSearchAgent.Create | deep_research/agent.py:27-65 | the provider check of `_initialize_llm` raises exactly for an unsupported provider; otherwise a fresh agent with an empty state and no calls made |
| Agent.DeepSearchAgent.GenerateReportStructure | deep_research/agent.py:114-126 | the outline of one model call is appended to the state, the query set, an empty title replaced by the default and an existing one kept, the report and its completion flag kept; or the call's error is returned with the state unchanged |
| Agent.DeepSearchAgent.InitialSearchAndSummary | deep_research/agent.py:148-204 | the paragraph's research becomes what `InitialStep` gives; no other paragraph changes |
| Agent.DeepSearchAgent.ReflectionRound | deep_research/agent.py:213-257 | the paragraph's research becomes what `ReflectionStep` gives, reading the summary through the shared research object |
| Agent.DeepSearchAgent.ReflectionLoop | deep_research/agent.py:206-259 | exactly `max_reflections` rounds (none for a negative count), stopping at the first error, as `ReflectionSteps` gives |
| Agent.DeepSearchAgent.ProcessParagraphs | deep_research/agent.py:128-146 | every paragraph's record, the call counters, the search log and the error are those of `ProcessAll` |
| Agent.DeepSearchAgent.ProcessInOrder | deep_research/agent.py:132-143 | the loop researches paragraphs `0..i-1` as `ProcessAll` over them gives, stopping after an error, and leaves the rest untouched |
| Agent.DeepSearchAgent.ProcessNext | deep_research/agent.py:132-146 | one more paragraph extends the `ProcessAll` correspondence from `i` to `i + 1` |
| Agent.DeepSearchAgent.ProcessOne | deep_research/agent.py:136-146 | first search and summary, reflection loop, then `mark_completed`, as `ProcessAll` over one more paragraph gives; no other paragraph changes |
| Agent.DeepSearchAgent.ReportData | deep_research/agent.py:265-271 | the loop builds one entry per paragraph, in order |
| Agent.DeepSearchAgent.FormatFinalReport | deep_research/agent.py:273-280 | the formatting node's report, or the manual one when that raises |
| Agent.DeepSearchAgent.GenerateFinalReport | deep_research/agent.py:261-288 | the report is `FinalReport` of the pairs and the title; it is stored, the state is marked completed, and no paragraph's completion changes |
| Agent.DeepSearchAgent.SavedFiles | deep_research/agent.py:290-311 | the report file `deep_search_report_{query_safe}_{timestamp}.md` holding the report, plus `state_{query_safe}_{timestamp}.json` holding `to_dict()` of the state exactly when intermediate states are saved, both in the output directory |
| Agent.DeepSearchAgent.SaveReport | deep_research/agent.py:290-311 | the report file `deep_search_report_{query_safe}_{timestamp}.md`, plus `state_{query_safe}_{timestamp}.json` with the state exactly when intermediate states are saved |
| Agent.DeepSearchAgent.Research | deep_research/agent.py:75-112 | the run fails with the outline call's error when that call fails, and otherwise exactly when `ProcessAll` over the planned paragraphs stops with an error, with that error; a finished run has the query set, every paragraph completed, the state completed, a report starting with `#`, the report equal to `FinalReport` of the researched paragraphs' summaries under the title the outline step set, every paragraph's research equal to `ProcessAll`'s, and exactly the files of `_save_report` when saving was asked for |
| Agent.DeepSearchAgent.ResearchOutline | deep_research/agent.py:94-108 | the part of `research` after the outline: it fails exactly when `ProcessAll` over the paragraphs stops with an error, with that error; otherwise every paragraph's research is `ProcessAll`'s, the report is `FinalReport` of their summaries under the unchanged title, and the files are those of `_save_report` when asked for |
| Agent.DeepSearchAgent.FinishReport | deep_research/agent.py:97-102 | the report is `FinalReport` of the paragraphs' `(title, latest_summary)` pairs and the title, the files are exactly those of `_save_report` when asked for and none otherwise, and no paragraph's research changes |

## Left out

- JSON text is not modelled: `json.loads`, `json.dumps`, `to_json`/`from_json`, and `save_to_file`/`load_from_file`. Parsing is a parameter (`NodeBase.Parser`), and node inputs reach the model as JSON values rather than serialised text.
- The regex recovery of `extract_clean_response` is not modelled. It is the second function of `NodeBase.Parser`.
- The `str` branch of every `validate_input` (input given as JSON text) is not modelled: the agent always passes dicts and lists.
- TextProcessing.RemoveReasoningFromOutput: the two label patterns (`reasoning:`/`推理:`…, `explanation:`/`解释:`…) are not modelled. They change the result only when such a label occurs after the first bracket; before it, the third pattern removes the same text.
- Json.GetString: a key holding a value of another type is read as the default, where Python passes the value on as it is. This affects a non-string `search_query`, `reasoning` or `title` in a reply, and wrong-typed fields in `from_dict`.
- SummaryNode.ReplyField: a truthy non-string `paragraph_latest_state` is returned as it is by the source; the model, whose summaries are strings, returns the cleaned text instead.
- The `except` branches of the summary and formatting nodes' `process_output` (`段落总结生成失败`, `# 报告处理失败`) are not modelled: for string replies nothing in their `try` blocks raises.
- The clock is a `now` parameter. Every timestamp written within one agent or node operation gets that one value, where the source reads the clock at each `update_timestamp` call.
- In `_save_report`, the `strftime` timestamp and `str.isalnum` are parameters. `SaveReport` returns the files it would write rather than writing them, and `os.makedirs` is not modelled.
- Logging and console output are not modelled: they have no effect on the state.
- The language-model client classes (`DeepSeekLLM`, `OpenAILLM`, `get_model_info`) are reduced to an oracle. Only the provider choice of `_initialize_llm` is modelled.
- Agent.DeepSearchAgent.Create: fails only for an unsupported provider. In the source the `DeepSeekLLM` and `OpenAILLM` constructors also raise when no API key is given or found in the environment, and `os.makedirs` of the output directory can raise; neither is modelled.
- Agent.DefaultProviderSupported: states the provider choice only; whether the chosen client's constructor then finds an API key is not modelled.
- The web search is an oracle that never fails, because `tavily_search` turns every error into an empty list.
- Floating point: `progress_percentage` and `score` are exact reals, without rounding.
- `Config.from_env`, `load_config` and `print_config` are not modelled: they read environment variables and dotenv files and print to the console.
- `max_paragraphs` is carried but never enforced, as in the source.
- The agent's `get_progress_summary`, `load_state` and `save_state` only delegate to the state. The state operations behind them are modelled; the file I/O is not.
- Nodes are function-valued fields of the agent. `Wired()` ties them to the node functions over the agent's model and parser, and the step functions see them through `EnvAt`.
- Exceptions are `Error` values returned to the caller, without their message text.
