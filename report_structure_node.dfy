/**
 * The outline node: asks the language model for the report's sections,
 * keeps the well-formed entries of the reply (or falls back on a fixed
 * two-section outline), and writes the query, the title and one paragraph
 * per section into the state.
 */
module ReportStructureNode {
  import opened Wrappers
  import opened Json
  import opened Strings
  import opened NodeBase
  import opened ResearchState

  /** One `{"title": ..., "content": ...}` entry of the outline. */
  datatype OutlineEntry = OutlineEntry(title: string, content: string)

  /** `validate_input`: the query holds a non-whitespace character. */
  function ValidateInput(query: string): (ok: bool)
    ensures ok <==> exists k :: 0 <= k < |query| && !IsSpace(query[k])
  {
    assert Strip(query) == [] ==> AllSpace(query) by {
      if Strip(query) == [] {
        assert AllSpace(query[..|query| - |StripLeft(query)|]);
        assert AllSpace(StripLeft(query)[|StripRight(StripLeft(query))|..]);
      }
    }
    assert Strip(query) != [] ==> !IsSpace(query[|query| - |StripLeft(query)|]) by {
      if Strip(query) != [] {
        var l := StripLeft(query);
        assert l[0] == query[|query| - |l|];
      }
    }
    |Strip(query)| > 0
  }

  /** The outline used when the reply is unusable; both contents quote the query. */
  function DefaultOutline(query: string): (r: seq<OutlineEntry>)
    ensures |r| == 2 && r[0].title == "概述" && r[1].title == "详细分析"
  {
    [ OutlineEntry("概述", "对'" + query + "'的总体概述和背景介绍"),
      OutlineEntry("详细分析", "深入分析'" + query + "'的相关内容") ]
  }

  /** The title given to entry `i` (0-based) of the reply when it has none. */
  function DefaultTitle(i: nat): string {
    "段落 " + NatToString(i + 1)
  }

  /** Entry `i` of the reply: a dict becomes an outline entry, anything else is skipped. */
  function EntryOf(item: Json, i: nat): Option<OutlineEntry> {
    match item
    case JObject(fields) => Some(OutlineEntry(GetString(fields, "title", DefaultTitle(i)), GetString(fields, "content", "")))
    case _ => None
  }

  /**
   * The validated outline of the reply's list `items`: one entry per dict,
   * in order, titles defaulting by position in the whole list.
   */
  function ValidatedStructure(items: seq<Json>): (r: seq<OutlineEntry>)
    ensures |r| <= |items|
  {
    if items == [] then []
    else
      var front := ValidatedStructure(items[..|items| - 1]);
      match EntryOf(items[|items| - 1], |items| - 1)
      case None => front
      case Some(e) => front + [e]
  }

  /** What `process_output` returns for a parsed reply: a list's validated entries, else the default. */
  function Outline(query: string, parsed: Option<Json>): seq<OutlineEntry> {
    match parsed
    case Some(JArray(items)) => ValidatedStructure(items)
    case _ => DefaultOutline(query)
  }

  /** Entries are validated one by one, so a longer reply only adds to the end of the outline. */
  lemma ValidatedStructureSnoc(items: seq<Json>, item: Json)
    ensures ValidatedStructure(items + [item]) == ValidatedStructure(items)
      + match EntryOf(item, |items|) case None => [] case Some(e) => [e]
  {
    assert (items + [item])[..|items|] == items;
  }

  /** `process_output`: the reply is cleaned and parsed, then validated. */
  method ProcessOutput(query: string, parser: Parser, output: string) returns (validatedStructure: seq<OutlineEntry>)
    ensures validatedStructure == Outline(query, ParseReply(parser, CleanReply(output)))
  {
    var reportStructure := ParseReply(parser, CleanReply(output));
    validatedStructure := ValidateReportStructure(query, reportStructure);
  }

  /**
   * The validation half of `process_output`: a list keeps its dict entries,
   * in order; anything else, or a failed parse, gives the default outline.
   */
  method ValidateReportStructure(query: string, reportStructure: Option<Json>) returns (validatedStructure: seq<OutlineEntry>)
    ensures validatedStructure == Outline(query, reportStructure)
  {
    if !(reportStructure.Some? && reportStructure.value.JArray?) {
      return DefaultOutline(query);
    }
    var items := reportStructure.value.items;
    validatedStructure := [];
    for i := 0 to |items|
      invariant validatedStructure == ValidatedStructure(items[..i])
    {
      var paragraph := items[i];
      assert items[..i + 1] == items[..i] + [paragraph];
      ValidatedStructureSnoc(items[..i], paragraph);
      if !paragraph.JObject? {
        continue;
      }
      var title := GetString(paragraph.fields, "title", "段落 " + NatToString(i + 1));
      var content := GetString(paragraph.fields, "content", "");
      validatedStructure := validatedStructure + [OutlineEntry(title, content)];
    }
    assert items[..|items|] == items;
  }

  /** An entry without a title is named after its position in the whole reply, skipped entries included. */
  lemma {:induction false} UntitledEntryNamedByPosition(items: seq<Json>, fields: map<string, Json>)
    requires "title" !in fields
    ensures ValidatedStructure(items + [JObject(fields)])
         == ValidatedStructure(items) + [OutlineEntry(DefaultTitle(|items|), GetString(fields, "content", ""))]
  {
    assert (items + [JObject(fields)])[..|items|] == items;
  }

  /** The outline is as long as the reply exactly when no entry of the reply is skipped. */
  lemma {:induction false} NoEntrySkipped(items: seq<Json>)
    ensures |ValidatedStructure(items)| == |items| <==> forall k :: 0 <= k < |items| ==> items[k].JObject?
  {
    if items != [] {
      var front := items[..|items| - 1];
      NoEntrySkipped(front);
      assert forall k :: 0 <= k < |front| ==> front[k] == items[k];
    }
  }

  /** When every entry is a dict, entry `k` of the outline comes from entry `k` of the reply. */
  lemma {:induction false} AllDictsKeepPositions(items: seq<Json>)
    requires forall k :: 0 <= k < |items| ==> items[k].JObject?
    ensures |ValidatedStructure(items)| == |items|
    ensures forall k :: 0 <= k < |items| ==> Some(ValidatedStructure(items)[k]) == EntryOf(items[k], k)
  {
    if items != [] {
      var front := items[..|items| - 1];
      AllDictsKeepPositions(front);
      var whole, before := ValidatedStructure(items), ValidatedStructure(front);
      forall k | 0 <= k < |items|
        ensures Some(whole[k]) == EntryOf(items[k], k)
      {
        if k < |front| {
          assert whole[k] == before[k] && items[k] == front[k];
        }
      }
    }
  }

  /** The report title set when the state has none. */
  function DefaultReportTitle(query: string): string {
    "关于'" + query + "'的深度研究报告"
  }

  /**
   * `ReportStructureNode.run` as the `call`-th model call, with the query as
   * the message: the outline, or the failure of the call.
   */
  function Run(llm: Llm, call: nat, parser: Parser, query: string): (r: Result<seq<OutlineEntry>, Error>)
    ensures r.Failure? <==> llm(call, ReportStructure, JStr(query)).None?
    ensures r.Failure? ==> r.error == LlmFailed(ReportStructure)
    ensures r.Success? ==> r.value == Outline(query, ParseReply(parser, CleanReply(llm(call, ReportStructure, JStr(query)).value)))
  {
    match llm(call, ReportStructure, JStr(query))
    case None => Failure(LlmFailed(ReportStructure))
    case Some(output) => Success(Outline(query, ParseReply(parser, CleanReply(output))))
  }

  /** Paragraphs `from..` of `ps` are fresh, empty paragraphs made from `outline`, in order. */
  ghost predicate AppendedOutline(ps: seq<Paragraph>, from: nat, outline: seq<OutlineEntry>)
    reads set m | from <= m < |ps| :: ps[m].research
  {
    && |ps| == from + |outline|
    && forall m :: from <= m < |ps| ==>
         && ps[m].title == outline[m - from].title && ps[m].content == outline[m - from].content
         && ps[m].order == m && ps[m].research.Record() == EmptyResearch
  }

  /** The records of the paragraphs an outline adds at positions `from..`: fresh and empty, in order. */
  function PlannedRecords(from: nat, outline: seq<OutlineEntry>): (r: seq<ParagraphRecord>)
    ensures |r| == |outline|
  {
    seq(|outline|, k requires 0 <= k < |outline| =>
      ParagraphRecord(outline[k].title, outline[k].content, EmptyResearch, from + k))
  }

  /** Appended outline paragraphs have exactly the planned records. */
  lemma AppendedOutlineRecords(ps: seq<Paragraph>, before: seq<ParagraphRecord>, outline: seq<OutlineEntry>)
    requires |before| <= |ps| && AppendedOutline(ps, |before|, outline)
    requires forall k :: 0 <= k < |before| ==> ps[k].Record() == before[k]
    ensures Records(ps) == before + PlannedRecords(|before|, outline)
  {
  }

  /**
   * `mutate_state`: a missing state is replaced by a fresh one; after a
   * successful run the state's query is the node's query, an empty title is
   * replaced by the default one while an existing title stays, and one
   * fresh paragraph per outline entry is appended, in order, after the
   * paragraphs already there. A failed run raises before anything changes.
   */
  method MutateState(llm: Llm, call: nat, parser: Parser, query: string, state: State?, now: string)
    returns (r: Result<State, Error>)
    requires state != null ==> state.Valid()
    modifies state
    ensures r.Failure? <==> Run(llm, call, parser, query).Failure?
    ensures r.Failure? ==> r.error == Run(llm, call, parser, query).error
    ensures r.Failure? && state != null ==> unchanged(state)
    ensures r.Success? && state == null ==> fresh(r.value)
    ensures r.Success? && state != null ==> r.value == state
    ensures r.Success? ==>
      var before := if state == null then [] else old(state.paragraphs);
      var oldTitle := if state == null then "" else old(state.reportTitle);
      && r.value.Valid()
      && r.value.query == query
      && r.value.reportTitle == (if oldTitle == "" then DefaultReportTitle(query) else oldTitle)
      && r.value.finalReport == (if state == null then "" else old(state.finalReport))
      && r.value.isCompleted == (state != null && old(state.isCompleted))
      && r.value.createdAt == (if state == null then now else old(state.createdAt))
      && AppendedOutline(r.value.paragraphs, |before|, Run(llm, call, parser, query).value)
      && r.value.paragraphs[..|before|] == before
      && forall m :: |before| <= m < |r.value.paragraphs| ==> fresh(r.value.paragraphs[m].research)
  {
    var s: State;
    if state == null {
      s := new State(now);
    } else {
      s := state;
    }
    var run := Run(llm, call, parser, query);
    if run.Failure? {
      return Failure(run.error);
    }
    ApplyOutline(s, query, run.value, now);
    return Success(s);
  }

  /**
   * The body of `mutate_state` once the outline is in hand: the query, the
   * title rule, then the outline's paragraphs; the report and its flag stay.
   */
  method ApplyOutline(s: State, query: string, outline: seq<OutlineEntry>, now: string)
    requires s.Valid()
    modifies s
    ensures s.Valid() && s.query == query
    ensures s.reportTitle == (if old(s.reportTitle) == "" then DefaultReportTitle(query) else old(s.reportTitle))
    ensures s.finalReport == old(s.finalReport) && s.isCompleted == old(s.isCompleted)
    ensures s.createdAt == old(s.createdAt)
    ensures AppendedOutline(s.paragraphs, |old(s.paragraphs)|, outline)
    ensures s.paragraphs[..|old(s.paragraphs)|] == old(s.paragraphs)
    ensures forall m :: |old(s.paragraphs)| <= m < |s.paragraphs| ==> fresh(s.paragraphs[m].research)
  {
    s.query := query;
    if s.reportTitle == "" {
      s.reportTitle := DefaultReportTitle(query);
    }
    AddOutline(s, outline, now);
  }

  /** The loop of `mutate_state`: one `add_paragraph` per outline entry, in order. */
  method AddOutline(s: State, outline: seq<OutlineEntry>, now: string)
    requires s.Valid()
    modifies s
    ensures s.Valid()
    ensures s.query == old(s.query) && s.reportTitle == old(s.reportTitle)
    ensures s.finalReport == old(s.finalReport) && s.isCompleted == old(s.isCompleted)
    ensures s.createdAt == old(s.createdAt)
    ensures AppendedOutline(s.paragraphs, |old(s.paragraphs)|, outline)
    ensures s.paragraphs[..|old(s.paragraphs)|] == old(s.paragraphs)
    ensures forall m :: |old(s.paragraphs)| <= m < |s.paragraphs| ==> fresh(s.paragraphs[m].research)
  {
    ghost var before := s.paragraphs;
    for j := 0 to |outline|
      invariant s.Valid()
      invariant s.query == old(s.query) && s.reportTitle == old(s.reportTitle)
      invariant s.finalReport == old(s.finalReport) && s.isCompleted == old(s.isCompleted)
      invariant s.createdAt == old(s.createdAt)
      invariant |before| <= |s.paragraphs| && s.paragraphs[..|before|] == before
      invariant AppendedOutline(s.paragraphs, |before|, outline[..j])
      invariant forall m :: |before| <= m < |s.paragraphs| ==> fresh(s.paragraphs[m].research)
    {
      ghost var previous := s.paragraphs;
      var index := s.AddParagraph(outline[j].title, outline[j].content, now);
      assert forall m :: 0 <= m < |previous| ==> s.paragraphs[m] == previous[m];
    }
    assert outline[..|outline|] == outline;
  }
}
