/**
 * `ReportFormattingNode`: the language model turns the paragraphs into a
 * Markdown report, whose reply is cleaned and given a heading; a manual
 * formatter builds the report line by line when the model cannot be used.
 */
module FormattingNode {
  import opened Wrappers
  import opened Json
  import opened Strings
  import opened TextProcessing
  import opened NodeBase

  /** What `process_output` returns when nothing is left of the reply. */
  const EmptyReplyReport := "# 报告生成失败\n\n无法生成有效的报告内容。"
  /** The heading `process_output` puts in front of a reply without one. */
  const DefaultHeading := "# 深度研究报告\n\n"
  /** What `format_report_manually` returns when building the report raises. */
  const ManualFailureReport := "# 报告生成失败\n\n无法完成报告格式化。"
  /** The closing section, added for more than one paragraph. */
  const Conclusion: seq<string> := [
    "## 结论",
    "",
    "本报告通过深度搜索和研究，对相关主题进行了全面分析。以上各个方面的内容为理解该主题提供了重要参考。",
    ""
  ]

  /** The paragraph keys every item of the node's input must hold. */
  const EntryKeys: seq<string> := ["title", "paragraph_latest_state"]

  /** Every item is a dict holding both entry keys. */
  function AllEntries(items: seq<Json>): (ok: bool)
    ensures ok <==> forall k :: 0 <= k < |items| ==> HasRequiredKeys(items[k], EntryKeys)
  {
    if items == [] then true
    else AllEntries(items[..|items| - 1]) && HasRequiredKeys(items[|items| - 1], EntryKeys)
  }

  /** `validate_input` for a list or a dict (the JSON-text branch is not modelled). */
  function ValidateInput(input: Json): (ok: bool)
    ensures ok <==> input.JArray? && forall k :: 0 <= k < |input.items| ==>
      input.items[k].JObject? && "title" in input.items[k].fields
      && "paragraph_latest_state" in input.items[k].fields
  {
    input.JArray? && AllEntries(input.items)
  }

  /**
   * `process_output`: the cleaned reply, or the fixed failure report when it
   * is blank, with the default heading put in front when it lacks one.
   */
  function ProcessOutput(output: string): (r: string)
    ensures r != [] && r[0] == '#'
    ensures var cleaned := CleanMarkdownTags(RemoveReasoningFromOutput(output));
      && (cleaned == [] ==> r == EmptyReplyReport)
      && (cleaned != [] && cleaned[0] == '#' ==> r == cleaned)
      && (cleaned != [] && cleaned[0] != '#' ==> r == DefaultHeading + cleaned)
  {
    ReportOf(CleanMarkdownTags(RemoveReasoningFromOutput(output)))
  }

  /** The end of `process_output`, on a reply already cleaned and stripped. */
  function ReportOf(cleaned: string): (r: string)
    requires cleaned == [] || (!IsSpace(cleaned[0]) && !IsSpace(cleaned[|cleaned| - 1]))
    ensures r != [] && r[0] == '#'
    ensures cleaned == [] ==> r == EmptyReplyReport
    ensures cleaned != [] && cleaned[0] == '#' ==> r == cleaned
    ensures cleaned != [] && cleaned[0] != '#' ==> r == DefaultHeading + cleaned
  {
    StrippedTextKept(cleaned);
    if Strip(cleaned) == [] then EmptyReplyReport
    else
      var text := if Strip(cleaned)[0] == '#' then cleaned else DefaultHeading + cleaned;
      StrippedTextKept(text);
      Strip(text)
  }

  /** A string with no leading or trailing whitespace strips to itself. */
  lemma StrippedTextKept(s: string)
    requires s == [] || (!IsSpace(s[0]) && !IsSpace(s[|s| - 1]))
    ensures Strip(s) == s
  {
  }

  /**
   * `run`: invalid input raises before the model is asked, a failing call
   * raises, and otherwise the processed reply is the report.
   */
  function Run(llm: Llm, call: nat, input: Json): (r: Result<string, Error>)
    ensures !ValidateInput(input) ==> r == Failure(InvalidInput(ReportFormatting))
    ensures ValidateInput(input) ==> (r.Failure? <==> llm(call, ReportFormatting, input).None?)
    ensures ValidateInput(input) && r.Failure? ==> r.error == LlmFailed(ReportFormatting)
    ensures r.Success? ==> r.value != [] && r.value[0] == '#'
  {
    if !ValidateInput(input) then Failure(InvalidInput(ReportFormatting))
    else match llm(call, ReportFormatting, input)
      case None => Failure(LlmFailed(ReportFormatting))
      case Some(output) => Success(ProcessOutput(output))
  }

  /** The opening lines of the manual report. */
  function Header(reportTitle: string): seq<string> {
    ["# " + reportTitle, "", "---", ""]
  }

  /** The lines one paragraph contributes: a heading, its content and a rule. */
  function SectionLines(title: string, content: string): seq<string> {
    ["## " + title, "", content, "", "---", ""]
  }

  /**
   * The lines the paragraph at 1-based `position` contributes; `None` where
   * formatting it raises: the item is not a dict (`get` fails), or its
   * content is truthy but not a string (joining the lines fails).
   */
  function Section(position: nat, paragraph: Json): Option<seq<string>> {
    match paragraph
    case JObject(fields) =>
      var content := if "paragraph_latest_state" in fields then fields["paragraph_latest_state"] else JStr("");
      if !Truthy(content) then Some([])
      else if content.JStr? then Some(SectionLines(GetString(fields, "title", "段落 " + NatToString(position)), content.s))
      else None
    case _ => None
  }

  /** The section lines of all paragraphs, in order, or `None` when one of them raises. */
  function BodyLines(paragraphs: seq<Json>): Option<seq<string>>
  {
    if paragraphs == [] then Some([])
    else match BodyLines(paragraphs[..|paragraphs| - 1])
      case None => None
      case Some(lines) =>
        match Section(|paragraphs|, paragraphs[|paragraphs| - 1])
        case None => None
        case Some(section) => Some(lines + section)
  }

  /** Every line of the manual report, or `None` when building it raises. */
  function ManualLines(paragraphs: seq<Json>, reportTitle: string): Option<seq<string>> {
    match BodyLines(paragraphs)
    case None => None
    case Some(body) => Some(Header(reportTitle) + body + (if |paragraphs| > 1 then Conclusion else []))
  }

  /** What `format_report_manually` returns. */
  function ManualReport(paragraphs: seq<Json>, reportTitle: string): string {
    match ManualLines(paragraphs, reportTitle)
    case None => ManualFailureReport
    case Some(lines) => Join(lines, "\n")
  }

  /**
   * `format_report_manually`: the header, one section per paragraph with
   * content, and the conclusion for more than one paragraph, joined by
   * newlines.
   */
  method FormatReportManually(paragraphsData: seq<Json>, reportTitle: string := "深度研究报告")
    returns (report: string)
    ensures report == ManualReport(paragraphsData, reportTitle)
  {
    var reportLines := Header(reportTitle);
    // set once a truthy non-string content is added: joining then raises
    var unjoinable := false;
    for i := 0 to |paragraphsData|
      invariant unjoinable <==> BodyLines(paragraphsData[..i]).None?
      invariant !unjoinable ==> reportLines == Header(reportTitle) + BodyLines(paragraphsData[..i]).value
    {
      var paragraph := paragraphsData[i];
      assert paragraphsData[..i + 1][..i] == paragraphsData[..i];
      if !paragraph.JObject? {
        BodyLinesFailureSticks(paragraphsData, i + 1);
        return ManualFailureReport;
      }
      var fields := paragraph.fields;
      var title := GetString(fields, "title", "段落 " + NatToString(i + 1));
      var content := if "paragraph_latest_state" in fields then fields["paragraph_latest_state"] else JStr("");
      if Truthy(content) {
        if content.JStr? {
          reportLines := reportLines + ["## " + title, "", content.s, "", "---", ""];
        } else {
          unjoinable := true;
        }
      }
    }
    assert paragraphsData[..|paragraphsData|] == paragraphsData;
    if unjoinable {
      return ManualFailureReport;
    }
    var body := BodyLines(paragraphsData).value;
    assert reportLines == Header(reportTitle) + body + [];
    if |paragraphsData| > 1 {
      reportLines := reportLines + Conclusion;
    }
    assert ManualLines(paragraphsData, reportTitle) == Some(reportLines);
    report := Join(reportLines, "\n");
  }

  /** Once a paragraph raises, the whole report does. */
  lemma {:induction false} BodyLinesFailureSticks(paragraphs: seq<Json>, n: nat)
    requires n <= |paragraphs| && BodyLines(paragraphs[..n]).None?
    ensures BodyLines(paragraphs).None?
    decreases |paragraphs| - n
  {
    if n == |paragraphs| {
      assert paragraphs[..n] == paragraphs;
    } else {
      assert paragraphs[..n + 1][..n] == paragraphs[..n];
      BodyLinesFailureSticks(paragraphs, n + 1);
    }
  }

  /** The manual report always opens with a top-level heading: `# {report_title}` or the failure report's. */
  lemma ManualReportHeading(paragraphs: seq<Json>, reportTitle: string)
    ensures var r := ManualReport(paragraphs, reportTitle);
      r != [] && r[0] == '#'
      && (ManualLines(paragraphs, reportTitle).Some? ==> StartsWith(r, "# " + reportTitle))
      && (ManualLines(paragraphs, reportTitle).None? ==> r == ManualFailureReport)
  {
    match ManualLines(paragraphs, reportTitle)
    case None =>
    case Some(lines) =>
      assert lines[0] == "# " + reportTitle;
      JoinStartsWithFirst(lines, "\n");
  }

  /** Lines that end with the conclusion. */
  predicate EndsWithConclusion(lines: seq<string>) {
    |lines| >= |Conclusion| && lines[|lines| - |Conclusion|..] == Conclusion
  }

  /** The body's lines come in whole sections, each ending with a rule and a blank line. */
  lemma {:induction false} BodyLinesShape(paragraphs: seq<Json>)
    requires BodyLines(paragraphs).Some?
    ensures var body := BodyLines(paragraphs).value;
      |body| % 6 == 0 && (body != [] ==> body[|body| - 2] == "---")
  {
    if paragraphs != [] {
      var n := |paragraphs|;
      BodyLinesShape(paragraphs[..n - 1]);
      var prev := BodyLines(paragraphs[..n - 1]).value;
      var section := Section(n, paragraphs[n - 1]).value;
      assert section == [] || (|section| == 6 && section[4] == "---");
      assert BodyLines(paragraphs).value == prev + section;
    }
  }

  /**
   * The manual lines begin with the header, and they end with the
   * conclusion exactly when there is more than one paragraph, skipped ones
   * included.
   */
  lemma ManualLinesShape(paragraphs: seq<Json>, reportTitle: string)
    requires ManualLines(paragraphs, reportTitle).Some?
    ensures var lines := ManualLines(paragraphs, reportTitle).value;
      && lines[..4] == Header(reportTitle)
      && (EndsWithConclusion(lines) <==> |paragraphs| > 1)
  {
    var body := BodyLines(paragraphs).value;
    var lines := ManualLines(paragraphs, reportTitle).value;
    assert lines[..4] == Header(reportTitle);
    if |paragraphs| <= 1 {
      BodyLinesShape(paragraphs);
      assert lines == Header(reportTitle) + body;
      assert lines[|lines| - 2] == "---";
      assert Conclusion[2] != "---";
    }
  }

  /** The report entry the agent builds for one paragraph: its title and latest summary. */
  function ReportEntry(title: string, latestState: string): Json {
    JObject(map["title" := JStr(title), "paragraph_latest_state" := JStr(latestState)])
  }

  /** The report entries of `(title, latest_summary)` pairs, in order. */
  function ReportEntries(pairs: seq<(string, string)>): (r: seq<Json>)
    ensures |r| == |pairs|
    ensures forall k :: 0 <= k < |pairs| ==> r[k] == ReportEntry(pairs[k].0, pairs[k].1)
  {
    seq(|pairs|, k requires 0 <= k < |pairs| => ReportEntry(pairs[k].0, pairs[k].1))
  }

  /**
   * The sections of `(title, content)` pairs as a plain reference
   * definition: one per non-empty content, in order.
   */
  function PairSections(pairs: seq<(string, string)>): seq<string> {
    if pairs == [] then []
    else
      var last := pairs[|pairs| - 1];
      PairSections(pairs[..|pairs| - 1]) + (if last.1 == "" then [] else SectionLines(last.0, last.1))
  }

  /**
   * On the entries the agent builds, the formatter's input check passes and
   * the manual formatter never raises: its body is exactly the sections of
   * the paragraphs with a non-empty summary, in order.
   */
  lemma {:induction false} ReportEntriesFormat(pairs: seq<(string, string)>)
    ensures ValidateInput(JArray(ReportEntries(pairs)))
    ensures BodyLines(ReportEntries(pairs)) == Some(PairSections(pairs))
  {
    ReportEntriesValid(pairs);
    if pairs != [] {
      var entries := ReportEntries(pairs);
      var n := |pairs| - 1;
      assert ReportEntries(pairs[..n]) == entries[..n];
      ReportEntriesFormat(pairs[..n]);
      EntrySection(|pairs|, pairs[n].0, pairs[n].1);
    }
  }

  /** Every entry the agent builds holds both keys the formatter's input check asks for. */
  lemma ReportEntriesValid(pairs: seq<(string, string)>)
    ensures ValidateInput(JArray(ReportEntries(pairs)))
  {
    var entries := ReportEntries(pairs);
    assert forall k :: 0 <= k < |entries| ==> HasRequiredKeys(entries[k], EntryKeys);
  }

  /** An entry's section: none for an empty summary, else the titled section of the summary. */
  lemma EntrySection(position: nat, title: string, content: string)
    ensures Section(position, ReportEntry(title, content)) ==
      Some(if content == "" then [] else SectionLines(title, content))
  {
    var fields := ReportEntry(title, content).fields;
    assert fields["paragraph_latest_state"] == JStr(content);
  }
}
