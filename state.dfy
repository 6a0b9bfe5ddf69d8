/**
 * The research state: a `State` holds the report's query, title, paragraphs
 * and final report; each `Paragraph` owns one `Research` object that records
 * the searches made for it, its latest summary, how many reflection rounds it
 * has had and whether it is done. `Research` and `State` are updated in place
 * (the agent keeps references to them), so they are classes; `Search` and
 * `Paragraph` are never changed after creation, so they are values.
 *
 * The `*Record` datatypes are plain-value snapshots; the `to_dict`/`from_dict`
 * pair is modelled on them, over the `Json` datatype.
 */
module ResearchState {
  import opened Wrappers
  import opened Json
  import opened SearchTool

  /** One stored search hit, tagged with the query that found it. */
  datatype Search = Search(
    query: string,
    url: string,
    title: string,
    content: string,
    score: Option<real>,
    timestamp: string)

  /** `Search(query=q, url=result.get("url", ""), ...)`, stamped with the time `now`. */
  function SearchOf(query: string, result: SearchResult, now: string): Search {
    Search(query, result.url.GetOr(""), result.title.GetOr(""), result.content.GetOr(""), result.score, now)
  }

  /** The records that `add_search_results(query, results)` appends: one per hit, in order. */
  function SearchesOf(query: string, results: seq<SearchResult>, now: string): (r: seq<Search>)
    ensures |r| == |results|
    ensures forall k :: 0 <= k < |results| ==> r[k] == SearchOf(query, results[k], now)
  {
    if results == [] then [] else [SearchOf(query, results[0], now)] + SearchesOf(query, results[1..], now)
  }

  datatype ResearchRecord = ResearchRecord(
    searchHistory: seq<Search>,
    latestSummary: string,
    reflectionIteration: int,
    isCompleted: bool)

  /** A fresh `Research()`. */
  const EmptyResearch := ResearchRecord([], "", 0, false)

  datatype ParagraphRecord = ParagraphRecord(title: string, content: string, research: ResearchRecord, order: int)

  datatype StateRecord = StateRecord(
    query: string,
    reportTitle: string,
    paragraphs: seq<ParagraphRecord>,
    finalReport: string,
    isCompleted: bool,
    createdAt: string,
    updatedAt: string)

  /** The research progress of one paragraph, updated in place by the pipeline. */
  class Research {
    var searchHistory: seq<Search>
    var latestSummary: string
    var reflectionIteration: int
    var isCompleted: bool

    /** `Research()`. */
    constructor ()
      ensures Record() == EmptyResearch
    {
      searchHistory, latestSummary, reflectionIteration, isCompleted := [], "", 0, false;
    }

    /** A research object holding the given snapshot (what `from_dict` builds). */
    constructor FromRecord(r: ResearchRecord)
      ensures Record() == r
    {
      searchHistory, latestSummary := r.searchHistory, r.latestSummary;
      reflectionIteration, isCompleted := r.reflectionIteration, r.isCompleted;
    }

    function Record(): ResearchRecord
      reads this
    {
      ResearchRecord(searchHistory, latestSummary, reflectionIteration, isCompleted)
    }

    /** `add_search`: appends one record to the history. */
    method AddSearch(search: Search)
      modifies this`searchHistory
      ensures searchHistory == old(searchHistory) + [search]
    {
      searchHistory := searchHistory + [search];
    }

    /**
     * `add_search_results`: appends one record per hit, in hit order, each
     * tagged with `query`; an empty hit list leaves the history as it was.
     */
    method AddSearchResults(query: string, results: seq<SearchResult>, now: string)
      modifies this`searchHistory
      ensures searchHistory == old(searchHistory) + SearchesOf(query, results, now)
      ensures GetSearchCount() == old(GetSearchCount()) + |results|
      ensures results == [] ==> searchHistory == old(searchHistory)
      ensures forall k :: old(GetSearchCount()) <= k < GetSearchCount() ==> searchHistory[k].query == query
      ensures Record() == old(Record()).(searchHistory := searchHistory)
    {
      for k := 0 to |results|
        invariant searchHistory == old(searchHistory) + SearchesOf(query, results[..k], now)
      {
        AddSearch(SearchOf(query, results[k], now));
      }
      assert results[..|results|] == results;
    }

    /** `get_search_count`. */
    function GetSearchCount(): nat
      reads this
    {
      |searchHistory|
    }

    /** `increment_reflection`: one more reflection round, nothing else changes. */
    method IncrementReflection()
      modifies this
      ensures Record() == old(Record()).(reflectionIteration := old(reflectionIteration) + 1)
    {
      reflectionIteration := reflectionIteration + 1;
    }

    /** `mark_completed`: sets the flag, whatever it was, and checks nothing. */
    method MarkCompleted()
      modifies this
      ensures Record() == old(Record()).(isCompleted := true)
    {
      isCompleted := true;
    }

    function ToDict(): Json
      reads this
    {
      EncodeResearch(Record())
    }
  }

  /** One planned section of the report; its `research` object is shared with whoever holds it. */
  datatype Paragraph = Paragraph(title: string, content: string, research: Research, order: int) {

    /** `is_completed`: research marked complete and a non-empty latest summary. */
    predicate IsCompleted()
      reads research
    {
      research.isCompleted && research.latestSummary != ""
    }

    /** `get_final_content`: the latest summary, or the planned content while there is none. */
    function GetFinalContent(): (r: string)
      reads research
      ensures IsCompleted() ==> r == research.latestSummary
      ensures research.latestSummary != "" ==> r == research.latestSummary
      ensures research.latestSummary == "" ==> r == content
      ensures r == "" <==> research.latestSummary == "" && content == ""
    {
      if research.latestSummary != "" then research.latestSummary else content
    }

    function Record(): ParagraphRecord
      reads research
    {
      ParagraphRecord(title, content, research.Record(), order)
    }

    function ToDict(): Json
      reads research
    {
      EncodeParagraph(Record())
    }
  }

  /** The research objects of a list of paragraphs. */
  ghost function ResearchesOf(ps: seq<Paragraph>): set<Research> {
    set p | p in ps :: p.research
  }

  /** `sum(1 for p in ps if p.is_completed())`. */
  function CountCompleted(ps: seq<Paragraph>): (n: nat)
    reads ResearchesOf(ps)
    ensures n <= |ps|
    ensures n == |ps| <==> forall k :: 0 <= k < |ps| ==> ps[k].IsCompleted()
  {
    if ps == [] then 0
    else (if ps[0].IsCompleted() then 1 else 0) + CountCompleted(ps[1..])
  }

  /** The snapshots of a list of paragraphs, in order. */
  function Records(ps: seq<Paragraph>): (r: seq<ParagraphRecord>)
    reads ResearchesOf(ps)
    ensures |r| == |ps|
    ensures forall k :: 0 <= k < |ps| ==> r[k] == ps[k].Record()
  {
    if ps == [] then [] else [ps[0].Record()] + Records(ps[1..])
  }

  /** `get_progress_summary()`, without the floating-point rounding of the percentage. */
  datatype Progress = Progress(
    totalParagraphs: nat,
    completedParagraphs: nat,
    progressPercentage: real,
    isCompleted: bool,
    createdAt: string,
    updatedAt: string)

  /** The whole report's state. */
  class State {
    var query: string
    var reportTitle: string
    var paragraphs: seq<Paragraph>
    var finalReport: string
    var isCompleted: bool
    var createdAt: string
    var updatedAt: string

    /** `State()`, created at time `now`. */
    constructor (now: string)
      ensures Valid() && paragraphs == []
      ensures Record() == StateRecord("", "", [], "", false, now, now)
    {
      query, reportTitle, paragraphs, finalReport := "", "", [], "";
      isCompleted, createdAt, updatedAt := false, now, now;
    }

    ghost function Repr(): set<Research>
      reads this`paragraphs
    {
      ResearchesOf(paragraphs)
    }

    /** Every paragraph owns its own research object. */
    ghost predicate Valid()
      reads this`paragraphs
    {
      Distinct(paragraphs)
    }

    function Record(): StateRecord
      reads this, Repr()
    {
      StateRecord(query, reportTitle, Records(paragraphs), finalReport, isCompleted, createdAt, updatedAt)
    }

    /**
     * `add_paragraph`: appends one paragraph, with a fresh empty research and
     * `order` equal to its index, and returns that index (the old count).
     */
    method AddParagraph(title: string, content: string, now: string) returns (index: int)
      requires Valid()
      modifies this
      ensures Valid()
      ensures index == |old(paragraphs)| && |paragraphs| == index + 1
      ensures paragraphs[..index] == old(paragraphs)
      ensures paragraphs[index].title == title && paragraphs[index].content == content
      ensures paragraphs[index].order == index
      ensures fresh(paragraphs[index].research) && paragraphs[index].research.Record() == EmptyResearch
      ensures query == old(query) && reportTitle == old(reportTitle) && finalReport == old(finalReport)
      ensures isCompleted == old(isCompleted) && createdAt == old(createdAt) && updatedAt == now
    {
      index := |paragraphs|;
      var research := new Research();
      paragraphs := paragraphs + [Paragraph(title, content, research, index)];
      UpdateTimestamp(now);
    }

    /** `get_paragraph`: the paragraph at `index`, or `None` outside the list. */
    function GetParagraph(index: int): (r: Option<Paragraph>)
      reads this
      ensures r.Some? <==> 0 <= index < |paragraphs|
      ensures r.Some? ==> r.value == paragraphs[index]
    {
      if 0 <= index < |paragraphs| then Some(paragraphs[index]) else None
    }

    /** `get_completed_paragraphs_count`. */
    function GetCompletedParagraphsCount(): (n: nat)
      reads this, Repr()
      ensures n <= GetTotalParagraphsCount()
    {
      CountCompleted(paragraphs)
    }

    /** `get_total_paragraphs_count`. */
    function GetTotalParagraphsCount(): nat
      reads this
    {
      |paragraphs|
    }

    /** `is_all_paragraphs_completed`: false for no paragraphs, else whether every one is completed. */
    predicate IsAllParagraphsCompleted()
      reads this, Repr()
      ensures IsAllParagraphsCompleted() <==>
        0 < GetTotalParagraphsCount() && GetCompletedParagraphsCount() == GetTotalParagraphsCount()
    {
      paragraphs != [] && forall k :: 0 <= k < |paragraphs| ==> paragraphs[k].IsCompleted()
    }

    /** `mark_completed`: sets the flag without looking at `final_report`. */
    method MarkCompleted(now: string)
      modifies this
      ensures isCompleted && updatedAt == now
      ensures query == old(query) && reportTitle == old(reportTitle) && paragraphs == old(paragraphs)
      ensures finalReport == old(finalReport) && createdAt == old(createdAt)
    {
      isCompleted := true;
      UpdateTimestamp(now);
    }

    /** `update_timestamp`. */
    method UpdateTimestamp(now: string)
      modifies this`updatedAt
      ensures updatedAt == now
    {
      updatedAt := now;
    }

    /** `get_progress_summary`. */
    function GetProgressSummary(): (p: Progress)
      reads this, Repr()
      ensures p.totalParagraphs == GetTotalParagraphsCount()
      ensures p.completedParagraphs == GetCompletedParagraphsCount() <= p.totalParagraphs
      ensures p.totalParagraphs == 0 ==> p.progressPercentage == 0.0
      ensures 0.0 <= p.progressPercentage <= 100.0
      ensures p.progressPercentage == 100.0 <==> IsAllParagraphsCompleted()
      ensures p.isCompleted == isCompleted && p.createdAt == createdAt && p.updatedAt == updatedAt
    {
      var completed := GetCompletedParagraphsCount();
      var total := GetTotalParagraphsCount();
      Progress(total, completed, if total > 0 then Percentage(completed, total) else 0.0,
               isCompleted, createdAt, updatedAt)
    }

    function ToDict(): Json
      reads this, Repr()
    {
      EncodeState(Record())
    }

    /**
     * `State.from_dict`: a new state holding what `DecodeState` reads from
     * `data`, every paragraph with a research object of its own; it fails
     * exactly where `DecodeState` does.
     */
    static method FromDict(data: Json, now: string) returns (r: Result<State, DecodeError>)
      ensures r.Success? <==> DecodeState(data, now).Success?
      ensures r.Success? ==> fresh(r.value) && fresh(r.value.Repr()) && r.value.Valid()
      ensures r.Success? ==> r.value.Record() == DecodeState(data, now).value
    {
      var decoded := DecodeState(data, now);
      if decoded.Failure? {
        return Failure(decoded.error);
      }
      var rec := decoded.value;
      var s := new State(now);
      s.query, s.reportTitle, s.finalReport := rec.query, rec.reportTitle, rec.finalReport;
      s.isCompleted, s.createdAt, s.updatedAt := rec.isCompleted, rec.createdAt, rec.updatedAt;
      var paragraphs := NewParagraphs(rec.paragraphs);
      s.paragraphs := paragraphs;
      return Success(s);
    }
  }

  /** No two paragraphs share a research object. */
  ghost predicate Distinct(ps: seq<Paragraph>) {
    forall i, j :: 0 <= i < j < |ps| ==> ps[i].research != ps[j].research
  }

  /** The paragraphs `from_dict` builds: each with a research object of its own. */
  method NewParagraphs(rs: seq<ParagraphRecord>) returns (ps: seq<Paragraph>)
    ensures Records(ps) == rs
    ensures fresh(ResearchesOf(ps)) && Distinct(ps)
  {
    ps := [];
    for k := 0 to |rs|
      invariant |ps| == k
      invariant forall j :: 0 <= j < k ==> ps[j].Record() == rs[j] && fresh(ps[j].research)
      invariant Distinct(ps)
    {
      var research := new Research.FromRecord(rs[k].research);
      ps := ps + [Paragraph(rs[k].title, rs[k].content, research, rs[k].order)];
    }
    assert Records(ps) == rs;
  }

  /** `completed / total * 100`: in [0, 100], and 100 exactly when all are completed. */
  function Percentage(completed: nat, total: nat): (r: real)
    requires completed <= total && 0 < total
    ensures 0.0 <= r <= 100.0
    ensures r == 100.0 <==> completed == total
  {
    var c, t := completed as real, total as real;
    var q := c / t;
    assert q * t == c;
    assert q <= 1.0 by {
      assert (1.0 - q) * t == t - c;
    }
    assert completed == total ==> q == 1.0;
    assert q == 1.0 ==> completed == total;
    q * 100.0
  }

  // ----- to_dict / from_dict -----

  /** What `from_dict` fails with: `.get` on a non-dict, or iterating a non-iterable. */
  datatype DecodeError = NotADict | NotIterable

  function EncodeScore(score: Option<real>): Json {
    match score
    case None => JNull
    case Some(r) => JNum(r)
  }

  /** `data.get("score")`: a number, or `None` for anything else. */
  function DecodeScore(fields: map<string, Json>): Option<real> {
    if "score" in fields then
      match fields["score"]
      case JNum(r) => Some(r)
      case JInt(i) => Some(i as real)
      case _ => None
    else None
  }

  /** `Search.to_dict`. */
  function EncodeSearch(s: Search): Json {
    JObject(map[
      "query" := JStr(s.query),
      "url" := JStr(s.url),
      "title" := JStr(s.title),
      "content" := JStr(s.content),
      "score" := EncodeScore(s.score),
      "timestamp" := JStr(s.timestamp)])
  }

  /** `Search.from_dict`: missing fields default to `""`, `None` and the time `now`. */
  function DecodeSearch(v: Json, now: string): Result<Search, DecodeError> {
    if !v.JObject? then Failure(NotADict)
    else
      var f := v.fields;
      Success(Search(
        GetString(f, "query", ""), GetString(f, "url", ""), GetString(f, "title", ""),
        GetString(f, "content", ""), DecodeScore(f), GetString(f, "timestamp", now)))
  }

  function EncodeSearches(ss: seq<Search>): (r: seq<Json>)
    ensures |r| == |ss|
  {
    if ss == [] then [] else [EncodeSearch(ss[0])] + EncodeSearches(ss[1..])
  }

  function DecodeSearches(items: seq<Json>, now: string): Result<seq<Search>, DecodeError> {
    if items == [] then Success([])
    else
      var head :- DecodeSearch(items[0], now);
      var tail :- DecodeSearches(items[1..], now);
      Success([head] + tail)
  }

  /**
   * `for x in data.get(key, [])`: the items of a list; an empty string or dict
   * iterates as nothing; a non-empty string or dict yields strings, which have
   * no `.get`; anything else is not iterable.
   */
  function ListItems(fields: map<string, Json>, key: string): Result<seq<Json>, DecodeError> {
    if key !in fields then Success([])
    else
      match fields[key]
      case JArray(items) => Success(items)
      case JStr(s) => if s == "" then Success([]) else Failure(NotADict)
      case JObject(m) => if m == map[] then Success([]) else Failure(NotADict)
      case _ => Failure(NotIterable)
  }

  /** `Research.to_dict`. */
  function EncodeResearch(r: ResearchRecord): Json {
    JObject(map[
      "search_history" := JArray(EncodeSearches(r.searchHistory)),
      "latest_summary" := JStr(r.latestSummary),
      "reflection_iteration" := JInt(r.reflectionIteration),
      "is_completed" := JBool(r.isCompleted)])
  }

  /** `Research.from_dict`: missing fields default to `[]`, `""`, `0` and `False`. */
  function DecodeResearch(v: Json, now: string): Result<ResearchRecord, DecodeError> {
    if !v.JObject? then Failure(NotADict)
    else
      var f := v.fields;
      var items :- ListItems(f, "search_history");
      var history :- DecodeSearches(items, now);
      Success(ResearchRecord(
        history, GetString(f, "latest_summary", ""), GetInt(f, "reflection_iteration", 0),
        GetBool(f, "is_completed", false)))
  }

  /** `Paragraph.to_dict`. */
  function EncodeParagraph(p: ParagraphRecord): Json {
    JObject(map[
      "title" := JStr(p.title),
      "content" := JStr(p.content),
      "research" := EncodeResearch(p.research),
      "order" := JInt(p.order)])
  }

  /**
   * `Paragraph.from_dict`: a missing or falsy `research` gives a fresh
   * `Research()`; other fields default to `""` and `0`.
   */
  function DecodeParagraph(v: Json, now: string): Result<ParagraphRecord, DecodeError> {
    if !v.JObject? then Failure(NotADict)
    else
      var f := v.fields;
      var researchData := if "research" in f then f["research"] else JObject(map[]);
      var research :- if Truthy(researchData) then DecodeResearch(researchData, now) else Success(EmptyResearch);
      Success(ParagraphRecord(GetString(f, "title", ""), GetString(f, "content", ""), research, GetInt(f, "order", 0)))
  }

  function EncodeParagraphs(ps: seq<ParagraphRecord>): (r: seq<Json>)
    ensures |r| == |ps|
  {
    if ps == [] then [] else [EncodeParagraph(ps[0])] + EncodeParagraphs(ps[1..])
  }

  function DecodeParagraphs(items: seq<Json>, now: string): Result<seq<ParagraphRecord>, DecodeError> {
    if items == [] then Success([])
    else
      var head :- DecodeParagraph(items[0], now);
      var tail :- DecodeParagraphs(items[1..], now);
      Success([head] + tail)
  }

  /** `State.to_dict`. */
  function EncodeState(s: StateRecord): Json {
    JObject(map[
      "query" := JStr(s.query),
      "report_title" := JStr(s.reportTitle),
      "paragraphs" := JArray(EncodeParagraphs(s.paragraphs)),
      "final_report" := JStr(s.finalReport),
      "is_completed" := JBool(s.isCompleted),
      "created_at" := JStr(s.createdAt),
      "updated_at" := JStr(s.updatedAt)])
  }

  /** `State.from_dict`: missing fields default; missing timestamps become `now`. */
  function DecodeState(v: Json, now: string): Result<StateRecord, DecodeError> {
    if !v.JObject? then Failure(NotADict)
    else
      var f := v.fields;
      var items :- ListItems(f, "paragraphs");
      var paragraphs :- DecodeParagraphs(items, now);
      Success(StateRecord(
        GetString(f, "query", ""), GetString(f, "report_title", ""), paragraphs,
        GetString(f, "final_report", ""), GetBool(f, "is_completed", false),
        GetString(f, "created_at", now), GetString(f, "updated_at", now)))
  }

  lemma SearchRoundTrip(s: Search, now: string)
    ensures DecodeSearch(EncodeSearch(s), now) == Success(s)
  {
  }

  lemma {:induction false} SearchesRoundTrip(ss: seq<Search>, now: string)
    ensures DecodeSearches(EncodeSearches(ss), now) == Success(ss)
  {
    if ss != [] {
      SearchRoundTrip(ss[0], now);
      SearchesRoundTrip(ss[1..], now);
      assert [ss[0]] + ss[1..] == ss;
    }
  }

  /** `Research.from_dict(r.to_dict()) == r`. */
  lemma {:induction false} ResearchRoundTrip(r: ResearchRecord, now: string)
    ensures DecodeResearch(EncodeResearch(r), now) == Success(r)
  {
    SearchesRoundTrip(r.searchHistory, now);
  }

  /** `Paragraph.from_dict(p.to_dict()) == p`. */
  lemma {:induction false} ParagraphRoundTrip(p: ParagraphRecord, now: string)
    ensures DecodeParagraph(EncodeParagraph(p), now) == Success(p)
  {
    ResearchRoundTrip(p.research, now);
  }

  lemma {:induction false} ParagraphsRoundTrip(ps: seq<ParagraphRecord>, now: string)
    ensures DecodeParagraphs(EncodeParagraphs(ps), now) == Success(ps)
  {
    if ps != [] {
      ParagraphRoundTrip(ps[0], now);
      ParagraphsRoundTrip(ps[1..], now);
      assert [ps[0]] + ps[1..] == ps;
    }
  }

  /** `State.from_dict(s.to_dict()) == s`, for every state, whatever the clock says. */
  lemma {:induction false} StateRoundTrip(s: StateRecord, now: string)
    ensures DecodeState(EncodeState(s), now) == Success(s)
  {
    ParagraphsRoundTrip(s.paragraphs, now);
    EncodedStateFields(s);
  }

  /** What `State.to_dict` puts under each of its keys. */
  lemma EncodedStateFields(s: StateRecord)
    ensures var f := EncodeState(s).fields;
      && f["paragraphs"] == JArray(EncodeParagraphs(s.paragraphs))
      && f["query"] == JStr(s.query) && f["report_title"] == JStr(s.reportTitle)
      && f["final_report"] == JStr(s.finalReport) && f["is_completed"] == JBool(s.isCompleted)
      && f["created_at"] == JStr(s.createdAt) && f["updated_at"] == JStr(s.updatedAt)
  {
    var f := EncodeState(s).fields;
    assert f["paragraphs"] == JArray(EncodeParagraphs(s.paragraphs));
    assert f["query"] == JStr(s.query) && f["report_title"] == JStr(s.reportTitle);
    assert f["final_report"] == JStr(s.finalReport) && f["is_completed"] == JBool(s.isCompleted);
  }

  /** Every field missing: `from_dict({})` gives the defaults rather than an error. */
  lemma DecodeDefaults(now: string)
    ensures DecodeSearch(JObject(map[]), now) == Success(Search("", "", "", "", None, now))
    ensures DecodeResearch(JObject(map[]), now) == Success(EmptyResearch)
    ensures DecodeParagraph(JObject(map[]), now) == Success(ParagraphRecord("", "", EmptyResearch, 0))
    ensures DecodeState(JObject(map[]), now) == Success(StateRecord("", "", [], "", false, now, now))
  {
  }
}
