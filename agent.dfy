/**
 * `DeepSearchAgent`: the pipeline that drives the nodes. It plans the
 * report, then researches the paragraphs one after another (a first search
 * and summary, then a fixed number of reflection rounds, then the paragraph
 * is marked done), assembles the final report and names the files it is
 * saved to.
 *
 * The language model and the search service are oracles indexed by call
 * number, so the agent counts its calls; a ghost log keeps the query and
 * the hits of every search. The step functions below state what the
 * agent's methods do to one paragraph's research record.
 */
module Agent {
  import opened Wrappers
  import opened Json
  import opened Strings
  import opened SearchTool
  import opened ResearchState
  import opened TextProcessing
  import opened AppConfig
  import opened NodeBase
  import SearchNode
  import SummaryNode
  import ReportStructureNode
  import FormattingNode

  /** The model client `_initialize_llm` builds for the configured provider. */
  datatype LlmClient =
    | DeepSeekClient(apiKey: Option<string>, modelName: string)
    | OpenAiClient(apiKey: Option<string>, modelName: string)

  /** `_initialize_llm`: a client for `deepseek` or `openai`; any other provider raises. */
  function InitializeLlm(config: Config): (r: Result<LlmClient, Error>)
    ensures r.Failure? <==> config.defaultLlmProvider != "deepseek" && config.defaultLlmProvider != "openai"
    ensures r.Failure? ==> r.error == UnsupportedProvider(config.defaultLlmProvider)
    ensures r.Success? ==> (r.value.DeepSeekClient? <==> config.defaultLlmProvider == "deepseek")
    ensures r.Success? ==>
      r.value.modelName == (if r.value.DeepSeekClient? then config.deepseekModel else config.openaiModel)
    ensures r.Success? ==> r.value.apiKey == (if r.value.DeepSeekClient? then config.deepseekApiKey else config.openaiApiKey)
  {
    if config.defaultLlmProvider == "deepseek" then Success(DeepSeekClient(config.deepseekApiKey, config.deepseekModel))
    else if config.defaultLlmProvider == "openai" then Success(OpenAiClient(config.openaiApiKey, config.openaiModel))
    else Failure(UnsupportedProvider(config.defaultLlmProvider))
  }

  /** With the default settings the provider is `deepseek`, so the client is always built. */
  lemma DefaultProviderSupported(deepseekApiKey: Option<string>, openaiApiKey: Option<string>, tavilyApiKey: Option<string>)
    ensures InitializeLlm(WithKeys(deepseekApiKey, openaiApiKey, tavilyApiKey)) ==
      Success(DeepSeekClient(deepseekApiKey, "deepseek-chat"))
  {
  }

  /**
   * What the research of a paragraph depends on: the number of reflection
   * rounds, the four nodes it runs and the search service (each a function
   * of the call index and of what the agent hands it), and the history
   * records that `add_search_results` makes of a query and its hits.
   * `DeepSearchAgent.EnvAt` builds each node's input from these arguments
   * exactly as the agent does.
   */
  datatype Env = Env(
    rounds: nat,
    firstSearch: (nat, string, string) -> Result<SearchNode.SearchPlan, Error>,
    reflection: (nat, string, string, string) -> Result<SearchNode.SearchPlan, Error>,
    search: (nat, string) -> seq<SearchResult>,
    records: (string, seq<SearchResult>) -> seq<Search>,
    firstSummary: (nat, string, string, string, seq<SearchResult>) -> Result<string, Error>,
    reflectionSummary: (nat, string, string, string, seq<SearchResult>, string) -> Result<string, Error>)

  /** The number of rounds of `range(max_reflections)`. */
  function Rounds(config: Config): nat {
    if config.maxReflections < 0 then 0 else config.maxReflections
  }

  /** The arguments of a `tavily_search` call for `query`. */
  function Request(config: Config, query: string): SearchRequest {
    SearchRequest(query, config.maxSearchResults, config.searchTimeout, config.tavilyApiKey)
  }

  /** The first search node's input: the paragraph's title and planned content. */
  function SearchInput(title: string, content: string): (r: Json)
  {
    JObject(map["title" := JStr(title), "content" := JStr(content)])
  }

  /** The first summary node's input: the paragraph, the query and the formatted hits. */
  function SummaryInput(title: string, content: string, query: string, formatted: seq<string>): (r: Json)
  {
    JObject(map["title" := JStr(title), "content" := JStr(content),
                "search_query" := JStr(query), "search_results" := StringList(formatted)])
  }

  /** The reflection node's input: the paragraph and its latest summary. */
  function ReflectionInput(title: string, content: string, latestSummary: string): (r: Json)
  {
    JObject(map["title" := JStr(title), "content" := JStr(content), "paragraph_latest_state" := JStr(latestSummary)])
  }

  /** The reflection summary node's input: all of the above. */
  function ReflectionSummaryInput(title: string, content: string, query: string, formatted: seq<string>,
                                  latestSummary: string): (r: Json)
  {
    JObject(map["title" := JStr(title), "content" := JStr(content),
                "search_query" := JStr(query), "search_results" := StringList(formatted),
                "paragraph_latest_state" := JStr(latestSummary)])
  }

  /**
   * Where the research of one paragraph stands: its record, the calls made
   * so far to the model and to the search service, the log of searches
   * (query and hits) and the error the run stopped with, if any.
   */
  datatype Step = Step(
    research: ResearchRecord,
    llmCalls: nat,
    searchCalls: nat,
    searches: seq<(string, seq<SearchResult>)>,
    error: Option<Error>)

  /**
   * `_initial_search_and_summary`: ask for a query, search, record the
   * hits, then ask for the first summary and store it. A failing model
   * call stops the run where it is; the hits stay recorded.
   */
  function InitialStep(env: Env, title: string, content: string, st: Step): Step {
    match env.firstSearch(st.llmCalls, title, content)
    case Failure(e) => st.(llmCalls := st.llmCalls + 1, error := Some(e))
    case Success(plan) =>
      var results := env.search(st.searchCalls, plan.searchQuery);
      var research := st.research.(searchHistory :=
        st.research.searchHistory + env.records(plan.searchQuery, results));
      var searched := st.(research := research, llmCalls := st.llmCalls + 2, searchCalls := st.searchCalls + 1,
                          searches := st.searches + [(plan.searchQuery, results)]);
      match env.firstSummary(st.llmCalls + 1, title, content, plan.searchQuery, results)
      case Failure(e) => searched.(error := Some(e))
      case Success(summary) => searched.(research := research.(latestSummary := summary))
  }

  /**
   * One round of `_reflection_loop`: the paragraph's current latest summary
   * goes into the reflection query and into the reflection summary, whose
   * result replaces it and counts the round.
   */
  function ReflectionStep(env: Env, title: string, content: string, st: Step): Step {
    var latest := st.research.latestSummary;
    match env.reflection(st.llmCalls, title, content, latest)
    case Failure(e) => st.(llmCalls := st.llmCalls + 1, error := Some(e))
    case Success(plan) =>
      var results := env.search(st.searchCalls, plan.searchQuery);
      var research := st.research.(searchHistory :=
        st.research.searchHistory + env.records(plan.searchQuery, results));
      var searched := st.(research := research, llmCalls := st.llmCalls + 2, searchCalls := st.searchCalls + 1,
                          searches := st.searches + [(plan.searchQuery, results)]);
      match env.reflectionSummary(st.llmCalls + 1, title, content, plan.searchQuery, results, latest)
      case Failure(e) => searched.(error := Some(e))
      case Success(summary) =>
        searched.(research := research.(latestSummary := summary, reflectionIteration := research.reflectionIteration + 1))
  }

  /**
   * A first search whose plan succeeds: the hits of the planned search
   * join the history, the counters move on, and the first summary, when it
   * succeeds, becomes the latest summary.
   */
  lemma InitialStepPlanned(env: Env, title: string, content: string, st: Step, query: string,
                           results: seq<SearchResult>, summary: Result<string, Error>)
    requires var plan := env.firstSearch(st.llmCalls, title, content);
      plan.Success? && plan.value.searchQuery == query
    requires env.search(st.searchCalls, query) == results
    requires env.firstSummary(st.llmCalls + 1, title, content, query, results) == summary
    ensures var research := st.research.(searchHistory := st.research.searchHistory + env.records(query, results));
      var searched := st.(research := research, llmCalls := st.llmCalls + 2, searchCalls := st.searchCalls + 1,
                          searches := st.searches + [(query, results)]);
      InitialStep(env, title, content, st) ==
        if summary.Failure? then searched.(error := Some(summary.error))
        else searched.(research := research.(latestSummary := summary.value))
  {
  }

  /**
   * A reflection round whose plan succeeds: the hits of the planned search
   * join the history, the counters move on, and the reflection summary,
   * when it succeeds, replaces the latest summary and counts the round.
   */
  lemma ReflectionStepPlanned(env: Env, title: string, content: string, st: Step, query: string,
                              results: seq<SearchResult>, summary: Result<string, Error>)
    requires var plan := env.reflection(st.llmCalls, title, content, st.research.latestSummary);
      plan.Success? && plan.value.searchQuery == query
    requires env.search(st.searchCalls, query) == results
    requires env.reflectionSummary(st.llmCalls + 1, title, content, query, results, st.research.latestSummary) == summary
    ensures var research := st.research.(searchHistory := st.research.searchHistory + env.records(query, results));
      var searched := st.(research := research, llmCalls := st.llmCalls + 2, searchCalls := st.searchCalls + 1,
                          searches := st.searches + [(query, results)]);
      ReflectionStep(env, title, content, st) ==
        if summary.Failure? then searched.(error := Some(summary.error))
        else searched.(research := research.(latestSummary := summary.value,
                                             reflectionIteration := research.reflectionIteration + 1))
  {
  }

  /** `n` reflection rounds, stopping at the first error. */
  function ReflectionSteps(env: Env, title: string, content: string, st: Step, n: nat): Step {
    if n == 0 then st
    else
      var prev := ReflectionSteps(env, title, content, st, n - 1);
      if prev.error.Some? then prev else ReflectionStep(env, title, content, prev)
  }

  /** One paragraph of `_process_paragraphs`: first search and summary, the reflection rounds, then done. */
  function ParagraphOutcome(env: Env, title: string, content: string, st: Step): Step {
    var first := InitialStep(env, title, content, st);
    if first.error.Some? then first
    else
      var last := ReflectionSteps(env, title, content, first, env.rounds);
      if last.error.Some? then last else last.(research := last.research.(isCompleted := true))
  }

  /**
   * The research records after `_process_paragraphs` over `ps`, the call
   * counters and search log, how many paragraphs were started, and the
   * error the run stopped with.
   */
  datatype Pass = Pass(
    researches: seq<ResearchRecord>,
    llmCalls: nat,
    searchCalls: nat,
    searches: seq<(string, seq<SearchResult>)>,
    processed: nat,
    error: Option<Error>)

  /** The paragraphs in index order; after an error the remaining ones are left as they are. */
  function ProcessAll(env: Env, ps: seq<ParagraphRecord>, llmCalls: nat, searchCalls: nat,
                      searches: seq<(string, seq<SearchResult>)>): (r: Pass)
    ensures |r.researches| == |ps|
  {
    if ps == [] then Pass([], llmCalls, searchCalls, searches, 0, None)
    else
      var n := |ps| - 1;
      var prev := ProcessAll(env, ps[..n], llmCalls, searchCalls, searches);
      if prev.error.Some? then prev.(researches := prev.researches + [ps[n].research])
      else
        var out := ParagraphOutcome(env, ps[n].title, ps[n].content,
                                    Step(ps[n].research, prev.llmCalls, prev.searchCalls, prev.searches, None));
        Pass(prev.researches + [out.research], out.llmCalls, out.searchCalls, out.searches, |ps|, out.error)
  }

  /** The history records a log of searches adds, in order. */
  function HistoryOf(env: Env, log: seq<(string, seq<SearchResult>)>): seq<Search> {
    if log == [] then []
    else HistoryOf(env, log[..|log| - 1]) + env.records(log[|log| - 1].0, log[|log| - 1].1)
  }

  /** What the search nodes guarantee: a plan they return never has an empty query. */
  ghost predicate PlansHaveQueries(env: Env) {
    && (forall call, title, content ::
          env.firstSearch(call, title, content).Success? ==> env.firstSearch(call, title, content).value.searchQuery != "")
    && (forall call, title, content, latest ::
          env.reflection(call, title, content, latest).Success? ==>
            env.reflection(call, title, content, latest).value.searchQuery != "")
  }

  /**
   * After `n` reflection rounds that all succeed: the reflection count went
   * up by exactly `n`, each round made two model calls and one search, and
   * the search log grew by one entry per round.
   */
  lemma {:induction false} ReflectionStepsCounts(env: Env, title: string, content: string, st: Step, n: nat)
    requires st.error.None?
    ensures var out := ReflectionSteps(env, title, content, st, n);
      out.error.None? ==>
        && out.research.reflectionIteration == st.research.reflectionIteration + n
        && out.research.isCompleted == st.research.isCompleted
        && out.llmCalls == st.llmCalls + 2 * n
        && out.searchCalls == st.searchCalls + n
        && |out.searches| == |st.searches| + n
        && out.searches[..|st.searches|] == st.searches
  {
    if n > 0 {
      var prev := ReflectionSteps(env, title, content, st, n - 1);
      ReflectionStepsCounts(env, title, content, st, n - 1);
      var out := ReflectionSteps(env, title, content, st, n);
      if out.error.None? {
        assert prev.error.None? && out == ReflectionStep(env, title, content, prev);
        assert out.searches[..|prev.searches|] == prev.searches;
      }
    }
  }

  /**
   * After `n` reflection rounds that all succeed, the history grew by
   * exactly the hits the logged searches returned, in order.
   */
  lemma {:induction false} ReflectionStepsHistory(env: Env, title: string, content: string, st: Step, n: nat)
    requires st.error.None?
    ensures var out := ReflectionSteps(env, title, content, st, n);
      out.error.None? ==>
        && |st.searches| <= |out.searches|
        && out.research.searchHistory == st.research.searchHistory + HistoryOf(env, out.searches[|st.searches|..])
  {
    if n > 0 {
      var prev := ReflectionSteps(env, title, content, st, n - 1);
      ReflectionStepsHistory(env, title, content, st, n - 1);
      var out := ReflectionSteps(env, title, content, st, n);
      if out.error.None? {
        assert prev.error.None? && out == ReflectionStep(env, title, content, prev);
        var m := |st.searches|;
        var added := prev.searches[m..];
        var last := out.searches[|out.searches| - 1];
        assert out.searches[m..] == added + [last];
        assert (added + [last])[..|added|] == added;
      }
    }
  }

  /** Every search the reflection rounds log was made with a non-empty query. */
  lemma {:induction false} ReflectionStepsQueries(env: Env, title: string, content: string, st: Step, n: nat)
    requires st.error.None? && PlansHaveQueries(env)
    ensures var out := ReflectionSteps(env, title, content, st, n);
      out.error.None? ==>
        && |st.searches| <= |out.searches|
        && forall j :: |st.searches| <= j < |out.searches| ==> out.searches[j].0 != ""
  {
    if n > 0 {
      var prev := ReflectionSteps(env, title, content, st, n - 1);
      ReflectionStepsQueries(env, title, content, st, n - 1);
      var out := ReflectionSteps(env, title, content, st, n);
      if out.error.None? {
        assert prev.error.None? && out == ReflectionStep(env, title, content, prev);
      }
    }
  }

  /** Once a reflection round fails, later rounds change nothing. */
  lemma {:induction false} ReflectionStepsStuck(env: Env, title: string, content: string, st: Step, m: nat, n: nat)
    requires m <= n && ReflectionSteps(env, title, content, st, m).error.Some?
    ensures ReflectionSteps(env, title, content, st, n) == ReflectionSteps(env, title, content, st, m)
    decreases n
  {
    if m < n {
      ReflectionStepsStuck(env, title, content, st, m, n - 1);
      var prev := ReflectionSteps(env, title, content, st, n - 1);
      assert prev.error.Some?;
    }
  }

  /** The history of two logs in a row is the two histories in a row. */
  lemma {:induction false} HistoryOfConcat(env: Env, a: seq<(string, seq<SearchResult>)>, b: seq<(string, seq<SearchResult>)>)
    ensures HistoryOf(env, a + b) == HistoryOf(env, a) + HistoryOf(env, b)
    decreases |b|
  {
    if b == [] {
      assert a + b == a;
    } else {
      var n := |b| - 1;
      assert (a + b)[..|a + b| - 1] == a + b[..n];
      assert (a + b)[|a + b| - 1] == b[n];
      HistoryOfConcat(env, a, b[..n]);
    }
  }

  /**
   * A paragraph whose research succeeds ends completed with exactly
   * `max_reflections` more reflections, after `1 + max_reflections`
   * searches and twice as many model calls.
   */
  lemma ParagraphOutcomeCounts(env: Env, title: string, content: string, st: Step)
    requires st.error.None?
    ensures var out := ParagraphOutcome(env, title, content, st);
      var rounds := env.rounds;
      out.error.None? ==>
        && out.research.isCompleted
        && out.research.reflectionIteration == st.research.reflectionIteration + rounds
        && out.llmCalls == st.llmCalls + 2 * (1 + rounds)
        && out.searchCalls == st.searchCalls + 1 + rounds
        && |out.searches| == |st.searches| + 1 + rounds
        && out.searches[..|st.searches|] == st.searches
  {
    var first := InitialStep(env, title, content, st);
    var out := ParagraphOutcome(env, title, content, st);
    if out.error.None? {
      assert first.error.None?;
      ReflectionStepsCounts(env, title, content, first, env.rounds);
      var last := ReflectionSteps(env, title, content, first, env.rounds);
      assert last.searches[..|first.searches|] == first.searches;
      assert last.searches[..|st.searches|] == first.searches[..|st.searches|];
    }
  }

  /**
   * A paragraph whose research succeeds has exactly the hits of its
   * searches, and nothing else, added to its history.
   */
  lemma ParagraphOutcomeHistory(env: Env, title: string, content: string, st: Step)
    requires st.error.None?
    ensures var out := ParagraphOutcome(env, title, content, st);
      out.error.None? ==>
        && |st.searches| <= |out.searches|
        && out.research.searchHistory == st.research.searchHistory + HistoryOf(env, out.searches[|st.searches|..])
  {
    var first := InitialStep(env, title, content, st);
    var out := ParagraphOutcome(env, title, content, st);
    if out.error.None? {
      var rounds := env.rounds;
      assert first.error.None?;
      InitialStepHistory(env, title, content, st);
      ReflectionStepsCounts(env, title, content, first, rounds);
      ReflectionStepsHistory(env, title, content, first, rounds);
      var last := ReflectionSteps(env, title, content, first, rounds);
      var m := |st.searches|;
      assert last.searches[..m + 1] == first.searches;
      assert first.searches[m..] == last.searches[m..m + 1];
      HistoryChain(env, last.searches, m, m + 1, st.research.searchHistory, first.research.searchHistory,
                   last.research.searchHistory);
    }
  }

  /** A first search that succeeds logs one search and adds exactly its hits to the history. */
  lemma InitialStepHistory(env: Env, title: string, content: string, st: Step)
    requires st.error.None?
    ensures var first := InitialStep(env, title, content, st);
      first.error.None? ==>
        && |first.searches| == |st.searches| + 1 && first.searches[..|st.searches|] == st.searches
        && first.research.searchHistory == st.research.searchHistory + HistoryOf(env, first.searches[|st.searches|..])
  {
    var first := InitialStep(env, title, content, st);
    if first.error.None? {
      var entry := first.searches[|st.searches|];
      assert first.searches[|st.searches|..] == [entry];
      assert [entry][..0] == [];
    }
  }

  /** Two history extensions in a row, over adjacent stretches of one log, are one extension. */
  lemma HistoryChain(env: Env, log: seq<(string, seq<SearchResult>)>, a: nat, b: nat, h0: seq<Search>,
                     h1: seq<Search>, h2: seq<Search>)
    requires a <= b <= |log|
    requires h1 == h0 + HistoryOf(env, log[a..b]) && h2 == h1 + HistoryOf(env, log[b..])
    ensures h2 == h0 + HistoryOf(env, log[a..])
  {
    assert log[a..] == log[a..b] + log[b..];
    HistoryOfConcat(env, log[a..b], log[b..]);
  }

  /** Every search a paragraph's research logs was made with a non-empty query. */
  lemma ParagraphOutcomeQueries(env: Env, title: string, content: string, st: Step)
    requires st.error.None? && PlansHaveQueries(env)
    ensures var out := ParagraphOutcome(env, title, content, st);
      out.error.None? ==>
        && |st.searches| <= |out.searches|
        && forall j :: |st.searches| <= j < |out.searches| ==> out.searches[j].0 != ""
  {
    var first := InitialStep(env, title, content, st);
    var out := ParagraphOutcome(env, title, content, st);
    if out.error.None? {
      assert first.error.None?;
      ReflectionStepsQueries(env, title, content, first, env.rounds);
      ReflectionStepsCounts(env, title, content, first, env.rounds);
      var last := ReflectionSteps(env, title, content, first, env.rounds);
      assert last.searches[..|first.searches|] == first.searches;
    }
  }

  /** A fresh paragraph that is researched successfully ends with `reflection_iteration == max_reflections`. */
  lemma FreshParagraphReflections(env: Env, title: string, content: string, llmCalls: nat, searchCalls: nat,
                                  searches: seq<(string, seq<SearchResult>)>)
    ensures var out := ParagraphOutcome(env, title, content, Step(EmptyResearch, llmCalls, searchCalls, searches, None));
      out.error.None? ==>
        && out.research.reflectionIteration == env.rounds && out.research.isCompleted
        && |searches| <= |out.searches|
        && out.research.searchHistory == HistoryOf(env, out.searches[|searches|..])
  {
    ParagraphOutcomeCounts(env, title, content, Step(EmptyResearch, llmCalls, searchCalls, searches, None));
    ParagraphOutcomeHistory(env, title, content, Step(EmptyResearch, llmCalls, searchCalls, searches, None));
  }

  /**
   * A reflection round that succeeds was asked with the paragraph's current
   * latest summary and replaces it with the reflection summary of that same
   * summary; the previous summary is not kept alongside.
   */
  lemma ReflectionRoundFeedsSummary(env: Env, title: string, content: string, st: Step)
    requires ReflectionStep(env, title, content, st).error.None?
    ensures var out := ReflectionStep(env, title, content, st);
      var latest := st.research.latestSummary;
      && env.reflection(st.llmCalls, title, content, latest).Success?
      && var query := out.searches[|out.searches| - 1].0;
      && var results := out.searches[|out.searches| - 1].1;
      && env.reflectionSummary(st.llmCalls + 1, title, content, query, results, latest).Success?
      && out.research.latestSummary == env.reflectionSummary(st.llmCalls + 1, title, content, query, results, latest).value
      && out.research.reflectionIteration == st.research.reflectionIteration + 1
  {
  }

  /** Once a paragraph fails, the run stops: the paragraphs after it keep their records. */
  lemma {:induction false} ProcessAllStuck(env: Env, ps: seq<ParagraphRecord>, n: nat, llmCalls: nat, searchCalls: nat,
                                           searches: seq<(string, seq<SearchResult>)>)
    requires n <= |ps| && ProcessAll(env, ps[..n], llmCalls, searchCalls, searches).error.Some?
    ensures var at := ProcessAll(env, ps[..n], llmCalls, searchCalls, searches);
      var all := ProcessAll(env, ps, llmCalls, searchCalls, searches);
      && all.error == at.error && all.processed == at.processed
      && all.llmCalls == at.llmCalls && all.searchCalls == at.searchCalls && all.searches == at.searches
      && (forall k :: 0 <= k < n ==> all.researches[k] == at.researches[k])
      && (forall k :: n <= k < |ps| ==> all.researches[k] == ps[k].research)
    decreases |ps| - n
  {
    if n == |ps| {
      assert ps[..n] == ps;
    } else {
      var at := ProcessAll(env, ps[..n], llmCalls, searchCalls, searches);
      assert ps[..n + 1][..n] == ps[..n];
      var next := ProcessAll(env, ps[..n + 1], llmCalls, searchCalls, searches);
      assert next == at.(researches := at.researches + [ps[n].research]);
      ProcessAllStuck(env, ps, n + 1, llmCalls, searchCalls, searches);
    }
  }

  /** Researching one more paragraph leaves the records of the earlier ones as they were. */
  lemma ProcessAllKeepsEarlier(env: Env, ps: seq<ParagraphRecord>, n: nat, llmCalls: nat, searchCalls: nat,
                               searches: seq<(string, seq<SearchResult>)>)
    requires n < |ps|
    ensures ProcessAll(env, ps[..n + 1], llmCalls, searchCalls, searches).researches[..n] ==
            ProcessAll(env, ps[..n], llmCalls, searchCalls, searches).researches
  {
    assert ps[..n + 1][..n] == ps[..n];
  }

  /** `ProcessAll` over one more paragraph: that paragraph's outcome after the ones before it. */
  lemma ProcessAllNext(env: Env, ps: seq<ParagraphRecord>, n: nat, llmCalls: nat, searchCalls: nat,
                       searches: seq<(string, seq<SearchResult>)>)
    requires n < |ps|
    ensures var prev := ProcessAll(env, ps[..n], llmCalls, searchCalls, searches);
      ProcessAll(env, ps[..n + 1], llmCalls, searchCalls, searches) ==
        if prev.error.Some? then prev.(researches := prev.researches + [ps[n].research])
        else
          var out := ParagraphOutcome(env, ps[n].title, ps[n].content,
                                      Step(ps[n].research, prev.llmCalls, prev.searchCalls, prev.searches, None));
          Pass(prev.researches + [out.research], out.llmCalls, out.searchCalls, out.searches, n + 1, out.error)
  {
    assert ps[..n + 1][..n] == ps[..n];
  }

  /**
   * Paragraphs are researched strictly in order: every paragraph before the
   * last one started is completed, the ones after it are untouched, and
   * when no error occurs every paragraph was started and completed.
   */
  lemma {:induction false} ProcessAllOrder(env: Env, ps: seq<ParagraphRecord>, llmCalls: nat, searchCalls: nat,
                                           searches: seq<(string, seq<SearchResult>)>)
    ensures var pass := ProcessAll(env, ps, llmCalls, searchCalls, searches);
      && pass.processed <= |ps|
      && (pass.error.None? ==> pass.processed == |ps|)
      && (pass.error.Some? ==> pass.processed > 0)
      && (forall k :: pass.processed <= k < |ps| ==> pass.researches[k] == ps[k].research)
      && (forall k :: 0 <= k < pass.processed - 1 ==> pass.researches[k].isCompleted)
      && (pass.error.None? ==> forall k :: 0 <= k < |ps| ==> pass.researches[k].isCompleted)
  {
    if ps != [] {
      var n := |ps| - 1;
      ProcessAllOrder(env, ps[..n], llmCalls, searchCalls, searches);
      var prev := ProcessAll(env, ps[..n], llmCalls, searchCalls, searches);
      if prev.error.None? {
        ParagraphOutcomeCounts(env, ps[n].title, ps[n].content,
                               Step(ps[n].research, prev.llmCalls, prev.searchCalls, prev.searches, None));
      }
    }
  }

  /** The `(title, latest_summary)` pairs `_generate_final_report` collects, in paragraph order. */
  function ReportPairs(ps: seq<Paragraph>): (r: seq<(string, string)>)
    reads ResearchesOf(ps)
    ensures |r| == |ps|
    ensures forall k :: 0 <= k < |ps| ==> r[k] == (ps[k].title, ps[k].research.latestSummary)
  {
    seq(|ps|, k requires 0 <= k < |ps| reads ResearchesOf(ps) => (ps[k].title, ps[k].research.latestSummary))
  }

  /**
   * The final report: the formatting node's, or the manual one when that
   * raises. Either way it opens with a heading; the manual report, which
   * is used exactly when the model call fails, opens with the report title.
   */
  function FinalReport(llm: Llm, call: nat, pairs: seq<(string, string)>, reportTitle: string): (r: string)
    ensures r != [] && r[0] == '#'
    ensures var input := JArray(FormattingNode.ReportEntries(pairs));
      && (llm(call, ReportFormatting, input).Some? ==>
            r == FormattingNode.ProcessOutput(llm(call, ReportFormatting, input).value))
      && (llm(call, ReportFormatting, input).None? ==>
            r == FormattingNode.ManualReport(FormattingNode.ReportEntries(pairs), reportTitle)
            && StartsWith(r, "# " + reportTitle))
  {
    var entries := FormattingNode.ReportEntries(pairs);
    FormattingNode.ReportEntriesFormat(pairs);
    FormattingNode.ManualReportHeading(entries, reportTitle);
    match FormattingNode.Run(llm, call, JArray(entries))
    case Success(report) => report
    case Failure(_) => FormattingNode.ManualReport(entries, reportTitle)
  }

  /** A character `_save_report` keeps in the query: alphanumeric, a space, `-` or `_`. */
  predicate SafeChar(c: char, isAlnum: char -> bool) {
    isAlnum(c) || c == ' ' || c == '-' || c == '_'
  }

  /** The characters of `s` that are safe, in order. */
  function KeepSafe(s: string, isAlnum: char -> bool): (r: string)
    ensures |r| <= |s|
    ensures forall i :: 0 <= i < |r| ==> SafeChar(r[i], isAlnum)
  {
    if s == [] then []
    else (if SafeChar(s[0], isAlnum) then [s[0]] else []) + KeepSafe(s[1..], isAlnum)
  }

  /** Every safe character of `s` is kept as often as it occurs, every other one is dropped. */
  lemma {:induction false} KeepSafeCounts(s: string, isAlnum: char -> bool)
    ensures forall c :: multiset(KeepSafe(s, isAlnum))[c] == if SafeChar(c, isAlnum) then multiset(s)[c] else 0
  {
    if s != [] {
      KeepSafeCounts(s[1..], isAlnum);
      assert s == [s[0]] + s[1..];
    }
  }

  /** Filtering works piece by piece, so the kept characters stay in their order. */
  lemma {:induction false} KeepSafeAppend(s: string, t: string, isAlnum: char -> bool)
    ensures KeepSafe(s + t, isAlnum) == KeepSafe(s, isAlnum) + KeepSafe(t, isAlnum)
    decreases |s|
  {
    if s != [] {
      assert (s + t)[1..] == s[1..] + t;
      KeepSafeAppend(s[1..], t, isAlnum);
    } else {
      assert s + t == t;
    }
  }

  /** The first 30 characters, or all of them. */
  function Cut30(s: string): string {
    if |s| <= 30 then s else s[..30]
  }

  /**
   * `query_safe`: the safe characters of the query, trailing whitespace
   * dropped, spaces turned into `_`, cut to 30 characters. `isAlnum` is
   * Python's `str.isalnum`.
   */
  function QuerySafe(query: string, isAlnum: char -> bool): (r: string)
    ensures |r| <= 30
    ensures forall i :: 0 <= i < |r| ==> r[i] != ' ' && (isAlnum(r[i]) || r[i] == '-' || r[i] == '_')
  {
    var kept := StripRight(KeepSafe(query, isAlnum));
    assert forall i :: 0 <= i < |kept| ==> SafeChar(kept[i], isAlnum) by {
      var all := KeepSafe(query, isAlnum);
      forall i | 0 <= i < |kept| ensures SafeChar(kept[i], isAlnum) {
        assert kept[i] == all[..|kept|][i];
      }
    }
    var replaced := ReplaceChar(kept, ' ', '_');
    Cut30(replaced)
  }

  /**
   * A query made only of safe characters and not ending in whitespace is
   * kept whole, with its spaces turned into `_`, up to 30 characters.
   */
  lemma QuerySafeOfSafe(query: string, isAlnum: char -> bool)
    requires forall i :: 0 <= i < |query| ==> SafeChar(query[i], isAlnum)
    requires query == [] || !IsSpace(query[|query| - 1])
    ensures QuerySafe(query, isAlnum) == Cut30(ReplaceChar(query, ' ', '_'))
  {
    KeepSafeOfSafe(query, isAlnum);
    assert StripRight(query) == query;
  }

  /** Trailing spaces of the query do not reach the file name. */
  lemma QuerySafeTrailingSpace(query: string, isAlnum: char -> bool)
    ensures QuerySafe(query + " ", isAlnum) == QuerySafe(query, isAlnum)
  {
    KeepSafeAppend(query, " ", isAlnum);
    var kept := KeepSafe(query, isAlnum);
    assert KeepSafe(" ", isAlnum) == " " by {
      assert " "[1..] == [];
    }
    var spaced := kept + " ";
    assert IsSpace(' ');
    assert spaced[..|spaced| - 1] == kept;
  }

  /** Unsafe characters of the query do not reach the file name. */
  lemma QuerySafeDropsUnsafe(query: string, c: char, rest: string, isAlnum: char -> bool)
    requires !SafeChar(c, isAlnum)
    ensures QuerySafe(query + [c] + rest, isAlnum) == QuerySafe(query + rest, isAlnum)
  {
    KeepSafeAppend(query + [c], rest, isAlnum);
    KeepSafeAppend(query, [c], isAlnum);
    KeepSafeAppend(query, rest, isAlnum);
    assert KeepSafe([c], isAlnum) == [] by {
      assert [c][1..] == [];
    }
    assert KeepSafe(query + [c], isAlnum) == KeepSafe(query, isAlnum);
    assert KeepSafe(query + [c] + rest, isAlnum) == KeepSafe(query + rest, isAlnum);
  }

  /** A query made only of visible alphanumeric characters is kept as it is, up to 30 characters. */
  lemma QuerySafeOfAlnum(query: string, isAlnum: char -> bool)
    requires forall i :: 0 <= i < |query| ==> isAlnum(query[i]) && !IsSpace(query[i])
    ensures QuerySafe(query, isAlnum) == if |query| <= 30 then query else query[..30]
  {
    QuerySafeOfSafe(query, isAlnum);
    var replaced := ReplaceChar(query, ' ', '_');
    assert replaced == query by {
      assert forall i :: 0 <= i < |query| ==> query[i] != ' ' by {
        assert IsSpace(' ');
      }
    }
  }

  /** Keeping the safe characters of an all-safe string keeps all of it. */
  lemma {:induction false} KeepSafeOfSafe(s: string, isAlnum: char -> bool)
    requires forall i :: 0 <= i < |s| ==> SafeChar(s[i], isAlnum)
    ensures KeepSafe(s, isAlnum) == s
  {
    if s != [] {
      KeepSafeOfSafe(s[1..], isAlnum);
    }
  }

  /** `os.path.join(directory, name)` for a relative file name. */
  function PathJoin(directory: string, name: string): (r: string)
    ensures directory == [] ==> r == name
    ensures directory != [] && directory[|directory| - 1] == '/' ==> r == directory + name
    ensures directory != [] && directory[|directory| - 1] != '/' ==> r == directory + "/" + name
    ensures StartsWith(r, directory) && r[|r| - |name|..] == name
  {
    if directory == [] || directory[|directory| - 1] == '/' then directory + name else directory + "/" + name
  }

  function ReportFileName(querySafe: string, timestamp: string): string {
    "deep_search_report_" + querySafe + "_" + timestamp + ".md"
  }

  function StateFileName(querySafe: string, timestamp: string): string {
    "state_" + querySafe + "_" + timestamp + ".json"
  }

  /** What a saved file holds: the report text, or the state as `to_dict` gives it. */
  datatype FileContent = ReportText(text: string) | StateDict(data: Json)

  datatype SavedFile = SavedFile(path: string, content: FileContent)

  class DeepSearchAgent {
    const config: Config
    const client: LlmClient
    const llm: Llm
    const search: SearchEngine
    const parser: Parser
    /** The four search and summary nodes `__init__` builds over the client, as their `run`s. */
    const firstSearchNode: (nat, Json) -> Result<SearchNode.SearchPlan, Error>
    const reflectionNode: (nat, Json) -> Result<SearchNode.SearchPlan, Error>
    const firstSummaryNode: (nat, Json) -> Result<string, Error>
    const reflectionSummaryNode: (nat, Json) -> Result<string, Error>
    var state: State
    /** How many model calls and searches the agent has made; the next call's index. */
    var llmCalls: nat
    var searchCalls: nat
    /** Every search made so far: its query and its hits. */
    ghost var searches: seq<(string, seq<SearchResult>)>

    ghost predicate Valid()
      reads this`state, state`paragraphs
    {
      state.Valid()
    }

    /** Each node's `run` is that node's run over this agent's model and reply parser. */
    ghost predicate Wired() {
      forall call: nat, input: Json ::
        && firstSearchNode(call, input) == SearchNode.FirstSearchRun(llm, call, parser, input)
        && reflectionNode(call, input) == SearchNode.ReflectionRun(llm, call, parser, input)
        && firstSummaryNode(call, input) == SummaryNode.FirstSummaryRun(llm, call, parser, input)
        && reflectionSummaryNode(call, input) == SummaryNode.ReflectionSummaryRun(llm, call, parser, input)
    }

    /**
     * The step functions' view of this agent at time `now`: each node is
     * handed the input the agent builds for it, searches go out with the
     * configured limits, and the hits reach the summary nodes formatted
     * for the prompt.
     */
    function EnvAt(now: string): Env {
      Env(Rounds(config),
          (call: nat, title: string, content: string) => firstSearchNode(call, SearchInput(title, content)),
          (call: nat, title: string, content: string, latest: string) =>
            reflectionNode(call, ReflectionInput(title, content, latest)),
          (call: nat, query: string) => search(call, Request(config, query)),
          (query: string, results: seq<SearchResult>) => SearchesOf(query, results, now),
          (call: nat, title: string, content: string, query: string, results: seq<SearchResult>) =>
            firstSummaryNode(call, SummaryInput(title, content, query, FormattedContents(results, config.maxContentLength))),
          (call: nat, title: string, content: string, query: string, results: seq<SearchResult>, latest: string) =>
            reflectionSummaryNode(call, ReflectionSummaryInput(title, content, query,
                                                               FormattedContents(results, config.maxContentLength), latest)))
    }

    /**
     * An agent whose nodes are the search nodes only ever plans searches
     * with a non-empty query, whatever the model replies.
     */
    lemma WiredPlansHaveQueries(now: string)
      requires Wired()
      ensures PlansHaveQueries(EnvAt(now))
    {
      var env := EnvAt(now);
      forall call: nat, title: string, content: string | env.firstSearch(call, title, content).Success?
        ensures env.firstSearch(call, title, content).value.searchQuery != ""
      {
        assert env.firstSearch(call, title, content) ==
          SearchNode.FirstSearchRun(llm, call, parser, SearchInput(title, content));
      }
      forall call: nat, title: string, content: string, latest: string |
        env.reflection(call, title, content, latest).Success?
        ensures env.reflection(call, title, content, latest).value.searchQuery != ""
      {
        assert env.reflection(call, title, content, latest) ==
          SearchNode.ReflectionRun(llm, call, parser, ReflectionInput(title, content, latest));
      }
    }

    /** Paragraph `i`'s research and the agent's counters, as a step. */
    ghost function Current(i: nat, error: Option<Error>): Step
      requires i < |state.paragraphs|
      reads this, state, state.paragraphs[i].research
    {
      Step(state.paragraphs[i].research.Record(), llmCalls, searchCalls, searches, error)
    }

    /** `__init__` past `_initialize_llm`: the client, a fresh state and no calls made yet. */
    constructor (config: Config, client: LlmClient, llm: Llm, search: SearchEngine, parser: Parser, now: string)
      ensures this.config == config && this.client == client && this.llm == llm
      ensures this.search == search && this.parser == parser && Wired()
      ensures fresh(state) && Valid() && state.Record() == StateRecord("", "", [], "", false, now, now)
      ensures llmCalls == 0 && searchCalls == 0 && searches == []
    {
      this.config, this.client, this.llm, this.search, this.parser := config, client, llm, search, parser;
      firstSearchNode := (call: nat, input: Json) => SearchNode.FirstSearchRun(llm, call, parser, input);
      reflectionNode := (call: nat, input: Json) => SearchNode.ReflectionRun(llm, call, parser, input);
      firstSummaryNode := (call: nat, input: Json) => SummaryNode.FirstSummaryRun(llm, call, parser, input);
      reflectionSummaryNode := (call: nat, input: Json) => SummaryNode.ReflectionSummaryRun(llm, call, parser, input);
      state := new State(now);
      llmCalls, searchCalls, searches := 0, 0, [];
    }

    /** `DeepSearchAgent(config)`: raises for an unsupported provider, as `_initialize_llm` does. */
    static method Create(config: Config, llm: Llm, search: SearchEngine, parser: Parser, now: string)
      returns (r: Result<DeepSearchAgent, Error>)
      ensures r.Failure? <==> InitializeLlm(config).Failure?
      ensures r.Failure? ==> r.error == UnsupportedProvider(config.defaultLlmProvider)
      ensures r.Success? ==> fresh(r.value) && fresh(r.value.state) && r.value.Valid()
      ensures r.Success? ==> r.value.config == config && r.value.client == InitializeLlm(config).value
      ensures r.Success? ==> r.value.llm == llm && r.value.parser == parser && r.value.Wired()
      ensures r.Success? ==> r.value.state.paragraphs == [] && r.value.llmCalls == 0
    {
      var client := InitializeLlm(config);
      if client.Failure? {
        return Failure(client.error);
      }
      var agent := new DeepSearchAgent(config, client.value, llm, search, parser, now);
      return Success(agent);
    }

    /** `_generate_report_structure`: the report structure node plans the paragraphs into the state. */
    method GenerateReportStructure(query: string, now: string) returns (error: Option<Error>)
      requires Valid()
      modifies this`llmCalls, this`state, state
      ensures Valid() && state == old(state)
      ensures llmCalls == old(llmCalls) + 1 && searchCalls == old(searchCalls) && searches == old(searches)
      ensures var run := ReportStructureNode.Run(llm, old(llmCalls), parser, query);
        && (error.None? <==> run.Success?)
        && (error.Some? ==> error.value == run.error && unchanged(state))
        && (error.None? ==>
              && state.query == query
              && state.reportTitle ==
                   (if old(state.reportTitle) == "" then ReportStructureNode.DefaultReportTitle(query)
                    else old(state.reportTitle))
              && state.finalReport == old(state.finalReport) && state.isCompleted == old(state.isCompleted)
              && ReportStructureNode.AppendedOutline(state.paragraphs, |old(state.paragraphs)|, run.value)
              && state.paragraphs[..|old(state.paragraphs)|] == old(state.paragraphs)
              && Records(state.paragraphs) ==
                   old(Records(state.paragraphs)) + ReportStructureNode.PlannedRecords(|old(state.paragraphs)|, run.value))
      ensures forall o :: o in state.Repr() ==> o in old(state.Repr()) || fresh(o)
    {
      ghost var before := state.paragraphs;
      ghost var records := Records(before);
      ghost var run := ReportStructureNode.Run(llm, llmCalls, parser, query);
      var r := ReportStructureNode.MutateState(llm, llmCalls, parser, query, state, now);
      llmCalls := llmCalls + 1;
      if r.Failure? {
        return Some(r.error);
      }
      forall k | 0 <= k < |before|
        ensures state.paragraphs[k].Record() == records[k]
      {
        assert state.paragraphs[k] == before[k];
      }
      ReportStructureNode.AppendedOutlineRecords(state.paragraphs, records, run.value);
      forall o | o in state.Repr()
        ensures o in old(state.Repr()) || fresh(o)
      {
        var m :| 0 <= m < |state.paragraphs| && state.paragraphs[m].research == o;
        if m < |before| {
          assert state.paragraphs[m] == before[m];
        }
      }
      return None;
    }

    /**
     * `_initial_search_and_summary(i)`: paragraph `i`'s research becomes
     * what `InitialStep` says; no other paragraph changes.
     */
    method InitialSearchAndSummary(paragraphIndex: nat, now: string) returns (error: Option<Error>)
      requires Valid() && paragraphIndex < |state.paragraphs|
      modifies this`llmCalls, this`searchCalls, this`searches, state`updatedAt, state.paragraphs[paragraphIndex].research
      ensures var p := state.paragraphs[paragraphIndex];
        Current(paragraphIndex, error) == InitialStep(EnvAt(now), p.title, p.content, old(Current(paragraphIndex, None)))
    {
      var paragraph := state.paragraphs[paragraphIndex];
      assert paragraph.research in state.Repr();
      ghost var st0 := Current(paragraphIndex, None);
      ghost var env := EnvAt(now);
      var searchInput := SearchInput(paragraph.title, paragraph.content);
      var searchOutput := firstSearchNode(llmCalls, searchInput);
      if searchOutput.Failure? {
        llmCalls := llmCalls + 1;
        return Some(searchOutput.error);
      }
      var searchQuery := searchOutput.value.searchQuery;
      var searchResults := search(searchCalls, Request(config, searchQuery));
      paragraph.research.AddSearchResults(searchQuery, searchResults, now);
      ghost var searched := st0.research.(searchHistory := st0.research.searchHistory + env.records(searchQuery, searchResults));
      assert env.records(searchQuery, searchResults) == SearchesOf(searchQuery, searchResults, now);
      assert paragraph.research.Record() == searched;
      var formatted := FormatSearchResultsForPrompt(searchResults, config.maxContentLength);
      var summaryInput := SummaryInput(paragraph.title, paragraph.content, searchQuery, formatted);
      var summary := firstSummaryNode(llmCalls + 1, summaryInput);
      InitialStepPlanned(env, paragraph.title, paragraph.content, st0, searchQuery, searchResults, summary);
      var r := SummaryNode.StoreFirstSummary(summary, state, paragraphIndex, now);
      assert paragraph.research.Record() == if r.Success? then searched.(latestSummary := r.value) else searched;
      llmCalls, searchCalls, searches := llmCalls + 2, searchCalls + 1, searches + [(searchQuery, searchResults)];
      error := if r.Failure? then Some(r.error) else None;
    }

    /**
     * One round of `_reflection_loop(i)`: paragraph `i`'s research becomes
     * what `ReflectionStep` says; no other paragraph changes.
     */
    method ReflectionRound(paragraphIndex: nat, now: string) returns (error: Option<Error>)
      requires Valid() && paragraphIndex < |state.paragraphs|
      modifies this`llmCalls, this`searchCalls, this`searches, state`updatedAt, state.paragraphs[paragraphIndex].research
      ensures var p := state.paragraphs[paragraphIndex];
        Current(paragraphIndex, error) == ReflectionStep(EnvAt(now), p.title, p.content, old(Current(paragraphIndex, None)))
    {
      var paragraph := state.paragraphs[paragraphIndex];
      assert paragraph.research in state.Repr();
      ghost var st0 := Current(paragraphIndex, None);
      ghost var env := EnvAt(now);
      var latest := paragraph.research.latestSummary;
      var reflectionInput := ReflectionInput(paragraph.title, paragraph.content, latest);
      var reflectionOutput := reflectionNode(llmCalls, reflectionInput);
      if reflectionOutput.Failure? {
        llmCalls := llmCalls + 1;
        return Some(reflectionOutput.error);
      }
      var searchQuery := reflectionOutput.value.searchQuery;
      var searchResults := search(searchCalls, Request(config, searchQuery));
      paragraph.research.AddSearchResults(searchQuery, searchResults, now);
      ghost var searched := st0.research.(searchHistory := st0.research.searchHistory + env.records(searchQuery, searchResults));
      assert env.records(searchQuery, searchResults) == SearchesOf(searchQuery, searchResults, now);
      assert paragraph.research.Record() == searched;
      var formatted := FormatSearchResultsForPrompt(searchResults, config.maxContentLength);
      var summaryInput := ReflectionSummaryInput(paragraph.title, paragraph.content, searchQuery, formatted, latest);
      var summary := reflectionSummaryNode(llmCalls + 1, summaryInput);
      ReflectionStepPlanned(env, paragraph.title, paragraph.content, st0, searchQuery, searchResults, summary);
      var r := SummaryNode.StoreReflectionSummary(summary, state, paragraphIndex, now);
      assert paragraph.research.Record() == if r.Success? then searched.(latestSummary := r.value, reflectionIteration := searched.reflectionIteration + 1) else searched;
      llmCalls, searchCalls, searches := llmCalls + 2, searchCalls + 1, searches + [(searchQuery, searchResults)];
      error := if r.Failure? then Some(r.error) else None;
    }

    /**
     * `_reflection_loop(i)`: `max_reflections` rounds, each reading the
     * summary the previous round stored through the shared state, as
     * `ReflectionSteps` says; no other paragraph changes.
     */
    method ReflectionLoop(paragraphIndex: nat, now: string) returns (error: Option<Error>)
      requires Valid() && paragraphIndex < |state.paragraphs|
      modifies this`llmCalls, this`searchCalls, this`searches, state`updatedAt, state.paragraphs[paragraphIndex].research
      ensures var p := state.paragraphs[paragraphIndex];
        Current(paragraphIndex, error) ==
          ReflectionSteps(EnvAt(now), p.title, p.content, old(Current(paragraphIndex, None)), Rounds(config))
    {
      var paragraph := state.paragraphs[paragraphIndex];
      ghost var start := Current(paragraphIndex, None);
      ghost var env := EnvAt(now);
      var rounds := if config.maxReflections < 0 then 0 else config.maxReflections;
      for reflectionI := 0 to rounds
        invariant Current(paragraphIndex, None) ==
          ReflectionSteps(env, paragraph.title, paragraph.content, start, reflectionI)
      {
        ghost var before := Current(paragraphIndex, None);
        error := ReflectionRound(paragraphIndex, now);
        if error.Some? {
          ReflectionStepsStuck(env, paragraph.title, paragraph.content, start, reflectionI + 1, rounds);
          return;
        }
      }
      assert rounds == Rounds(config);
      error := None;
    }

    /**
     * `_process_paragraphs`: the paragraphs in index order, each one marked
     * completed before the next begins; the research records, counters and
     * error are those of `ProcessAll`.
     */
    method ProcessParagraphs(now: string) returns (error: Option<Error>)
      requires Valid()
      modifies this`llmCalls, this`searchCalls, this`searches, state`updatedAt, state.Repr()
      ensures Valid() && state == old(state) && state.paragraphs == old(state.paragraphs)
      ensures var pass := ProcessAll(EnvAt(now), old(Records(state.paragraphs)), old(llmCalls), old(searchCalls), old(searches));
        && (forall k :: 0 <= k < |state.paragraphs| ==> state.paragraphs[k].research.Record() == pass.researches[k])
        && llmCalls == pass.llmCalls && searchCalls == pass.searchCalls && searches == pass.searches
        && error == pass.error
    {
      ghost var recs := Records(state.paragraphs);
      ghost var l0, s0, log0 := llmCalls, searchCalls, searches;
      var i;
      i, error := ProcessInOrder(now, recs, l0, s0, log0);
      if error.Some? {
        ProcessAllStuck(EnvAt(now), recs, i, l0, s0, log0);
      } else {
        assert recs[..i] == recs;
      }
    }

    /**
     * The loop of `_process_paragraphs`: paragraphs `0 .. i-1` researched in
     * order, stopping after the first error, as `ProcessAll` over them says;
     * the paragraphs from `i` on are untouched.
     */
    method ProcessInOrder(now: string, ghost recs: seq<ParagraphRecord>, ghost l0: nat, ghost s0: nat,
                          ghost log0: seq<(string, seq<SearchResult>)>)
      returns (i: nat, error: Option<Error>)
      requires Valid() && recs == Records(state.paragraphs)
      requires llmCalls == l0 && searchCalls == s0 && searches == log0
      modifies this`llmCalls, this`searchCalls, this`searches, state`updatedAt, state.Repr()
      ensures Valid() && state == old(state) && state.paragraphs == old(state.paragraphs)
      ensures i <= |recs| && (i == |recs| || error.Some?)
      ensures var pass := ProcessAll(EnvAt(now), recs[..i], l0, s0, log0);
        && llmCalls == pass.llmCalls && searchCalls == pass.searchCalls && searches == pass.searches
        && error == pass.error
        && forall k :: 0 <= k < |recs| ==>
             state.paragraphs[k].research.Record() == if k < i then pass.researches[k] else recs[k].research
    {
      var totalParagraphs := |state.paragraphs|;
      i := 0;
      error := None;
      while i < totalParagraphs && error.None?
        invariant i <= |recs| == totalParagraphs
        invariant var pass := ProcessAll(EnvAt(now), recs[..i], l0, s0, log0);
          && llmCalls == pass.llmCalls && searchCalls == pass.searchCalls && searches == pass.searches
          && error == pass.error
        invariant forall k :: 0 <= k < |recs| ==>
          state.paragraphs[k].research.Record() ==
            if k < i then ProcessAll(EnvAt(now), recs[..i], l0, s0, log0).researches[k] else recs[k].research
      {
        error := ProcessNext(i, now, recs, l0, s0, log0);
        i := i + 1;
      }
    }

    /** One pass of the loop of `_process_paragraphs`, stated as the loop's invariant from `i` to `i + 1`. */
    method ProcessNext(i: nat, now: string, ghost recs: seq<ParagraphRecord>, ghost l0: nat, ghost s0: nat,
                       ghost log0: seq<(string, seq<SearchResult>)>)
      returns (error: Option<Error>)
      requires Valid() && i < |recs| == |state.paragraphs|
      requires state.paragraphs[i].title == recs[i].title && state.paragraphs[i].content == recs[i].content
      requires var pass := ProcessAll(EnvAt(now), recs[..i], l0, s0, log0);
        && llmCalls == pass.llmCalls && searchCalls == pass.searchCalls && searches == pass.searches
        && pass.error.None?
      requires forall k :: 0 <= k < |recs| ==>
        state.paragraphs[k].research.Record() ==
          if k < i then ProcessAll(EnvAt(now), recs[..i], l0, s0, log0).researches[k] else recs[k].research
      modifies this`llmCalls, this`searchCalls, this`searches, state`updatedAt, state.Repr()
      ensures Valid() && state == old(state) && state.paragraphs == old(state.paragraphs)
      ensures var pass := ProcessAll(EnvAt(now), recs[..i + 1], l0, s0, log0);
        && llmCalls == pass.llmCalls && searchCalls == pass.searchCalls && searches == pass.searches
        && error == pass.error
      ensures forall k :: 0 <= k < |recs| ==>
        state.paragraphs[k].research.Record() ==
          if k < i + 1 then ProcessAll(EnvAt(now), recs[..i + 1], l0, s0, log0).researches[k] else recs[k].research
    {
      assert state.paragraphs[i].research in state.Repr();
      error := ProcessOne(i, now, recs, l0, s0, log0);
      ghost var pass := ProcessAll(EnvAt(now), recs[..i + 1], l0, s0, log0);
      ProcessAllKeepsEarlier(EnvAt(now), recs, i, l0, s0, log0);
      forall k | 0 <= k < |recs|
        ensures state.paragraphs[k].research.Record() == if k < i + 1 then pass.researches[k] else recs[k].research
      {
        if k < i {
          assert pass.researches[k] == pass.researches[..i][k];
        }
      }
    }

    /**
     * One iteration of `_process_paragraphs`: the initial search and
     * summary, the reflection loop, then `mark_completed` of the research.
     * Stated against `ProcessAll` over the paragraphs up to this one.
     */
    method ProcessOne(i: nat, now: string, ghost recs: seq<ParagraphRecord>, ghost l0: nat, ghost s0: nat,
                      ghost log0: seq<(string, seq<SearchResult>)>)
      returns (error: Option<Error>)
      requires Valid() && i < |recs| && i < |state.paragraphs|
      requires ProcessAll(EnvAt(now), recs[..i], l0, s0, log0).error.None?
      requires var pass := ProcessAll(EnvAt(now), recs[..i], l0, s0, log0);
        llmCalls == pass.llmCalls && searchCalls == pass.searchCalls && searches == pass.searches
      requires state.paragraphs[i].research.Record() == recs[i].research
      requires state.paragraphs[i].title == recs[i].title && state.paragraphs[i].content == recs[i].content
      modifies this`llmCalls, this`searchCalls, this`searches, state`updatedAt, state.paragraphs[i].research
      ensures var pass := ProcessAll(EnvAt(now), recs[..i + 1], l0, s0, log0);
        && error == pass.error
        && llmCalls == pass.llmCalls && searchCalls == pass.searchCalls && searches == pass.searches
        && state.paragraphs[i].research.Record() == pass.researches[i]
      ensures forall k :: 0 <= k < |state.paragraphs| && k != i ==>
        state.paragraphs[k].research.Record() == old(state.paragraphs[k].research.Record())
    {
      ghost var prev := ProcessAll(EnvAt(now), recs[..i], l0, s0, log0);
      ghost var st := Step(recs[i].research, prev.llmCalls, prev.searchCalls, prev.searches, None);
      assert Current(i, None) == st;
      ProcessAllNext(EnvAt(now), recs, i, l0, s0, log0);
      error := InitialSearchAndSummary(i, now);
      if error.Some? {
        return;
      }
      error := ReflectionLoop(i, now);
      if error.Some? {
        return;
      }
      var research := state.paragraphs[i].research;
      assert research in state.Repr();
      research.MarkCompleted();
    }

    /**
     * The loop of `_generate_final_report` that collects, paragraph by
     * paragraph, the title and latest summary the formatting node is given.
     */
    method ReportData(ghost pairs: seq<(string, string)>) returns (reportData: seq<Json>)
      requires Valid() && pairs == ReportPairs(state.paragraphs)
      ensures reportData == FormattingNode.ReportEntries(pairs)
    {
      reportData := [];
      for k := 0 to |state.paragraphs|
        invariant reportData == FormattingNode.ReportEntries(pairs)[..k]
      {
        var paragraph := state.paragraphs[k];
        reportData := reportData + [FormattingNode.ReportEntry(paragraph.title, paragraph.research.latestSummary)];
      }
      assert reportData == FormattingNode.ReportEntries(pairs);
    }

    /**
     * The formatting step of `_generate_final_report`: the formatting
     * node's report, or the manual one when the node raises.
     */
    method FormatFinalReport(reportData: seq<Json>, ghost pairs: seq<(string, string)>, reportTitle: string)
      returns (finalReport: string)
      requires reportData == FormattingNode.ReportEntries(pairs)
      ensures finalReport == FinalReport(llm, llmCalls, pairs, reportTitle)
    {
      var formatted := FormattingNode.Run(llm, llmCalls, JArray(reportData));
      if formatted.Success? {
        finalReport := formatted.value;
      } else {
        finalReport := FormattingNode.FormatReportManually(reportData, reportTitle);
      }
    }

    /**
     * `_generate_final_report`: the pairs of titles and latest summaries go
     * to the formatting node, with the manual formatter as fallback; the
     * report is stored in the state, which is marked completed.
     */
    method GenerateFinalReport(now: string) returns (finalReport: string)
      requires Valid()
      modifies this`llmCalls, state
      ensures Valid() && state == old(state) && state.paragraphs == old(state.paragraphs)
      ensures finalReport == FinalReport(llm, old(llmCalls), old(ReportPairs(state.paragraphs)), old(state.reportTitle))
      ensures finalReport != [] && finalReport[0] == '#'
      ensures state.finalReport == finalReport && state.isCompleted && state.updatedAt == now
      ensures state.query == old(state.query) && state.reportTitle == old(state.reportTitle)
      ensures llmCalls == old(llmCalls) + 1 && searchCalls == old(searchCalls) && searches == old(searches)
      ensures forall k :: 0 <= k < |state.paragraphs| ==>
        state.paragraphs[k].research.isCompleted == old(state.paragraphs[k].research.isCompleted)
    {
      ghost var pairs := ReportPairs(state.paragraphs);
      var reportData := ReportData(pairs);
      finalReport := FormatFinalReport(reportData, pairs, state.reportTitle);
      llmCalls := llmCalls + 1;
      state.finalReport := finalReport;
      state.MarkCompleted(now);
    }

    /**
     * What `_save_report` writes for `report`: the report file, and the
     * state file when intermediate states are kept, both named after the
     * same sanitised query and timestamp in the output directory.
     */
    function SavedFiles(report: string, timestamp: string, isAlnum: char -> bool): (files: seq<SavedFile>)
      reads this, state, state.Repr()
      ensures var querySafe := QuerySafe(state.query, isAlnum);
        && |files| == (if config.saveIntermediateStates then 2 else 1)
        && files[0] == SavedFile(PathJoin(config.outputDir, ReportFileName(querySafe, timestamp)), ReportText(report))
        && (config.saveIntermediateStates ==>
              files[1] == SavedFile(PathJoin(config.outputDir, StateFileName(querySafe, timestamp)), StateDict(state.ToDict())))
    {
      var querySafe := QuerySafe(state.query, isAlnum);
      [SavedFile(PathJoin(config.outputDir, ReportFileName(querySafe, timestamp)), ReportText(report))] +
      if config.saveIntermediateStates
      then [SavedFile(PathJoin(config.outputDir, StateFileName(querySafe, timestamp)), StateDict(state.ToDict()))]
      else []
    }

    /**
     * The files `_save_report` writes: the report, and the state when
     * intermediate states are kept, named after the same sanitised query
     * and timestamp in the output directory.
     */
    method SaveReport(reportContent: string, timestamp: string, isAlnum: char -> bool) returns (files: seq<SavedFile>)
      requires Valid()
      ensures var querySafe := QuerySafe(state.query, isAlnum);
        && |files| == (if config.saveIntermediateStates then 2 else 1)
        && files[0] == SavedFile(PathJoin(config.outputDir, ReportFileName(querySafe, timestamp)), ReportText(reportContent))
        && (config.saveIntermediateStates ==>
              files[1] == SavedFile(PathJoin(config.outputDir, StateFileName(querySafe, timestamp)), StateDict(state.ToDict())))
      ensures files == SavedFiles(reportContent, timestamp, isAlnum)
    {
      var querySafe := QuerySafe(state.query, isAlnum);
      var filename := ReportFileName(querySafe, timestamp);
      files := [SavedFile(PathJoin(config.outputDir, filename), ReportText(reportContent))];
      if config.saveIntermediateStates {
        var stateFilename := StateFileName(querySafe, timestamp);
        files := files + [SavedFile(PathJoin(config.outputDir, stateFilename), StateDict(state.ToDict()))];
      }
    }

    /**
     * `research(query, save_report)`: plan, research every paragraph,
     * assemble and save the report. Any error stops the run; a run that
     * gets through has every paragraph completed and a report that opens
     * with a heading.
     */
    method Research(query: string, saveReport: bool, now: string, timestamp: string, isAlnum: char -> bool)
      returns (r: Result<(string, seq<SavedFile>), Error>)
      requires Valid()
      modifies this, state, state.Repr()
      ensures Valid() && state == old(state)
      ensures var run := ReportStructureNode.Run(llm, old(llmCalls), parser, query);
        && (run.Failure? ==> r.Failure? && r.error == run.error)
        && (run.Success? ==>
              var planned := old(Records(state.paragraphs)) +
                             ReportStructureNode.PlannedRecords(old(|state.paragraphs|), run.value);
              var pass := ProcessAll(EnvAt(now), planned, old(llmCalls) + 1, old(searchCalls), old(searches));
              && (r.Failure? <==> pass.error.Some?)
              && (r.Failure? ==> r.error == pass.error.value)
              && (r.Success? ==>
                    && |state.paragraphs| == |planned|
                    && (forall k :: 0 <= k < |state.paragraphs| ==> state.paragraphs[k].research.Record() == pass.researches[k])
                    && r.value.0 == FinalReport(llm, pass.llmCalls, ReportPairs(state.paragraphs), state.reportTitle)))
      ensures r.Success? ==>
        && r.value.0 != [] && r.value.0[0] == '#'
        && state.finalReport == r.value.0 && state.isCompleted && state.query == query
        && state.reportTitle ==
             (if old(state.reportTitle) == "" then ReportStructureNode.DefaultReportTitle(query) else old(state.reportTitle))
        && (forall k :: 0 <= k < |state.paragraphs| ==> state.paragraphs[k].research.isCompleted)
        && r.value.1 == (if saveReport then SavedFiles(r.value.0, timestamp, isAlnum) else [])
        && (saveReport <==> r.value.1 != [])
    {
      var error := GenerateReportStructure(query, now);
      if error.Some? {
        return Failure(error.value);
      }
      r := ResearchOutline(saveReport, now, timestamp, isAlnum);
    }

    /**
     * `research` once the outline is in the state: every paragraph is
     * researched, then the report is assembled and saved. An error in a
     * paragraph stops the run before the report.
     */
    method ResearchOutline(saveReport: bool, now: string, timestamp: string, isAlnum: char -> bool)
      returns (r: Result<(string, seq<SavedFile>), Error>)
      requires Valid()
      modifies this`llmCalls, this`searchCalls, this`searches, state, state.Repr()
      ensures Valid() && state == old(state) && state.query == old(state.query)
      ensures state.paragraphs == old(state.paragraphs)
      ensures var pass := old(ProcessAll(EnvAt(now), Records(state.paragraphs), llmCalls, searchCalls, searches));
        && (r.Failure? <==> pass.error.Some?)
        && (r.Failure? ==> r.error == pass.error.value)
        && (r.Success? ==>
              && (forall k :: 0 <= k < |state.paragraphs| ==> state.paragraphs[k].research.Record() == pass.researches[k])
              && r.value.0 == FinalReport(llm, pass.llmCalls, ReportPairs(state.paragraphs), old(state.reportTitle)))
      ensures r.Success? ==>
        && r.value.0 != [] && r.value.0[0] == '#'
        && state.finalReport == r.value.0 && state.isCompleted && state.reportTitle == old(state.reportTitle)
        && (forall k :: 0 <= k < |state.paragraphs| ==> state.paragraphs[k].research.isCompleted)
        && r.value.1 == (if saveReport then SavedFiles(r.value.0, timestamp, isAlnum) else [])
        && (saveReport <==> r.value.1 != [])
    {
      ghost var recs := Records(state.paragraphs);
      ghost var l0, s0, log0 := llmCalls, searchCalls, searches;
      var error := ProcessParagraphs(now);
      if error.Some? {
        return Failure(error.value);
      }
      ghost var pass := ProcessAll(EnvAt(now), recs, l0, s0, log0);
      ProcessAllOrder(EnvAt(now), recs, l0, s0, log0);
      ghost var researched := Records(state.paragraphs);
      assert forall k :: 0 <= k < |researched| ==> researched[k].research == pass.researches[k];
      ghost var pairs, calls, title := ReportPairs(state.paragraphs), llmCalls, state.reportTitle;
      assert calls == pass.llmCalls;
      var finalReport, files := FinishReport(saveReport, now, timestamp, isAlnum);
      assert Records(state.paragraphs) == researched;
      assert ReportPairs(state.paragraphs) == pairs by {
        forall k | 0 <= k < |pairs|
          ensures ReportPairs(state.paragraphs)[k] == pairs[k]
        {
          assert researched[k] == state.paragraphs[k].Record();
        }
      }
      assert finalReport == FinalReport(llm, pass.llmCalls, ReportPairs(state.paragraphs), title);
      forall k | 0 <= k < |state.paragraphs|
        ensures state.paragraphs[k].research.Record() == pass.researches[k]
      {
        assert researched[k] == state.paragraphs[k].Record();
      }
      return Success((finalReport, files));
    }

    /**
     * The tail of `research`: `_generate_final_report`, then `_save_report`
     * when asked. The report opens with a heading, the state is marked
     * completed, and no paragraph's research changes.
     */
    method FinishReport(saveReport: bool, now: string, timestamp: string, isAlnum: char -> bool)
      returns (finalReport: string, files: seq<SavedFile>)
      requires Valid()
      modifies this`llmCalls, state
      ensures Valid() && state == old(state) && state.paragraphs == old(state.paragraphs)
      ensures finalReport != [] && finalReport[0] == '#'
      ensures state.finalReport == finalReport && state.isCompleted && state.query == old(state.query)
      ensures forall k :: 0 <= k < |state.paragraphs| ==>
        state.paragraphs[k].research.isCompleted == old(state.paragraphs[k].research.isCompleted)
      ensures finalReport == FinalReport(llm, old(llmCalls), old(ReportPairs(state.paragraphs)), old(state.reportTitle))
      ensures Records(state.paragraphs) == old(Records(state.paragraphs)) && state.reportTitle == old(state.reportTitle)
      ensures llmCalls == old(llmCalls) + 1
      ensures files == if saveReport then SavedFiles(finalReport, timestamp, isAlnum) else []
      ensures saveReport <==> files != []
    {
      finalReport := GenerateFinalReport(now);
      files := [];
      if saveReport {
        files := SaveReport(finalReport, timestamp, isAlnum);
      }
    }
  }
}
