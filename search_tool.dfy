/**
 * The web-search collaborator as the pipeline sees it: a call that takes a
 * query and returns a possibly empty list of hits. The wrapper turns every
 * error and timeout into an empty list, so the model's search never fails.
 */
module SearchTool {
  import opened Wrappers

  /** One hit, a dict whose keys the pipeline reads with `.get`, so each may be missing. */
  datatype SearchResult = SearchResult(
    url: Option<string>,
    title: Option<string>,
    content: Option<string>,
    score: Option<real>)

  /** The arguments of one `tavily_search` call. */
  datatype SearchRequest = SearchRequest(query: string, maxResults: int, timeout: int, apiKey: Option<string>)

  /** The search service: the hits of the `n`-th call made during a run. */
  type SearchEngine = (nat, SearchRequest) -> seq<SearchResult>
}
