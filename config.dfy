/**
 * The run's settings: API keys, the language-model provider and models, the
 * search limits, the reflection count and the output options, with the
 * defaults the settings class declares, and the check that the keys needed
 * by the chosen provider and by the search service are present.
 */
module AppConfig {
  import opened Wrappers

  datatype Config = Config(
    deepseekApiKey: Option<string>,
    openaiApiKey: Option<string>,
    tavilyApiKey: Option<string>,
    defaultLlmProvider: string,
    deepseekModel: string,
    openaiModel: string,
    maxSearchResults: int,
    searchTimeout: int,
    maxContentLength: int,
    maxReflections: int,
    maxParagraphs: int,
    outputDir: string,
    saveIntermediateStates: bool)

  /** `Config()` with every field left at its declared default. */
  const Default := Config(
    None, None, None,
    "deepseek", "deepseek-chat", "gpt-4o-mini",
    3, 240, 20000,
    2, 5,
    "reports", true)

  /** A key counts as set when it is present and not the empty string (`not key` is false). */
  predicate KeySet(key: Option<string>) {
    key.Some? && key.value != ""
  }

  /**
   * `Config.validate`: the key of the chosen provider (for `deepseek` and
   * `openai`) and the Tavily key must be set; any other provider name
   * passes as far as this check goes.
   */
  function Validate(c: Config): (ok: bool)
    ensures c.defaultLlmProvider == "deepseek" && !KeySet(c.deepseekApiKey) ==> !ok
    ensures c.defaultLlmProvider == "openai" && !KeySet(c.openaiApiKey) ==> !ok
    ensures !KeySet(c.tavilyApiKey) ==> !ok
    ensures ok <==> KeySet(c.tavilyApiKey)
                    && (c.defaultLlmProvider == "deepseek" ==> KeySet(c.deepseekApiKey))
                    && (c.defaultLlmProvider == "openai" ==> KeySet(c.openaiApiKey))
  {
    if c.defaultLlmProvider == "deepseek" && !KeySet(c.deepseekApiKey) then false
    else if c.defaultLlmProvider == "openai" && !KeySet(c.openaiApiKey) then false
    else if !KeySet(c.tavilyApiKey) then false
    else true
  }

  /**
   * `Config(deepseek_api_key=d, openai_api_key=o, tavily_api_key=t)`: the
   * defaults with the three keys filled in. With the default provider the
   * OpenAI key is irrelevant: the settings are valid exactly when the
   * DeepSeek and Tavily keys are set.
   */
  function WithKeys(deepseekApiKey: Option<string>, openaiApiKey: Option<string>, tavilyApiKey: Option<string>): (c: Config)
    ensures c.maxSearchResults == 3 && c.searchTimeout == 240 && c.maxContentLength == 20000
    ensures c.maxReflections == 2 && c.maxParagraphs == 5 && c.saveIntermediateStates
    ensures c.defaultLlmProvider == "deepseek"
    ensures Validate(c) <==> KeySet(deepseekApiKey) && KeySet(tavilyApiKey)
  {
    Default.(deepseekApiKey := deepseekApiKey, openaiApiKey := openaiApiKey, tavilyApiKey := tavilyApiKey)
  }
}
