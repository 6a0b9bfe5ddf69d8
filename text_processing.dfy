/**
 * The text utilities around the language model's replies and the search
 * hits: stripping code fences from a reply, dropping the prose in front of
 * a JSON value, cutting long page contents at a word boundary, preparing
 * the hits for a prompt, checking required keys, and recording hits on one
 * paragraph of the state.
 */
module TextProcessing {
  import opened Wrappers
  import opened Json
  import opened Strings
  import opened SearchTool
  import opened ResearchState

  const Fence: string := "```"

  /** `s` contains three consecutive backticks somewhere. */
  predicate HasFence(s: string) {
    |s| >= 3 && (s[..3] == Fence || HasFence(s[1..]))
  }

  // ----- clean_json_tags / clean_markdown_tags -----

  /**
   * `re.sub(r'```<tag>\s*', '', s)`: every occurrence of the opening fence
   * with its language tag, and the whitespace after it, is removed, scanning
   * left to right.
   */
  function RemoveTagged(tag: string, s: string): string
    decreases |s|
  {
    if StartsWith(s, Fence + tag) then RemoveTagged(tag, StripLeft(s[|Fence + tag|..]))
    else if s == [] then []
    else [s[0]] + RemoveTagged(tag, s[1..])
  }

  /**
   * `re.sub(r'```\s*$', '', s)`: cuts the string at the leftmost fence that
   * is followed by nothing but whitespace.
   */
  function TrimFenceAtEnd(s: string): (r: string)
    ensures |r| <= |s| && r == s[..|r|]
  {
    if |s| < 3 then s
    else if s[..3] == Fence && AllSpace(s[3..]) then []
    else [s[0]] + TrimFenceAtEnd(s[1..])
  }

  /** `re.sub(r'```', '', s)`: removes the fences found scanning left to right. */
  function RemoveFences(s: string): string {
    if |s| >= 3 && s[..3] == Fence then RemoveFences(s[3..])
    else if s == [] then []
    else [s[0]] + RemoveFences(s[1..])
  }

  /** A leading backtick after fence removal was a leading backtick before it. */
  lemma {:induction false} RemoveFencesHead1(t: string)
    requires RemoveFences(t) != [] && RemoveFences(t)[0] == '`'
    ensures t != [] && t[0] == '`'
  {
    if |t| >= 3 && t[..3] == Fence {
      assert t[0] == Fence[0];
    }
  }

  /** Two leading backticks after fence removal were two leading backticks before it. */
  lemma {:induction false} RemoveFencesHead2(t: string)
    requires |RemoveFences(t)| >= 2 && RemoveFences(t)[..2] == "``"
    ensures |t| >= 2 && t[..2] == "``"
  {
    if |t| >= 3 && t[..3] == Fence {
      assert t[..2] == Fence[..2];
    } else {
      var rest := RemoveFences(t[1..]);
      assert RemoveFences(t) == [t[0]] + rest;
      assert rest != [] && rest[0] == RemoveFences(t)[1] == '`';
      RemoveFencesHead1(t[1..]);
      assert t[..2] == [t[0], t[1]];
    }
  }

  /** After fence removal no three consecutive backticks remain. */
  lemma {:induction false} RemoveFencesNoFence(s: string)
    ensures !HasFence(RemoveFences(s))
  {
    if |s| >= 3 && s[..3] == Fence {
      RemoveFencesNoFence(s[3..]);
    } else if s != [] {
      var rest := RemoveFences(s[1..]);
      RemoveFencesNoFence(s[1..]);
      var r := [s[0]] + rest;
      assert RemoveFences(s) == r;
      assert r[1..] == rest;
      if |r| >= 3 && r[..3] == Fence {
        assert rest[..2] == r[1..3] == "``";
        RemoveFencesHead2(s[1..]);
      }
    }
  }

  /** A fence in a suffix is a fence in the whole string. */
  lemma {:induction false} FenceInSuffix(s: string, k: nat)
    requires k <= |s| && HasFence(s[k..])
    ensures HasFence(s)
  {
    if k > 0 {
      assert s[1..][k - 1..] == s[k..];
      FenceInSuffix(s[1..], k - 1);
    }
  }

  /** A fence in a prefix is a fence in the whole string. */
  lemma {:induction false} FenceInPrefix(s: string, k: nat)
    requires k <= |s| && HasFence(s[..k])
    ensures HasFence(s)
  {
    if s[..k][..3] != Fence {
      assert s[..k][1..] == s[1..][..k - 1];
      FenceInPrefix(s[1..], k - 1);
    } else {
      assert s[..3] == s[..k][..3];
    }
  }

  /** Stripping whitespace cannot create a fence. */
  lemma StripKeepsNoFence(s: string)
    requires !HasFence(s)
    ensures !HasFence(Strip(s))
  {
    var l := StripLeft(s);
    if HasFence(l) {
      FenceInSuffix(s, |s| - |l|);
    }
    var r := StripRight(l);
    if HasFence(r) {
      FenceInPrefix(l, |r|);
    }
  }

  /**
   * The three substitutions and the final `strip()` of `clean_json_tags`
   * and `clean_markdown_tags`, for the language tag `tag`: the result
   * holds no fence and starts and ends with a visible character.
   */
  function CleanFenceTags(tag: string, text: string): (r: string)
    ensures !HasFence(r)
    ensures r == [] || (!IsSpace(r[0]) && !IsSpace(r[|r| - 1]))
  {
    var unfenced := RemoveFences(TrimFenceAtEnd(RemoveTagged(tag, text)));
    RemoveFencesNoFence(TrimFenceAtEnd(RemoveTagged(tag, text)));
    StripKeepsNoFence(unfenced);
    Strip(unfenced)
  }

  /** `clean_json_tags`. */
  function CleanJsonTags(text: string): (r: string)
    ensures !HasFence(r)
    ensures r == [] || (!IsSpace(r[0]) && !IsSpace(r[|r| - 1]))
  {
    CleanFenceTags("json", text)
  }

  /** `clean_markdown_tags`. */
  function CleanMarkdownTags(text: string): (r: string)
    ensures !HasFence(r)
    ensures r == [] || (!IsSpace(r[0]) && !IsSpace(r[|r| - 1]))
  {
    CleanFenceTags("markdown", text)
  }

  lemma {:induction false} RemoveTaggedNoFence(tag: string, s: string)
    requires !HasFence(s)
    ensures RemoveTagged(tag, s) == s
    decreases |s|
  {
    if StartsWith(s, Fence + tag) {
      assert false;
    } else if s != [] {
      RemoveTaggedNoFence(tag, s[1..]);
    }
  }

  lemma {:induction false} TrimFenceAtEndNoFence(s: string)
    requires !HasFence(s)
    ensures TrimFenceAtEnd(s) == s
  {
    if |s| >= 3 {
      TrimFenceAtEndNoFence(s[1..]);
    }
  }

  lemma {:induction false} RemoveFencesNoFenceIdentity(s: string)
    requires !HasFence(s)
    ensures RemoveFences(s) == s
  {
    if |s| >= 3 {
      RemoveFencesNoFenceIdentity(s[1..]);
    } else if s != [] {
      assert !HasFence(s[1..]);
      RemoveFencesNoFenceIdentity(s[1..]);
    }
  }

  /** A reply without any fence is only stripped. */
  lemma FenceFreeIsStripped(tag: string, text: string)
    requires !HasFence(text)
    ensures CleanFenceTags(tag, text) == Strip(text)
  {
    RemoveTaggedNoFence(tag, text);
    TrimFenceAtEndNoFence(text);
    RemoveFencesNoFenceIdentity(text);
  }

  /** Cleaning an already cleaned reply changes nothing. */
  lemma CleanFenceTagsIdempotent(tag: string, text: string)
    ensures CleanFenceTags(tag, CleanFenceTags(tag, text)) == CleanFenceTags(tag, text)
  {
    var once := CleanFenceTags(tag, text);
    FenceFreeIsStripped(tag, once);
    StripIdempotent(RemoveFences(TrimFenceAtEnd(RemoveTagged(tag, text))));
  }

  // ----- remove_reasoning_from_output -----

  predicate IsBracket(c: char) {
    c == '{' || c == '['
  }

  predicate NoBracket(s: string) {
    forall j :: 0 <= j < |s| ==> !IsBracket(s[j])
  }

  /** The index of the first `{` or `[` in `s`, if there is one. */
  function FirstBracket(s: string): (r: Option<nat>)
    ensures r.None? <==> NoBracket(s)
    ensures r.Some? ==> r.value < |s| && IsBracket(s[r.value]) && NoBracket(s[..r.value])
  {
    if s == [] then None
    else if IsBracket(s[0]) then Some(0)
    else match FirstBracket(s[1..])
      case None => None
      case Some(k) =>
        assert s[..k + 1] == [s[0]] + s[1..][..k];
        Some(k + 1)
  }

  /**
   * `remove_reasoning_from_output` through its last pattern, `^.*?(?=\{|\[)`:
   * everything in front of the first bracket goes, then the text is
   * stripped. Text without a bracket is only stripped, since every pattern
   * needs a bracket ahead to match.
   */
  function RemoveReasoningFromOutput(text: string): (r: string)
    ensures NoBracket(text) ==> r == Strip(text)
    ensures !NoBracket(text) ==> r != [] && IsBracket(r[0])
    ensures !NoBracket(text) ==> exists k :: 0 <= k < |text| && IsBracket(text[k]) && NoBracket(text[..k])
                                  && r == StripRight(text[k..])
  {
    match FirstBracket(text)
    case None => Strip(text)
    case Some(k) =>
      var tail := text[k..];
      assert tail[0] == text[k] && !IsSpace(tail[0]);
      assert StripLeft(tail) == tail;
      Strip(tail)
  }

  // ----- truncate_content -----

  /** `s.rfind(c)`: the last index of `c` in `s`, or -1. */
  function RFind(s: string, c: char): (r: int)
    ensures -1 <= r < |s|
    ensures r >= 0 ==> s[r] == c
    ensures forall j :: r < j < |s| ==> s[j] != c
  {
    if s == [] then -1
    else if s[|s| - 1] == c then |s| - 1
    else RFind(s[..|s| - 1], c)
  }

  /** Python's `s[:i]`, where a negative `i` counts from the end. */
  function PyPrefix(s: string, i: int): (r: string)
    ensures |r| <= |s| && r == s[..|r|]
    ensures 0 <= i <= |s| ==> |r| == i
    ensures i < 0 ==> |r| == if |s| + i > 0 then |s| + i else 0
  {
    if i >= 0 then (if i <= |s| then s[..i] else s)
    else if |s| + i > 0 then s[..|s| + i]
    else []
  }

  /**
   * `truncate_content`: content within the limit comes back unchanged;
   * longer content is cut and marked with `...`. For a non-negative limit
   * the cut is at the last space among the first `maxLength` characters
   * when that space lies beyond 80% of the limit, and at the limit itself
   * otherwise.
   */
  function TruncateContent(content: string, maxLength: int := 20000): (r: string)
    ensures |content| <= maxLength ==> r == content
    ensures |content| > maxLength ==>
      |r| >= 3 && |r| - 3 <= |content| && r == content[..|r| - 3] + "..."
    ensures 0 <= maxLength < |content| ==> |r| - 3 <= maxLength
    ensures 0 <= maxLength < |content| && |r| - 3 < maxLength ==>
      content[|r| - 3] == ' ' && 5 * (|r| - 3) > 4 * maxLength
      && forall j :: |r| - 3 < j < maxLength ==> content[j] != ' '
    ensures 0 <= maxLength < |content| && |r| - 3 == maxLength ==>
      forall j :: 0 <= j < maxLength && 5 * j > 4 * maxLength ==> content[j] != ' '
  {
    if |content| <= maxLength then content
    else
      var truncated := PyPrefix(content, maxLength);
      var lastSpace := RFind(truncated, ' ');
      if 5 * lastSpace > 4 * maxLength then
        var cut := PyPrefix(truncated, lastSpace);
        assert cut == content[..|cut|];
        cut + "..."
      else truncated + "..."
  }

  // ----- format_search_results_for_prompt -----

  /** `result.get('content', '')` is truthy. */
  predicate HasContent(result: SearchResult) {
    result.content.Some? && result.content.value != ""
  }

  /** The prompt entries of the hits: the truncated content of each hit that has some, in order. */
  function FormattedContents(results: seq<SearchResult>, maxLength: int): (r: seq<string>)
    ensures |r| <= |results|
    ensures 0 <= maxLength ==> forall k :: 0 <= k < |r| ==> 0 < |r[k]| <= maxLength + 3
  {
    if results == [] then []
    else
      var last := results[|results| - 1];
      FormattedContents(results[..|results| - 1], maxLength)
        + (if HasContent(last) then [TruncateContent(last.content.value, maxLength)] else [])
  }

  /** `format_search_results_for_prompt`. */
  method FormatSearchResultsForPrompt(searchResults: seq<SearchResult>, maxLength: int := 20000)
    returns (formattedResults: seq<string>)
    ensures formattedResults == FormattedContents(searchResults, maxLength)
  {
    formattedResults := [];
    for k := 0 to |searchResults|
      invariant formattedResults == FormattedContents(searchResults[..k], maxLength)
    {
      var result := searchResults[k];
      assert searchResults[..k + 1][..k] == searchResults[..k];
      if result.content.Some? && result.content.value != "" {
        var truncatedContent := TruncateContent(result.content.value, maxLength);
        formattedResults := formattedResults + [truncatedContent];
      }
    }
    assert searchResults[..|searchResults|] == searchResults;
  }

  /** Hits are formatted one by one, so the entries keep the hits' order. */
  lemma {:induction false} FormattedContentsAppend(a: seq<SearchResult>, b: seq<SearchResult>, maxLength: int)
    ensures FormattedContents(a + b, maxLength) == FormattedContents(a, maxLength) + FormattedContents(b, maxLength)
    decreases |b|
  {
    if b == [] {
      assert a + b == a;
    } else {
      var b' := b[..|b| - 1];
      assert (a + b)[..|a + b| - 1] == a + b';
      FormattedContentsAppend(a, b', maxLength);
    }
  }

  /** When every hit has content, each hit gives exactly its truncated content. */
  lemma {:induction false} FormattedContentsAllPresent(results: seq<SearchResult>, maxLength: int)
    requires forall k :: 0 <= k < |results| ==> HasContent(results[k])
    ensures |FormattedContents(results, maxLength)| == |results|
    ensures forall k :: 0 <= k < |results| ==>
      FormattedContents(results, maxLength)[k] == TruncateContent(results[k].content.GetOr(""), maxLength)
  {
    if results != [] {
      var init := results[..|results| - 1];
      FormattedContentsAllPresent(init, maxLength);
      var last := results[|results| - 1];
      assert HasContent(last);
      var whole, front := FormattedContents(results, maxLength), FormattedContents(init, maxLength);
      assert whole == front + [TruncateContent(last.content.value, maxLength)];
      forall k | 0 <= k < |results|
        ensures whole[k] == TruncateContent(results[k].content.GetOr(""), maxLength)
      {
        if k < |init| {
          assert results[k] == init[k] && whole[k] == front[k];
        }
      }
    }
  }

  // ----- validate_json_schema -----

  /** `validate_json_schema`: every required field is a key of `data`. */
  function ValidateJsonSchema(data: map<string, Json>, requiredFields: seq<string>): (ok: bool)
    ensures ok <==> forall f :: f in requiredFields ==> f in data
  {
    requiredFields == [] || (requiredFields[0] in data && ValidateJsonSchema(data, requiredFields[1..]))
  }

  // ----- update_state_with_search_results -----

  /** The query the hits are filed under: a fixed tag, since the real query is not passed in. */
  function ResultsQueryTag(searchResults: seq<SearchResult>): string {
    if searchResults == [] then "" else "搜索查询"
  }

  /**
   * `update_state_with_search_results`: the hits go into the history of the
   * paragraph at `paragraphIndex`, tagged `搜索查询`; an index outside the
   * paragraph list changes nothing, and no other paragraph is touched.
   */
  method UpdateStateWithSearchResults(searchResults: seq<SearchResult>, paragraphIndex: int, state: State, now: string)
    requires state.Valid()
    modifies state.Repr()
    ensures forall k :: 0 <= k < |state.paragraphs| && k != paragraphIndex ==>
      state.paragraphs[k].research.Record() == old(state.paragraphs[k].research.Record())
    ensures 0 <= paragraphIndex < |state.paragraphs| ==>
      var research := state.paragraphs[paragraphIndex].research;
      research.Record() == old(research.Record()).(searchHistory :=
        old(research.searchHistory) + SearchesOf(ResultsQueryTag(searchResults), searchResults, now))
  {
    if 0 <= paragraphIndex < |state.paragraphs| {
      var currentQuery := "";
      if searchResults != [] {
        currentQuery := "搜索查询";
      }
      var research := state.paragraphs[paragraphIndex].research;
      assert research in state.Repr();
      research.AddSearchResults(currentQuery, searchResults, now);
    }
  }
}
