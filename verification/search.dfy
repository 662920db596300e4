/** The search tool (`src/tools/search.py`): it checks the search
    parameters, asks the web-search client, and turns the client's
    dictionaries into `SearchResult` records. */
module Search {
  import opened Outcomes
  import opened Text
  import opened Models
  import opened WebSearch
  import Config

  // --- parameter checks ----------------------------------------------------------

  /** The characters `_is_valid_domain` accepts after lower-casing. */
  predicate DomainChar(c: char) {
    ('a' <= c <= 'z') || ('0' <= c <= '9') || c == '.' || c == '-'
  }

  /** `_is_valid_domain`. */
  predicate IsValidDomain(domain: string) {
    && !IsBlank(domain)
    && '.' in domain
    && forall i :: 0 <= i < |domain| ==> DomainChar(LowerChar(domain[i]))
  }

  /** The blank test is subsumed: a dot is not white space. What decides
      is the dot and the character set, and a valid domain, lower-cased,
      is made of the accepted characters alone and is valid again. */
  lemma ValidDomainCharacterised(domain: string)
    ensures IsValidDomain(domain) <==>
      '.' in domain && forall i :: 0 <= i < |domain| ==> DomainChar(LowerChar(domain[i]))
    ensures IsValidDomain(domain) ==>
      && (forall i :: 0 <= i < |domain| ==> DomainChar(Lower(domain)[i]))
      && IsValidDomain(Lower(domain))
  {
    if '.' in domain {
      var i :| 0 <= i < |domain| && domain[i] == '.';
      assert !IsSpace(domain[i]);
      if IsValidDomain(domain) {
        assert Lower(domain)[i] == '.';
        assert !IsSpace(Lower(domain)[i]);
      }
    }
  }

  /** The first domain that `_is_valid_domain` refuses, if any. */
  function FirstInvalidDomain(domains: seq<string>): (r: Option<nat>)
    ensures r.None? <==> forall i :: 0 <= i < |domains| ==> IsValidDomain(domains[i])
    ensures r.Some? ==> (r.value < |domains| && !IsValidDomain(domains[r.value])
                         && forall i :: 0 <= i < r.value ==> IsValidDomain(domains[i]))
  {
    if domains == [] then None
    else if !IsValidDomain(domains[0]) then Some(0)
    else match FirstInvalidDomain(domains[1..])
      case None => None
      case Some(k) => Some(k + 1)
  }

  const EmptyText := Exception(ValueError, "Search text cannot be empty")
  const TextTooLong := Exception(ValueError, "Search text too long (max 1000 characters)")
  const LimitNotPositive := Exception(ValueError, "Limit must be a positive integer")
  const LimitTooHigh := Exception(ValueError, "Limit too high (max 100)")
  const BadLanguage := Exception(ValueError, "Language must be a valid language code")
  const TooManyDomains := Exception(ValueError, "Too many domain filters (max 10)")

  /** The parameters `_validate_search_params` lets through. */
  predicate AcceptableParams(text: string, domains: seq<string>, limit: int, language: string) {
    && !IsBlank(text) && |text| <= 1000
    && 1 <= limit <= Config.SearchMaxResults
    && |language| >= 2
    && |domains| <= 10
    && forall i :: 0 <= i < |domains| ==> IsValidDomain(domains[i])
  }

  /** `_validate_search_params`: the checks in the order the source makes
      them, the first failing one raising. `None` and an empty list of
      domains are both skipped. */
  function ValidateSearchParams(text: string, domains: seq<string>, limit: int, language: string): (r: Outcome)
    ensures r.Pass? <==> AcceptableParams(text, domains, limit, language)
    ensures IsBlank(text) ==> r == Fail(EmptyText)
    ensures !IsBlank(text) && |text| > 1000 ==> r == Fail(TextTooLong)
    ensures r.Fail? ==> r.error.kind == ValueError
  {
    if IsBlank(text) then Fail(EmptyText)
    else if |text| > 1000 then Fail(TextTooLong)
    else if limit < 1 then Fail(LimitNotPositive)
    else if limit > Config.SearchMaxResults then Fail(LimitTooHigh)
    else if |language| < 2 then Fail(BadLanguage)
    else if domains == [] then Pass
    else if |domains| > 10 then Fail(TooManyDomains)
    else match FirstInvalidDomain(domains)
      case Some(k) => Fail(Exception(ValueError, "Invalid domain format: " + domains[k]))
      case None => Pass
  }

  /** Parameters the tool accepts also make a valid `SearchQuery` record,
      provided the language code is at most five characters long: the
      tool's own checks are at least as strict as the record's on the
      text, the limit and the domains, but do not bound the language from
      above. */
  lemma AcceptedParamsMakeQuery(text: string, domains: seq<string>, limit: int, language: string)
    requires ValidateSearchParams(text, domains, limit, language).Pass?
    ensures BuildSearchQuery(text, domains, limit, language).Valid? <==> |language| <= 5
  {
    forall i | 0 <= i < |domains|
      ensures DomainShapeOk(domains[i])
    {
      assert IsValidDomain(domains[i]);
    }
    assert IsBlank("");
  }

  // --- turning client answers into records ------------------------------------------

  /** `api_result.get("domain", "")`. */
  function DomainOr(x: ApiResult): string {
    if x.domain.Some? then x.domain.value else ""
  }

  /** `api_result.get("relevance_score", 0.5)`. */
  function ScoreOr(x: ApiResult): real {
    if x.relevanceScore.Some? then x.relevanceScore.value else 0.5
  }

  /** The record the loop of `_perform_search` builds from one answer. */
  function Record(x: ApiResult): SearchResult {
    SearchResult(x.title, x.url, x.snippet, DomainOr(x), Some(ScoreOr(x)))
  }

  predicate InUnitRange(x: ApiResult) {
    0.0 <= ScoreOr(x) <= 1.0
  }

  /** What `str(e)` gives for a rejected `SearchResult`. */
  function ValidationText(errors: seq<FieldError>): string {
    if errors == [] then "" else errors[0].field + ": " + errors[0].message
  }

  /** The loop of `_perform_search`: one record per answer, in order; the
      first answer whose score lies outside [0, 1] makes the record's
      validation raise. */
  function Convert(answers: seq<ApiResult>): (r: Result<seq<SearchResult>>)
    ensures r.Ok? <==> forall i :: 0 <= i < |answers| ==> InUnitRange(answers[i])
    ensures r.Ok? ==> |r.value| == |answers| && forall i :: 0 <= i < |answers| ==> r.value[i] == Record(answers[i])
    ensures r.Err? ==> r.error.kind == ValidationError
  {
    if answers == [] then Ok([])
    else
      var x := answers[0];
      match BuildSearchResult(x.title, x.url, x.snippet, DomainOr(x), Some(ScoreOr(x)))
      case Invalid(errors) => Err(Exception(ValidationError, ValidationText(errors)))
      case Valid(first) =>
        match Convert(answers[1..])
        case Err(e) => Err(e)
        case Ok(rest) =>
          assert forall i :: 1 <= i < |answers| ==> answers[i] == answers[1..][i - 1];
          Ok([first] + rest)
  }

  /** What `search` returns or raises. */
  function SearchSpec(text: string, domains: seq<string>, limit: int, language: string): (r: Result<SearchResponse>)
    ensures r.Ok? ==> r.value.query == text && r.value.totalFound == |r.value.results|
  {
    match ValidateSearchParams(text, domains, limit, language)
    case Fail(e) => Err(e)
    case Pass =>
      match Convert(WebSearch.Answers(text, domains, limit))
      case Ok(results) => Ok(SearchResponse(text, results, |results|))
      case Err(e) => Err(Exception(RuntimeError, "Search service error: " + e.message))
  }

  /** The canned scores lie in [0, 1], so a search fails exactly when its
      parameters are refused, and then with the check's own error. */
  lemma SearchFailsOnlyOnParams(text: string, domains: seq<string>, limit: int, language: string)
    ensures SearchSpec(text, domains, limit, language).Ok? <==> AcceptableParams(text, domains, limit, language)
    ensures SearchSpec(text, domains, limit, language).Err? ==>
      SearchSpec(text, domains, limit, language).error == ValidateSearchParams(text, domains, limit, language).error
  {
    var answers := WebSearch.Answers(text, domains, limit);
    CannedScoresInRange(text, domains, limit);
  }

  lemma CannedScoresInRange(text: string, domains: seq<string>, limit: int)
    ensures forall i :: 0 <= i < |WebSearch.Answers(text, domains, limit)| ==> InUnitRange(WebSearch.Answers(text, domains, limit)[i])
  {
    var canned := CannedResults(text);
    assert forall x :: x in canned ==> InUnitRange(x);
    var r := WebSearch.Answers(text, domains, limit);
    forall i | 0 <= i < |r|
      ensures InUnitRange(r[i])
    {
      var src := if domains == [] then canned else Matching(canned, domains);
      assert r[i] == src[i];
      assert r[i] in canned;
    }
  }

  /** A successful search returns one record per client answer, in the
      client's order. */
  lemma ResultsAreRecords(text: string, domains: seq<string>, limit: int, language: string)
    requires SearchSpec(text, domains, limit, language).Ok?
    ensures var answers := WebSearch.Answers(text, domains, limit);
      var results := SearchSpec(text, domains, limit, language).value.results;
      && |results| == |answers|
      && forall i :: 0 <= i < |answers| ==> results[i] == Record(answers[i])
  {
  }

  /** A successful search echoes the query and returns, and reports, at
      most `limit` and at most three results. */
  lemma SearchResponseBounds(text: string, domains: seq<string>, limit: int, language: string)
    requires SearchSpec(text, domains, limit, language).Ok?
    ensures var resp := SearchSpec(text, domains, limit, language).value;
      && resp.query == text
      && resp.totalFound == |resp.results| <= limit
      && |resp.results| <= 3
  {
    ResultsAreRecords(text, domains, limit, language);
  }

  /** `search(text)` with the other parameters at their defaults (no
      domains, `SEARCH_DEFAULT_LIMIT`, "en") succeeds for any non-blank
      text of at most 1000 characters, with at most that many results. */
  lemma DefaultSearchSucceeds(text: string)
    requires !IsBlank(text) && |text| <= 1000
    ensures SearchSpec(text, [], Config.SearchDefaultLimit, "en").Ok?
    ensures |SearchSpec(text, [], Config.SearchDefaultLimit, "en").value.results| <= Config.SearchDefaultLimit
  {
    SearchFailsOnlyOnParams(text, [], Config.SearchDefaultLimit, "en");
    SearchResponseBounds(text, [], Config.SearchDefaultLimit, "en");
  }

  /** Every result of a successful search is titled with the query. */
  lemma SearchResponseTitles(text: string, domains: seq<string>, limit: int, language: string)
    requires SearchSpec(text, domains, limit, language).Ok?
    ensures var results := SearchSpec(text, domains, limit, language).value.results;
      forall i :: 0 <= i < |results| ==> IsSubstring(text, results[i].title)
  {
    ResultsAreRecords(text, domains, limit, language);
    TitlesMentionQuery(text, domains, limit);
  }

  /** The results of a successful search come best first. */
  lemma SearchResponseRanked(text: string, domains: seq<string>, limit: int, language: string)
    requires SearchSpec(text, domains, limit, language).Ok?
    ensures var results := SearchSpec(text, domains, limit, language).value.results;
      && (forall i :: 0 <= i < |results| ==> results[i].relevanceScore.Some?)
      && (forall i, j :: 0 <= i < j < |results| ==>
            results[j].relevanceScore.value <= results[i].relevanceScore.value)
  {
    ResultsAreRecords(text, domains, limit, language);
    SearchRanked(text, domains, limit);
  }

  /** With filters, every result of a successful search comes from a
      domain that contains one of them. */
  lemma SearchResponseDomains(text: string, domains: seq<string>, limit: int, language: string)
    requires SearchSpec(text, domains, limit, language).Ok? && domains != []
    ensures var results := SearchSpec(text, domains, limit, language).value.results;
      forall i :: 0 <= i < |results| ==> exists k :: 0 <= k < |domains| && IsSubstring(domains[k], results[i].domain)
  {
    ResultsAreRecords(text, domains, limit, language);
    FilteredMatch(text, domains, limit);
    var answers := WebSearch.Answers(text, domains, limit);
    var results := SearchSpec(text, domains, limit, language).value.results;
    forall i | 0 <= i < |results|
      ensures exists k :: 0 <= k < |domains| && IsSubstring(domains[k], results[i].domain)
    {
      assert MatchesAny(answers[i], domains);
      assert results[i].domain == answers[i].domain.value;
    }
  }

  // --- the tool -------------------------------------------------------------------

  /** `SearchTool`; the rate limiter's clock is not modelled. */
  class SearchTool {
    var initialized: bool
    const api: WebSearchApi

    /** Only the tool initialises its client, so an initialised tool has
        an initialised client. */
    ghost predicate Valid()
      reads this, api
    {
      initialized ==> api.initialized
    }

    constructor ()
      ensures Valid() && !initialized && fresh(api) && !api.initialized
    {
      initialized := false;
      api := new WebSearchApi(None);
    }

    /** `initialize`: initialises the client too; a second call changes
        nothing. */
    method Initialize()
      requires Valid()
      modifies this, api
      ensures Valid() && initialized && api.initialized
      ensures old(initialized) ==> unchanged(this, api)
    {
      if initialized {
        return;
      }
      api.Initialize();
      initialized := true;
    }

    /** `_perform_search`: ask the client, then build one record per
        answer. */
    method PerformSearch(text: string, domains: seq<string>, limit: int, language: string)
      returns (r: Result<seq<SearchResult>>)
      modifies api
      ensures api.initialized
      ensures r == Convert(WebSearch.Answers(text, domains, limit))
    {
      var answers := api.Search(text, domains, limit, language);
      r := BuildRecords(answers);
    }

    /** `search`: initialise if needed, check the parameters (their error
        propagates), search (an error there becomes a `RuntimeError`). */
    method Search(text: string, domains: seq<string>, limit: int, language: string)
      returns (r: Result<SearchResponse>)
      requires Valid()
      modifies this, api
      ensures Valid() && initialized && api.initialized
      ensures r == SearchSpec(text, domains, limit, language)
    {
      if !initialized {
        Initialize();
      }
      var checked := ValidateSearchParams(text, domains, limit, language);
      if checked.Fail? {
        return Err(checked.error);
      }
      var found := PerformSearch(text, domains, limit, language);
      if found.Err? {
        return Err(Exception(RuntimeError, "Search service error: " + found.error.message));
      }
      return Ok(SearchResponse(text, found.value, |found.value|));
    }
  }

  /** The conversion loop of `_perform_search`. */
  method BuildRecords(answers: seq<ApiResult>) returns (r: Result<seq<SearchResult>>)
    ensures r == Convert(answers)
  {
    var results: seq<SearchResult> := [];
    for i := 0 to |answers|
      invariant Convert(answers[..i]) == Ok(results)
    {
      var x := answers[i];
      var built := BuildSearchResult(x.title, x.url, x.snippet, DomainOr(x), Some(ScoreOr(x)));
      ConvertAppend(answers[..i], x);
      assert answers[..i + 1] == answers[..i] + [x];
      if built.Invalid? {
        ConvertStops(answers[..i + 1], answers);
        return Err(Exception(ValidationError, ValidationText(built.errors)));
      }
      results := results + [built.value];
    }
    assert answers[..|answers|] == answers;
    return Ok(results);
  }

  /** Converting a list extended by one answer. */
  lemma {:induction false} ConvertAppend(s: seq<ApiResult>, x: ApiResult)
    requires Convert(s).Ok?
    ensures Convert(s + [x]) ==
      match BuildSearchResult(x.title, x.url, x.snippet, DomainOr(x), Some(ScoreOr(x)))
      case Valid(v) => Ok(Convert(s).value + [v])
      case Invalid(errors) => Err(Exception(ValidationError, ValidationText(errors)))
  {
    if s == [] {
      assert [] + [x] == [x];
      assert [x][1..] == [];
      match BuildSearchResult(x.title, x.url, x.snippet, DomainOr(x), Some(ScoreOr(x)))
      case Valid(v) =>
        assert [v] + [] == [] + [v];
      case Invalid(_) =>
    } else {
      var y := s[0];
      assert InUnitRange(y);
      var first := BuildSearchResult(y.title, y.url, y.snippet, DomainOr(y), Some(ScoreOr(y)));
      assert first.Valid?;
      assert (s + [x])[0] == y;
      assert (s + [x])[1..] == s[1..] + [x];
      assert Convert(s) == Ok([first.value] + Convert(s[1..]).value);
      ConvertAppend(s[1..], x);
      match BuildSearchResult(x.title, x.url, x.snippet, DomainOr(x), Some(ScoreOr(x)))
      case Valid(v) =>
        assert [first.value] + (Convert(s[1..]).value + [v]) == ([first.value] + Convert(s[1..]).value) + [v];
      case Invalid(_) =>
    }
  }

  /** The first failing prefix decides the whole list. */
  lemma {:induction false} ConvertStops(prefix: seq<ApiResult>, s: seq<ApiResult>)
    requires Convert(prefix).Err? && |prefix| <= |s| && s[..|prefix|] == prefix
    ensures Convert(s) == Convert(prefix)
    decreases |prefix|
  {
    assert prefix != [];
    var x := prefix[0];
    assert s[0] == x;
    match BuildSearchResult(x.title, x.url, x.snippet, DomainOr(x), Some(ScoreOr(x)))
    case Invalid(_) =>
    case Valid(_) =>
      assert s[1..][..|prefix| - 1] == prefix[1..];
      ConvertStops(prefix[1..], s[1..]);
  }
}
