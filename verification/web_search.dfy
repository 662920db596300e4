/** The web-search client (`src/api/web_search.py`): a stand-in that
    answers every query with three canned results, keeps those whose
    domain contains one of the requested filters, and cuts the list to the
    requested length. */
module WebSearch {
  import opened Outcomes
  import opened Text

  /** One result as the client returns it: a dictionary whose `domain` and
      `relevance_score` keys a real client might leave out. */
  datatype ApiResult = ApiResult(
    title: string, url: string, snippet: string,
    domain: Option<string>, relevanceScore: Option<real>)

  /** The three canned answers to `query`, best first. */
  function CannedResults(query: string): (r: seq<ApiResult>)
    ensures |r| == 3
    ensures forall i :: 0 <= i < |r| ==> r[i].domain.Some? && r[i].relevanceScore.Some?
    ensures Ranked(r)
  {
    [ ApiResult("Example Result for '" + query + "'", "https://example.com/result1",
        "This is a mock search result demonstrating the pattern for '" + query + "'. Replace with real API implementation.",
        Some("example.com"), Some(0.95)),
      ApiResult("Tutorial: " + query, "https://docs.example.com/tutorial",
        "Learn about " + query + " in this comprehensive tutorial. This is example content.",
        Some("docs.example.com"), Some(0.87)),
      ApiResult("Best Practices for " + query, "https://blog.example.com/best-practices",
        "Industry best practices and guidelines for " + query + ". Mock content for template.",
        Some("blog.example.com"), Some(0.82)) ]
  }

  /** Every result has a score and no score exceeds an earlier one. */
  predicate Ranked(s: seq<ApiResult>) {
    && (forall i :: 0 <= i < |s| ==> s[i].relevanceScore.Some?)
    && (forall i, j :: 0 <= i < j < |s| ==> s[j].relevanceScore.value <= s[i].relevanceScore.value)
  }

  /** `any(domain in result["domain"] for domain in domains)`. */
  predicate MatchesAny(x: ApiResult, domains: seq<string>)
    requires x.domain.Some?
  {
    exists i :: 0 <= i < |domains| && IsSubstring(domains[i], x.domain.value)
  }

  /** The results that match a filter, in their original order. */
  function Matching(results: seq<ApiResult>, domains: seq<string>): (r: seq<ApiResult>)
    requires forall i :: 0 <= i < |results| ==> results[i].domain.Some?
    ensures |r| <= |results|
    ensures forall i :: 0 <= i < |r| ==> r[i].domain.Some? && r[i] in results
  {
    if results == [] then []
    else
      var rest := Matching(results[1..], domains);
      assert forall i :: 1 <= i < |results| ==> results[i] == results[1..][i - 1];
      if MatchesAny(results[0], domains) then [results[0]] + rest else rest
  }

  /** The filter keeps exactly the results that match. */
  lemma MatchingExactly(results: seq<ApiResult>, domains: seq<string>)
    requires forall i :: 0 <= i < |results| ==> results[i].domain.Some?
    ensures var r := Matching(results, domains);
      && (forall i :: 0 <= i < |r| ==> MatchesAny(r[i], domains))
      && (forall i :: 0 <= i < |results| && MatchesAny(results[i], domains) ==> results[i] in r)
  {
    MatchingSound(results, domains);
    MatchingComplete(results, domains);
  }

  lemma {:induction false} MatchingSound(results: seq<ApiResult>, domains: seq<string>)
    requires forall i :: 0 <= i < |results| ==> results[i].domain.Some?
    ensures forall x :: x in Matching(results, domains) ==> MatchesAny(x, domains)
  {
    if results != [] {
      var tail := results[1..];
      MatchingSound(tail, domains);
      var rest := Matching(tail, domains);
      var r := Matching(results, domains);
      if MatchesAny(results[0], domains) {
        assert r == [results[0]] + rest;
        forall x | x in r
          ensures MatchesAny(x, domains)
        {
          if x != results[0] {
            assert x in rest;
          }
        }
      } else {
        assert r == rest;
      }
    }
  }

  lemma {:induction false} MatchingComplete(results: seq<ApiResult>, domains: seq<string>)
    requires forall i :: 0 <= i < |results| ==> results[i].domain.Some?
    ensures forall i :: 0 <= i < |results| && MatchesAny(results[i], domains) ==> results[i] in Matching(results, domains)
  {
    if results != [] {
      var tail := results[1..];
      MatchingComplete(tail, domains);
      var rest := Matching(tail, domains);
      var r := Matching(results, domains);
      assert MatchesAny(results[0], domains) ==> r == [results[0]] + rest;
      assert !MatchesAny(results[0], domains) ==> r == rest;
      forall i | 0 <= i < |results| && MatchesAny(results[i], domains)
        ensures results[i] in r
      {
        if i > 0 {
          assert results[i] == tail[i - 1];
          assert tail[i - 1] in rest;
        }
      }
    }
  }

  /** Filtering keeps the ranking. */
  lemma {:induction false} MatchingKeepsRanking(results: seq<ApiResult>, domains: seq<string>)
    requires forall i :: 0 <= i < |results| ==> results[i].domain.Some?
    requires Ranked(results)
    ensures Ranked(Matching(results, domains))
  {
    if results != [] {
      var tail := results[1..];
      RankedTail(results);
      MatchingKeepsRanking(tail, domains);
      var rest := Matching(tail, domains);
      if MatchesAny(results[0], domains) {
        var top := results[0].relevanceScore.value;
        MatchingBelow(tail, domains, top);
        RankedCons(results[0], rest);
        assert Matching(results, domains) == [results[0]] + rest;
      } else {
        assert Matching(results, domains) == rest;
      }
    }
  }

  /** The tail of a ranked list, and its bound by the head. */
  lemma RankedTail(s: seq<ApiResult>)
    requires Ranked(s) && s != []
    ensures Ranked(s[1..])
    ensures forall k :: 0 <= k < |s[1..]| ==> s[1..][k].relevanceScore.value <= s[0].relevanceScore.value
  {
    assert forall k :: 0 <= k < |s[1..]| ==> s[1..][k] == s[k + 1];
  }

  /** A ranked list headed by a result scored no lower than any of it. */
  lemma RankedCons(x: ApiResult, s: seq<ApiResult>)
    requires Ranked(s) && x.relevanceScore.Some?
    requires forall k :: 0 <= k < |s| ==> s[k].relevanceScore.value <= x.relevanceScore.value
    ensures Ranked([x] + s)
  {
    var r := [x] + s;
    assert forall k :: 1 <= k < |r| ==> r[k] == s[k - 1];
  }

  /** Filtering keeps a bound on the scores. */
  lemma MatchingBelow(results: seq<ApiResult>, domains: seq<string>, top: real)
    requires forall i :: 0 <= i < |results| ==> results[i].domain.Some? && results[i].relevanceScore.Some?
    requires forall i :: 0 <= i < |results| ==> results[i].relevanceScore.value <= top
    ensures var r := Matching(results, domains);
      forall i :: 0 <= i < |r| ==> r[i].relevanceScore.Some? && r[i].relevanceScore.value <= top
  {
    var r := Matching(results, domains);
    forall i | 0 <= i < |r|
      ensures r[i].relevanceScore.Some? && r[i].relevanceScore.value <= top
    {
      assert r[i] in results;
    }
  }

  /** Filtering a list extended by one result. */
  lemma {:induction false} MatchingAppend(s: seq<ApiResult>, x: ApiResult, domains: seq<string>)
    requires forall i :: 0 <= i < |s| ==> s[i].domain.Some?
    requires x.domain.Some?
    ensures Matching(s + [x], domains) == Matching(s, domains) + if MatchesAny(x, domains) then [x] else []
  {
    if s == [] {
      assert [] + [x] == [x];
    } else {
      assert (s + [x])[1..] == s[1..] + [x];
      MatchingAppend(s[1..], x, domains);
    }
  }

  /** Python's `s[:limit]`: a negative limit counts from the end. */
  function Head<T>(s: seq<T>, limit: int): (r: seq<T>)
    ensures |r| <= |s| && r == s[..|r|]
    ensures 0 <= limit ==> |r| == if limit < |s| then limit else |s|
    ensures limit < 0 ==> |r| == if |s| + limit < 0 then 0 else |s| + limit
  {
    if 0 <= limit then (if limit < |s| then s[..limit] else s)
    else if |s| + limit < 0 then []
    else s[..|s| + limit]
  }

  /** A prefix of a ranked list is ranked. */
  lemma HeadKeepsRanking(s: seq<ApiResult>, limit: int)
    requires Ranked(s)
    ensures Ranked(Head(s, limit))
  {
    var r := Head(s, limit);
    assert forall i :: 0 <= i < |r| ==> r[i] == s[i];
  }

  /** What `search` returns: `None` and an empty list both mean no filter. */
  function Answers(query: string, domains: seq<string>, limit: int): (r: seq<ApiResult>)
    ensures |r| <= 3
    ensures 0 <= limit ==> |r| <= limit
    ensures forall i :: 0 <= i < |r| ==> r[i].domain.Some? && r[i].relevanceScore.Some?
  {
    var canned := CannedResults(query);
    Head(if domains == [] then canned else Matching(canned, domains), limit)
  }

  /** With no filter the answer is the canned list cut to the limit. */
  lemma UnfilteredIsCanned(query: string, limit: int)
    requires 0 <= limit
    ensures var r := Answers(query, [], limit);
      && |r| == (if limit < 3 then limit else 3)
      && forall i :: 0 <= i < |r| ==> r[i] == CannedResults(query)[i]
  {
  }

  /** With a filter every answer's domain contains one of the filters. */
  lemma FilteredMatch(query: string, domains: seq<string>, limit: int)
    requires domains != []
    ensures var r := Answers(query, domains, limit);
      forall i :: 0 <= i < |r| ==> MatchesAny(r[i], domains)
  {
    var canned := CannedResults(query);
    var m := Matching(canned, domains);
    MatchingExactly(canned, domains);
    assert forall k :: 0 <= k < |m| ==> MatchesAny(m[k], domains);
    var r := Answers(query, domains, limit);
    assert r == Head(m, limit);
    forall i | 0 <= i < |r|
      ensures MatchesAny(r[i], domains)
    {
      assert i < |m| && r[i] == m[i];
      assert MatchesAny(m[i], domains);
    }
  }

  /** Answers come best first. */
  lemma SearchRanked(query: string, domains: seq<string>, limit: int)
    ensures Ranked(Answers(query, domains, limit))
  {
    var canned := CannedResults(query);
    if domains != [] {
      MatchingKeepsRanking(canned, domains);
      HeadKeepsRanking(Matching(canned, domains), limit);
    } else {
      HeadKeepsRanking(canned, limit);
    }
  }

  /** Every answer's title mentions the query. */
  lemma TitlesMentionQuery(query: string, domains: seq<string>, limit: int)
    ensures var r := Answers(query, domains, limit);
      forall i :: 0 <= i < |r| ==> IsSubstring(query, r[i].title)
  {
    var canned := CannedResults(query);
    SubstringOfConcat("Example Result for '", query, "'");
    SubstringOfConcat("Tutorial: ", query, "");
    assert "Tutorial: " + query + "" == "Tutorial: " + query;
    SubstringOfConcat("Best Practices for ", query, "");
    assert "Best Practices for " + query + "" == "Best Practices for " + query;
    assert forall i :: 0 <= i < |canned| ==> IsSubstring(query, canned[i].title);
    var r := Answers(query, domains, limit);
    forall i | 0 <= i < |r|
      ensures IsSubstring(query, r[i].title)
    {
      var src := if domains == [] then canned else Matching(canned, domains);
      assert r[i] == src[i];
      assert r[i] in canned;
    }
  }

  /** `WebSearchAPI`. */
  class WebSearchApi {
    const apiKey: Option<string>
    var initialized: bool

    constructor (apiKey: Option<string>)
      ensures this.apiKey == apiKey && !initialized
    {
      this.apiKey := apiKey;
      initialized := false;
    }

    /** `initialize`: a second call changes nothing. */
    method Initialize()
      modifies this
      ensures initialized
      ensures old(initialized) ==> unchanged(this)
    {
      if initialized {
        return;
      }
      initialized := true;
    }

    /** The filter loop of `search`. */
    method FilterByDomains(results: seq<ApiResult>, domains: seq<string>) returns (filtered: seq<ApiResult>)
      requires forall i :: 0 <= i < |results| ==> results[i].domain.Some?
      ensures filtered == Matching(results, domains)
    {
      filtered := [];
      for i := 0 to |results|
        invariant filtered == Matching(results[..i], domains)
      {
        MatchingAppend(results[..i], results[i], domains);
        assert results[..i + 1] == results[..i] + [results[i]];
        var hit := AnyDomainIn(domains, results[i].domain.value);
        if hit {
          filtered := filtered + [results[i]];
        }
      }
      assert results[..|results|] == results;
    }

    /** `search`; the simulated delay is not modelled. */
    method Search(query: string, domains: seq<string>, limit: int, language: string) returns (results: seq<ApiResult>)
      modifies this
      ensures initialized
      ensures results == Answers(query, domains, limit)
    {
      if !initialized {
        Initialize();
      }
      results := CannedResults(query);
      if domains != [] {
        results := FilterByDomains(results, domains);
      }
      results := Head(results, limit);
    }
  }

  /** The generator inside `any(...)`, stopping at the first hit. */
  method AnyDomainIn(domains: seq<string>, domain: string) returns (found: bool)
    ensures found <==> exists i :: 0 <= i < |domains| && IsSubstring(domains[i], domain)
  {
    var i := 0;
    while i < |domains|
      invariant 0 <= i <= |domains|
      invariant forall j :: 0 <= j < i ==> !IsSubstring(domains[j], domain)
    {
      if IsSubstring(domains[i], domain) {
        return true;
      }
      i := i + 1;
    }
    return false;
  }
}
