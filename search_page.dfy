/**
 * The server-side `load` of the search results page
 * (frontend/src/routes/search/+page.server.ts): validation of the query, the language
 * and the page number, the page count, and the previous/next page links.
 */
module SearchPage {
  import opened Wrappers

  // ---------------------------------------------------------------------------
  // `String.prototype.trim`
  // ---------------------------------------------------------------------------

  /** The characters ECMAScript's `trim` strips: white space and line terminators. */
  predicate IsWhitespace(c: char)
  {
    c == '\t' || c == '\n' || c == '\U{B}' || c == '\U{C}' || c == '\r' || c == ' '
    || c == '\U{A0}' || c == '\U{1680}' || ('\U{2000}' <= c <= '\U{200A}')
    || c == '\U{2028}' || c == '\U{2029}' || c == '\U{202F}' || c == '\U{205F}'
    || c == '\U{3000}' || c == '\U{FEFF}'
  }

  predicate AllWhitespace(s: string) { forall i | 0 <= i < |s| :: IsWhitespace(s[i]) }

  function TrimStart(s: string): (r: string)
    ensures r != [] ==> !IsWhitespace(r[0])
    ensures exists k | 0 <= k <= |s| :: r == s[k..] && AllWhitespace(s[..k])
  {
    if s != [] && IsWhitespace(s[0]) then
      var r := TrimStart(s[1..]);
      assert exists k | 0 <= k <= |s| :: r == s[k..] && AllWhitespace(s[..k]) by {
        var k :| 0 <= k <= |s[1..]| && r == s[1..][k..] && AllWhitespace(s[1..][..k]);
        WhitespaceFront(s, k);
      }
      r
    else
      assert s == s[0..] && AllWhitespace(s[..0]);
      s
  }

  function TrimEnd(s: string): (r: string)
    ensures r != [] ==> !IsWhitespace(r[|r| - 1])
    ensures exists k | 0 <= k <= |s| :: r == s[..k] && AllWhitespace(s[k..])
  {
    if s != [] && IsWhitespace(s[|s| - 1]) then
      var r := TrimEnd(s[..|s| - 1]);
      assert exists k | 0 <= k <= |s| :: r == s[..k] && AllWhitespace(s[k..]) by {
        var k :| 0 <= k <= |s[..|s| - 1]| && r == s[..|s| - 1][..k] && AllWhitespace(s[..|s| - 1][k..]);
        WhitespaceBack(s, k);
      }
      r
    else
      assert s == s[..|s|] && AllWhitespace(s[|s|..]);
      s
  }

  /** A white-space first character extends a white-space front of the rest by one. */
  lemma WhitespaceFront(s: string, k: nat)
    requires s != [] && IsWhitespace(s[0]) && k <= |s| - 1 && AllWhitespace(s[1..][..k])
    ensures s[1..][k..] == s[k + 1..] && AllWhitespace(s[..k + 1])
  {
    assert s[..k + 1] == [s[0]] + s[1..][..k];
  }

  /** A white-space last character extends a white-space back of the rest by one. */
  lemma WhitespaceBack(s: string, k: nat)
    requires s != [] && IsWhitespace(s[|s| - 1]) && k <= |s| - 1 && AllWhitespace(s[..|s| - 1][k..])
    ensures s[..|s| - 1][..k] == s[..k] && AllWhitespace(s[k..])
  {
    assert s[k..] == s[..|s| - 1][k..] + [s[|s| - 1]];
  }

  /** `s.trim()`: leading and trailing white space removed. */
  function Trim(s: string): string
  {
    TrimEnd(TrimStart(s))
  }

  /** Stripping the front leaves nothing exactly when every character is white space. */
  lemma {:induction false} TrimStartEmpty(s: string)
    ensures TrimStart(s) == [] <==> AllWhitespace(s)
  {
    if s != [] && IsWhitespace(s[0]) {
      TrimStartEmpty(s[1..]);
      if AllWhitespace(s[1..]) {
        forall i | 1 <= i < |s| ensures IsWhitespace(s[i]) {
          assert s[i] == s[1..][i - 1];
        }
      } else {
        var i :| 0 <= i < |s[1..]| && !IsWhitespace(s[1..][i]);
        assert s[i + 1] == s[1..][i];
      }
    }
  }

  /** `q.trim().length == 0` holds exactly for strings made only of white space (the empty one included). */
  lemma TrimmedEmpty(s: string)
    ensures |Trim(s)| == 0 <==> AllWhitespace(s)
  {
    TrimStartEmpty(s);
    var t := TrimStart(s);
    if t != [] {
      TrimEndOfNonWhitespaceHead(t);
    }
  }

  /** Stripping the back never removes a first character that is not white space. */
  lemma {:induction false} TrimEndOfNonWhitespaceHead(t: string)
    requires t != [] && !IsWhitespace(t[0])
    ensures TrimEnd(t) != []
  {
    if IsWhitespace(t[|t| - 1]) {
      assert |t| > 1;
      assert t[..|t| - 1][0] == t[0];
      TrimEndOfNonWhitespaceHead(t[..|t| - 1]);
    }
  }

  /** The query is missing, empty or white space only. */
  predicate BlankQuery(q: Option<string>)
  {
    q.None? || AllWhitespace(q.value)
  }

  // ---------------------------------------------------------------------------
  // Page arithmetic
  // ---------------------------------------------------------------------------

  /** `Math.ceil(total / perPage)` on non-negative integers, without floating point. */
  function CeilDiv(total: nat, perPage: nat): nat
    requires perPage > 0
  {
    (total + perPage - 1) / perPage
  }

  /** The page count is the least number of pages of `perPage` rows that hold `total` rows. */
  lemma CeilDivIsLeast(total: nat, perPage: nat)
    requires perPage > 0
    ensures CeilDiv(total, perPage) * perPage >= total
    ensures CeilDiv(total, perPage) > 0 ==> (CeilDiv(total, perPage) - 1) * perPage < total
    ensures CeilDiv(total, perPage) == 0 <==> total == 0
  {
    var k := CeilDiv(total, perPage);
    var m := (total + perPage - 1) % perPage;
    assert total + perPage - 1 == k * perPage + m;
  }

  /** The page number actually used: the parsed one when it is an integer in [1, maxPages], else 1. */
  function ValidPage(parsed: Option<int>, maxPages: int): (r: int)
    ensures r >= 1
    ensures r != 1 ==> parsed == Some(r) && r <= maxPages
    ensures parsed.Some? && 1 <= parsed.value <= maxPages ==> r == parsed.value
  {
    if parsed.None? || parsed.value < 1 || parsed.value > maxPages then 1 else parsed.value
  }

  /** The language actually used: an unsupported one is dropped. */
  function ValidLanguage(language: Option<string>, available: seq<string>): (r: Option<string>)
    ensures r.Some? ==> r == language && r.value in available
    ensures language.Some? && language.value in available ==> r == language
  {
    if language.Some? && language.value !in available then None else language
  }

  // ---------------------------------------------------------------------------
  // `load`
  // ---------------------------------------------------------------------------

  /**
   * The backend search call, given the query, the language, the page size, the page
   * number and the corpus names; it reports the total number of matching documents.
   */
  type SearchCall = (string, Option<string>, nat, int, seq<string>) -> nat

  /** What `load` ends in: a redirect to the landing page, or the data of a result page. Links are page numbers. */
  datatype LoadOutcome =
    | RedirectHome
    | ResultsPage(totalNumItems: nat, pageNum: int, totalPages: nat, prevPage: Option<int>, nextPage: Option<int>)

  /**
   * `load`: validates `q`, the language and the page number, asks the backend for the
   * results, and decides the previous and next page links.
   */
  method Load(q: Option<string>, corpusNames: seq<string>, languageParam: Option<string>, availableLanguages: seq<string>,
              parsedPage: Option<int>, maxPages: int, perPage: nat, search: SearchCall)
    returns (r: LoadOutcome)
    requires perPage > 0
    ensures BlankQuery(q) ==> r == RedirectHome
    ensures !BlankQuery(q) ==> (
      var pageNum := ValidPage(parsedPage, maxPages);
      var total := search(q.value, ValidLanguage(languageParam, availableLanguages), perPage, pageNum, corpusNames);
      var totalPages := CeilDiv(total, perPage);
      if totalPages > 0 && pageNum > totalPages then r == RedirectHome
      else r.ResultsPage? && r.totalNumItems == total && r.pageNum == pageNum && r.totalPages == totalPages)
    ensures r.ResultsPage? ==> (r.prevPage.Some? <==> r.totalPages > 0 && r.pageNum > 1)
    ensures r.ResultsPage? && r.prevPage.Some? ==> r.prevPage.value == r.pageNum - 1
    ensures r.ResultsPage? ==> (r.nextPage.Some? <==> r.pageNum < r.totalPages)
    ensures r.ResultsPage? && r.nextPage.Some? ==> r.nextPage.value == r.pageNum + 1
    ensures r.ResultsPage? && r.totalPages > 0 ==> 1 <= r.pageNum <= r.totalPages
  {
    if q.None? || |q.value| == 0 || |Trim(q.value)| == 0 {
      TrimmedEmpty(if q.None? then [] else q.value);
      return RedirectHome;
    }
    TrimmedEmpty(q.value);

    var language := languageParam;
    if language.Some? && language.value !in availableLanguages {
      language := None;
    }

    var pageNum: int;
    if parsedPage.None? || parsedPage.value < 1 || parsedPage.value > maxPages {
      pageNum := 1;
    } else {
      pageNum := parsedPage.value;
    }

    var total := search(q.value, language, perPage, pageNum, corpusNames);
    var totalPages := CeilDiv(total, perPage);

    if totalPages == 0 {
      return ResultsPage(total, pageNum, totalPages, None, None);
    }

    if pageNum > totalPages {
      return RedirectHome;
    }

    var prevPage: Option<int> := None;
    if pageNum > 1 {
      prevPage := Some(pageNum - 1);
    }

    var nextPage: Option<int> := None;
    if pageNum < totalPages {
      nextPage := Some(pageNum + 1);
    }

    return ResultsPage(total, pageNum, totalPages, prevPage, nextPage);
  }

  /** Every page from 1 to the page count exists: its first row is among the results. */
  lemma PageHoldsResults(total: nat, perPage: nat, page: int)
    requires perPage > 0
    requires 1 <= page <= CeilDiv(total, perPage)
    ensures (page - 1) * perPage < total
  {
    CeilDivIsLeast(total, perPage);
    assert (page - 1) * perPage <= (CeilDiv(total, perPage) - 1) * perPage;
  }
}
