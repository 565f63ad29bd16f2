/**
 * The request the controller sends to the search API: the term, the page and
 * the fixed page size, written into the URL exactly as `fetchSearchTopStories`
 * writes it (the term is not encoded).
 */
module SearchApi {
  import opened Wrappers

  const DEFAULT_QUERY: string := "redux"
  const DEFAULT_HPP: string := "5"
  const PATH_BASE: string := "https://hn.algolia.com/api/v1"
  const PATH_SEARCH: string := "/search"
  const PARAM_SEARCH: string := "query="
  const PARAM_PAGE: string := "page="
  const PARAM_HPP: string := "hitsPerPage="

  /** One call of `fetchSearchTopStories(searchTerm, page)`. */
  datatype Request = Request(term: string, page: nat)

  // ---------------------------------------------------------------------------
  // Decimal numerals, as `${page}` writes a non-negative integer

  predicate IsDigit(c: char)
  {
    '0' <= c <= '9'
  }

  predicate AllDigits(s: string)
  {
    forall i :: 0 <= i < |s| ==> IsDigit(s[i])
  }

  function DigitChar(d: nat): (c: char)
    requires d < 10
    ensures IsDigit(c) && c as int - '0' as int == d
  {
    (d + '0' as int) as char
  }

  /** The decimal numeral of `n`, without leading zeros. */
  function NatToString(n: nat): (r: string)
    ensures |r| > 0 && AllDigits(r)
    ensures r[0] == '0' ==> n == 0 && r == "0"
  {
    if n < 10 then [DigitChar(n)] else NatToString(n / 10) + [DigitChar(n % 10)]
  }

  /** The value of a decimal numeral. */
  function ParseNat(s: string): nat
    requires AllDigits(s)
  {
    if s == [] then 0 else 10 * ParseNat(s[..|s| - 1]) + (s[|s| - 1] as int - '0' as int)
  }

  /** Reading back the numeral of `n` gives `n`. */
  lemma {:induction false} ParseNatToString(n: nat)
    ensures ParseNat(NatToString(n)) == n
  {
    if n >= 10 {
      var s := NatToString(n / 10);
      ParseNatToString(n / 10);
      assert (s + [DigitChar(n % 10)])[..|s|] == s;
    }
  }

  // ---------------------------------------------------------------------------
  // The request URL

  const URL_HEAD: string := PATH_BASE + PATH_SEARCH + "?" + PARAM_SEARCH
  const PAGE_SEPARATOR: string := "&" + PARAM_PAGE
  const URL_TAIL: string := "&" + PARAM_HPP + DEFAULT_HPP

  /** The URL `fetchSearchTopStories` requests; the term goes in verbatim. */
  function RequestUrl(r: Request): string
  {
    PATH_BASE + PATH_SEARCH + "?" + PARAM_SEARCH + r.term + "&" + PARAM_PAGE + NatToString(r.page)
      + "&" + PARAM_HPP + DEFAULT_HPP
  }

  /** The number of digits at the end of `s`. */
  function TrailingDigits(s: string): (n: nat)
    ensures n <= |s| && AllDigits(s[|s| - n..])
  {
    if s == [] || !IsDigit(s[|s| - 1]) then 0
    else
      var n := TrailingDigits(s[..|s| - 1]);
      assert s[|s| - (n + 1)..] == s[..|s| - 1][|s| - 1 - n..] + [s[|s| - 1]];
      n + 1
  }

  /** The text between the fixed head and the fixed tail of a request URL. */
  function Middle(url: string): Option<string>
  {
    if |url| < |URL_HEAD| + |URL_TAIL| || url[..|URL_HEAD|] != URL_HEAD || url[|url| - |URL_TAIL|..] != URL_TAIL then None
    else Some(url[|URL_HEAD|..|url| - |URL_TAIL|])
  }

  /** Reads the term and page from `term&page=digits`. */
  function ParseMiddle(middle: string): Option<Request>
  {
    var n := TrailingDigits(middle);
    var rest := middle[..|middle| - n];
    if n == 0 || |rest| < |PAGE_SEPARATOR| || rest[|rest| - |PAGE_SEPARATOR|..] != PAGE_SEPARATOR then None
    else Some(Request(rest[..|rest| - |PAGE_SEPARATOR|], ParseNat(middle[|middle| - n..])))
  }

  /** Reads a request back from a URL of the shape `RequestUrl` builds. */
  function ParseRequestUrl(url: string): Option<Request>
  {
    match Middle(url)
    case None => None
    case Some(middle) => ParseMiddle(middle)
  }

  /** The digits after a non-digit are exactly the trailing digits. */
  lemma {:induction false} TrailingDigitsAfter(a: string, d: string)
    requires a != [] && !IsDigit(a[|a| - 1]) && AllDigits(d)
    ensures TrailingDigits(a + d) == |d|
  {
    if d == [] {
      assert a + d == a;
    } else {
      assert (a + d)[..|a + d| - 1] == a + d[..|d| - 1];
      TrailingDigitsAfter(a, d[..|d| - 1]);
    }
  }

  /** A request URL is the fixed head, the term, the page separator and digits, and the fixed tail. */
  lemma RequestUrlParts(r: Request)
    ensures RequestUrl(r) == URL_HEAD + (r.term + PAGE_SEPARATOR + NatToString(r.page)) + URL_TAIL
  {
  }

  /** The fixed head and tail come off again. */
  lemma MiddleOf(middle: string)
    ensures Middle(URL_HEAD + middle + URL_TAIL) == Some(middle)
  {
    var url := URL_HEAD + middle + URL_TAIL;
    assert url[..|URL_HEAD|] == URL_HEAD;
    assert url[|url| - |URL_TAIL|..] == URL_TAIL;
    assert url[|URL_HEAD|..|url| - |URL_TAIL|] == middle;
  }

  /** The term and the page come back out of `term&page=digits`. */
  lemma ParseMiddleOf(r: Request)
    ensures ParseMiddle(r.term + PAGE_SEPARATOR + NatToString(r.page)) == Some(r)
  {
    var digits := NatToString(r.page);
    var middle := r.term + PAGE_SEPARATOR + digits;
    TrailingDigitsAfter(r.term + PAGE_SEPARATOR, digits);
    var rest := middle[..|middle| - |digits|];
    assert rest == r.term + PAGE_SEPARATOR;
    assert middle[|middle| - |digits|..] == digits;
    assert rest[|rest| - |PAGE_SEPARATOR|..] == PAGE_SEPARATOR;
    assert rest[..|rest| - |PAGE_SEPARATOR|] == r.term;
    ParseNatToString(r.page);
  }

  /** The URL determines the request: reading it back gives the term and page that built it. */
  lemma ParseRequestUrlRoundTrip(r: Request)
    ensures ParseRequestUrl(RequestUrl(r)) == Some(r)
  {
    RequestUrlParts(r);
    MiddleOf(r.term + PAGE_SEPARATOR + NatToString(r.page));
    ParseMiddleOf(r);
  }

  /** Two requests give the same URL only if they are the same request. */
  lemma RequestUrlInjective(r: Request, q: Request)
    requires RequestUrl(r) == RequestUrl(q)
    ensures r == q
  {
    ParseRequestUrlRoundTrip(r);
    ParseRequestUrlRoundTrip(q);
  }
}
