/**
 * How the search server reads the request URL: the query is the text after the
 * first '?' and before the first '#' (the rest is a fragment the browser never
 * sends); it is split on '&' into name=value pairs and each part is
 * form-decoded ('+' is a space, "%XX" the character XX).
 *
 * `RequestUrl` writes the term unencoded, so a term holding '#', '&', '+' or
 * '%' reaches the server altered. `EscapedRequestUrl` escapes those four
 * characters, and the server then reads back exactly the term, page and page
 * size of the request.
 */
module QueryString {
  import opened Wrappers
  import opened SearchApi

  // ---------------------------------------------------------------------------
  // Scanning for a delimiter

  /** The text of `s` before the first `c` (all of `s` when there is none). */
  function UpTo(s: string, c: char): (r: string)
    ensures |r| <= |s| && c !in r
  {
    if s == [] || s[0] == c then [] else [s[0]] + UpTo(s[1..], c)
  }

  /** The text of `s` after the first `c`, if `s` holds a `c`. */
  function After(s: string, c: char): (r: Option<string>)
    ensures r.Some? ==> |r.value| < |s|
    ensures r.None? <==> c !in s
  {
    if s == [] then None else if s[0] == c then Some(s[1..]) else After(s[1..], c)
  }

  /** `s` cut at every `c`. */
  function Split(s: string, c: char): seq<string>
    decreases |s|
  {
    match After(s, c)
    case None => [s]
    case Some(rest) => [UpTo(s, c)] + Split(rest, c)
  }

  lemma {:induction false} UpToAbsent(s: string, c: char)
    requires c !in s
    ensures UpTo(s, c) == s
  {
    if s != [] {
      UpToAbsent(s[1..], c);
      assert s == [s[0]] + s[1..];
    }
  }

  lemma {:induction false} ScanPast(a: string, c: char, b: string)
    requires c !in a
    ensures UpTo(a + [c] + b, c) == a
    ensures After(a + [c] + b, c) == Some(b)
  {
    if a != [] {
      assert (a + [c] + b)[1..] == a[1..] + [c] + b;
      ScanPast(a[1..], c, b);
      assert a == [a[0]] + a[1..];
    } else {
      assert a + [c] + b == [c] + b;
    }
  }

  lemma SplitAbsent(s: string, c: char)
    requires c !in s
    ensures Split(s, c) == [s]
  {
  }

  lemma SplitPast(a: string, c: char, b: string)
    requires c !in a
    ensures Split(a + [c] + b, c) == [a] + Split(b, c)
  {
    ScanPast(a, c, b);
  }

  // ---------------------------------------------------------------------------
  // Form decoding

  predicate IsHex(c: char)
  {
    '0' <= c <= '9' || 'A' <= c <= 'F' || 'a' <= c <= 'f'
  }

  function HexValue(c: char): (v: nat)
    requires IsHex(c)
    ensures v < 16
  {
    if '0' <= c <= '9' then c as int - '0' as int
    else if 'A' <= c <= 'F' then c as int - 'A' as int + 10
    else c as int - 'a' as int + 10
  }

  /**
   * '+' becomes a space and "%XX" with XX below 80 (hexadecimal) the ASCII
   * character XX; everything else is kept.
   */
  function Decode(s: string): string
  {
    if s == [] then []
    else if s[0] == '+' then [' '] + Decode(s[1..])
    else if s[0] == '%' && |s| >= 3 && IsHex(s[1]) && IsHex(s[2]) && HexValue(s[1]) < 8 then
      [(16 * HexValue(s[1]) + HexValue(s[2])) as char] + Decode(s[3..])
    else [s[0]] + Decode(s[1..])
  }

  lemma {:induction false} DecodePlain(s: string)
    requires '+' !in s && '%' !in s
    ensures Decode(s) == s
  {
    if s != [] {
      DecodePlain(s[1..]);
      assert s == [s[0]] + s[1..];
    }
  }

  /** The parameters of a query, in order: each non-empty '&'-separated part, decoded. */
  function Params(parts: seq<string>): seq<(string, string)>
  {
    if parts == [] then []
    else if parts[0] == [] then Params(parts[1..])
    else
      var name := Decode(UpTo(parts[0], '='));
      var value := match After(parts[0], '=') case None => "" case Some(v) => Decode(v);
      [(name, value)] + Params(parts[1..])
  }

  /** The value of the first parameter called `name`. */
  function Lookup(params: seq<(string, string)>, name: string): Option<string>
  {
    if params == [] then None
    else if params[0].0 == name then Some(params[0].1)
    else Lookup(params[1..], name)
  }

  /** The query component of a URL: after the first '?', up to the first '#'. */
  function QueryOf(url: string): string
  {
    match After(url, '?')
    case None => ""
    case Some(rest) => UpTo(rest, '#')
  }

  /** The value the server reads for parameter `name` of `url`. */
  function ServerParam(url: string, name: string): Option<string>
  {
    Lookup(Params(Split(QueryOf(url), '&')), name)
  }

  // ---------------------------------------------------------------------------
  // The corrected URL

  /** The characters that change how a query value is read. */
  predicate Special(c: char)
  {
    c == '%' || c == '&' || c == '#' || c == '+'
  }

  /** The escape of one character of a query value. */
  function EscapeChar(c: char): string
  {
    if c == '%' then "%25"
    else if c == '&' then "%26"
    else if c == '#' then "%23"
    else if c == '+' then "%2B"
    else [c]
  }

  /** The term with '%', '&', '#' and '+' percent-encoded. */
  function Escape(t: string): (r: string)
    ensures '&' !in r && '#' !in r
  {
    if t == [] then [] else EscapeChar(t[0]) + Escape(t[1..])
  }

  lemma DecodeEscapeChar(c: char, rest: string)
    ensures Decode(EscapeChar(c) + rest) == [c] + Decode(rest)
  {
    var s := EscapeChar(c) + rest;
    if Special(c) {
      assert s[3..] == rest;
    } else {
      assert s[1..] == rest;
    }
  }

  /** Decoding undoes escaping. */
  lemma {:induction false} DecodeEscape(t: string)
    ensures Decode(Escape(t)) == t
  {
    if t != [] {
      DecodeEscapeChar(t[0], Escape(t[1..]));
      DecodeEscape(t[1..]);
      assert t == [t[0]] + t[1..];
    }
  }

  /** A term without '%', '&', '#' and '+' is its own escape. */
  lemma {:induction false} EscapePlain(t: string)
    requires forall i :: 0 <= i < |t| ==> !Special(t[i])
    ensures Escape(t) == t
  {
    if t != [] {
      EscapePlain(t[1..]);
      assert EscapeChar(t[0]) == [t[0]];
      assert t == [t[0]] + t[1..];
    }
  }

  /** The request URL with the term escaped, as `encodeURIComponent(searchTerm)` would leave these four characters. */
  function EscapedRequestUrl(r: Request): string
  {
    RequestUrl(Request(Escape(r.term), r.page))
  }

  /** What follows the query value in a request URL: the page and the page size. */
  function PageTail(page: nat): string
  {
    "&" + PARAM_PAGE + NatToString(page) + "&" + PARAM_HPP + DEFAULT_HPP
  }

  /** The query of a request URL whose query value is written as `value`. */
  function QueryText(value: string, page: nat): string
  {
    PARAM_SEARCH + value + PageTail(page)
  }

  /** The parameter names and the page size, as plain text. */
  lemma ParamNames()
    ensures PARAM_SEARCH == "query" + ['='] && PARAM_PAGE == "page" + ['='] && PARAM_HPP == "hitsPerPage" + ['=']
    ensures DEFAULT_HPP == "5"
  {
  }

  lemma QueryNamePlain()
    ensures '&' !in PARAM_SEARCH && '#' !in PARAM_SEARCH
  {
  }

  lemma PathPlain()
    ensures '?' !in PATH_BASE + PATH_SEARCH
  {
  }

  lemma DecodeQueryName()
    ensures Decode("query") == "query"
  {
    DecodePlain("query");
  }

  lemma DecodePageName()
    ensures Decode("page") == "page"
  {
    DecodePlain("page");
  }

  lemma DecodeHppName()
    ensures Decode("hitsPerPage") == "hitsPerPage"
  {
    DecodePlain("hitsPerPage");
  }

  lemma DecodeHppValue()
    ensures Decode("5") == "5"
  {
    DecodePlain("5");
  }

  lemma NamesDecode()
    ensures Decode("query") == "query" && Decode("page") == "page" && Decode("hitsPerPage") == "hitsPerPage"
    ensures Decode("5") == "5"
  {
    DecodeQueryName();
    DecodePageName();
    DecodeHppName();
    DecodeHppValue();
  }


  lemma PageTailPlain(page: nat)
    ensures '#' !in PageTail(page)
  {
    DigitsPlain(NatToString(page));
    assert PageTail(page) == "&" + PARAM_PAGE + NatToString(page) + "&" + PARAM_HPP + DEFAULT_HPP;
  }

  /** The query the server sees in a request URL is its query text up to any '#'. */
  lemma QueryOfRequestUrl(r: Request)
    ensures QueryOf(RequestUrl(r)) == UpTo(QueryText(r.term, r.page), '#')
  {
    var path := PATH_BASE + PATH_SEARCH;
    var x := QueryText(r.term, r.page);
    assert RequestUrl(r) == path + ['?'] + x;
    PathPlain();
    ScanPast(path, '?', x);
  }

  /** The query text of a request, parameter by parameter. */
  lemma QueryTextShape(value: string, page: nat)
    ensures QueryText(value, page) == "query" + ['='] + value + ['&'] + "page" + ['='] + NatToString(page)
      + ['&'] + "hitsPerPage" + ['='] + "5"
  {
    ParamNames();
  }

  /** A part `name=value` whose name holds no '=' reads as the decoded pair. */
  lemma ParamOf(name: string, value: string, rest: seq<string>)
    requires '=' !in name
    ensures Params([name + ['='] + value] + rest) == [(Decode(name), Decode(value))] + Params(rest)
  {
    ScanPast(name, '=', value);
    assert ([name + ['='] + value] + rest)[1..] == rest;
  }

  /** Three '&'-free parts joined by '&' split back into the three parts. */
  lemma SplitThree(p1: string, p2: string, p3: string)
    requires '&' !in p1 && '&' !in p2 && '&' !in p3
    ensures Split(p1 + ['&'] + (p2 + ['&'] + p3), '&') == [p1] + ([p2] + [p3])
  {
    SplitPast(p1, '&', p2 + ['&'] + p3);
    SplitPast(p2, '&', p3);
    SplitAbsent(p3, '&');
  }

  /** A single part `name=value` reads as the one decoded pair. */
  lemma ParamOne(name: string, value: string)
    requires '=' !in name
    ensures Params([name + ['='] + value]) == [(Decode(name), Decode(value))]
  {
    ParamOf(name, value, []);
    assert [name + ['='] + value] + [] == [name + ['='] + value];
  }

  /** The parameters of a list of parts are those of its first part, then those of the rest. */
  lemma ParamsCons(p: string, rest: seq<string>)
    ensures Params([p] + rest) == Params([p]) + Params(rest)
  {
    assert ([p] + rest)[1..] == rest;
    assert [p][1..] == [];
  }

  /** Three parts with one parameter each read as those three parameters, in order. */
  lemma ParamsThree(p1: string, p2: string, p3: string, d1: (string, string), d2: (string, string), d3: (string, string))
    requires Params([p1]) == [d1] && Params([p2]) == [d2] && Params([p3]) == [d3]
    ensures Params([p1] + ([p2] + [p3])) == [d1, d2, d3]
  {
    ParamsCons(p2, [p3]);
    ParamsCons(p1, [p2] + [p3]);
  }

  /** The query of three `name=value` parts, grouped part by part. */
  lemma GroupThree(n1: string, v1: string, n2: string, v2: string, n3: string, v3: string)
    ensures n1 + ['='] + v1 + ['&'] + n2 + ['='] + v2 + ['&'] + n3 + ['='] + v3
         == (n1 + ['='] + v1) + ['&'] + ((n2 + ['='] + v2) + ['&'] + (n3 + ['='] + v3))
  {
  }

  /** A query of three `name=value` parts, none holding '&' or '#', reads as the three decoded pairs. */
  lemma ThreeParams(n1: string, v1: string, n2: string, v2: string, n3: string, v3: string)
    requires '=' !in n1 && '=' !in n2 && '=' !in n3
    requires '&' !in n1 + v1 + n2 + v2 + n3 + v3 && '#' !in n1 + v1 + n2 + v2 + n3 + v3
    ensures var q := n1 + ['='] + v1 + ['&'] + n2 + ['='] + v2 + ['&'] + n3 + ['='] + v3;
      Params(Split(UpTo(q, '#'), '&')) == [(Decode(n1), Decode(v1)), (Decode(n2), Decode(v2)), (Decode(n3), Decode(v3))]
  {
    var p1, p2, p3 := n1 + ['='] + v1, n2 + ['='] + v2, n3 + ['='] + v3;
    var q := p1 + ['&'] + (p2 + ['&'] + p3);
    GroupThree(n1, v1, n2, v2, n3, v3);
    assert '#' !in q;
    UpToAbsent(q, '#');
    SplitThree(p1, p2, p3);
    ParamOne(n1, v1);
    ParamOne(n2, v2);
    ParamOne(n3, v3);
    ParamsThree(p1, p2, p3, (Decode(n1), Decode(v1)), (Decode(n2), Decode(v2)), (Decode(n3), Decode(v3)));
  }


  /** Neither the digits of a page nor the parameter names hold a character that alters reading. */
  lemma DigitsPlain(d: string)
    requires AllDigits(d)
    ensures '+' !in d && '%' !in d && '&' !in d && '#' !in d
  {
    forall i | 0 <= i < |d| ensures d[i] != '+' && d[i] != '%' && d[i] != '&' && d[i] != '#' {
      assert IsDigit(d[i]);
    }
  }

  /** The parameters the server reads from the query text of a value free of '&' and '#'. */
  lemma QueryTextParams(value: string, page: nat)
    requires '&' !in value && '#' !in value
    ensures Params(Split(UpTo(QueryText(value, page), '#'), '&'))
         == [("query", Decode(value)), ("page", NatToString(page)), ("hitsPerPage", "5")]
  {
    var d := NatToString(page);
    QueryTextShape(value, page);
    DigitsPlain(d);
    DecodePlain(d);
    ThreeParams("query", value, "page", d, "hitsPerPage", "5");
    NamesDecode();
  }

  /** The server reads back exactly the term, page and page size of the escaped request. */
  lemma EscapedRequestUrlReadBack(r: Request)
    ensures ServerParam(EscapedRequestUrl(r), "query") == Some(r.term)
    ensures ServerParam(EscapedRequestUrl(r), "page") == Some(NatToString(r.page))
    ensures ServerParam(EscapedRequestUrl(r), "hitsPerPage") == Some(DEFAULT_HPP)
  {
    var e := Escape(r.term);
    QueryOfRequestUrl(Request(e, r.page));
    QueryTextParams(e, r.page);
    DecodeEscape(r.term);
    LookupThree("query", r.term, "page", NatToString(r.page), "hitsPerPage", "5");
  }

  /** Looking up each of three parameters with distinct names finds its own value. */
  lemma LookupThree(n1: string, v1: string, n2: string, v2: string, n3: string, v3: string)
    requires n1 != [] && n2 != [] && n3 != []
    requires n1[0] != n2[0] && n1[0] != n3[0] && n2[0] != n3[0]
    ensures var ps := [(n1, v1), (n2, v2), (n3, v3)];
      Lookup(ps, n1) == Some(v1) && Lookup(ps, n2) == Some(v2) && Lookup(ps, n3) == Some(v3)
  {
    var ps := [(n1, v1), (n2, v2), (n3, v3)];
    assert n1 != n2 && n1 != n3 && n2 != n3;
    assert ps[1..] == [(n2, v2), (n3, v3)];
    assert ps[1..][1..] == [(n3, v3)];
    assert Lookup(ps[1..][1..], n3) == Some(v3);
    assert Lookup(ps[1..], n3) == Some(v3);
    assert Lookup(ps[1..], n2) == Some(v2);
  }

  // ---------------------------------------------------------------------------
  // The URL as written

  /** Neither '+' nor '%' nor '&' nor '#' occurs in `s`. */
  predicate Plain(s: string)
  {
    forall i :: 0 <= i < |s| ==> !Special(s[i])
  }

  /** A plain value holds none of the four characters. */
  lemma PlainExcludes(a: string)
    requires Plain(a)
    ensures '&' !in a && '#' !in a && '+' !in a && '%' !in a
  {
    forall i | 0 <= i < |a| ensures a[i] != '&' && a[i] != '#' && a[i] != '+' && a[i] != '%' {
      assert !Special(a[i]);
    }
  }

  /** For a term without '%', '&', '#' and '+' the URL as written is the escaped one and is read back intact. */
  lemma RequestUrlPlainTerm(r: Request)
    requires Plain(r.term)
    ensures RequestUrl(r) == EscapedRequestUrl(r)
    ensures ServerParam(RequestUrl(r), "query") == Some(r.term)
  {
    EscapePlain(r.term);
    EscapedRequestUrlReadBack(r);
  }

  /** The part "query=a" of a plain value `a` holds one parameter, the query `a`. */
  lemma QueryParamPart(a: string, rest: seq<string>)
    requires Plain(a)
    ensures '&' !in PARAM_SEARCH + a && '#' !in PARAM_SEARCH + a
    ensures Params([PARAM_SEARCH + a] + rest) == [("query", a)] + Params(rest)
  {
    PlainExcludes(a);
    QueryNamePlain();
    ParamNames();
    NamesDecode();
    ParamOf("query", a, rest);
    DecodePlain(a);
  }

  /** Regrouping a value that holds a delimiter between the text around it. */
  lemma Regroup(x: string, a: string, c: char, b: string, t: string)
    ensures x + (a + [c] + b) + t == (x + a) + [c] + (b + t)
  {
  }

  /** The query text of a value `a` + `c` + `b`, cut at the `c`. */
  lemma QueryTextAround(a: string, c: char, b: string, page: nat)
    ensures QueryText(a + [c] + b, page) == (PARAM_SEARCH + a) + [c] + (b + PageTail(page))
  {
    Regroup(PARAM_SEARCH, a, c, b, PageTail(page));
  }

  /** As written, the query of the URL for `a#b` stops at the '#'. */
  lemma HashTermQuery(a: string, b: string, page: nat)
    requires Plain(a)
    ensures QueryOf(RequestUrl(Request(a + ['#'] + b, page))) == PARAM_SEARCH + a
  {
    QueryOfRequestUrl(Request(a + ['#'] + b, page));
    QueryTextAround(a, '#', b, page);
    QueryParamPart(a, []);
    ScanPast(PARAM_SEARCH + a, '#', b + PageTail(page));
  }

  /** As written, the query of the URL for `a&b` splits into "query=a" and what follows. */
  lemma AmpersandTermQuery(a: string, b: string, page: nat)
    requires Plain(a) && '#' !in b
    ensures var parts := Split(QueryOf(RequestUrl(Request(a + ['&'] + b, page))), '&');
      parts == [PARAM_SEARCH + a] + Split(b + PageTail(page), '&')
  {
    var q := QueryText(a + ['&'] + b, page);
    QueryOfRequestUrl(Request(a + ['&'] + b, page));
    QueryTextAround(a, '&', b, page);
    QueryParamPart(a, []);
    PageTailPlain(page);
    UpToAbsent(q, '#');
    SplitPast(PARAM_SEARCH + a, '&', b + PageTail(page));
  }

  /**
   * As written, a term `a#b` loses everything from the '#' on: it is a fragment,
   * so the server searches `a` and receives no page and no page size.
   */
  lemma RequestUrlHashTerm(a: string, b: string, page: nat)
    requires Plain(a)
    ensures var url := RequestUrl(Request(a + ['#'] + b, page));
      && ServerParam(url, "query") == Some(a)
      && ServerParam(url, "page") == None
      && ServerParam(url, "hitsPerPage") == None
  {
    var url := RequestUrl(Request(a + ['#'] + b, page));
    HashTermQuery(a, b, page);
    SoleQueryParam(a);
    LookupOne(a);
  }

  /** The query "query=a" of a plain value `a` holds the one parameter. */
  lemma SoleQueryParam(a: string)
    requires Plain(a)
    ensures Params(Split(PARAM_SEARCH + a, '&')) == [("query", a)]
  {
    QueryParamPart(a, []);
    SplitAbsent(PARAM_SEARCH + a, '&');
    assert [PARAM_SEARCH + a] + [] == [PARAM_SEARCH + a];
  }

  /** A query holding only the query parameter has no page and no page size. */
  lemma LookupOne(value: string)
    ensures Lookup([("query", value)], "query") == Some(value)
    ensures Lookup([("query", value)], "page") == None
    ensures Lookup([("query", value)], "hitsPerPage") == None
  {
    assert "query" != "page" && "query" != "hitsPerPage" by {
      assert "query"[0] != "page"[0] && "query"[0] != "hitsPerPage"[0];
    }
    assert [("query", value)][1..] == [];
  }


  /** As written, a term `a&b` is cut at the '&': the server searches `a`. */
  lemma RequestUrlAmpersandTerm(a: string, b: string, page: nat)
    requires Plain(a) && '#' !in b
    ensures ServerParam(RequestUrl(Request(a + ['&'] + b, page)), "query") == Some(a)
  {
    AmpersandTermQuery(a, b, page);
    QueryParamPart(a, Split(b + PageTail(page), '&'));
  }

  /** Searching "C#" as written searches "C"; searching "AT&T" searches "AT". */
  lemma RequestUrlExamples()
    ensures ServerParam(RequestUrl(Request("C#", 0)), "query") == Some("C")
    ensures ServerParam(RequestUrl(Request("C#", 0)), "page") == None
    ensures ServerParam(RequestUrl(Request("AT&T", 0)), "query") == Some("AT")
  {
    assert "C#" == "C" + ['#'] + "";
    RequestUrlHashTerm("C", "", 0);
    assert "AT&T" == "AT" + ['&'] + "T";
    RequestUrlAmpersandTerm("AT", "T", 0);
  }
}
