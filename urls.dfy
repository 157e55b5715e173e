/**
 * The search URL `Site.set_url` builds: the base endpoint, `?`, and
 * `urlencode` of five query parameters in insertion order, with both dates
 * written `MM-DD-YYYY`.
 */
module Urls {
  import opened Wrappers
  import opened Dates

  const BaseUrl := "https://www.wicourts.gov/supreme/scopin.jsp"
  /** Separator `strftime("%m-%d-%Y")` puts between the fields. */
  const DateSeparator := '-'
  /** Length of the trailing window `set_url()` searches when given no dates. */
  const DefaultWindowDays := 15

  /** Characters `quote_plus` leaves as they are. */
  predicate IsUnreserved(c: char) {
    ('A' <= c <= 'Z') || ('a' <= c <= 'z') || ('0' <= c <= '9') ||
    c == '_' || c == '.' || c == '-' || c == '~'
  }

  predicate Unreserved(s: string) {
    forall k :: 0 <= k < |s| ==> IsUnreserved(s[k])
  }

  type Param = (string, string)

  /** `urlencode(params)` for keys and values that need no escaping. */
  function UrlEncode(params: seq<Param>): (q: string)
    requires forall i :: 0 <= i < |params| ==> Unreserved(params[i].0) && Unreserved(params[i].1)
    ensures params == [] <==> q == []
  {
    if params == [] then []
    else
      var head := params[0].0 + "=" + params[0].1;
      if |params| == 1 then head else head + "&" + UrlEncode(params[1..])
  }

  /** The query parameters of a search between `begin` and `end`, in insertion order. */
  function SearchParams(begin: Date, end: Date): (ps: seq<Param>)
    requires Valid(begin) && Valid(end)
    ensures |ps| == 5
    ensures forall i :: 0 <= i < |ps| ==> Unreserved(ps[i].0) && Unreserved(ps[i].1)
  {
    [("range", "None"),
     ("begin_date", Format(begin, DateSeparator)),
     ("end_date", Format(end, DateSeparator)),
     ("sortBy", "date"),
     ("Submit", "Search")]
  }

  /**
   * `f"{self.base_url}?{urlencode(params)}"`: the base, `?`, and the query
   * spelled out.
   */
  function SearchUrl(begin: Date, end: Date): (url: string)
    requires Valid(begin) && Valid(end)
    ensures url == BaseUrl + "?" + QueryLiteral(Format(begin, DateSeparator), Format(end, DateSeparator))
  {
    EncodeSearchParams(begin, end);
    BaseUrl + "?" + UrlEncode(SearchParams(begin, end))
  }

  /** A pair followed by more pairs: `key=value&` and the rest. */
  lemma EncodeCons(params: seq<Param>)
    requires |params| >= 2
    requires forall i :: 0 <= i < |params| ==> Unreserved(params[i].0) && Unreserved(params[i].1)
    ensures UrlEncode(params) == params[0].0 + "=" + params[0].1 + "&" + UrlEncode(params[1..])
  {
  }

  /** The query's fixed trailing parameters. */
  const QueryTail := "&sortBy=date&Submit=Search"

  /** The query spelled out: the five `key=value` pairs joined by `&`. */
  function QueryLiteral(b: string, e: string): string {
    "range=None&begin_date=" + b + "&end_date=" + e + QueryTail
  }

  /** The encoded parameters are the five `key=value` pairs joined by `&`, in insertion order. */
  lemma EncodeSearchParams(begin: Date, end: Date)
    requires Valid(begin) && Valid(end)
    ensures UrlEncode(SearchParams(begin, end)) ==
              QueryLiteral(Format(begin, DateSeparator), Format(end, DateSeparator))
  {
    var ps := SearchParams(begin, end);
    var b, e := Format(begin, DateSeparator), Format(end, DateSeparator);
    EncodeCons(ps);
    EncodeCons(ps[1..]);
    EncodeCons(ps[2..]);
    EncodeCons(ps[3..]);
    assert ps[1..][1..] == ps[2..] && ps[2..][1..] == ps[3..] && ps[3..][1..] == ps[4..];
    var q0, q1, q2, q3 := UrlEncode(ps), UrlEncode(ps[1..]), UrlEncode(ps[2..]), UrlEncode(ps[3..]);
    GlueTail(q3, UrlEncode(ps[4..]));
    GlueEndDate(e, q2, q3);
    GlueBeginDate(b, e, q1, q2);
    GlueRange(b, e, q0, q1);
  }

  lemma GlueTail(q3: string, q4: string)
    requires q4 == "Submit" + "=" + "Search"
    requires q3 == "sortBy" + "=" + "date" + "&" + q4
    ensures "&" + q3 == QueryTail
  {
  }

  lemma GlueEndDate(e: string, q2: string, q3: string)
    requires "&" + q3 == QueryTail
    requires q2 == "end_date" + "=" + e + "&" + q3
    ensures q2 == "end_date=" + e + QueryTail
  {
  }

  lemma GlueBeginDate(b: string, e: string, q1: string, q2: string)
    requires q2 == "end_date=" + e + QueryTail
    requires q1 == "begin_date" + "=" + b + "&" + q2
    ensures q1 == "begin_date=" + b + "&end_date=" + e + QueryTail
  {
  }

  lemma GlueRange(b: string, e: string, q0: string, q1: string)
    requires q1 == "begin_date=" + b + "&end_date=" + e + QueryTail
    requires q0 == "range" + "=" + "None" + "&" + q1
    ensures q0 == QueryLiteral(b, e)
  {
  }

  /** Where the `begin_date` and `end_date` values sit in the query. */
  const BeginDateAt := |"range=None&begin_date="|
  const EndDateAt := BeginDateAt + 10 + |"&end_date="|

  /** The two dates sit at fixed places of the spelled-out query. */
  lemma QueryLiteralDates(b: string, e: string)
    requires |b| == 10 && |e| == 10
    ensures |QueryLiteral(b, e)| == EndDateAt + 10 + |QueryTail|
    ensures QueryLiteral(b, e)[BeginDateAt..BeginDateAt + 10] == b
    ensures QueryLiteral(b, e)[EndDateAt..EndDateAt + 10] == e
  {
  }

  /** The query part of the URL, after the base and `?`. */
  function Query(url: string): string {
    if |url| <= |BaseUrl| then [] else url[|BaseUrl| + 1..]
  }

  /**
   * The URL starts with the base endpoint and `?`, and the `begin_date` and
   * `end_date` values of its query read back, as `MM-DD-YYYY`, to the dates
   * it was built from.
   */
  lemma SearchUrlDates(begin: Date, end: Date)
    requires Valid(begin) && Valid(end)
    ensures SearchUrl(begin, end)[..|BaseUrl| + 1] == BaseUrl + "?"
    ensures |Query(SearchUrl(begin, end))| == EndDateAt + 10 + |QueryTail|
    ensures Parse(Query(SearchUrl(begin, end))[BeginDateAt..BeginDateAt + 10], DateSeparator) == Some(begin)
    ensures Parse(Query(SearchUrl(begin, end))[EndDateAt..EndDateAt + 10], DateSeparator) == Some(end)
  {
    var b, e := Format(begin, DateSeparator), Format(end, DateSeparator);
    QueryLiteralDates(b, e);
    assert Query(SearchUrl(begin, end)) == QueryLiteral(b, e);
    ParseFormat(begin, DateSeparator);
    ParseFormat(end, DateSeparator);
  }

  /** Different date ranges give different URLs. */
  lemma SearchUrlInjective(b1: Date, e1: Date, b2: Date, e2: Date)
    requires Valid(b1) && Valid(e1) && Valid(b2) && Valid(e2)
    requires SearchUrl(b1, e1) == SearchUrl(b2, e2)
    ensures b1 == b2 && e1 == e2
  {
    SearchUrlDates(b1, e1);
    SearchUrlDates(b2, e2);
  }

  /** The dates `set_url()` searches when called without a start date. */
  function DefaultRange(today: Date): (r: (Date, Date))
    requires Valid(today) && Ordinal(today) > DefaultWindowDays
    ensures Valid(r.0) && Valid(r.1)
    ensures Ordinal(r.0) == Ordinal(today) - DefaultWindowDays && r.1 == today
  {
    (DaysBefore(today, DefaultWindowDays), today)
  }
}
