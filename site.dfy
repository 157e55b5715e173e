/**
 * The scraper object for the Supreme Court of Wisconsin: the fields the
 * source overwrites or appends to (`url`, `cases`, `back_scrape_iterable`)
 * and the three methods that change them.
 */
module Wisconsin {
  import opened Wrappers
  import opened Dates
  import opened Urls
  import opened Listing
  import opened Backscrape

  /** `AttributeError` from `end.strftime` when a start is given without an end. */
  datatype UrlError = MissingEndDate

  class Site {
    /** The search URL the next download fetches. */
    var url: string
    /** Records of the listing rows processed so far. */
    var cases: seq<CaseRecord>
    /** The date-range request of the backscrape, once made. */
    var backScrapeIterable: Option<DateRanges>

    /** The state the base scraper starts from: no URL, no cases, no backscrape plan. */
    constructor ()
      ensures url == [] && cases == [] && backScrapeIterable == None
    {
      url := [];
      cases := [];
      backScrapeIterable := None;
    }

    /**
     * `set_url(start, end)`. Without a start the last 15 days up to `today`
     * are searched and a given end is ignored; with a start but no end the
     * source raises and the URL stays as it was.
     */
    method SetUrl(start: Option<Date>, end: Option<Date>, today: Date) returns (err: Option<UrlError>)
      requires start.Some? ==> Valid(start.value)
      requires end.Some? ==> Valid(end.value)
      requires start.None? ==> Valid(today) && Ordinal(today) > DefaultWindowDays
      modifies this`url
      ensures start.None? ==>
                err == None && url == SearchUrl(DefaultRange(today).0, DefaultRange(today).1)
      ensures start.Some? && end.Some? ==> err == None && url == SearchUrl(start.value, end.value)
      ensures start.Some? && end.None? ==> err == Some(MissingEndDate) && url == old(url)
    {
      var begin: Date, finish: Date;
      if start.None? {
        begin := DaysBefore(today, DefaultWindowDays);
        finish := today;
      } else if end.None? {
        return Some(MissingEndDate);
      } else {
        begin, finish := start.value, end.value;
      }
      url := SearchUrl(begin, finish);
      err := None;
    }

    /**
     * `_process_html` over the table's rows, in document order: one record
     * appended per row until a row raises, and the records of the rows
     * before it kept.
     */
    method ProcessHtml(rows: seq<Row>, join: Joiner) returns (failure: Option<RowFailure>)
      modifies this`cases
      ensures cases == old(cases) + ProcessRows(rows, join).records
      ensures failure == ProcessRows(rows, join).failure
    {
      var i := 0;
      while i < |rows|
        invariant 0 <= i <= |rows|
        invariant cases == old(cases) + ProcessRows(rows[..i], join).records
        invariant ProcessRows(rows[..i], join).failure == None
      {
        match RowRecord(rows[i], join)
        case Err(e) =>
          failure := Some(RowFailure(i, e));
          OutcomeUnique(rows, join, Outcome(ProcessRows(rows[..i], join).records, failure));
          return;
        case Ok(rec) =>
          assert rows[..i + 1][..i] == rows[..i];
          cases := cases + [rec];
          i := i + 1;
      }
      assert rows[..i] == rows;
      failure := None;
    }

    /**
     * `make_backscrape_iterable(kwargs)`: the range from the resolved start
     * to the resolved end in windows of 15 days, or the `ValueError` of a
     * malformed bound, in which case nothing is stored.
     */
    method MakeBackscrapeIterable(kwargs: map<string, string>, now: Date) returns (err: Option<BoundError>)
      modifies this`backScrapeIterable
      ensures ResolveBounds(kwargs, now).Ok? ==>
                var (start, end) := ResolveBounds(kwargs, now).value;
                err == None && backScrapeIterable == Some(DateRanges(start, end, DaysInterval))
      ensures ResolveBounds(kwargs, now).Err? ==>
                err == Some(ResolveBounds(kwargs, now).error) &&
                backScrapeIterable == old(backScrapeIterable)
    {
      var start := ResolveBound(kwargs, StartKey, FirstOpinionDate);
      if start.Err? {
        return Some(start.error);
      }
      var end := ResolveBound(kwargs, EndKey, now);
      if end.Err? {
        return Some(end.error);
      }
      backScrapeIterable := Some(DateRanges(start.value, end.value, DaysInterval));
      err := None;
    }
  }
}
