/**
 * The bounds `Site.make_backscrape_iterable` hands to the date-range
 * utility: each caller-supplied `MM/DD/YYYY` string, or its default when it
 * is missing or empty.
 */
module Backscrape {
  import opened Wrappers
  import opened Dates

  /** The court's earliest opinion, the default start of a backscrape. */
  const FirstOpinionDate := Date(1995, 6, 1)
  /** The window length, in days, passed to the date-range utility. */
  const DaysInterval := 15
  const StartKey := "backscrape_start"
  const EndKey := "backscrape_end"
  /** Separator of the `strptime(..., "%m/%d/%Y")` format. */
  const BoundSeparator := '/'

  /** `ValueError` from `strptime`, carrying the string it rejected. */
  datatype BoundError = ValueError(text: string)

  /**
   * The value stored in `back_scrape_iterable`: the arguments of the call
   * `make_date_range_tuples(start, end, intervalDays)`, whose windows this
   * model does not compute.
   */
  datatype DateRanges = DateRanges(start: Date, end: Date, intervalDays: nat)

  /** A supplied option string counts only when present and non-empty (`if start:`). */
  predicate Supplied(kwargs: map<string, string>, key: string) {
    key in kwargs && kwargs[key] != ""
  }

  /** One bound: the parsed option when supplied, else `default`. */
  function ResolveBound(kwargs: map<string, string>, key: string, default: Date): (r: Result<Date, BoundError>)
    ensures !Supplied(kwargs, key) ==> r == Ok(default)
    ensures Supplied(kwargs, key) && r.Ok? ==>
              Valid(r.value) && Format(r.value, BoundSeparator) == kwargs[key]
    ensures Supplied(kwargs, key) && r.Err? ==>
              r.error == ValueError(kwargs[key]) &&
              forall d :: Valid(d) ==> Format(d, BoundSeparator) != kwargs[key]
  {
    if !Supplied(kwargs, key) then Ok(default)
    else
      match Parse(kwargs[key], BoundSeparator)
      case Some(d) =>
        FormatParse(kwargs[key], BoundSeparator);
        Ok(d)
      case None =>
        assert forall d :: Valid(d) ==> Format(d, BoundSeparator) != kwargs[key] by {
          forall d | Valid(d) ensures Format(d, BoundSeparator) != kwargs[key] {
            ParseFormat(d, BoundSeparator);
          }
        }
        Err(ValueError(kwargs[key]))
  }

  /**
   * Both bounds, start first: the start's error is the one raised when both
   * strings are malformed. `now` is the clock reading `datetime.now()`.
   */
  function ResolveBounds(kwargs: map<string, string>, now: Date): (r: Result<(Date, Date), BoundError>)
    ensures r.Ok? <==>
              ResolveBound(kwargs, StartKey, FirstOpinionDate).Ok? && ResolveBound(kwargs, EndKey, now).Ok?
    ensures ResolveBound(kwargs, StartKey, FirstOpinionDate).Err? ==>
              r == Err(ResolveBound(kwargs, StartKey, FirstOpinionDate).error)
    ensures ResolveBound(kwargs, StartKey, FirstOpinionDate).Ok? && ResolveBound(kwargs, EndKey, now).Err? ==>
              r == Err(ResolveBound(kwargs, EndKey, now).error)
    ensures r.Ok? ==>
              r.value == (ResolveBound(kwargs, StartKey, FirstOpinionDate).value, ResolveBound(kwargs, EndKey, now).value)
  {
    match ResolveBound(kwargs, StartKey, FirstOpinionDate)
    case Err(e) => Err(e)
    case Ok(start) =>
      match ResolveBound(kwargs, EndKey, now)
      case Err(e) => Err(e)
      case Ok(end) => Ok((start, end))
  }

  /** With no options the backscrape runs from the first opinion to now. */
  lemma DefaultBounds(kwargs: map<string, string>, now: Date)
    requires StartKey !in kwargs || kwargs[StartKey] == ""
    requires EndKey !in kwargs || kwargs[EndKey] == ""
    ensures ResolveBounds(kwargs, now) == Ok((FirstOpinionDate, now))
  {
  }

  /** Bounds written `MM/DD/YYYY` are read back as the dates they denote. */
  lemma SuppliedBounds(kwargs: map<string, string>, now: Date, start: Date, end: Date)
    requires Valid(start) && Valid(end)
    requires StartKey in kwargs && kwargs[StartKey] == Format(start, BoundSeparator)
    requires EndKey in kwargs && kwargs[EndKey] == Format(end, BoundSeparator)
    ensures ResolveBounds(kwargs, now) == Ok((start, end))
  {
    ParseFormat(start, BoundSeparator);
    ParseFormat(end, BoundSeparator);
  }

  /** The example of a one-month backscrape. */
  lemma JanuaryBounds(kwargs: map<string, string>, now: Date)
    requires kwargs == map[StartKey := "01/01/2020", EndKey := "02/01/2020"]
    ensures ResolveBounds(kwargs, now) == Ok((Date(2020, 1, 1), Date(2020, 2, 1)))
  {
    assert Format(Date(2020, 1, 1), BoundSeparator) == "01/01/2020";
    assert Format(Date(2020, 2, 1), BoundSeparator) == "02/01/2020";
    SuppliedBounds(kwargs, now, Date(2020, 1, 1), Date(2020, 2, 1));
  }
}
