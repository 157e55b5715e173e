# Wisconsin Supreme Court opinion scraper, modelled in Dafny

This project models the site adapter `juriscraper/opinions/united_states/state/wis.py`.
The adapter is the scraper for the Supreme Court of Wisconsin. It has four pieces of logic:

- **Citation extraction** (`extract_from_text`): looks at the first line of the first 100
  characters of an opinion's text. It searches that line for `20dd <ws> WI <ws> <digits>` and
  returns `{"Citation": {volume, reporter, page, type: 8}}`, or `{}` when nothing matches.
  Module `Citations` models it as pure functions. The regular expression is a hand-written matcher:
  `MatchesAt` says where the pattern matches, `SearchFrom`/`Search` find the leftmost match, and
  `DigitRunEnd` takes the greedy page digits. The lemmas cover the result's shape, where a
  citation can sit, leftmost-first search and the error on empty text.
- **Search URL** (`set_url`): formats both dates as `MM-DD-YYYY`. It appends five query
  parameters to the base endpoint in insertion order. Module `Dates` models `strftime`/`strptime`
  on calendar dates, together with `date.toordinal()` and day subtraction. Module `Urls` models
  `urlencode` and the URL. `Wisconsin.Site.SetUrl` overwrites the `url` field.
- **Listing rows** (`_process_html`): every table row must unpack into four cells. Each row
  appends one record to `cases`. Module `Listing` gives the specification `ProcessRows`.
  `Wisconsin.Site.ProcessHtml` is the loop that appends in place.
- **Backscrape bounds** (`make_backscrape_iterable`): a supplied `MM/DD/YYYY` bound is parsed. A
  missing or empty one becomes its default: 1995-06-01 for the start, "now" for the end. Module
  `Backscrape` resolves the bounds. `Wisconsin.Site.MakeBackscrapeIterable` stores the request.

Three behaviours of the code that the model keeps:

- `set_url` has an error path. A start without an end raises `AttributeError`, because `None` has
  no `strftime`. With no start, a given end is ignored and replaced by today.
- A row with the wrong shape aborts `_process_html`. The records appended for the rows before it
  stay in `cases`.
- The window cuts the page digits, not the match. A citation whose page begins before character
  100 is still found, with its page truncated at character 100 (`Citations.PageCutAtWindow`).

## Model

| member | source | states |
|---|---|---|
| `Citations.LineLength` | juriscraper/opinions/united_states/state/wis.py:75 | the first line stops at the first `splitlines` boundary (or the end) and contains none |
| `Citations.FirstLine` | juriscraper/opinions/united_states/state/wis.py:75 | `text[:100].splitlines()[0]` fails exactly on empty text; otherwise it is a boundary-free prefix of at most 100 characters that ends at character 100, the end of the text or a line boundary |
| `Citations.FirstLineUnique` | juriscraper/opinions/united_states/state/wis.py:75 | those properties determine the first line uniquely |
| `Citations.DigitRunEnd` | juriscraper/opinions/united_states/state/wis.py:21 | `\d+` is greedy: the run is all digits and is followed by a non-digit or the end |
| `Citations.SearchFrom` | juriscraper/opinions/united_states/state/wis.py:76 | the result is a match position with no match before it, and `None` means there is no match from `i` on |
| `Citations.Search` | juriscraper/opinions/united_states/state/wis.py:21-22 | `re.search` finds nothing iff the pattern matches nowhere; otherwise its match is leftmost and its page is the maximal digit run |
| `Citations.GroupDict` | juriscraper/opinions/united_states/state/wis.py:79 | `{**match.groupdict(), "type": 8}` of a match: the volume is `20` plus two digits, the reporter is `WI`, the page is a non-empty digit run, the type is 8, and the three groups with the two whitespace characters between them make up the matched text |
| `Citations.ExtractFromText` | juriscraper/opinions/united_states/state/wis.py:69-80 | raises iff the text is empty; otherwise it returns `{}` or exactly one `"Citation"` key with well-formed fields and `type == 8` |
| `Citations.CitationLocated` | juriscraper/opinions/united_states/state/wis.py:75-80 | a reported citation lies in the text before character 100 with no line boundary before its end, at the leftmost match, with its groups taken from those characters and its page as long as the window allows |
| `Citations.SearchInFirstLine` | juriscraper/opinions/united_states/state/wis.py:75-76 | a match in the first line is the same match, at the same leftmost place, in the whole text |
| `Citations.NoCitation` | juriscraper/opinions/united_states/state/wis.py:76-80 | the result is `{}` iff no match fits inside the first line of the window |
| `Citations.OnlyFirstLineMatters` | juriscraper/opinions/united_states/state/wis.py:75 | text after the first line boundary does not change the result |
| `Citations.OnlyWindowMatters` | juriscraper/opinions/united_states/state/wis.py:75 | text from character 100 on does not change the result |
| `Citations.EmptyFirstLine` | juriscraper/opinions/united_states/state/wis.py:75 | a text that starts with a line boundary yields `{}` |
| `Citations.ExtractsLeadingCitation` | juriscraper/opinions/united_states/state/wis.py:69-80 | `"2021 WI 45 Lorem ipsum..."` yields volume `2021`, reporter `WI`, page `45`, type 8 |
| `Citations.NothingWithoutPattern` | juriscraper/opinions/united_states/state/wis.py:76-80 | `"no citation here"` yields `{}` |
| `Citations.PageCutAtWindow` | juriscraper/opinions/united_states/state/wis.py:75-76 | a page whose digits cross character 100 is reported cut at the window |
| `Dates.PrevDay` | juriscraper/opinions/united_states/state/wis.py:35 | the previous day is a valid date whose ordinal is one less |
| `Dates.DaysBefore` | juriscraper/opinions/united_states/state/wis.py:35 | `d - timedelta(days=n)` is valid and its ordinal is `n` less |
| `Dates.Format` | juriscraper/opinions/united_states/state/wis.py:38-39 | `strftime("%m-%d-%Y")` gives 10 characters: digits, with the separator at positions 2 and 5; the first field is the month, the second the day and the third the four-digit year |
| `Dates.Parse` | juriscraper/opinions/united_states/state/wis.py:96-100 | a parsed date is a valid calendar date |
| `Dates.ParseFormat` | juriscraper/opinions/united_states/state/wis.py:38-39 | parsing a formatted valid date returns the date |
| `Dates.FormatParse` | juriscraper/opinions/united_states/state/wis.py:96-100 | a string that parses is exactly the formatting of the date it denotes |
| `Dates.FormatInjective` | juriscraper/opinions/united_states/state/wis.py:38-39 | distinct dates format differently |
| `Urls.UrlEncode` | juriscraper/opinions/united_states/state/wis.py:48 | the encoded query is empty iff there are no parameters |
| `Urls.SearchParams` | juriscraper/opinions/united_states/state/wis.py:41-47 | five parameters, all made of characters `urlencode` leaves unchanged |
| `Urls.EncodeSearchParams` | juriscraper/opinions/united_states/state/wis.py:41-48 | `urlencode` of the five parameters is `range=None&begin_date=`, the begin date, `&end_date=`, the end date and `&sortBy=date&Submit=Search` |
| `Urls.SearchUrl` | juriscraper/opinions/united_states/state/wis.py:48 | the URL is the base endpoint, `?`, and that query spelled out |
| `Urls.SearchUrlDates` | juriscraper/opinions/united_states/state/wis.py:38-48 | the URL starts with the base and `?`; its `begin_date` and `end_date` values parse back to the two dates |
| `Urls.SearchUrlInjective` | juriscraper/opinions/united_states/state/wis.py:38-48 | different date ranges give different URLs |
| `Urls.DefaultRange` | juriscraper/opinions/united_states/state/wis.py:34-36 | with no start the range runs from 15 days before today to today |
| `Listing.ProcessRows` | juriscraper/opinions/united_states/state/wis.py:55-67 | one record per row, in row order, each built from its own row; processing stops at the first row that raises, and that row is the one reported |
| `Listing.OutcomeUnique` | juriscraper/opinions/united_states/state/wis.py:55-67 | those properties determine the outcome uniquely |
| `Listing.RowRecord` | juriscraper/opinions/united_states/state/wis.py:56-66 | a row yields a record iff it has four cells and an `input` in the link cell; any other cell count raises the unpacking error; four cells whose link cell has no `input` raise `IndexError` (`MissingInput`); the record's date, docket, name and url come from cells 0, 1, 2 and 3 |
| `Listing.AllRowsWellFormed` | juriscraper/opinions/united_states/state/wis.py:55-67 | well-formed rows yield exactly as many records as rows and no failure |
| `Listing.FirstBadRow` | juriscraper/opinions/united_states/state/wis.py:55-67 | the first malformed row is the failure reported, and the rows before it keep their records |
| `Backscrape.ResolveBound` | juriscraper/opinions/united_states/state/wis.py:92-102 | a missing or empty option gives the default; a supplied one gives the valid date that formats back to it, or `ValueError` when no date formats to it |
| `Backscrape.ResolveBounds` | juriscraper/opinions/united_states/state/wis.py:92-102 | succeeds iff both bounds resolve, and then gives the resolved start and the resolved end; a bad start is the error raised, and with a good start a bad end's `ValueError` is raised |
| `Backscrape.DefaultBounds` | juriscraper/opinions/united_states/state/wis.py:95-102 | with no options the bounds are 1995-06-01 and now |
| `Backscrape.SuppliedBounds` | juriscraper/opinions/united_states/state/wis.py:95-100 | options written `MM/DD/YYYY` resolve to the dates they denote |
| `Backscrape.JanuaryBounds` | juriscraper/opinions/united_states/state/wis.py:92-100 | `01/01/2020` and `02/01/2020` resolve to 2020-01-01 and 2020-02-01 |
| `Wisconsin.Site.SetUrl` | juriscraper/opinions/united_states/state/wis.py:25-48 | sets `url` to the search URL of the given range, or of the last 15 days when there is no start; with a start and no end it fails and `url` is unchanged; no other field changes |
| `Wisconsin.Site.ProcessHtml` | juriscraper/opinions/united_states/state/wis.py:50-67 | `cases` becomes its old value plus the records of `ProcessRows`, and the failure returned is that of `ProcessRows`; no other field changes |
| `Wisconsin.Site.MakeBackscrapeIterable` | juriscraper/opinions/united_states/state/wis.py:82-106 | stores the range from the resolved start to the resolved end with a 15-day interval, or returns the `ValueError` and stores nothing |

## Left out

- `_download` and `_download_backwards` (wis.py:108-116): network I/O through the base class.
  Downloading is not part of this model.
- `make_date_range_tuples` is an external utility. `backScrapeIterable` holds the arguments of
  that call (`DateRanges(start, end, 15)`), not the windows it would compute.
- HTML and XPath parsing: rows arrive as sequences of cells, and each cell has its text and its
  `input` children.
- `urljoin` is a function parameter (`Joiner`) of `Wisconsin.Site.ProcessHtml`.
- `Urls.UrlEncode`: percent-encoding is not modelled. It is defined only for keys and values of
  unreserved characters, which is all that `set_url` passes.
- Clocks: `today` and `now` are parameters. `set_url` reads the clock twice, and the model uses
  one reading for both. Times of day are dropped, so `now`, the `datetime` values of `strptime`
  and the start of the default window are dates.
- `Wisconsin.Site.SetUrl` requires today to be at least 0001-01-16. An earlier clock would make
  `datetime` raise `OverflowError`, and that path is not modelled.
- `Dates.Parse` accepts only zero-padded `MM/DD/YYYY` (or `MM-DD-YYYY`) written in ASCII
  digits. `strptime` also accepts one-digit months and days, a space-padded day such as `" 1"`,
  and non-ASCII decimal digits in its `%m`, `%d` and `%Y` fields, such as a full-width year.
  None of these are modelled.
- `Dates.Format` pads `%Y` to four digits, as Python documents. Some platforms do not pad years
  below 1000.
- `\d` matches ASCII digits only. Python also matches other Unicode decimal digits. `\s` is the
  full `str.isspace` set. Python strings can hold lone surrogates, which Dafny characters cannot.
- Backscrape options are a `map<string, string>`. An option passed as `None` or as a non-string
  is not modelled; a missing key is.
- `__init__` wiring, `court_id`, `status` and the `base_url`/`cite_regex` attributes are
  constants here. `Wisconsin.Site.constructor` gives the base scraper's empty starting state
  rather than running `set_url` and `make_backscrape_iterable`.
