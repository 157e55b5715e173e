/**
 * `Site.extract_from_text`: the citation found on the first line of the
 * first 100 characters of an opinion's text, by a hand-written matcher for
 * the pattern `(?P<volume>20\d{2})\s(?P<reporter>WI)\s(?P<page>\d+)`.
 */
module Citations {
  import opened Wrappers
  import opened Dates

  /** Characters scanned for a citation. */
  const WindowSize := 100
  /** The `type` value attached to every extracted citation. */
  const CitationType := 8
  /** The only key of a non-empty result. */
  const CitationKey := "Citation"

  /** The inner dictionary: the pattern's three named groups plus `type`. */
  datatype Citation = Citation(volume: string, reporter: string, page: string, kind: int)

  /** Raised by `"".splitlines()[0]`. */
  datatype ExtractError = IndexError

  /** The line boundaries of `str.splitlines`. */
  predicate IsLineBoundary(c: char) {
    c == '\n' || c == '\r' || c == '\U{000B}' || c == '\U{000C}' ||
    c == '\U{001C}' || c == '\U{001D}' || c == '\U{001E}' ||
    c == '\U{0085}' || c == '\U{2028}' || c == '\U{2029}'
  }

  /** `\s` in a `str` pattern: the characters of `str.isspace`. */
  predicate IsSpace(c: char) {
    c == ' ' || c == '\t' || c == '\n' || c == '\r' ||
    c == '\U{000B}' || c == '\U{000C}' ||
    ('\U{001C}' <= c <= '\U{001F}') || c == '\U{0085}' || c == '\U{00A0}' ||
    c == '\U{1680}' || ('\U{2000}' <= c <= '\U{200A}') ||
    c == '\U{2028}' || c == '\U{2029}' || c == '\U{202F}' ||
    c == '\U{205F}' || c == '\U{3000}'
  }

  /** Length of the first line of `w`: the prefix before the first line boundary. */
  function LineLength(w: string): (n: nat)
    ensures n <= |w|
    ensures forall k :: 0 <= k < n ==> !IsLineBoundary(w[k])
    ensures n == |w| || IsLineBoundary(w[n])
  {
    if w == [] || IsLineBoundary(w[0]) then 0 else 1 + LineLength(w[1..])
  }

  /**
   * `text[:100].splitlines()[0]`; `None` when the list is empty, which for
   * `splitlines` happens exactly when the slice is empty.
   */
  function FirstLine(text: string): (r: Option<string>)
    ensures r.None? <==> text == []
    ensures r.Some? ==> |r.value| <= WindowSize && r.value <= text
    ensures r.Some? ==> forall k :: 0 <= k < |r.value| ==> !IsLineBoundary(text[k])
    ensures r.Some? ==>
      |r.value| == WindowSize || |r.value| == |text| || IsLineBoundary(text[|r.value|])
  {
    if text == [] then None
    else
      var w := if |text| <= WindowSize then text else text[..WindowSize];
      Some(w[..LineLength(w)])
  }

  /** The pattern matches `s` at `i` (its `\d+` takes at least one digit). */
  predicate MatchesAt(s: string, i: nat) {
    i + 9 <= |s| &&
    s[i] == '2' && s[i + 1] == '0' && IsDigit(s[i + 2]) && IsDigit(s[i + 3]) &&
    IsSpace(s[i + 4]) && s[i + 5] == 'W' && s[i + 6] == 'I' && IsSpace(s[i + 7]) &&
    IsDigit(s[i + 8])
  }

  /** The end of the maximal run of digits in `s` starting at `j` (greedy `\d+`). */
  function DigitRunEnd(s: string, j: nat): (e: nat)
    requires j <= |s|
    ensures j <= e <= |s|
    ensures forall k :: j <= k < e ==> IsDigit(s[k])
    ensures e == |s| || !IsDigit(s[e])
    decreases |s| - j
  {
    if j == |s| || !IsDigit(s[j]) then j else DigitRunEnd(s, j + 1)
  }

  /** The leftmost position at or after `i` where the pattern matches. */
  function SearchFrom(s: string, i: nat): (r: Option<nat>)
    ensures r.Some? ==> i <= r.value && MatchesAt(s, r.value)
    ensures r.Some? ==> forall k :: i <= k < r.value ==> !MatchesAt(s, k)
    ensures r.None? ==> forall k :: i <= k ==> !MatchesAt(s, k)
    decreases |s| - i
  {
    if i + 9 > |s| then None
    else if MatchesAt(s, i) then Some(i)
    else SearchFrom(s, i + 1)
  }

  /** A match object: the span `[start, end)` of the whole match. */
  datatype Match = Match(start: nat, end: nat)

  /** `re.search(pattern, s)`. */
  function Search(s: string): (r: Option<Match>)
    ensures r.None? <==> forall k :: !MatchesAt(s, k)
    ensures r.Some? ==> MatchesAt(s, r.value.start)
    ensures r.Some? ==> forall k :: 0 <= k < r.value.start ==> !MatchesAt(s, k)
    ensures r.Some? ==> r.value.start + 9 <= r.value.end <= |s|
    ensures r.Some? ==> forall k :: r.value.start + 8 <= k < r.value.end ==> IsDigit(s[k])
    ensures r.Some? ==> r.value.end == |s| || !IsDigit(s[r.value.end])
    ensures r.Some? ==> IsMatch(s, r.value)
  {
    match SearchFrom(s, 0)
    case None => None
    case Some(i) => Some(Match(i, DigitRunEnd(s, i + 8)))
  }

  /** Each field of a reported citation has the shape its group admits. */
  predicate WellFormed(c: Citation) {
    |c.volume| == 4 && c.volume[0] == '2' && c.volume[1] == '0' &&
    IsDigit(c.volume[2]) && IsDigit(c.volume[3]) &&
    c.reporter == "WI" &&
    |c.page| >= 1 && (forall k :: 0 <= k < |c.page| ==> IsDigit(c.page[k])) &&
    c.kind == CitationType
  }

  /** `m` spans a whole match of the pattern in `s`, page digits included. */
  predicate IsMatch(s: string, m: Match) {
    && m.start + 9 <= m.end <= |s|
    && MatchesAt(s, m.start)
    && forall k :: m.start + 8 <= k < m.end ==> IsDigit(s[k])
  }

  /**
   * `{**match.groupdict(), "type": 8}`: well-formed groups which, with the
   * two whitespace characters between them, make up the matched text.
   */
  function GroupDict(s: string, m: Match): (c: Citation)
    requires IsMatch(s, m)
    ensures WellFormed(c)
    ensures c.volume + [s[m.start + 4]] + c.reporter + [s[m.start + 7]] + c.page == s[m.start..m.end]
  {
    var c := Citation(s[m.start..m.start + 4], s[m.start + 5..m.start + 7], s[m.start + 8..m.end], CitationType);
    assert c.reporter == [s[m.start + 5], s[m.start + 6]];
    assert c.volume + [s[m.start + 4]] + c.reporter + [s[m.start + 7]] + c.page == s[m.start..m.end];
    c
  }

  /** `Site.extract_from_text(text)`. */
  function ExtractFromText(text: string): (r: Result<map<string, Citation>, ExtractError>)
    ensures r.Err? <==> text == []
    ensures r.Ok? ==>
              r.value == map[] || (r.value.Keys == {CitationKey} && WellFormed(r.value[CitationKey]))
  {
    if text == [] then Err(IndexError)
    else
      var line := FirstLine(text).value;
      var m := Search(line);
      if m.None? then Ok(map[])
      else
        Ok(map[CitationKey := GroupDict(line, m.value)])
  }

  // ---- What the extractor promises about its input ----

  /** The first line is the only string with the properties `FirstLine` ensures. */
  lemma FirstLineUnique(text: string, l: string)
    requires text != [] && |l| <= WindowSize && l <= text
    requires forall k :: 0 <= k < |l| ==> !IsLineBoundary(text[k])
    requires |l| == WindowSize || |l| == |text| || IsLineBoundary(text[|l|])
    ensures FirstLine(text) == Some(l)
  {
    var f := FirstLine(text).value;
    assert |l| == |f|;
    assert f == text[..|f|] && l == text[..|l|];
  }

  /**
   * The pattern matched `text` at `p` and its page ran to `q`, wholly inside
   * the first line of the first 100 characters, and `c` holds the groups.
   */
  predicate LocatedAt(text: string, c: Citation, p: nat, q: nat) {
    && p + 9 <= q <= |text| && q <= WindowSize
    && (forall k :: 0 <= k < q ==> !IsLineBoundary(text[k]))
    && MatchesAt(text, p)
    && c.volume == text[p..p + 4] && c.reporter == text[p + 5..p + 7]
    && c.page == text[p + 8..q]
  }

  /**
   * A reported citation lies wholly inside the first line of the first 100
   * characters, starts at the leftmost match of the pattern in the text, and
   * its page is the longest run of digits the window allows.
   */
  lemma CitationLocated(text: string, c: Citation)
    requires ExtractFromText(text) == Ok(map[CitationKey := c])
    ensures exists p: nat, q: nat ::
      && LocatedAt(text, c, p, q)
      && (forall k: nat :: k < p ==> !MatchesAt(text, k))
      && (q == WindowSize || q == |text| || !IsDigit(text[q]))
  {
    var m := CitationFromSearch(text, c);
    SearchInFirstLine(text, FirstLine(text).value, m, c);
  }

  /** The search of the first line, read back in the whole text. */
  lemma SearchInFirstLine(text: string, line: string, m: Match, c: Citation)
    requires FirstLine(text) == Some(line)
    requires Search(line) == Some(m) && m.start + 9 <= m.end <= |line|
    requires c == GroupDict(line, m)
    ensures LocatedAt(text, c, m.start, m.end)
    ensures forall k: nat :: k < m.start ==> !MatchesAt(text, k)
    ensures m.end == WindowSize || m.end == |text| || !IsDigit(text[m.end])
  {
    var p, q := m.start, m.end;
    forall k: nat | k < p
      ensures !MatchesAt(text, k)
    {
      MatchesInPrefix(line, text, k);
    }
    MatchesInPrefix(line, text, p);
    SliceOfPrefix(line, text, p, p + 4);
    SliceOfPrefix(line, text, p + 5, p + 7);
    SliceOfPrefix(line, text, p + 8, q);
    if q < |line| {
      assert text[q] == line[q];
    }
  }

  /** The citation in a non-empty result holds the groups of the first line's search. */
  lemma CitationFromSearch(text: string, c: Citation) returns (m: Match)
    requires ExtractFromText(text) == Ok(map[CitationKey := c])
    ensures text != [] && Search(FirstLine(text).value) == Some(m)
    ensures m.start + 9 <= m.end <= |FirstLine(text).value|
    ensures c == GroupDict(FirstLine(text).value, m)
  {
    assert ExtractFromText(text).value[CitationKey] == c;
    m := Search(FirstLine(text).value).value;
  }

  /** A slice inside a prefix of `s` is the same slice of `s`. */
  lemma SliceOfPrefix(prefix: string, s: string, i: nat, j: nat)
    requires prefix <= s && i <= j <= |prefix|
    ensures prefix[i..j] == s[i..j]
  {
  }

  /** A match that fits in a prefix of `s` is a match in `s`, and conversely. */
  lemma MatchesInPrefix(prefix: string, s: string, k: nat)
    requires prefix <= s && k + 9 <= |prefix|
    ensures MatchesAt(s, k) == MatchesAt(prefix, k)
  {
  }

  /**
   * The result is empty exactly when no match of the pattern fits in the
   * first line of the first 100 characters.
   */
  lemma NoCitation(text: string)
    requires text != []
    ensures ExtractFromText(text) == Ok(map[]) <==>
              forall p: nat :: p + 9 <= |FirstLine(text).value| ==> !MatchesAt(text, p)
  {
    var line := FirstLine(text).value;
    forall p: nat | p + 9 <= |line|
      ensures MatchesAt(text, p) == MatchesAt(line, p)
    {
      MatchesInPrefix(line, text, p);
    }
    if Search(line).Some? {
      var p := Search(line).value.start;
      assert CitationKey in ExtractFromText(text).value;
      assert MatchesAt(text, p);
    }
  }

  /** Text after the first line boundary is never looked at. */
  lemma OnlyFirstLineMatters(head: string, b: char, rest: string)
    requires IsLineBoundary(b)
    ensures ExtractFromText(head + [b] + rest) == ExtractFromText(head + [b])
  {
    var t1, t2 := head + [b] + rest, head + [b];
    var l := FirstLine(t2).value;
    assert t1[..|t2|] == t2;
    assert t2[|head|] == b;
    assert |l| < |t2|;
    assert |l| == WindowSize || IsLineBoundary(t1[|l|]) by {
      assert |l| == WindowSize || IsLineBoundary(t2[|l|]);
    }
    FirstLineUnique(t1, l);
  }

  /** Text from character 100 on is never looked at. */
  lemma OnlyWindowMatters(text: string)
    requires |text| > WindowSize
    ensures ExtractFromText(text) == ExtractFromText(text[..WindowSize])
  {
  }

  /** A text that starts with a line boundary has an empty first line. */
  lemma EmptyFirstLine(text: string)
    requires text != [] && IsLineBoundary(text[0])
    ensures ExtractFromText(text) == Ok(map[])
  {
  }

  /** A citation at the start of the text is found whole. */
  lemma ExtractsLeadingCitation(text: string, c: Citation)
    requires text == "2021 WI 45 Lorem ipsum..."
    requires c == Citation("2021", "WI", "45", 8)
    ensures ExtractFromText(text) == Ok(map[CitationKey := c])
  {
    LeadingCitationSearch(text);
    LeadingCitationGroups(text, c);
    LeadingCitationLine(text);
  }

  lemma LeadingCitationLine(text: string)
    requires text == "2021 WI 45 Lorem ipsum..."
    ensures FirstLine(text) == Some(text)
  {
    FirstLineUnique(text, text);
  }

  lemma LeadingCitationGroups(text: string, c: Citation)
    requires text == "2021 WI 45 Lorem ipsum..."
    requires c == Citation("2021", "WI", "45", 8)
    requires Search(text) == Some(Match(0, 10))
    ensures GroupDict(text, Match(0, 10)) == c
  {
    assert text[0..4] == "2021" && text[5..7] == "WI" && text[8..10] == "45";
  }

  lemma LeadingCitationSearch(text: string)
    requires text == "2021 WI 45 Lorem ipsum..."
    ensures Search(text) == Some(Match(0, 10))
  {
    assert MatchesAt(text, 0);
    assert SearchFrom(text, 0) == Some(0);
    assert DigitRunEnd(text, 10) == 10;
  }

  /** Text without the pattern yields the empty result. */
  lemma NothingWithoutPattern(text: string)
    requires text == "no citation here"
    ensures ExtractFromText(text) == Ok(map[])
  {
    assert forall k :: 0 <= k < |text| ==> text[k] != '2';
    assert Search(text) == None;
    assert FirstLine(text) == Some(text) by {
      FirstLineUnique(text, text);
    }
  }

  /**
   * A page whose digits run past character 100 is reported cut at the
   * window: only `"1"` of `"12345"` is seen here.
   */
  lemma PageCutAtWindow(pad: string)
    requires |pad| == 91 && forall k :: 0 <= k < |pad| ==> pad[k] == 'x'
    ensures ExtractFromText(pad + "2021 WI 12345") ==
              Ok(map[CitationKey := Citation("2021", "WI", "1", 8)])
  {
    var text := pad + "2021 WI 12345";
    var w := text[..WindowSize];
    FirstLineUnique(text, w);
    forall k | 0 <= k < 91 ensures !MatchesAt(w, k) {
      assert w[k] == 'x';
    }
    assert MatchesAt(w, 91);
    assert SearchFrom(w, 0) == Some(91);
    assert DigitRunEnd(w, 99) == 100;
    assert w[91..95] == "2021" && w[96..98] == "WI" && w[99..100] == "1";
  }
}
