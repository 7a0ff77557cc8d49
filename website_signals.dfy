/** What `SuccessionSignal.scrape_website_data` derives from one fetched
    page: the URL it fetches, the plausible copyright years and the latest
    of them, the blog and careers links, the "last updated" date found by
    an ordered list of patterns, and the record it returns when the fetch
    or the parse fails. The HTTP request, the HTML parser and the regular
    expression scans are outside the model: what they deliver is the
    `Page` record below. */
module WebsiteSignals {
  import opened Wrappers
  import opened Text
  import opened Dates

  /** The dictionary `scrape_website_data` returns. `error` is present
      only in the record of a failed fetch. */
  datatype Signals = Signals(
    accessible: bool,
    error: Option<string>,
    title: string,
    copyrightYears: seq<int>,
    latestCopyright: Option<int>,
    hasBlog: bool,
    hasCareers: bool,
    lastUpdated: Option<Date>,
    textLength: nat)

  /** What the fetch, the HTML parser and the regular expression scans
      deliver for one page. */
  datatype Page = Page(
    titleText: Option<string>,          // text of the first title element, if the page has one
    visibleText: string,                // the page's visible text, before lower-casing
    linkTargets: seq<string>,           // the href of every a and link element, in document order
    copyrightWordYears: seq<int>,       // the years found after the word "copyright", in order
    copyrightSignYears: seq<int>,       // the years found after the sign "©", in order
    dateCandidates: seq<seq<string>>)   // per date pattern, in pattern order, the dates it matches

  /** The outcome of the fetch and the parse: a page, or the text of the
      exception raised on the way. */
  datatype FetchOutcome = Fetched(page: Page) | Failed(reason: string)

  // ---------------------------------------------------------------------
  // URL normalisation
  // ---------------------------------------------------------------------

  predicate HasScheme(url: string) {
    StartsWith(url, "http://") || StartsWith(url, "https://")
  }

  /** Prepends `https://` to a URL that has no explicit scheme. */
  function NormalizeUrl(url: string): (r: string)
    ensures HasScheme(r)
    ensures HasScheme(url) ==> r == url
    ensures !HasScheme(url) ==> r == "https://" + url
  {
    if HasScheme(url) then url else "https://" + url
  }

  /** Normalising a normalised URL changes nothing. */
  lemma NormalizeUrlIdempotent(url: string)
    ensures NormalizeUrl(NormalizeUrl(url)) == NormalizeUrl(url)
  {
  }

  // ---------------------------------------------------------------------
  // Copyright years
  // ---------------------------------------------------------------------

  const FirstPlausibleYear := 1990
  const LastPlausibleYear := 2024

  predicate PlausibleYear(year: int) {
    FirstPlausibleYear <= year <= LastPlausibleYear
  }

  /** The candidate years inside the fixed window, in their original order. */
  function PlausibleYears(candidates: seq<int>): (r: seq<int>)
    ensures |r| <= |candidates|
    ensures forall y :: y in r <==> y in candidates && PlausibleYear(y)
    ensures forall y :: multiset(r)[y] == if PlausibleYear(y) then multiset(candidates)[y] else 0
  {
    if candidates == [] then []
    else
      assert candidates == [candidates[0]] + candidates[1..];
      (if PlausibleYear(candidates[0]) then [candidates[0]] else []) + PlausibleYears(candidates[1..])
  }

  /** Filtering distributes over concatenation, so the kept years keep
      their relative order. */
  lemma {:induction false} PlausibleYearsAppend(a: seq<int>, b: seq<int>)
    ensures PlausibleYears(a + b) == PlausibleYears(a) + PlausibleYears(b)
  {
    if a == [] {
      assert a + b == b;
    } else {
      assert (a + b)[1..] == a[1..] + b;
      PlausibleYearsAppend(a[1..], b);
    }
  }

  /** `max(years)`. */
  function MaxYear(years: seq<int>): (m: int)
    requires years != []
    ensures m in years
    ensures forall y :: y in years ==> y <= m
  {
    if |years| == 1 then years[0]
    else
      var rest := MaxYear(years[1..]);
      assert years == [years[0]] + years[1..];
      if years[0] >= rest then years[0] else rest
  }

  /** `max(years) if years else None`. */
  function LatestYear(years: seq<int>): (r: Option<int>)
    ensures r.None? <==> years == []
    ensures r.Some? ==> r.value in years && forall y :: y in years ==> y <= r.value
  {
    if years == [] then None else Some(MaxYear(years))
  }

  /** The latest copyright year is the largest plausible candidate, and a
      candidate outside the window never becomes it. */
  lemma LatestPlausibleYear(candidates: seq<int>)
    ensures LatestYear(PlausibleYears(candidates)).Some? ==>
      var y := LatestYear(PlausibleYears(candidates)).value;
      PlausibleYear(y) && y in candidates
      && forall c :: c in candidates && PlausibleYear(c) ==> c <= y
    ensures LatestYear(PlausibleYears(candidates)).None? <==>
      forall c :: c in candidates ==> !PlausibleYear(c)
  {
  }

  /** "© 1899" and "© 2099" are ignored: with them beside 2019 the latest
      copyright year is 2019, and without it there is none. */
  lemma OutOfWindowYearsIgnored()
    ensures LatestYear(PlausibleYears([1899, 2019, 2099])) == Some(2019)
    ensures LatestYear(PlausibleYears([1899, 2099])) == None
  {
    assert 2019 in PlausibleYears([1899, 2019, 2099]);
  }

  // ---------------------------------------------------------------------
  // Blog and careers links
  // ---------------------------------------------------------------------

  const BlogKeywords: seq<string> := ["blog", "news"]
  const CareersKeywords: seq<string> := ["career", "job", "hiring"]

  /** One link target, lower-cased, contains one of the keywords: the
      `re.I` search of an alternation of plain words. */
  function LinkMatches(target: string, keywords: seq<string>): (r: bool)
    ensures r <==> exists k :: 0 <= k < |keywords| && Contains(Lower(target), keywords[k])
  {
    if keywords == [] then false
    else Contains(Lower(target), keywords[0]) || LinkMatches(target, keywords[1..])
  }

  /** `bool(soup.find(['a', 'link'], href=...))`: some link target matches. */
  function AnyLinkMatches(targets: seq<string>, keywords: seq<string>): (r: bool)
    ensures r <==> exists i, k :: 0 <= i < |targets| && 0 <= k < |keywords| &&
                                  Contains(Lower(targets[i]), keywords[k])
  {
    if targets == [] then false
    else
      var rest := AnyLinkMatches(targets[1..], keywords);
      assert forall i :: 1 <= i < |targets| ==> targets[i] == targets[1..][i - 1];
      LinkMatches(targets[0], keywords) || rest
  }

  /** The keyword test ignores case: a link to "/News/2020" is a blog link. */
  lemma BlogLinkIgnoresCase()
    ensures AnyLinkMatches(["/News/2020"], BlogKeywords)
  {
    var t := Lower("/News/2020");
    assert t[1] == 'n' && t[2] == 'e' && t[3] == 'w' && t[4] == 's';
    assert OccursAt(t, "news", 1);
    ContainsAt(t, "news", 1);
    var targets := ["/News/2020"];
    assert Contains(Lower(targets[0]), BlogKeywords[1]);
  }

  // ---------------------------------------------------------------------
  // Last-updated date: ordered first-success fallback
  // ---------------------------------------------------------------------

  /** Pattern `i` yields a date: it matched, and its first match parses. */
  predicate YieldsDate(candidates: seq<seq<string>>, i: int)
    requires 0 <= i < |candidates|
  {
    candidates[i] != [] && ParseDate(candidates[i][0]).Some?
  }

  /** The date of the first pattern that yields one, if any does. */
  function FirstParsedDate(candidates: seq<seq<string>>): Option<Date>
  {
    if candidates == [] then None
    else if YieldsDate(candidates, 0) then ParseDate(candidates[0][0])
    else FirstParsedDate(candidates[1..])
  }

  /** The fallback finds a date exactly when some pattern yields one, and
      then it is the first match of the earliest such pattern; a pattern
      that matched but whose first match does not parse is passed over. */
  lemma {:induction false} FirstParsedDateSpec(candidates: seq<seq<string>>)
    ensures FirstParsedDate(candidates).None? <==>
      forall i :: 0 <= i < |candidates| ==> !YieldsDate(candidates, i)
    ensures FirstParsedDate(candidates).Some? ==>
      exists i :: 0 <= i < |candidates| && YieldsDate(candidates, i)
        && FirstParsedDate(candidates) == ParseDate(candidates[i][0])
        && forall j :: 0 <= j < i ==> !YieldsDate(candidates, j)
  {
    if candidates != [] && !YieldsDate(candidates, 0) {
      var rest := candidates[1..];
      FirstParsedDateSpec(rest);
      forall i | 1 <= i < |candidates| ensures YieldsDate(candidates, i) == YieldsDate(rest, i - 1) {
        assert candidates[i] == rest[i - 1];
      }
      if FirstParsedDate(rest).Some? {
        var i :| 0 <= i < |rest| && YieldsDate(rest, i)
          && FirstParsedDate(rest) == ParseDate(rest[i][0])
          && forall j :: 0 <= j < i ==> !YieldsDate(rest, j);
        assert YieldsDate(candidates, i + 1) && candidates[i + 1] == rest[i];
      } else {
        forall i | 0 <= i < |candidates| ensures !YieldsDate(candidates, i) {
          if i > 0 {
            assert !YieldsDate(rest, i - 1);
          }
        }
      }
    }
  }

  /** The loop over the date patterns: the first pattern with a match whose
      first match parses decides; a parse failure moves on to the next. */
  method FindLastUpdated(candidates: seq<seq<string>>) returns (lastUpdated: Option<Date>)
    ensures lastUpdated == FirstParsedDate(candidates)
  {
    lastUpdated := None;
    for i := 0 to |candidates|
      invariant FirstParsedDate(candidates[i..]) == FirstParsedDate(candidates)
      invariant lastUpdated == None
    {
      assert candidates[i..][1..] == candidates[i + 1..];
      var matches := candidates[i];
      if matches != [] {
        var parsed := ParseDate(matches[0]);
        if parsed.Some? {
          lastUpdated := parsed;
          break;
        }
      }
    }
  }

  /** "13/45/2020" names no date: the month is out of range. */
  lemma InvalidMonthDoesNotParse()
    ensures ParseDate("13/45/2020") == None
  {
    assert "13/45/2020" == "13" + "/" + "45" + "/" + "2020";
    SplitThree("13", "45", "2020");
    InvalidMonthFields();
    ParseOfNumerals("13/45/2020", "13", "45", "2020");
  }

  /** "04/31/2021" names no date: April has 30 days. */
  lemma AprilThirtyFirstDoesNotParse()
    ensures ParseDate("04/31/2021") == None
  {
    assert "04/31/2021" == "04" + "/" + "31" + "/" + "2021";
    SplitThree("04", "31", "2021");
    AprilThirtyFirstFields();
    YearNumeral2021();
    ParseOfNumerals("04/31/2021", "04", "31", "2021");
  }

  lemma AprilThirtyFirstFields()
    ensures Numeral("04", 1, 2) && Numeral("31", 1, 2)
    ensures DigitsValue("04") == 4 && DigitsValue("31") == 31
  {
    assert "04"[..1] == "0";
    assert "31"[..1] == "3";
  }

  lemma InvalidMonthFields()
    ensures Numeral("13", 1, 2) && Numeral("45", 1, 2) && Numeral("2020", 4, 4)
    ensures DigitsValue("13") == 13
  {
    assert "13"[..1] == "1";
  }

  lemma YearNumeral2021()
    ensures AllDigits("2021") && DigitsValue("2021") == 2021
  {
    assert "20"[..1] == "2";
    assert "202"[..2] == "20";
    assert "2021"[..3] == "202";
  }

  /** "3/4/2021" is March 4th, 2021: one-digit months and days parse. */
  lemma ShortDateParses()
    ensures ParseDate("3/4/2021") == Some(Date(2021, 3, 4))
  {
    assert "3/4/2021" == "3" + "/" + "4" + "/" + "2021";
    SplitThree("3", "4", "2021");
    ShortDateFields();
    ParseOfNumerals("3/4/2021", "3", "4", "2021");
  }

  lemma ShortDateFields()
    ensures Numeral("3", 1, 2) && Numeral("4", 1, 2) && Numeral("2021", 4, 4)
    ensures Date(DigitsValue("2021"), DigitsValue("3"), DigitsValue("4")) == Date(2021, 3, 4)
    ensures ValidDate(Date(2021, 3, 4))
  {
    YearNumeral2021();
    assert DigitsValue("3") == 3 && DigitsValue("4") == 4;
  }

  /** A date is taken from a later pattern only when every earlier one
      failed: the first pattern's unparseable "13/45/2020" is passed over
      and the second pattern's "3/4/2021" decides. */
  lemma DateFallbackExample()
    ensures FirstParsedDate([["13/45/2020"], ["3/4/2021"], ["1/1/2000"]]) == Some(Date(2021, 3, 4))
  {
    var cs := [["13/45/2020"], ["3/4/2021"], ["1/1/2000"]];
    InvalidMonthDoesNotParse();
    ShortDateParses();
    assert !YieldsDate(cs, 0);
    assert cs[1..][0] == ["3/4/2021"];
    assert YieldsDate(cs[1..], 0);
  }

  // ---------------------------------------------------------------------
  // The whole scan
  // ---------------------------------------------------------------------

  /** Every field but `accessible` and `error` at its empty default. */
  predicate EmptyDefaults(s: Signals) {
    s.title == "" && s.copyrightYears == [] && s.latestCopyright == None
    && !s.hasBlog && !s.hasCareers && s.lastUpdated == None && s.textLength == 0
  }

  /** `scrape_website_data(url)`, where `fetch` stands for the HTTP request
      and the HTML parse of the page at a URL. It never fails: a failed
      fetch gives the inaccessible record with the exception's text. */
  method ScrapeWebsiteData(url: string, fetch: string -> FetchOutcome) returns (signals: Signals)
    ensures signals.accessible <==> fetch(NormalizeUrl(url)).Fetched?
    ensures fetch(NormalizeUrl(url)).Failed? ==>
      signals.error == Some(fetch(NormalizeUrl(url)).reason) && EmptyDefaults(signals)
    ensures fetch(NormalizeUrl(url)).Fetched? ==>
      var page := fetch(NormalizeUrl(url)).page;
      && signals.error == None
      && signals.title == (if page.titleText.Some? then Strip(page.titleText.value) else "")
      && signals.copyrightYears == PlausibleYears(page.copyrightWordYears + page.copyrightSignYears)
      && signals.latestCopyright == LatestYear(signals.copyrightYears)
      && signals.hasBlog == AnyLinkMatches(page.linkTargets, BlogKeywords)
      && signals.hasCareers == AnyLinkMatches(page.linkTargets, CareersKeywords)
      && signals.lastUpdated == FirstParsedDate(page.dateCandidates)
      && signals.textLength == |page.visibleText|
  {
    var target := NormalizeUrl(url);
    var outcome := fetch(target);
    if outcome.Failed? {
      return Signals(false, Some(outcome.reason), "", [], None, false, false, None, 0);
    }
    var page := outcome.page;
    var title := if page.titleText.Some? then Strip(page.titleText.value) else "";
    var textContent := Lower(page.visibleText);
    var copyrightMatches := page.copyrightWordYears;
    copyrightMatches := copyrightMatches + page.copyrightSignYears;
    var copyrightYears := PlausibleYears(copyrightMatches);
    var hasBlog := AnyLinkMatches(page.linkTargets, BlogKeywords);
    var hasCareers := AnyLinkMatches(page.linkTargets, CareersKeywords);
    var lastUpdated := FindLastUpdated(page.dateCandidates);
    signals := Signals(true, None, title, copyrightYears, LatestYear(copyrightYears),
                       hasBlog, hasCareers, lastUpdated, |textContent|);
  }
}
