# Succession Signal, modelled in Dafny

Succession Signal ranks small businesses by how likely their owners are to
be planning a succession. This project models its decision logic in
`succession_signal.py` and proves properties of the model.

- **The scorer** (`SuccessionSignal.calculate_succession_score`): a fixed,
  ordered list of rules adds points to a raw score and appends one factor
  text per rule that fires. The rules look at the business's age, its
  website, its industry, its revenue and its location. The raw score is
  scaled against a fixed maximum of 115 and capped at 100. The scaled score
  picks the category (High, Medium, Low) and the marker paired with it.
- **The website signals** (`scrape_website_data`), after the fetch:
  - the `https://` prefix for a URL without a scheme;
  - the copyright years kept within 1990 to 2024, and the latest of them;
  - the blog and careers link tests;
  - the ordered date-pattern fallback;
  - the record returned when the fetch or the parse fails.
- **The deal pipeline** in `main`:
  - the region token of each stored business;
  - the region test against the selected regions;
  - the demo website data attached in place of a fetch;
  - the minimum-score filter;
  - the stable sort, highest score first.

Modules, one per file:

- `wrappers.dfy` (`Wrappers`): `Option`.
- `text.dfy` (`Text`): the Python string operations the source uses. These are `lower`, `in`, `startswith`, `strip`, `split` and `str(int)`. `Join` and `ZeroPad` are proof helpers: `Join` inverts `split`, and `ZeroPad` renders dates for the round trip in `dates.dfy`.
- `dates.dfy` (`Dates`): `datetime.strptime(s, '%m/%d/%Y')`, and the model's own `%m/%d/%Y` rendering `FormatDate`, used to show that every valid date parses.
- `website_signals.dfy` (`WebsiteSignals`): the post-fetch part of `scrape_website_data`.
- `scoring.dfy` (`Scoring`): two definitions of the scorer.
  - `ScoreOf` is a reference definition built rule by rule.
  - `CalculateSuccessionScore` is the imperative scorer. It has a mutable accumulator, a factor list grown by appending, and the industry loop that stops at the first keyword. It is proved equal to `ScoreOf`.
- `scoring_properties.dfy` (`ScoringProperties`): the properties of `ScoreOf`.
- `scoring_examples.dfy` (`ScoringExamples`): worked scenarios.
- `lists.dfy` (`Lists`): a generic filter-and-map, and a stable descending sort by key.
- `pipeline.dfy` (`Pipeline`): the deal pipeline. `DealPipeline` is the imperative loop and `Selected` is its reference definition.

Scores are counted in tenths of a point. `round(normalized, 1)` equals `(400 * raw + 23) / 46` below the maximum, and no raw score lands on a tie between two tenths (`ScoringProperties.RoundedScoreNearest`). The normalised score itself is kept as an exact rational, and the category is decided on it, as the source does.

Behaviour of the code worth knowing:

- **Worked example.** A business founded in 1995 in HVAC with a revenue of 3,200,000, located in "Charlottesville, VA", with a 2019 copyright and no blog or careers link, scores raw 105 in 2024, normalised 91.3 (`ScoringExamples.HvacScenario`).
- **The 100 cap.** The scaling takes the minimum with 100, but no business can score more than 105 out of 115, so the cap never applies (`ScoringProperties.RawScoreBounds`).
- **Copyright window.** The plausible copyright years are hard-coded as 1990 to 2024, whatever the current year (`WebsiteSignals.PlausibleYears`).
- **Location rule.** The location rule searches the whole lower-cased location, not only the region token, so "co" in "San Francisco, CA" earns the region points (`ScoringExamples.LocationMatchesInsideCityName`).
- **Error text.** A failed fetch stores `str(e)`, which may be empty; the model keeps whatever text the failure gives.

The selected region names are full state names, while the demo data's region tokens are two-letter state codes. So with the default regions, the pipeline over the demo data selects nothing, whatever the minimum score (`Pipeline.DemoPipelineEmpty`).

## Model

| member | source | states |
|---|---|---|
| Scoring.CalculateSuccessionScore | succession_signal.py:129-215 | The imperative scorer returns exactly the reference result `ScoreOf`: the raw score, the factors in rule order, the normalised and rounded score, the category and the marker |
| Scoring.ScoreOf | succession_signal.py:129-215 | Reference scorer: the five rule groups fire in order, the raw score is their total, and it is normalised, rounded to tenths and categorised |
| Scoring.AgeRule | succession_signal.py:136-144 | No firing for an absent or zero founding year; 25 points from age 20, 15 from age 10, none below |
| Scoring.WebsiteRules | succession_signal.py:146-167 | A flat 20 points for an absent or inaccessible site; otherwise the copyright, blog and careers rules in that order |
| Scoring.CopyrightRule | succession_signal.py:154-157 | 15 points and "Copyright last updated Y" for a non-zero copyright year at least three years old |
| Scoring.BlogRule | succession_signal.py:159-162 | 10 points and "No blog/news section" without a blog link |
| Scoring.CareersRule | succession_signal.py:164-167 | 10 points and "No careers/hiring page" without a careers link |
| Scoring.IndustryRule | succession_signal.py:169-180 | 15 points, once, when a high-succession keyword occurs in the lower-cased industry, with that text in the factor |
| Scoring.RevenueRule | succession_signal.py:182-186 | 20 points for a revenue, 0 when absent, in the closed range 2,000,000 to 10,000,000 |
| Scoring.LocationRule | succession_signal.py:188-192 | 10 points when a target-region key occurs in the lower-cased location, "" when absent |
| Scoring.Categorize | succession_signal.py:198-207 | High from 70, Medium from 40, Low below |
| Scoring.PriorityOf | succession_signal.py:198-207 | Red for High, yellow for Medium, green for Low |
| Scoring.RoundedScore | succession_signal.py:210 | The normalised score rounded to tenths, counted in tenths |
| Scoring.ScoreAge | succession_signal.py:136-144 | The age step fires exactly the age rule's firing on top of those so far, and keeps the accumulator and the factor list equal to the points and factors fired |
| Scoring.ScoreWebsite | succession_signal.py:146-167 | The website step fires the flat 20-point penalty for an absent or inaccessible site, else the copyright, blog and careers checks in that order, keeping accumulator and factors in step |
| Scoring.ScoreAccessibleSite | succession_signal.py:152-167 | On an accessible site the copyright, blog and careers checks fire in that order, and the accumulator and factor list still equal the points and factors fired |
| Scoring.ScoreCopyright | succession_signal.py:154-157 | Fires 15 points and "Copyright last updated Y" exactly when the copyright year is truthy and at least three years old |
| Scoring.ScoreBlog | succession_signal.py:159-162 | Fires 10 points and "No blog/news section" exactly when the site has no blog link |
| Scoring.ScoreCareers | succession_signal.py:164-167 | Fires 10 points and "No careers/hiring page" exactly when the site has no careers link |
| Scoring.ScoreIndustry | succession_signal.py:169-180 | The keyword loop stops at the first keyword found in the lower-cased industry, so the industry rule fires once or not at all |
| Scoring.ScoreRevenue | succession_signal.py:182-186 | Fires 20 points exactly when the revenue, 0 when absent, lies in the closed range 2,000,000 to 10,000,000 |
| Scoring.ScoreLocation | succession_signal.py:188-192 | Fires 10 points exactly when a target-region key occurs anywhere in the lower-cased location, "" when absent |
| Scoring.FiringsAppend | succession_signal.py:131-192 | Points and factors of consecutive rule groups add up and concatenate, the basis of the accumulator's bookkeeping |
| Scoring.AccountsExtend | succession_signal.py:131-192 | When a later state records a group of further firings, its score grew by exactly their points and its factor list by exactly their factors |
| Scoring.Fire | succession_signal.py:131-192 | Adding a rule's points to the score and appending its factor records exactly one more firing |
| ScoringProperties.RawScoreIsSumOfRules | succession_signal.py:131-192 | The raw score is the sum of the five rule groups' points, and the factor list is their factor lists in evaluation order |
| ScoringProperties.AgeRuleSpec | succession_signal.py:137-144 | Age gives 25 from 20 years on, 15 from 10 to 19, and nothing for younger, negative ages, or an absent or zero founding year |
| ScoringProperties.WebsiteRulesSpec | succession_signal.py:147-167 | An absent or inaccessible site gives exactly the single 20-point inaccessible firing; an accessible one gives 15 for a stale copyright, 10 without blog, 10 without careers; at most 35 |
| ScoringProperties.IndustryRuleSpec | succession_signal.py:170-180 | The industry rule fires at most once, for 15 points, exactly when some keyword occurs in the lower-cased industry |
| ScoringProperties.LocationRuleSpec | succession_signal.py:188-192 | The location rule gives 10 exactly when a target-region key occurs in the lower-cased location, nothing when the location is absent |
| ScoringProperties.CopyrightRuleSpec | succession_signal.py:154-157 | The copyright rule fires exactly for a truthy year at least three years old |
| ScoringProperties.RevenueRuleSpec | succession_signal.py:182-186 | Revenue gives 20 exactly in the closed range 2,000,000 to 10,000,000, nothing when absent |
| Scoring.Normalize | succession_signal.py:194-195 | The normalised score lies between 0 and 100 |
| ScoringProperties.NormalizeMonotone | succession_signal.py:194-195 | Normalisation never decreases as the raw score grows |
| ScoringProperties.NormalizeInTenths | succession_signal.py:194-195 | Below the maximum, ten times the normalised score is 400 * raw / 46 |
| Scoring.FactorsOf | succession_signal.py:131-192 | One factor text per firing, in order |
| ScoringProperties.RawScoreBounds | succession_signal.py:131-196 | The raw score never exceeds 105, so the cap at 100 never applies |
| ScoringProperties.RoundedScoreNearest | succession_signal.py:194-210 | The score in tenths is within half a tenth of ten times the normalised score, with no ties |
| ScoringProperties.RoundingNoTie | succession_signal.py:194-210 | The integer rounding of 400 * raw / 46 falls strictly within 23/46 of the exact quotient |
| ScoringProperties.WithinHalf | succession_signal.py:194-210 | An integer bound within 23 of 46 t puts the quotient by 46 within half of t |
| ScoringProperties.CategoryByRawScore | succession_signal.py:198-207 | The 70 and 40 thresholds on the normalised score are raw-score thresholds 81 and 46, each category as an if-and-only-if |
| ScoringProperties.CategoryOfScore | succession_signal.py:198-207 | Exactly one category is chosen: High from 70, Medium from 40 below 70, Low below 40; the marker is the category's own |
| ScoringProperties.PriorityMatchesCategory | succession_signal.py:199-207 | Markers and categories determine each other one to one |
| ScoringProperties.WebsiteInitials | succession_signal.py:147-167 | An accessible site's website factors begin with C or N; an inaccessible site's are exactly the inaccessible factor |
| ScoringProperties.AccessibleRuleInitials | succession_signal.py:154-167 | The copyright, blog and careers factors begin with C or N |
| ScoringProperties.InaccessibleWebsite | succession_signal.py:147-167 | The inaccessible factor is listed if and only if the site is absent or inaccessible; then the website adds exactly 20 and no copyright, blog or careers factor is listed |
| ScoringProperties.AccessibleFactors | succession_signal.py:147-192 | With an accessible site no listed factor is the inaccessible one |
| ScoringProperties.InaccessibleFactors | succession_signal.py:147-192 | With an inaccessible site the inaccessible factor is listed and no factor begins with C or N |
| ScoringExamples.HvacScenario | succession_signal.py:129-215 | The HVAC business of the demo data, with a 2019 copyright and no blog or careers link, scores raw 105, 91.3, High, red marker in 2024 |
| ScoringExamples.HvacRawScore | succession_signal.py:131-192 | That business's rules add up to 105 |
| ScoringExamples.HvacIndustry | succession_signal.py:174-180 | "HVAC Contracting" fires the industry rule with its lower-cased text in the factor |
| ScoringExamples.CharlottesvilleRegion | succession_signal.py:188-192 | "Charlottesville, VA" is in a target region |
| ScoringExamples.RetailScenario | succession_signal.py:129-215 | A retail business in Miami, FL with a current site with blog and careers, no founding year and no revenue scores 0, Low, with no factor |
| ScoringExamples.RetailIndustry | succession_signal.py:170-180 | "Retail" is not a high-succession industry |
| ScoringExamples.MiamiRegion | succession_signal.py:188-192 | "Miami, FL" is in no target region |
| ScoringExamples.IndustryCountedOnce | succession_signal.py:174-180 | "HVAC and Plumbing" holds two keywords but earns 15 points and one factor |
| ScoringExamples.LocationMatchesInsideCityName | succession_signal.py:188-192 | "co" inside "Francisco" puts "San Francisco, CA" in a target region |
| WebsiteSignals.NormalizeUrl | succession_signal.py:59-60 | The URL gets `https://` in front exactly when it has neither scheme, and is otherwise unchanged |
| WebsiteSignals.NormalizeUrlIdempotent | succession_signal.py:59-60 | Normalising twice equals normalising once |
| WebsiteSignals.PlausibleYears | succession_signal.py:79-80 | The kept years are exactly the candidates within 1990 to 2024, each as often as it occurs |
| WebsiteSignals.PlausibleYearsAppend | succession_signal.py:79-80 | Filtering a concatenation filters each part and concatenates, so the kept years stay in their original order |
| WebsiteSignals.MaxYear | succession_signal.py:109 | `max` returns a member not below any other |
| WebsiteSignals.LatestYear | succession_signal.py:109 | The latest year is absent exactly when no year is kept, and otherwise the largest |
| WebsiteSignals.LatestPlausibleYear | succession_signal.py:79-109 | The latest copyright year is a plausible candidate not below any plausible candidate, and absent exactly when none is plausible |
| WebsiteSignals.LinkMatches | succession_signal.py:83-86 | One link target matches exactly when its lower-cased text contains some keyword |
| WebsiteSignals.AnyLinkMatches | succession_signal.py:83-86 | The link test holds exactly when some link's lower-cased target contains some keyword |
| WebsiteSignals.FirstParsedDate | succession_signal.py:96-103 | Reference fallback: the first pattern with a match whose first match parses gives the date |
| WebsiteSignals.OutOfWindowYearsIgnored | succession_signal.py:79-80 | 1899 and 2099 are ignored beside 2019; alone they leave no latest year |
| WebsiteSignals.BlogLinkIgnoresCase | succession_signal.py:83 | The link test ignores case: "/News/2020" is a blog link |
| WebsiteSignals.FirstParsedDateSpec | succession_signal.py:96-103 | The fallback finds a date exactly when some pattern's first match parses, and then it is that of the earliest such pattern |
| WebsiteSignals.FindLastUpdated | succession_signal.py:89-103 | The pattern loop with its break and continue returns the reference fallback's date |
| WebsiteSignals.InvalidMonthDoesNotParse | succession_signal.py:99-103 | "13/45/2020" does not parse |
| WebsiteSignals.AprilThirtyFirstDoesNotParse | succession_signal.py:100 | "04/31/2021" does not parse: April has 30 days |
| WebsiteSignals.ShortDateParses | succession_signal.py:99-101 | "3/4/2021" parses to March 4th, 2021 |
| WebsiteSignals.DateFallbackExample | succession_signal.py:96-103 | An unparseable first match is passed over and the next pattern's "3/4/2021" decides |
| WebsiteSignals.ScrapeWebsiteData | succession_signal.py:56-127 | The result is accessible exactly when the fetch succeeds; a failure gives the exception text and every other field empty; a success gives the stripped title, the plausible years and their maximum, the link tests, the fallback date and the text length |
| Dates.DaysInMonth | succession_signal.py:100 | Months have 28 to 31 days; 30 exactly for April, June, September and November; 29 and 28 exactly for February of a leap and a common year |
| Dates.ParseDate | succession_signal.py:100 | `%m/%d/%Y` on the digit-and-slash strings the date patterns capture: one- or two-digit month and day and a four-digit year, separated by slashes, naming a real date; otherwise no date |
| Dates.ParseOfNumerals | succession_signal.py:100 | Three numerals of the right lengths parse exactly when they name a real date, and then to that date |
| Dates.ParseFormatRoundTrip | succession_signal.py:100 | Every real date parses back from its `%m/%d/%Y` rendering |
| Dates.ParseDateValid | succession_signal.py:100 | Whatever parses is a real date |
| Dates.LeapDay | succession_signal.py:100 | February 29th parses exactly in leap years |
| Dates.SplitThree | succession_signal.py:100 | Three slash-free fields joined by slashes split back into themselves |
| Text.LowerChar | succession_signal.py:175 | A lower-cased character is never upper-case, and only upper-case letters change |
| Text.Lower | succession_signal.py:175 | Lower-casing keeps the length and lower-cases each character |
| Text.LowerIsLowerCase | succession_signal.py:175 | Lower-casing leaves no upper-case letter and is idempotent |
| Text.ContainsIff | succession_signal.py:175-190 | The substring test holds exactly when the needle occurs at some position |
| Text.ContainsNotLonger | succession_signal.py:349 | A needle longer than the text never occurs in it |
| Text.ContainsNeedsChar | succession_signal.py:190 | A needle holding a character absent from the text never occurs in it |
| Text.StripSpec | succession_signal.py:348 | `strip` returns a slice with only white space around it, neither starting nor ending with white space |
| Text.StripBounds | succession_signal.py:348 | The bounds of that slice |
| Text.StripIdempotent | succession_signal.py:348 | Stripping twice strips nothing more |
| Text.Split | succession_signal.py:348 | `split` gives at least one field, none holding the separator, and one field exactly when the separator is absent |
| Text.JoinSplit | succession_signal.py:348 | Joining the fields back with the separator gives the text again |
| Text.SplitJoin | succession_signal.py:348 | Splitting a join of separator-free fields gives those fields again |
| Text.AfterLastSpec | succession_signal.py:348 | The last field is a separator-free suffix, preceded by a separator unless it is the whole text |
| Text.NatToDecimalRoundTrip | succession_signal.py:141-157 | The decimal numeral of `n` reads back as `n` and has no leading zero |
| Text.NatToDecimalLength | succession_signal.py:100 | The numeral of `n` has at most k digits exactly when n is below 10^k |
| Text.ZeroPadSpec | succession_signal.py:100 | Zero padding keeps the value and gives exactly `width` digits below 10^width |
| Lists.FilterMapSpec | succession_signal.py:346-380 | The filtered, mapped list holds exactly the images of the kept elements |
| Lists.FilterMapLoopStep | succession_signal.py:346-380 | One step of the append loop keeps the accumulated list equal to the reference result of the prefix |
| Lists.FilterMapNone | succession_signal.py:346-380 | Nothing kept gives the empty list |
| Lists.SortByKeyDescendingSpec | succession_signal.py:383 | The sort puts the largest keys first, keeps every element, and keeps equal-key elements in their original order |
| Lists.InsertByKeySorted | succession_signal.py:383 | Inserting into a list sorted largest-first keeps it sorted |
| Lists.InsertByKeyStable | succession_signal.py:383 | Insertion puts the new element ahead of its equals and leaves every key's elements in order |
| Lists.SortByKeyDescendingMembers | succession_signal.py:383 | The sort keeps exactly the elements it was given |
| Pipeline.RegionTokenSpec | succession_signal.py:348 | The region token is the text after the last comma, or the whole location without one, less the white space around it |
| Pipeline.RegionToken | succession_signal.py:348 | The text after the last comma, stripped |
| Pipeline.RegionSelected | succession_signal.py:349 | Some selected region name, lower-cased, occurs in the lower-cased token |
| Pipeline.DemoWebsiteData | succession_signal.py:354-359 | Accessible, no blog or careers link, copyright 2019 when the name holds "enviro" and 2021 otherwise |
| Pipeline.MeetsMinimum | succession_signal.py:366-367 | The rounded score reaches the minimum score |
| Pipeline.Selected | succession_signal.py:346-380 | Reference selection: each business in stored order that is region-selected and reaches the minimum, scored with the demo data |
| Pipeline.RegionTokenTrimmed | succession_signal.py:348 | The region token holds no comma and neither starts nor ends with white space |
| Pipeline.TokenInLocation | succession_signal.py:348 | Where the token sits in the location, from where it sits after the last comma |
| Pipeline.ShortTokenNotSelected | succession_signal.py:349 | A token shorter than every selected region name matches none of them |
| Pipeline.DealPipeline | succession_signal.py:346-383 | The loop with its two `continue`s, then the sort, returns the reference selection sorted highest score first |
| Pipeline.PipelineOrder | succession_signal.py:367-383 | The pipeline lists targets highest score first, and equal scores in stored order |
| Pipeline.PipelineMembers | succession_signal.py:346-380 | The pipeline lists exactly the businesses in a selected region whose score with the demo website data reaches the minimum |
| Pipeline.TokenAfterComma | succession_signal.py:348 | A comma at position p leaves a token shorter than the text after it |
| Pipeline.DefaultRegionsRejectShortTokens | succession_signal.py:324-349 | A token of fewer than eight characters matches no default region |
| Pipeline.DefaultRegionsRejectLocation | succession_signal.py:324-349 | A location with at most seven characters after a comma is rejected by the default regions |
| Pipeline.DefaultRegionsRejectStateCode | succession_signal.py:324-349 | "City, ST" with a state code of at most two letters is rejected by the default regions |
| Pipeline.DemoLocationsRejected | succession_signal.py:250-300 | Every demo business's region token is rejected by the default regions |
| Pipeline.DemoPipelineEmpty | succession_signal.py:346-383 | With the default regions the pipeline over the demo data is empty, whatever the minimum score and year |

## Left out

- Dates.ParseDate: `strptime`'s `%d` also accepts a space followed by one digit (" 4"). The date patterns capture only digits and slashes, so such a string never reaches the parse, and the model rejects it.
- The HTTP request, its headers and timeout, and the HTML parse are left out. They are network I/O and a foreign library. `ScrapeWebsiteData` takes a `fetch` function that returns a `Page` record or the text of a failure.
- The regular expressions for copyright years and dates are left out, because they are a foreign engine. Their matches are inputs: per pattern, the candidate strings in order.
- `re.compile(..., re.I)` over link targets is modelled as a case-insensitive substring test of each target against the keywords.
- Lower-casing covers ASCII letters only. Python's Unicode case mapping is not modelled.
- `strptime` is modelled for ASCII digits. Python also accepts other Unicode decimal digits; the model does not.
- `round(normalized, 1)` is modelled as exact integer tenths, not as a binary float. The normalised score is an exact rational.
- `datetime.now()` is a `currentYear` parameter.
- `generate_ai_summary` and `set_openai_key` are left out. They are calls to an external service.
- The Streamlit UI is left out. This covers the page setup, tabs, charts, metrics, the CSV upload and download, and the manual-entry form.
- The session storage is left out.
- DealPipeline: the source writes the demo website data into the stored business dictionary, so it persists for records the region filter keeps but the score filter drops. The model attaches the data to a copy.
- DealPipeline: the source sorts its list in place. The model returns the sorted list as a value.
- DealPipeline: requires every stored business to have a location, because the source reads `business['location']` without a default and would raise `KeyError` otherwise.
- The rest of each kept pipeline record is left out: the AI summary, the category and the marker fields only feed the display.
- Python's `bool` truthiness of arbitrary values is modelled only where the source relies on it: a founding year or copyright year of 0 counts as absent.
