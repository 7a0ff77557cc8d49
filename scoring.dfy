/** `SuccessionSignal.calculate_succession_score`: a fixed, ordered list of
    rules adds points to a raw score and appends one factor per rule that
    fires; the raw score is scaled to 0..100 against a fixed maximum of 115
    and sorted into High, Medium or Low. The current year, which the
    source reads from the clock, is a parameter. */
module Scoring {
  import opened Wrappers
  import opened Text
  import opened WebsiteSignals

  /** A business as the caller hands it to the scorer: the optional fields
      are the keys the record may lack. */
  datatype BusinessRecord = BusinessRecord(
    name: string,
    industry: Option<string>,
    location: Option<string>,
    website: Option<string>,
    foundedYear: Option<int>,
    estimatedRevenue: Option<real>,
    employees: Option<int>,
    websiteData: Option<Signals>)

  datatype Category = High | Medium | Low

  /** The marker shown with each category: a red, yellow or green circle. */
  datatype Priority = RedCircle | YellowCircle | GreenCircle

  /** The dictionary the scorer returns. `score` is the normalised score
      rounded to one decimal, counted in tenths of a point; `normalized`
      is the value before rounding, which decides the category. */
  datatype ScoreResult = ScoreResult(
    score: int,
    normalized: real,
    category: Category,
    priority: Priority,
    factors: seq<string>,
    rawScore: nat)

  /** A rule that fired: the points it adds and the factor it appends. */
  datatype Firing = Firing(points: nat, factor: string)

  const MaxPossibleScore := 115

  const HighSuccessionIndustries: seq<string> :=
    ["construction", "manufacturing", "automotive", "plumbing",
     "electrical", "hvac", "roofing", "landscaping", "trucking"]

  const TargetRegionKeys: seq<string> := ["va", "virginia", "co", "colorado", "tn", "tennessee"]

  const MinTargetRevenue: real := 2000000.0
  const MaxTargetRevenue: real := 10000000.0

  // ---------------------------------------------------------------------
  // Factor texts
  // ---------------------------------------------------------------------

  const InaccessibleFactor := "Website inaccessible/outdated"
  const NoBlogFactor := "No blog/news section"
  const NoCareersFactor := "No careers/hiring page"
  const RevenueFactor := "Target revenue range ($2M-$10M)"
  const RegionFactor := "Target geographic region"

  function EstablishedFactor(age: int): string {
    "Established business (" + IntToDecimal(age) + " years)"
  }

  function MatureFactor(age: int): string {
    "Mature business (" + IntToDecimal(age) + " years)"
  }

  function CopyrightFactor(year: int): string {
    "Copyright last updated " + IntToDecimal(year)
  }

  function IndustryFactor(industry: string): string {
    "High-succession industry (" + industry + ")"
  }

  // ---------------------------------------------------------------------
  // The rules, one function each, in evaluation order
  // ---------------------------------------------------------------------

  /** Rule 1: the age of the business. An absent or zero founding year is
      skipped, as Python skips a falsy value. */
  function AgeRule(foundedYear: Option<int>, currentYear: int): seq<Firing> {
    if foundedYear.None? || foundedYear.value == 0 then []
    else
      var age := currentYear - foundedYear.value;
      if age >= 20 then [Firing(25, EstablishedFactor(age))]
      else if age >= 10 then [Firing(15, MatureFactor(age))]
      else []
  }

  /** `website_data.get('accessible')` is truthy; absent website data
      reads as an empty dictionary. */
  predicate SiteAccessible(site: Option<Signals>) {
    site.Some? && site.value.accessible
  }

  /** The copyright year is truthy (present and non-zero) and at least
      three years old. */
  predicate StaleCopyright(latest: Option<int>, currentYear: int) {
    latest.Some? && latest.value != 0 && currentYear - latest.value >= 3
  }

  /** An old copyright year: 15 points. */
  function CopyrightRule(latest: Option<int>, currentYear: int): seq<Firing> {
    if StaleCopyright(latest, currentYear) then [Firing(15, CopyrightFactor(latest.value))] else []
  }

  /** No blog or news link: 10 points. */
  function BlogRule(hasBlog: bool): seq<Firing> {
    if hasBlog then [] else [Firing(10, NoBlogFactor)]
  }

  /** No careers link: 10 points. */
  function CareersRule(hasCareers: bool): seq<Firing> {
    if hasCareers then [] else [Firing(10, NoCareersFactor)]
  }

  /** Rule 2: the website. An inaccessible site earns a flat 20 points; an
      accessible one is judged on its copyright year, blog and careers links. */
  function WebsiteRules(site: Option<Signals>, currentYear: int): seq<Firing> {
    if !SiteAccessible(site) then [Firing(20, InaccessibleFactor)]
    else
      CopyrightRule(site.value.latestCopyright, currentYear)
      + BlogRule(site.value.hasBlog) + CareersRule(site.value.hasCareers)
  }

  /** Some high-succession keyword occurs in the lower-cased industry. */
  predicate HighSuccessionIndustry(industry: string) {
    exists k :: 0 <= k < |HighSuccessionIndustries| && Contains(industry, HighSuccessionIndustries[k])
  }

  /** Rule 3: the industry, scored once however many keywords occur. */
  function IndustryRule(industry: Option<string>): seq<Firing> {
    var lowered := Lower(industry.GetOr(""));
    if HighSuccessionIndustry(lowered) then [Firing(15, IndustryFactor(lowered))] else []
  }

  predicate InTargetRevenueRange(revenue: real) {
    MinTargetRevenue <= revenue <= MaxTargetRevenue
  }

  /** Rule 4: the revenue; an absent revenue counts as 0. */
  function RevenueRule(revenue: Option<real>): seq<Firing> {
    if InTargetRevenueRange(revenue.GetOr(0.0)) then [Firing(20, RevenueFactor)] else []
  }

  /** Some target-region key occurs anywhere in the lower-cased location. */
  predicate InTargetRegion(location: string) {
    exists k :: 0 <= k < |TargetRegionKeys| && Contains(location, TargetRegionKeys[k])
  }

  /** Rule 5: the location; an absent location counts as "". */
  function LocationRule(location: Option<string>): seq<Firing> {
    if InTargetRegion(Lower(location.GetOr(""))) then [Firing(10, RegionFactor)] else []
  }

  /** All rules that fire for a business, in evaluation order. */
  function RuleFirings(business: BusinessRecord, currentYear: int): seq<Firing> {
    AgeRule(business.foundedYear, currentYear)
    + WebsiteRules(business.websiteData, currentYear)
    + IndustryRule(business.industry)
    + RevenueRule(business.estimatedRevenue)
    + LocationRule(business.location)
  }

  function TotalPoints(firings: seq<Firing>): nat {
    if firings == [] then 0 else firings[0].points + TotalPoints(firings[1..])
  }

  /** The factor texts of the firings, one per firing, in order. */
  function FactorsOf(firings: seq<Firing>): (r: seq<string>)
    ensures |r| == |firings|
    ensures forall i :: 0 <= i < |firings| ==> r[i] == firings[i].factor
  {
    if firings == [] then [] else [firings[0].factor] + FactorsOf(firings[1..])
  }

  lemma {:induction false} FiringsAppend(a: seq<Firing>, b: seq<Firing>)
    ensures TotalPoints(a + b) == TotalPoints(a) + TotalPoints(b)
    ensures FactorsOf(a + b) == FactorsOf(a) + FactorsOf(b)
  {
    if a != [] {
      assert (a + b)[1..] == a[1..] + b;
      FiringsAppend(a[1..], b);
    } else {
      assert a + b == b;
    }
  }

  // ---------------------------------------------------------------------
  // Normalisation, rounding and category
  // ---------------------------------------------------------------------

  /** `min(100, raw / 115 * 100)`, in exact arithmetic. */
  function Normalize(raw: nat): (n: real)
    ensures 0.0 <= n <= 100.0
  {
    var scaled := raw as real / MaxPossibleScore as real * 100.0;
    if 100.0 < scaled then 100.0 else scaled
  }

  /** `round(Normalize(raw), 1)` in tenths of a point. */
  function RoundedScore(raw: nat): int {
    if raw >= MaxPossibleScore then 1000 else (400 * raw + 23) / 46
  }

  function Categorize(normalized: real): Category {
    if normalized >= 70.0 then High
    else if normalized >= 40.0 then Medium
    else Low
  }

  function PriorityOf(category: Category): Priority {
    match category
    case High => RedCircle
    case Medium => YellowCircle
    case Low => GreenCircle
  }

  /** The scorer's result, defined rule by rule. */
  function ScoreOf(business: BusinessRecord, currentYear: int): ScoreResult {
    var firings := RuleFirings(business, currentYear);
    var raw := TotalPoints(firings);
    var normalized := Normalize(raw);
    var category := Categorize(normalized);
    ScoreResult(RoundedScore(raw), normalized, category, PriorityOf(category), FactorsOf(firings), raw)
  }

  // ---------------------------------------------------------------------
  // The scorer
  // ---------------------------------------------------------------------

  /** The accumulator and the factor list record exactly the firings so far. */
  predicate Accounts(score: nat, factors: seq<string>, fired: seq<Firing>) {
    score == TotalPoints(fired) && factors == FactorsOf(fired)
  }

  /** Firing one more rule keeps the accumulator and the factor list in step. */
  lemma Fire(score: nat, factors: seq<string>, fired: seq<Firing>, f: Firing)
    requires Accounts(score, factors, fired)
    ensures Accounts(score + f.points, factors + [f.factor], fired + [f])
  {
    FiringsAppend(fired, [f]);
  }

  /** Two accountings a sequence of firings apart differ by its points
      and its factors. */
  lemma AccountsExtend(score: nat, factors: seq<string>, fired: seq<Firing>, more: seq<Firing>,
                       score': nat, factors': seq<string>, fired': seq<Firing>)
    requires Accounts(score, factors, fired) && Accounts(score', factors', fired')
    requires fired' == fired + more
    ensures score' == score + TotalPoints(more) && factors' == factors + FactorsOf(more)
  {
    FiringsAppend(fired, more);
  }

  /** The age rule's step of the scorer. */
  method ScoreAge(score: nat, factors: seq<string>, ghost fired: seq<Firing>,
                  foundedYear: Option<int>, currentYear: int)
    returns (score': nat, factors': seq<string>, ghost fired': seq<Firing>)
    requires Accounts(score, factors, fired)
    ensures fired' == fired + AgeRule(foundedYear, currentYear)
    ensures Accounts(score', factors', fired')
    ensures score' == score + TotalPoints(AgeRule(foundedYear, currentYear))
    ensures factors' == factors + FactorsOf(AgeRule(foundedYear, currentYear))
  {
    score', factors', fired' := score, factors, fired;
    ghost var firing := AgeRule(foundedYear, currentYear);
    if foundedYear.Some? && foundedYear.value != 0 {
      var age := currentYear - foundedYear.value;
      if age >= 20 {
        assert firing == [Firing(25, EstablishedFactor(age))];
        Fire(score', factors', fired', Firing(25, EstablishedFactor(age)));
        score', fired' := score' + 25, fired' + [Firing(25, EstablishedFactor(age))];
        factors' := factors' + [EstablishedFactor(age)];
      } else if age >= 10 {
        assert firing == [Firing(15, MatureFactor(age))];
        Fire(score', factors', fired', Firing(15, MatureFactor(age)));
        score', fired' := score' + 15, fired' + [Firing(15, MatureFactor(age))];
        factors' := factors' + [MatureFactor(age)];
      } else {
        assert firing == [];
      }
    } else {
      assert firing == [];
    }
    AccountsExtend(score, factors, fired, AgeRule(foundedYear, currentYear), score', factors', fired');
  }

  /** The website rules' step of the scorer: a flat penalty for an absent
      or inaccessible site, otherwise the copyright, blog and careers checks
      in that order. */
  method ScoreWebsite(score: nat, factors: seq<string>, ghost fired: seq<Firing>,
                      websiteData: Option<Signals>, currentYear: int)
    returns (score': nat, factors': seq<string>, ghost fired': seq<Firing>)
    requires Accounts(score, factors, fired)
    ensures fired' == fired + WebsiteRules(websiteData, currentYear)
    ensures Accounts(score', factors', fired')
    ensures score' == score + TotalPoints(WebsiteRules(websiteData, currentYear))
    ensures factors' == factors + FactorsOf(WebsiteRules(websiteData, currentYear))
  {
    score', factors', fired' := score, factors, fired;
    if !(websiteData.Some? && websiteData.value.accessible) {
      Fire(score', factors', fired', Firing(20, InaccessibleFactor));
      score', fired' := score' + 20, fired' + [Firing(20, InaccessibleFactor)];
      factors' := factors' + [InaccessibleFactor];
    } else {
      score', factors', fired' := ScoreAccessibleSite(score', factors', fired', websiteData.value, currentYear);
    }
    AccountsExtend(score, factors, fired, WebsiteRules(websiteData, currentYear), score', factors', fired');
  }

  /** The checks on an accessible site: copyright year, blog link and
      careers link, in that order. */
  method ScoreAccessibleSite(score: nat, factors: seq<string>, ghost fired: seq<Firing>,
                             site: Signals, currentYear: int)
    returns (score': nat, factors': seq<string>, ghost fired': seq<Firing>)
    requires Accounts(score, factors, fired)
    ensures fired' == fired + (CopyrightRule(site.latestCopyright, currentYear)
      + BlogRule(site.hasBlog) + CareersRule(site.hasCareers))
    ensures Accounts(score', factors', fired')
    ensures score' == score + TotalPoints(CopyrightRule(site.latestCopyright, currentYear)
      + BlogRule(site.hasBlog) + CareersRule(site.hasCareers))
    ensures factors' == factors + FactorsOf(CopyrightRule(site.latestCopyright, currentYear)
      + BlogRule(site.hasBlog) + CareersRule(site.hasCareers))
  {
    score', factors', fired' := ScoreCopyright(score, factors, fired, site.latestCopyright, currentYear);
    score', factors', fired' := ScoreBlog(score', factors', fired', site.hasBlog);
    score', factors', fired' := ScoreCareers(score', factors', fired', site.hasCareers);
    AppendThree(fired, CopyrightRule(site.latestCopyright, currentYear), BlogRule(site.hasBlog),
                CareersRule(site.hasCareers));
    AccountsExtend(score, factors, fired, CopyrightRule(site.latestCopyright, currentYear)
      + BlogRule(site.hasBlog) + CareersRule(site.hasCareers), score', factors', fired');
  }

  lemma AppendThree(fired: seq<Firing>, a: seq<Firing>, b: seq<Firing>, c: seq<Firing>)
    ensures fired + a + b + c == fired + (a + b + c)
  {
  }

  /** An old copyright year: the year is truthy and at least three years old. */
  method ScoreCopyright(score: nat, factors: seq<string>, ghost fired: seq<Firing>,
                        latestCopyright: Option<int>, currentYear: int)
    returns (score': nat, factors': seq<string>, ghost fired': seq<Firing>)
    requires Accounts(score, factors, fired)
    ensures fired' == fired + CopyrightRule(latestCopyright, currentYear)
    ensures Accounts(score', factors', fired')
    ensures score' == score + TotalPoints(CopyrightRule(latestCopyright, currentYear))
    ensures factors' == factors + FactorsOf(CopyrightRule(latestCopyright, currentYear))
  {
    score', factors', fired' := score, factors, fired;
    if latestCopyright.Some? && latestCopyright.value != 0 && currentYear - latestCopyright.value >= 3 {
      var factor := CopyrightFactor(latestCopyright.value);
      Fire(score', factors', fired', Firing(15, factor));
      score', fired' := score' + 15, fired' + [Firing(15, factor)];
      factors' := factors' + [factor];
    }
    AccountsExtend(score, factors, fired, CopyrightRule(latestCopyright, currentYear), score', factors', fired');
  }

  /** No blog or news link. */
  method ScoreBlog(score: nat, factors: seq<string>, ghost fired: seq<Firing>, hasBlog: bool)
    returns (score': nat, factors': seq<string>, ghost fired': seq<Firing>)
    requires Accounts(score, factors, fired)
    ensures fired' == fired + BlogRule(hasBlog)
    ensures Accounts(score', factors', fired')
    ensures score' == score + TotalPoints(BlogRule(hasBlog))
    ensures factors' == factors + FactorsOf(BlogRule(hasBlog))
  {
    score', factors', fired' := score, factors, fired;
    if !hasBlog {
      Fire(score', factors', fired', Firing(10, NoBlogFactor));
      score', fired' := score' + 10, fired' + [Firing(10, NoBlogFactor)];
      factors' := factors' + [NoBlogFactor];
    }
    AccountsExtend(score, factors, fired, BlogRule(hasBlog), score', factors', fired');
  }

  /** No careers link. */
  method ScoreCareers(score: nat, factors: seq<string>, ghost fired: seq<Firing>, hasCareers: bool)
    returns (score': nat, factors': seq<string>, ghost fired': seq<Firing>)
    requires Accounts(score, factors, fired)
    ensures fired' == fired + CareersRule(hasCareers)
    ensures Accounts(score', factors', fired')
    ensures score' == score + TotalPoints(CareersRule(hasCareers))
    ensures factors' == factors + FactorsOf(CareersRule(hasCareers))
  {
    score', factors', fired' := score, factors, fired;
    if !hasCareers {
      Fire(score', factors', fired', Firing(10, NoCareersFactor));
      score', fired' := score' + 10, fired' + [Firing(10, NoCareersFactor)];
      factors' := factors' + [NoCareersFactor];
    }
    AccountsExtend(score, factors, fired, CareersRule(hasCareers), score', factors', fired');
  }

  /** The industry rule's step of the scorer: the keywords are tried in
      order and the first one found ends the search, so the rule fires at
      most once. */
  method ScoreIndustry(score: nat, factors: seq<string>, ghost fired: seq<Firing>, industryField: Option<string>)
    returns (score': nat, factors': seq<string>, ghost fired': seq<Firing>)
    requires Accounts(score, factors, fired)
    ensures fired' == fired + IndustryRule(industryField)
    ensures Accounts(score', factors', fired')
    ensures score' == score + TotalPoints(IndustryRule(industryField))
    ensures factors' == factors + FactorsOf(IndustryRule(industryField))
  {
    score', factors', fired' := score, factors, fired;
    var industry := Lower(industryField.GetOr(""));
    ghost var matched := false;
    for i := 0 to |HighSuccessionIndustries|
      invariant !matched && fired' == fired
      invariant forall j :: 0 <= j < i ==> !Contains(industry, HighSuccessionIndustries[j])
      invariant Accounts(score', factors', fired')
    {
      if Contains(industry, HighSuccessionIndustries[i]) {
        Fire(score', factors', fired', Firing(15, IndustryFactor(industry)));
        score', fired' := score' + 15, fired' + [Firing(15, IndustryFactor(industry))];
        factors' := factors' + [IndustryFactor(industry)];
        matched := true;
        break;
      }
    }
    assert matched <==> HighSuccessionIndustry(industry);
    AccountsExtend(score, factors, fired, IndustryRule(industryField), score', factors', fired');
  }

  /** The revenue step: an absent revenue reads as 0. */
  method ScoreRevenue(score: nat, factors: seq<string>, ghost fired: seq<Firing>, estimatedRevenue: Option<real>)
    returns (score': nat, factors': seq<string>, ghost fired': seq<Firing>)
    requires Accounts(score, factors, fired)
    ensures fired' == fired + RevenueRule(estimatedRevenue)
    ensures Accounts(score', factors', fired')
    ensures score' == score + TotalPoints(RevenueRule(estimatedRevenue))
    ensures factors' == factors + FactorsOf(RevenueRule(estimatedRevenue))
  {
    score', factors', fired' := score, factors, fired;
    var revenue := estimatedRevenue.GetOr(0.0);
    if MinTargetRevenue <= revenue <= MaxTargetRevenue {
      Fire(score', factors', fired', Firing(20, RevenueFactor));
      score', fired' := score' + 20, fired' + [Firing(20, RevenueFactor)];
      factors' := factors' + [RevenueFactor];
    }
    AccountsExtend(score, factors, fired, RevenueRule(estimatedRevenue), score', factors', fired');
  }

  /** The location step: an absent location reads as "". */
  method ScoreLocation(score: nat, factors: seq<string>, ghost fired: seq<Firing>, locationField: Option<string>)
    returns (score': nat, factors': seq<string>, ghost fired': seq<Firing>)
    requires Accounts(score, factors, fired)
    ensures fired' == fired + LocationRule(locationField)
    ensures Accounts(score', factors', fired')
    ensures score' == score + TotalPoints(LocationRule(locationField))
    ensures factors' == factors + FactorsOf(LocationRule(locationField))
  {
    score', factors', fired' := score, factors, fired;
    var location := Lower(locationField.GetOr(""));
    if exists k :: 0 <= k < |TargetRegionKeys| && Contains(location, TargetRegionKeys[k]) {
      Fire(score', factors', fired', Firing(10, RegionFactor));
      score', fired' := score' + 10, fired' + [Firing(10, RegionFactor)];
      factors' := factors' + [RegionFactor];
    }
    AccountsExtend(score, factors, fired, LocationRule(locationField), score', factors', fired');
  }

  /** `calculate_succession_score(business)` evaluated in `currentYear`. */
  method CalculateSuccessionScore(business: BusinessRecord, currentYear: int) returns (result: ScoreResult)
    ensures result == ScoreOf(business, currentYear)
  {
    var score: nat := 0;
    var factors: seq<string> := [];
    ghost var fired: seq<Firing> := [];

    // Age of the business
    score, factors, fired := ScoreAge(score, factors, fired, business.foundedYear, currentYear);
    assert fired == AgeRule(business.foundedYear, currentYear);

    // Website analysis
    score, factors, fired := ScoreWebsite(score, factors, fired, business.websiteData, currentYear);

    // Industry
    score, factors, fired := ScoreIndustry(score, factors, fired, business.industry);

    // Revenue range
    score, factors, fired := ScoreRevenue(score, factors, fired, business.estimatedRevenue);

    // Location
    score, factors, fired := ScoreLocation(score, factors, fired, business.location);
    assert fired == RuleFirings(business, currentYear);

    var normalized := Normalize(score);
    var category := Categorize(normalized);
    result := ScoreResult(RoundedScore(score), normalized, category, PriorityOf(category), factors, score);
  }
}
