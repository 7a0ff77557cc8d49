/** What the scorer promises, proved of its rule-by-rule definition
    `Scoring.ScoreOf` (which `Scoring.CalculateSuccessionScore` computes). */
module ScoringProperties {
  import opened Wrappers
  import opened Text
  import opened WebsiteSignals
  import opened Scoring

  // ---------------------------------------------------------------------
  // The raw score is the sum of the rules' points
  // ---------------------------------------------------------------------

  function AgePoints(b: BusinessRecord, currentYear: int): nat {
    TotalPoints(AgeRule(b.foundedYear, currentYear))
  }

  function WebsitePoints(b: BusinessRecord, currentYear: int): nat {
    TotalPoints(WebsiteRules(b.websiteData, currentYear))
  }

  function IndustryPoints(b: BusinessRecord): nat {
    TotalPoints(IndustryRule(b.industry))
  }

  function RevenuePoints(b: BusinessRecord): nat {
    TotalPoints(RevenueRule(b.estimatedRevenue))
  }

  function LocationPoints(b: BusinessRecord): nat {
    TotalPoints(LocationRule(b.location))
  }

  /** The raw score adds up the points of the five rule groups, and the
      factor list is their factor lists in evaluation order. */
  lemma RawScoreIsSumOfRules(b: BusinessRecord, currentYear: int)
    ensures ScoreOf(b, currentYear).rawScore ==
      AgePoints(b, currentYear) + WebsitePoints(b, currentYear)
      + IndustryPoints(b) + RevenuePoints(b) + LocationPoints(b)
    ensures ScoreOf(b, currentYear).factors ==
      FactorsOf(AgeRule(b.foundedYear, currentYear))
      + FactorsOf(WebsiteRules(b.websiteData, currentYear))
      + FactorsOf(IndustryRule(b.industry))
      + FactorsOf(RevenueRule(b.estimatedRevenue))
      + FactorsOf(LocationRule(b.location))
  {
    var a, w, i, r, l := AgeRule(b.foundedYear, currentYear), WebsiteRules(b.websiteData, currentYear),
      IndustryRule(b.industry), RevenueRule(b.estimatedRevenue), LocationRule(b.location);
    FiringsAppend(a, w);
    FiringsAppend(a + w, i);
    FiringsAppend(a + w + i, r);
    FiringsAppend(a + w + i + r, l);
  }

  // ---------------------------------------------------------------------
  // Each rule
  // ---------------------------------------------------------------------

  /** Age: 25 points from 20 years on, 15 from 10 to 19 years, nothing for
      a younger business, a negative age or an absent or zero founding year. */
  lemma AgeRuleSpec(foundedYear: Option<int>, currentYear: int)
    ensures |AgeRule(foundedYear, currentYear)| <= 1
    ensures TotalPoints(AgeRule(foundedYear, currentYear)) ==
      if foundedYear.None? || foundedYear.value == 0 then 0
      else if currentYear - foundedYear.value >= 20 then 25
      else if currentYear - foundedYear.value >= 10 then 15
      else 0
  {
  }

  /** Website: an inaccessible or absent site earns exactly 20 points and
      the single inaccessible factor; an accessible one earns 15 for an old
      copyright year, 10 without a blog and 10 without a careers page. */
  lemma WebsiteRulesSpec(site: Option<Signals>, currentYear: int)
    ensures !SiteAccessible(site) ==>
      WebsiteRules(site, currentYear) == [Firing(20, InaccessibleFactor)]
    ensures SiteAccessible(site) ==>
      TotalPoints(WebsiteRules(site, currentYear)) ==
        (if StaleCopyright(site.value.latestCopyright, currentYear) then 15 else 0)
        + (if site.value.hasBlog then 0 else 10)
        + (if site.value.hasCareers then 0 else 10)
    ensures TotalPoints(WebsiteRules(site, currentYear)) <= 35
  {
    if SiteAccessible(site) {
      var c, bl, ca := CopyrightRule(site.value.latestCopyright, currentYear),
        BlogRule(site.value.hasBlog), CareersRule(site.value.hasCareers);
      FiringsAppend(c, bl);
      FiringsAppend(c + bl, ca);
    }
  }

  /** The copyright rule needs a truthy year that is at least three years old. */
  lemma CopyrightRuleSpec(latest: Option<int>, currentYear: int)
    ensures CopyrightRule(latest, currentYear) != [] <==>
      latest.Some? && latest.value != 0 && currentYear - latest.value >= 3
  {
  }

  /** Industry: 15 points and one factor when any keyword occurs in the
      lower-cased industry, however many do; nothing otherwise. */
  lemma IndustryRuleSpec(industry: Option<string>)
    ensures |IndustryRule(industry)| <= 1
    ensures TotalPoints(IndustryRule(industry)) ==
      if exists k :: 0 <= k < |HighSuccessionIndustries|
           && Contains(Lower(industry.GetOr("")), HighSuccessionIndustries[k])
      then 15 else 0
  {
  }

  /** Revenue: 20 points exactly when the revenue lies in the closed range
      from 2,000,000 to 10,000,000; an absent revenue earns nothing. */
  lemma RevenueRuleSpec(revenue: Option<real>)
    ensures TotalPoints(RevenueRule(revenue)) ==
      if revenue.Some? && 2000000.0 <= revenue.value <= 10000000.0 then 20 else 0
  {
  }

  /** Location: 10 points when a target-region key occurs anywhere in the
      lower-cased location; an absent location earns nothing. */
  lemma LocationRuleSpec(location: Option<string>)
    ensures TotalPoints(LocationRule(location)) ==
      if exists k :: 0 <= k < |TargetRegionKeys| && Contains(Lower(location.GetOr("")), TargetRegionKeys[k])
      then 10 else 0
    ensures location.None? ==> LocationRule(location) == []
  {
    if location.None? {
      forall k | 0 <= k < |TargetRegionKeys| ensures !Contains(Lower(""), TargetRegionKeys[k]) {
        ContainsNotLonger(Lower(""), TargetRegionKeys[k]);
      }
    }
  }

  // ---------------------------------------------------------------------
  // Bounds
  // ---------------------------------------------------------------------

  /** The raw score never exceeds 105, ten short of the fixed maximum of
      115 it is scaled against. */
  lemma RawScoreBounds(b: BusinessRecord, currentYear: int)
    ensures ScoreOf(b, currentYear).rawScore <= 105
  {
    RawScoreIsSumOfRules(b, currentYear);
    AgeRuleSpec(b.foundedYear, currentYear);
    WebsiteRulesSpec(b.websiteData, currentYear);
    IndustryRuleSpec(b.industry);
    RevenueRuleSpec(b.estimatedRevenue);
    LocationRuleSpec(b.location);
  }

  /** Normalisation is monotone in the raw score. */
  lemma NormalizeMonotone(raw1: nat, raw2: nat)
    requires raw1 <= raw2
    ensures Normalize(raw1) <= Normalize(raw2)
  {
  }

  /** The rounded score is the normalised score rounded to the nearest
      tenth; no raw score falls on a tie between two tenths. */
  lemma RoundedScoreNearest(raw: nat)
    ensures (RoundedScore(raw) as real) - 0.5 < 10.0 * Normalize(raw) < (RoundedScore(raw) as real) + 0.5
  {
    if raw < MaxPossibleScore {
      var t := RoundedScore(raw);
      RoundingNoTie(raw);
      NormalizeInTenths(raw);
      WithinHalf(t, 400 * raw);
    }
  }

  /** The integer rounding lands strictly within 23/46 of a tenth: the
      numerator is odd and never a multiple of 46. */
  lemma RoundingNoTie(raw: nat)
    requires raw < MaxPossibleScore
    ensures 46 * RoundedScore(raw) - 23 < 400 * raw < 46 * RoundedScore(raw) + 23
  {
    var n := 400 * raw + 23;
    var t, r := n / 46, n % 46;
    assert n == 46 * t + r && 0 <= r < 46;
    assert r != 0 by {
      assert n == 2 * (200 * raw + 11) + 1;
      assert 46 * t == 2 * (23 * t);
    }
  }

  /** Below the maximum, ten times the normalised score is 400 * raw / 46. */
  lemma NormalizeInTenths(raw: nat)
    requires raw < MaxPossibleScore
    ensures 10.0 * Normalize(raw) == (400 * raw) as real / 46.0
  {
  }

  lemma WithinHalf(t: int, x: int)
    requires 46 * t - 23 < x < 46 * t + 23
    ensures (t as real) - 0.5 < x as real / 46.0 < (t as real) + 0.5
  {
    assert (46 * t - 23) as real < x as real;
    assert x as real < (46 * t + 23) as real;
  }

  // ---------------------------------------------------------------------
  // Category and priority
  // ---------------------------------------------------------------------

  /** The category thresholds of 70 and 40 on the normalised score are the
      raw-score thresholds 81 and 46. */
  lemma CategoryByRawScore(raw: nat)
    ensures Categorize(Normalize(raw)) == High <==> raw >= 81
    ensures Categorize(Normalize(raw)) == Medium <==> 46 <= raw <= 80
    ensures Categorize(Normalize(raw)) == Low <==> raw <= 45
  {
    var n := Normalize(raw);
    if raw >= 81 {
      assert n >= 8100.0 / 115.0;
    } else if raw >= 46 {
      assert n <= 8000.0 / 115.0 && n >= 4600.0 / 115.0;
    } else {
      assert n <= 4500.0 / 115.0;
    }
  }

  /** Exactly one category is chosen: High from 70 on, Medium from 40 up to
      70, Low below 40; and the marker shown is the category's own. */
  lemma CategoryOfScore(b: BusinessRecord, currentYear: int)
    ensures var r := ScoreOf(b, currentYear);
      && (r.category == High <==> r.normalized >= 70.0)
      && (r.category == Medium <==> 40.0 <= r.normalized < 70.0)
      && (r.category == Low <==> r.normalized < 40.0)
      && (r.category == High <==> r.rawScore >= 81)
      && (r.category == Medium <==> 46 <= r.rawScore <= 80)
      && r.priority == PriorityOf(r.category)
  {
    CategoryByRawScore(ScoreOf(b, currentYear).rawScore);
  }

  /** The priority marker and the category determine each other. */
  lemma PriorityMatchesCategory(c1: Category, c2: Category)
    ensures PriorityOf(c1) == PriorityOf(c2) <==> c1 == c2
  {
  }

  // ---------------------------------------------------------------------
  // An inaccessible website
  // ---------------------------------------------------------------------

  /** A factor of the age, industry, revenue or location rules: it begins
      with E, M, H or T. */
  predicate OtherRuleFactor(f: string) {
    |f| > 0 && (f[0] == 'E' || f[0] == 'M' || f[0] == 'H' || f[0] == 'T')
  }

  /** A factor of an accessible website: it begins with C or N. */
  predicate AccessibleSiteFactor(f: string) {
    |f| > 0 && (f[0] == 'C' || f[0] == 'N')
  }

  lemma OtherRulesInitials(b: BusinessRecord, currentYear: int)
    ensures forall f :: f in FactorsOf(AgeRule(b.foundedYear, currentYear)) ==> OtherRuleFactor(f)
    ensures forall f :: f in FactorsOf(IndustryRule(b.industry)) ==> OtherRuleFactor(f)
    ensures forall f :: f in FactorsOf(RevenueRule(b.estimatedRevenue)) ==> OtherRuleFactor(f)
    ensures forall f :: f in FactorsOf(LocationRule(b.location)) ==> OtherRuleFactor(f)
  {
  }

  /** The website factors of an accessible site begin with C or N; an
      inaccessible site has the inaccessible factor alone. */
  lemma WebsiteInitials(site: Option<Signals>, currentYear: int)
    ensures SiteAccessible(site) ==>
      forall f :: f in FactorsOf(WebsiteRules(site, currentYear)) ==> AccessibleSiteFactor(f)
    ensures !SiteAccessible(site) ==> FactorsOf(WebsiteRules(site, currentYear)) == [InaccessibleFactor]
  {
    if SiteAccessible(site) {
      var c, bl, ca := CopyrightRule(site.value.latestCopyright, currentYear), BlogRule(site.value.hasBlog),
        CareersRule(site.value.hasCareers);
      FiringsAppend(c, bl);
      FiringsAppend(c + bl, ca);
      AccessibleRuleInitials(c, bl, ca, site.value.latestCopyright, site.value.hasBlog, site.value.hasCareers, currentYear);
    }
  }

  lemma AccessibleRuleInitials(c: seq<Firing>, bl: seq<Firing>, ca: seq<Firing>,
                               latest: Option<int>, hasBlog: bool, hasCareers: bool, currentYear: int)
    requires c == CopyrightRule(latest, currentYear) && bl == BlogRule(hasBlog) && ca == CareersRule(hasCareers)
    ensures forall f :: f in FactorsOf(c) + FactorsOf(bl) + FactorsOf(ca) ==> AccessibleSiteFactor(f)
  {
    if StaleCopyright(latest, currentYear) {
      var f := CopyrightFactor(latest.value);
      assert f[0] == 'C';
      assert FactorsOf(c) == [f];
    } else {
      assert FactorsOf(c) == [];
    }
    assert AccessibleSiteFactor(NoBlogFactor) && AccessibleSiteFactor(NoCareersFactor);
    assert FactorsOf(bl) == if hasBlog then [] else [NoBlogFactor];
    assert FactorsOf(ca) == if hasCareers then [] else [NoCareersFactor];
  }

  /** The inaccessible factor is listed exactly when the website is absent
      or inaccessible; then the website adds exactly 20 points, and no
      copyright, blog or careers factor is listed. */
  lemma InaccessibleWebsite(b: BusinessRecord, currentYear: int)
    ensures InaccessibleFactor in ScoreOf(b, currentYear).factors <==> !SiteAccessible(b.websiteData)
    ensures !SiteAccessible(b.websiteData) ==>
      && WebsitePoints(b, currentYear) == 20
      && NoBlogFactor !in ScoreOf(b, currentYear).factors
      && NoCareersFactor !in ScoreOf(b, currentYear).factors
      && forall y :: CopyrightFactor(y) !in ScoreOf(b, currentYear).factors
  {
    RawScoreIsSumOfRules(b, currentYear);
    OtherRulesInitials(b, currentYear);
    WebsiteInitials(b.websiteData, currentYear);
    WebsiteRulesSpec(b.websiteData, currentYear);
    var fa := FactorsOf(AgeRule(b.foundedYear, currentYear));
    var fw := FactorsOf(WebsiteRules(b.websiteData, currentYear));
    var fi := FactorsOf(IndustryRule(b.industry));
    var fr := FactorsOf(RevenueRule(b.estimatedRevenue));
    var fl := FactorsOf(LocationRule(b.location));
    var factors := ScoreOf(b, currentYear).factors;
    assert factors == fa + fw + fi + fr + fl;
    if SiteAccessible(b.websiteData) {
      AccessibleFactors(fa, fw, fi, fr, fl);
    } else {
      InaccessibleFactors(fa, fw, fi, fr, fl);
      forall y ensures CopyrightFactor(y) !in factors {
        CopyrightFactorInitial(y);
      }
    }
  }

  /** Every copyright factor begins with C. */
  lemma CopyrightFactorInitial(year: int)
    ensures |CopyrightFactor(year)| > 0 && CopyrightFactor(year)[0] == 'C'
  {
  }

  /** With an accessible site no factor is the inaccessible one. */
  lemma AccessibleFactors(fa: seq<string>, fw: seq<string>, fi: seq<string>, fr: seq<string>, fl: seq<string>)
    requires forall f :: f in fw ==> AccessibleSiteFactor(f)
    requires forall f :: f in fa + fi + fr + fl ==> OtherRuleFactor(f)
    ensures InaccessibleFactor !in fa + fw + fi + fr + fl
  {
    assert !AccessibleSiteFactor(InaccessibleFactor) && !OtherRuleFactor(InaccessibleFactor);
  }

  /** With an inaccessible site the inaccessible factor is listed and no
      factor begins with C or N. */
  lemma InaccessibleFactors(fa: seq<string>, fw: seq<string>, fi: seq<string>, fr: seq<string>, fl: seq<string>)
    requires fw == [InaccessibleFactor]
    requires forall f :: f in fa + fi + fr + fl ==> OtherRuleFactor(f)
    ensures InaccessibleFactor in fa + fw + fi + fr + fl
    ensures forall f :: f in fa + fw + fi + fr + fl ==> |f| > 0 && f[0] != 'C' && f[0] != 'N'
  {
    var factors := fa + fw + fi + fr + fl;
    assert factors[|fa|] == InaccessibleFactor;
    assert InaccessibleFactor[0] == 'W';
    forall f | f in factors ensures |f| > 0 && f[0] != 'C' && f[0] != 'N' {
      if f !in fw {
        assert f in fa + fi + fr + fl;
      }
    }
  }
}
