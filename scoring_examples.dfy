/** Worked scenarios of the scorer, proved of `Scoring.ScoreOf`. */
module ScoringExamples {
  import opened Wrappers
  import opened Text
  import opened WebsiteSignals
  import opened Scoring
  import opened ScoringProperties

  /** Website data with only the four keys the scorer reads. */
  function SiteData(latestCopyright: Option<int>, hasBlog: bool, hasCareers: bool): Signals {
    Signals(true, None, "", [], latestCopyright, hasBlog, hasCareers, None, 0)
  }

  lemma LowerHvacContracting()
    ensures Lower("HVAC Contracting") == "hvac contracting"
  {
  }

  lemma LowerCharlottesville()
    ensures Lower("Charlottesville, VA") == "charlottesville, va"
  {
  }

  lemma LowerRetail()
    ensures Lower("Retail") == "retail"
  {
  }

  lemma LowerMiami()
    ensures Lower("Miami, FL") == "miami, fl"
  {
  }

  lemma LowerHvacAndPlumbing()
    ensures Lower("HVAC and Plumbing") == "hvac and plumbing"
  {
  }

  lemma LowerSanFrancisco()
    ensures Lower("San Francisco, CA") == "san francisco, ca"
  {
  }

  /** "HVAC Contracting" is a high-succession industry. */
  lemma HvacIndustry()
    ensures IndustryRule(Some("HVAC Contracting")) == [Firing(15, IndustryFactor("hvac contracting"))]
  {
    LowerHvacContracting();
    var s := "hvac contracting";
    assert OccursAt(s, "hvac", 0);
    ContainsAt(s, "hvac", 0);
    assert HighSuccessionIndustries[5] == "hvac";
  }

  /** "Charlottesville, VA" is in a target region. */
  lemma CharlottesvilleRegion()
    ensures LocationRule(Some("Charlottesville, VA")) == [Firing(10, RegionFactor)]
  {
    LowerCharlottesville();
    var s := "charlottesville, va";
    assert s[17..19] == "va";
    assert OccursAt(s, "va", 17);
    ContainsAt(s, "va", 17);
    assert TargetRegionKeys[0] == "va";
  }

  /** The first worked scenario: a business founded in 1995 with a revenue
      of 3,200,000 in HVAC contracting in Charlottesville, VA, whose site
      shows a 2019 copyright and has neither blog nor careers links, scores
      25 + 15 + 10 + 10 + 15 + 20 + 10 = 105 in 2024, the most any business
      can score: 91.3 after normalisation, in the High category. */
  lemma HvacScenario()
    ensures var r := ScoreOf(BusinessRecord("Blue Ridge HVAC Services", Some("HVAC Contracting"),
        Some("Charlottesville, VA"), Some("blueridgehvac.net"), Some(1995), Some(3200000.0), Some(18),
        Some(SiteData(Some(2019), false, false))), 2024);
      r.rawScore == 105 && r.score == 913 && r.category == High && r.priority == RedCircle
  {
    var b := BusinessRecord("Blue Ridge HVAC Services", Some("HVAC Contracting"),
      Some("Charlottesville, VA"), Some("blueridgehvac.net"), Some(1995), Some(3200000.0), Some(18),
      Some(SiteData(Some(2019), false, false)));
    HvacIndustry();
    CharlottesvilleRegion();
    HvacRawScore(b);
    assert RoundedScore(105) == 913;
    CategoryByRawScore(105);
  }

  /** The first scenario's rules add up to 105 points. */
  lemma HvacRawScore(b: BusinessRecord)
    requires b.foundedYear == Some(1995) && b.estimatedRevenue == Some(3200000.0)
    requires b.websiteData == Some(SiteData(Some(2019), false, false))
    requires TotalPoints(IndustryRule(b.industry)) == 15 && TotalPoints(LocationRule(b.location)) == 10
    ensures ScoreOf(b, 2024).rawScore == 105
  {
    RawScoreIsSumOfRules(b, 2024);
    AgeRuleSpec(b.foundedYear, 2024);
    WebsiteRulesSpec(b.websiteData, 2024);
    RevenueRuleSpec(b.estimatedRevenue);
  }

  /** "Retail" is not a high-succession industry. */
  lemma RetailIndustry()
    ensures IndustryRule(Some("Retail")) == []
  {
    LowerRetail();
    var industry := "retail";
    forall k | 0 <= k < |HighSuccessionIndustries| ensures !Contains(industry, HighSuccessionIndustries[k]) {
      if k == 5 {
        ContainsNeedsChar(industry, "hvac", 'h');
      } else {
        ContainsNotLonger(industry, HighSuccessionIndustries[k]);
      }
    }
  }

  /** "Miami, FL" is in no target region. */
  lemma MiamiRegion()
    ensures LocationRule(Some("Miami, FL")) == []
  {
    LowerMiami();
    var location := "miami, fl";
    forall k | 0 <= k < |TargetRegionKeys| ensures !Contains(location, TargetRegionKeys[k]) {
      if k <= 1 {
        ContainsNeedsChar(location, TargetRegionKeys[k], 'v');
      } else if k <= 3 {
        ContainsNeedsChar(location, TargetRegionKeys[k], 'c');
      } else {
        ContainsNeedsChar(location, TargetRegionKeys[k], 't');
      }
    }
  }

  /** The second worked scenario: no founding year, no revenue, a retail
      business in Miami, FL whose site is current and has blog and careers
      links scores 0, in the Low category, with no factor. */
  lemma RetailScenario()
    ensures var r := ScoreOf(BusinessRecord("Retailer", Some("Retail"), Some("Miami, FL"), None, None,
        None, None, Some(SiteData(Some(2024), true, true))), 2024);
      r.rawScore == 0 && r.score == 0 && r.category == Low && r.factors == []
  {
    var b := BusinessRecord("Retailer", Some("Retail"), Some("Miami, FL"), None, None,
      None, None, Some(SiteData(Some(2024), true, true)));
    RetailIndustry();
    MiamiRegion();
    RawScoreIsSumOfRules(b, 2024);
    WebsiteRulesSpec(b.websiteData, 2024);
    WebsiteInitials(b.websiteData, 2024);
    RevenueRuleSpec(b.estimatedRevenue);
    CategoryByRawScore(0);
    assert WebsiteRules(b.websiteData, 2024) == [];
  }

  /** "HVAC and Plumbing" holds two keywords but earns the industry points
      once: 15, not 30. */
  lemma IndustryCountedOnce()
    ensures Contains(Lower("HVAC and Plumbing"), "hvac") && Contains(Lower("HVAC and Plumbing"), "plumbing")
    ensures TotalPoints(IndustryRule(Some("HVAC and Plumbing"))) == 15
    ensures |FactorsOf(IndustryRule(Some("HVAC and Plumbing")))| == 1
  {
    LowerHvacAndPlumbing();
    var s := "hvac and plumbing";
    assert OccursAt(s, "hvac", 0);
    ContainsAt(s, "hvac", 0);
    assert s[9..17] == "plumbing";
    assert OccursAt(s, "plumbing", 9);
    ContainsAt(s, "plumbing", 9);
    assert HighSuccessionIndustries[5] == "hvac";
    IndustryRuleSpec(Some("HVAC and Plumbing"));
  }

  /** The location test searches the whole location, not the region after
      the comma: "co" inside "Francisco" puts San Francisco, CA in a target
      region. */
  lemma LocationMatchesInsideCityName()
    ensures LocationRule(Some("San Francisco, CA")) == [Firing(10, RegionFactor)]
  {
    LowerSanFrancisco();
    var s := "san francisco, ca";
    assert s[11..13] == "co";
    assert OccursAt(s, "co", 11);
    ContainsAt(s, "co", 11);
    assert TargetRegionKeys[2] == "co";
  }
}
