/** The selection steps of the deal pipeline in `main`: each stored
    business is kept when a selected region occurs in the region token of
    its location, is given the demo website data, is scored, is kept when
    its rounded score reaches the minimum, and the kept businesses are
    sorted by score, highest first. */
module Pipeline {
  import opened Wrappers
  import opened Text
  import opened WebsiteSignals
  import opened Scoring
  import opened Lists

  /** A business that made it into the pipeline, with its score. */
  datatype Target = Target(business: BusinessRecord, result: ScoreResult)

  // ---------------------------------------------------------------------
  // Region filter
  // ---------------------------------------------------------------------

  /** `location.split(',')[-1].strip()`: the text after the last comma,
      without surrounding white space. */
  function RegionToken(location: string): string {
    Strip(AfterLast(location, ','))
  }

  /** Where the token sits in the location, from where it sits in the
      suffix: `c` is where the suffix starts, `i` and `j` bound the token. */
  lemma TokenInLocation(location: string, after: string, token: string, i0: nat, j0: nat)
    returns (c: nat, i: nat, j: nat)
    requires |after| <= |location| && after == location[|location| - |after|..]
    requires |after| < |location| ==> location[|location| - |after| - 1] == ','
    requires ',' !in after
    requires i0 <= j0 <= |after| && token == after[i0..j0] && AllSpace(after[..i0]) && AllSpace(after[j0..])
    ensures ',' !in token
    ensures c <= i <= j <= |location| && token == location[i..j]
    ensures (c == 0 || location[c - 1] == ',') && ',' !in location[c..]
    ensures AllSpace(location[c..i]) && AllSpace(location[j..])
  {
    c := |location| - |after|;
    i, j := c + i0, c + j0;
    SliceOfSuffix(location, c, i0, j0);
    SliceOfSuffix(location, c, 0, i0);
    SliceOfSuffix(location, c, j0, |after|);
    SliceHasNoComma(after, token);
  }

  /** A slice of a suffix is a slice of the whole text, shifted by where
      the suffix starts. */
  lemma SliceOfSuffix(s: string, k: nat, a: nat, b: nat)
    requires k <= |s| && a <= b <= |s| - k
    ensures s[k..][a..b] == s[k + a..k + b]
  {
  }

  /** A slice of a text without commas has none either. */
  lemma SliceHasNoComma(s: string, slice: string)
    requires ',' !in s
    requires exists i, j :: 0 <= i <= j <= |s| && slice == s[i..j]
    ensures ',' !in slice
  {
    var i, j :| 0 <= i <= j <= |s| && slice == s[i..j];
  }

  /** The region token holds no comma and neither starts nor ends with
      white space. */
  lemma RegionTokenTrimmed(location: string)
    ensures ',' !in RegionToken(location)
    ensures RegionToken(location) == [] ||
      (!IsSpace(RegionToken(location)[0]) && !IsSpace(RegionToken(location)[|RegionToken(location)| - 1]))
  {
    var after := AfterLast(location, ',');
    AfterLastSpec(location, ',');
    StripSpec(after);
    SliceHasNoComma(after, Strip(after));
  }

  /** The region token is the part of the location after its last comma
      (or the whole location when it has none) less the white space around
      it. */
  lemma RegionTokenSpec(location: string)
    ensures exists c, i, j :: (0 <= c <= i <= j <= |location| && RegionToken(location) == location[i..j]
      && (c == 0 || location[c - 1] == ',') && ',' !in location[c..]
      && AllSpace(location[c..i]) && AllSpace(location[j..]))
  {
    var after := AfterLast(location, ',');
    AfterLastSpec(location, ',');
    var i0, j0 := StripBounds(after);
    var c, i, j := TokenInLocation(location, after, Strip(after), i0, j0);
  }

  /** Some selected region, lower-cased, occurs in the lower-cased token. */
  predicate RegionSelected(regions: seq<string>, token: string) {
    exists i :: 0 <= i < |regions| && Contains(Lower(token), Lower(regions[i]))
  }

  /** A token shorter than every selected region name never matches: a
      two-letter state code never matches a selected state name. */
  lemma ShortTokenNotSelected(regions: seq<string>, token: string)
    requires forall i :: 0 <= i < |regions| ==> |token| < |regions[i]|
    ensures !RegionSelected(regions, token)
  {
    forall i | 0 <= i < |regions| ensures !Contains(Lower(token), Lower(regions[i])) {
      ContainsNotLonger(Lower(token), Lower(regions[i]));
    }
  }

  // ---------------------------------------------------------------------
  // One business through the pipeline
  // ---------------------------------------------------------------------

  /** The website data the pipeline attaches instead of fetching the site:
      accessible, no blog, no careers page, and a 2019 copyright for a
      business whose name mentions "enviro", 2021 for any other. */
  function DemoWebsiteData(name: string): Signals {
    var latest := if Contains(Lower(name), "enviro") then 2019 else 2021;
    Signals(true, None, "", [], Some(latest), false, false, None, 0)
  }

  /** The business with the demo website data attached, and its score. */
  function Process(business: BusinessRecord, currentYear: int): Target {
    var withSite := business.(websiteData := Some(DemoWebsiteData(business.name)));
    Target(withSite, ScoreOf(withSite, currentYear))
  }

  /** The rounded score is not below the minimum: `score < min_score`
      compares a score with one decimal against a whole number, so it is
      false exactly when the score in tenths reaches ten times the minimum. */
  predicate MeetsMinimum(result: ScoreResult, minScore: int) {
    result.score >= 10 * minScore
  }

  /** The business lies in a selected region and, scored, reaches the minimum. */
  predicate Passes(business: BusinessRecord, regions: seq<string>, minScore: int, currentYear: int) {
    RegionSelected(regions, RegionToken(business.location.GetOr("")))
      && MeetsMinimum(Process(business, currentYear).result, minScore)
  }

  /** The processed businesses that pass both filters, in input order. */
  function Selected(businesses: seq<BusinessRecord>, regions: seq<string>, minScore: int, currentYear: int)
    : seq<Target>
  {
    FilterMap(businesses, b => Passes(b, regions, minScore, currentYear), b => Process(b, currentYear))
  }

  /** The score a processed business is sorted by. */
  function ScoreKey(t: Target): int {
    t.result.score
  }

  /** Every stored business has a location: the pipeline reads
      `business['location']` without a default. */
  predicate HasLocation(businesses: seq<BusinessRecord>) {
    forall i :: 0 <= i < |businesses| ==> businesses[i].location.Some?
  }

  /** The deal pipeline of `main` over the stored businesses, the selected
      regions and the minimum score, evaluated in `currentYear`. */
  method DealPipeline(businesses: seq<BusinessRecord>, regions: seq<string>, minScore: int, currentYear: int)
    returns (processed: seq<Target>)
    requires HasLocation(businesses)
    ensures processed == SortByKeyDescending(Selected(businesses, regions, minScore, currentYear), ScoreKey)
  {
    processed := [];
    ghost var keep := b => Passes(b, regions, minScore, currentYear);
    ghost var process := b => Process(b, currentYear);
    for i := 0 to |businesses|
      invariant processed + FilterMap(businesses[i..], keep, process) == FilterMap(businesses, keep, process)
    {
      var business := businesses[i];
      FilterMapLoopStep(businesses, i, keep, process, processed);

      // Filter by region
      var businessRegion := Strip(AfterLast(business.location.value, ','));
      var regionMatch := exists r :: 0 <= r < |regions| && Contains(Lower(businessRegion), Lower(regions[r]));
      if !regionMatch {
        assert !keep(businesses[i]);
        continue;
      }

      // Demo website data instead of a fetch
      business := business.(websiteData := Some(DemoWebsiteData(business.name)));
      var successionData := CalculateSuccessionScore(business, currentYear);
      assert Target(business, successionData) == process(businesses[i]);

      // Filter by minimum score
      if successionData.score < 10 * minScore {
        assert !keep(businesses[i]);
        continue;
      }

      assert keep(businesses[i]);
      processed := processed + [Target(business, successionData)];
    }
    FilterMapLoopEnd(businesses, keep, process, processed);
    processed := SortByKeyDescending(processed, ScoreKey);
  }

  /** The pipeline lists the targets highest score first, and lists those
      with equal scores in the order they are stored. */
  lemma PipelineOrder(businesses: seq<BusinessRecord>, regions: seq<string>, minScore: int, currentYear: int)
    ensures var sel := Selected(businesses, regions, minScore, currentYear);
      && SortedDescending(SortByKeyDescending(sel, ScoreKey), ScoreKey)
      && (forall k :: WithKey(SortByKeyDescending(sel, ScoreKey), ScoreKey, k) == WithKey(sel, ScoreKey, k))
  {
    SortByKeyDescendingSpec(Selected(businesses, regions, minScore, currentYear), ScoreKey);
  }

  /** The pipeline lists exactly the businesses in a selected region whose
      score reaches the minimum, each with the demo website data and its
      score. */
  lemma PipelineMembers(businesses: seq<BusinessRecord>, regions: seq<string>, minScore: int, currentYear: int)
    ensures forall t :: t in SortByKeyDescending(Selected(businesses, regions, minScore, currentYear), ScoreKey) <==>
      (exists i :: 0 <= i < |businesses| && Passes(businesses[i], regions, minScore, currentYear)
        && t == Process(businesses[i], currentYear))
  {
    var sel := Selected(businesses, regions, minScore, currentYear);
    SortByKeyDescendingMembers(sel, ScoreKey);
    FilterMapSpec(businesses, b => Passes(b, regions, minScore, currentYear), b => Process(b, currentYear));
  }

  // ---------------------------------------------------------------------
  // The demo data against the default regions
  // ---------------------------------------------------------------------

  /** The regions selected when the sidebar is first shown. */
  const DefaultRegions: seq<string> := ["Virginia", "Colorado", "Tennessee"]

  /** A comma at `p` leaves a region token shorter than the text after it. */
  lemma TokenAfterComma(location: string, p: nat)
    requires p < |location| && location[p] == ','
    ensures |RegionToken(location)| < |location| - p
  {
    RegionTokenSpec(location);
    var c, i, j :| 0 <= c <= i <= j <= |location| && RegionToken(location) == location[i..j]
      && (c == 0 || location[c - 1] == ',') && ',' !in location[c..]
      && AllSpace(location[c..i]) && AllSpace(location[j..]);
  }

  /** The five businesses of the demo data set, with their website data not
      yet attached. */
  function DemoBusinesses(): seq<BusinessRecord> {
    [ BusinessRecord("Richmond Environmental Solutions", Some("Environmental Remediation"), Some("Richmond, VA"),
        Some("richmondenviro.com"), Some(1998), Some(4500000.0), Some(25), None),
      BusinessRecord("Blue Ridge HVAC Services", Some("HVAC Contracting"), Some("Charlottesville, VA"),
        Some("blueridgehvac.net"), Some(1995), Some(3200000.0), Some(18), None),
      BusinessRecord("Denver Data Recovery Inc", Some("IT Services"), Some("Denver, CO"),
        Some("denverdatarecovery.com"), Some(2001), Some(2800000.0), Some(12), None),
      BusinessRecord("Tennessee Trucking Co", Some("Transportation & Logistics"), Some("Nashville, TN"),
        Some("tntrucking.com"), Some(1989), Some(8500000.0), Some(45), None),
      BusinessRecord("Apex Construction Group", Some("General Contracting"), Some("Colorado Springs, CO"),
        Some("apexconstruct.biz"), Some(1992), Some(6200000.0), Some(32), None) ]
  }

  /** A token of fewer than eight characters matches no default region. */
  lemma DefaultRegionsRejectShortTokens(token: string)
    requires |token| < 8
    ensures !RegionSelected(DefaultRegions, token)
  {
    assert |DefaultRegions[0]| == 8 && |DefaultRegions[1]| == 8 && |DefaultRegions[2]| == 9;
    ShortTokenNotSelected(DefaultRegions, token);
  }

  /** A location with a comma at `p` and at most seven characters after it
      is rejected by the default regions. */
  lemma DefaultRegionsRejectLocation(location: string, p: nat)
    requires p < |location| && location[p] == ',' && |location| - p <= 8
    ensures !RegionSelected(DefaultRegions, RegionToken(location))
  {
    TokenAfterComma(location, p);
    DefaultRegionsRejectShortTokens(RegionToken(location));
  }

  /** "City, ST" with a state code of at most two letters is rejected by
      the default regions. */
  lemma DefaultRegionsRejectStateCode(city: string, code: string)
    requires |code| <= 2
    ensures !RegionSelected(DefaultRegions, RegionToken(city + ", " + code))
  {
    var location := city + ", " + code;
    assert location[|city|] == ',';
    DefaultRegionsRejectLocation(location, |city|);
  }

  /** The region token of every demo business is a two-letter state code,
      which no default region name fits into. */
  lemma DemoLocationsRejected()
    ensures forall i :: 0 <= i < |DemoBusinesses()| ==>
      !RegionSelected(DefaultRegions, RegionToken(DemoBusinesses()[i].location.GetOr("")))
  {
    var bs := DemoBusinesses();
    forall i | 0 <= i < |bs| ensures !RegionSelected(DefaultRegions, RegionToken(bs[i].location.GetOr(""))) {
      if i == 0 {
        assert bs[0].location.GetOr("") == "Richmond" + ", " + "VA";
        DefaultRegionsRejectStateCode("Richmond", "VA");
      } else if i == 1 {
        assert bs[1].location.GetOr("") == "Charlottesville" + ", " + "VA";
        DefaultRegionsRejectStateCode("Charlottesville", "VA");
      } else if i == 2 {
        assert bs[2].location.GetOr("") == "Denver" + ", " + "CO";
        DefaultRegionsRejectStateCode("Denver", "CO");
      } else if i == 3 {
        assert bs[3].location.GetOr("") == "Nashville" + ", " + "TN";
        DefaultRegionsRejectStateCode("Nashville", "TN");
      } else {
        assert bs[4].location.GetOr("") == "Colorado Springs" + ", " + "CO";
        DefaultRegionsRejectStateCode("Colorado Springs", "CO");
      }
    }
  }

  /** With the default regions the pipeline over the demo data is empty,
      whatever the minimum score and the year. */
  lemma DemoPipelineEmpty(minScore: int, currentYear: int)
    ensures Selected(DemoBusinesses(), DefaultRegions, minScore, currentYear) == []
  {
    var bs := DemoBusinesses();
    DemoLocationsRejected();
    forall i | 0 <= i < |bs| ensures !Passes(bs[i], DefaultRegions, minScore, currentYear) {
    }
    FilterMapNone(bs, b => Passes(b, DefaultRegions, minScore, currentYear), b => Process(b, currentYear));
  }
}
