/**
 * Which category wins for a lower-cased text on a table carrying the default
 * keywords, from the keywords the text contains and the keyword lists it
 * misses entirely. The lemmas take the table as a parameter so that the
 * literal table stays out of their proofs.
 */
module Keywords {
  import opened Wrappers
  import opened Text
  import opened Analyzer
  import opened Scenarios

  /** Every keyword of the list is already lower-case. */
  ghost predicate LowerCase(keywords: seq<string>)
  {
    forall m :: 0 <= m < |keywords| ==> Lower(keywords[m]) == keywords[m]
  }

  /** The text contains none of the keywords. */
  ghost predicate LacksAll(low: string, keywords: seq<string>)
  {
    forall m :: 0 <= m < |keywords| ==> !Contains(low, keywords[m])
  }

  /** A table with the default names, weights and keywords. */
  ghost predicate DefaultTable(table: seq<Evidence>)
  {
    DefaultShape(table) &&
    table[0].keywords == SatelliteKeywords && table[1].keywords == GravityKeywords &&
    table[2].keywords == CurvatureKeywords && table[3].keywords == TimeZonesKeywords &&
    table[4].keywords == CircumnavigationKeywords
  }

  /** The analyzer `FlatEarthDebateGame()` builds carries the default tables. */
  lemma DefaultTableHolds()
    ensures WellFormed(NewAnalyzer()) && DefaultTable(NewAnalyzer().evidenceWeights)
  {
    DefaultAnalyzer();
  }

  lemma SatelliteKeywordsLower()
    ensures LowerCase(SatelliteKeywords)
  {
  }

  lemma GravityKeywordsLower()
    ensures LowerCase(GravityKeywords)
  {
  }

  lemma CurvatureKeywordsLower()
    ensures LowerCase(CurvatureKeywords)
  {
  }

  lemma TimeZonesKeywordsLower()
    ensures LowerCase(TimeZonesKeywords)
  {
  }

  lemma CircumnavigationKeywordsLower()
    ensures LowerCase(CircumnavigationKeywords)
  {
  }

  /**
   * A text lacks every keyword of a list when each keyword is known to be
   * missing or has a letter the text lacks; `letters[m]` names that letter
   * for the `m`-th keyword.
   */
  lemma LacksAllBy(low: string, keywords: seq<string>, letters: string)
    requires |letters| == |keywords|
    requires forall m :: 0 <= m < |keywords| ==>
               !Contains(low, keywords[m]) || (letters[m] in keywords[m] && letters[m] !in low)
    ensures LacksAll(low, keywords)
  {
    forall m | 0 <= m < |keywords|
      ensures !Contains(low, keywords[m])
    {
      if letters[m] in keywords[m] && letters[m] !in low {
        AbsentChar(low, keywords[m], letters[m]);
      }
    }
  }

  /** A text containing one of a lower-case keyword list's keywords matches that category. */
  lemma Matches(table: seq<Evidence>, low: string, k: nat, m: nat)
    requires k < |table| && LowerCase(table[k].keywords)
    requires m < |table[k].keywords| && Contains(low, table[k].keywords[m])
    ensures Hits(table, low, k)
  {
    AnyKeywordIff(table[k].keywords, low);
  }

  /** A text containing none of a lower-case keyword list's keywords does not match that category. */
  lemma Misses(table: seq<Evidence>, low: string, k: nat)
    requires k < |table| && LowerCase(table[k].keywords) && LacksAll(low, table[k].keywords)
    ensures !Hits(table, low, k)
  {
    AnyKeywordIff(table[k].keywords, low);
  }

  /** Curvature's keyword settles the result, whatever else the text holds. */
  lemma CurvatureCase(table: seq<Evidence>, low: string, m: nat)
    requires DefaultTable(table)
    requires m < |CurvatureKeywords| && Contains(low, CurvatureKeywords[m])
    ensures ScanResult(table, low) == Analysis(Some("curvature"), 25)
  {
    CurvatureKeywordsLower();
    Matches(table, low, 2, m);
    CurvatureWinsWhenMatched(table, low);
  }

  /** A gravity keyword wins when the text misses curvature. */
  lemma GravityCase(table: seq<Evidence>, low: string, m: nat)
    requires DefaultTable(table)
    requires m < |GravityKeywords| && Contains(low, GravityKeywords[m])
    requires LacksAll(low, CurvatureKeywords)
    ensures ScanResult(table, low) == Analysis(Some("gravity"), 20)
  {
    GravityKeywordsLower();
    CurvatureKeywordsLower();
    Matches(table, low, 1, m);
    Misses(table, low, 2);
    GravityWinsTies(table, low);
  }

  /** A time_zones keyword wins when the text misses curvature and gravity. */
  lemma TimeZonesCase(table: seq<Evidence>, low: string, m: nat)
    requires DefaultTable(table)
    requires m < |TimeZonesKeywords| && Contains(low, TimeZonesKeywords[m])
    requires LacksAll(low, CurvatureKeywords) && LacksAll(low, GravityKeywords)
    ensures ScanResult(table, low) == Analysis(Some("time_zones"), 20)
  {
    TimeZonesKeywordsLower();
    CurvatureKeywordsLower();
    GravityKeywordsLower();
    Matches(table, low, 3, m);
    Misses(table, low, 1);
    Misses(table, low, 2);
    TimeZonesWinTies(table, low);
  }

  /** A circumnavigation keyword wins when the text misses curvature, gravity and time_zones. */
  lemma CircumnavigationCase(table: seq<Evidence>, low: string, m: nat)
    requires DefaultTable(table)
    requires m < |CircumnavigationKeywords| && Contains(low, CircumnavigationKeywords[m])
    requires LacksAll(low, CurvatureKeywords) && LacksAll(low, GravityKeywords) && LacksAll(low, TimeZonesKeywords)
    ensures ScanResult(table, low) == Analysis(Some("circumnavigation"), 20)
  {
    CircumnavigationKeywordsLower();
    CurvatureKeywordsLower();
    GravityKeywordsLower();
    TimeZonesKeywordsLower();
    Matches(table, low, 4, m);
    Misses(table, low, 1);
    Misses(table, low, 2);
    Misses(table, low, 3);
    CircumnavigationWinsTies(table, low);
  }

  /** A satellite keyword wins only when the text misses every other category. */
  lemma SatelliteCase(table: seq<Evidence>, low: string, m: nat)
    requires DefaultTable(table)
    requires m < |SatelliteKeywords| && Contains(low, SatelliteKeywords[m])
    requires LacksAll(low, CurvatureKeywords) && LacksAll(low, GravityKeywords)
    requires LacksAll(low, TimeZonesKeywords) && LacksAll(low, CircumnavigationKeywords)
    ensures ScanResult(table, low) == Analysis(Some("satellite"), 15)
  {
    SatelliteKeywordsLower();
    CurvatureKeywordsLower();
    GravityKeywordsLower();
    TimeZonesKeywordsLower();
    CircumnavigationKeywordsLower();
    Matches(table, low, 0, m);
    Misses(table, low, 1);
    Misses(table, low, 2);
    Misses(table, low, 3);
    Misses(table, low, 4);
    SatelliteWinsAlone(table, low);
  }

}
