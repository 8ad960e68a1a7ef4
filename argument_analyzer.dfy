/**
 * The argument classifier: an ordered table of evidence categories, each with
 * keywords, a persuasiveness weight and a description, and a parallel table of
 * canned rebuttals. Both tables are Python dicts whose insertion order decides
 * ties, so they are sequences here, looked up by key.
 */
module Analyzer {
  import opened Wrappers
  import opened Text

  /** One entry of `evidence_weights`: the key and its record. */
  datatype Evidence = Evidence(name: string, keywords: seq<string>, weight: int, description: string)

  /** One entry of `rebuttals`: the key and its list of responses. */
  datatype RebuttalPool = RebuttalPool(name: string, lines: seq<string>)

  /** The analyzer's state, fixed once constructed. */
  datatype ArgumentAnalyzer = ArgumentAnalyzer(evidenceWeights: seq<Evidence>, rebuttals: seq<RebuttalPool>)

  /** The `(category, weight)` pair `analyze_argument` returns. */
  datatype Analysis = Analysis(category: Option<string>, weight: int)

  /** The keywords of the five categories, in declaration order. */
  const SatelliteKeywords: seq<string> := ["satellite", "space", "photo", "image", "picture", "nasa"]
  const GravityKeywords: seq<string> := ["gravity", "gravitational", "mass", "attraction", "force"]
  const CurvatureKeywords: seq<string> := ["curve", "horizon", "curvature", "ship", "disappear"]
  const TimeZonesKeywords: seq<string> := ["time zone", "sun", "day", "night", "shadow", "timezone"]
  const CircumnavigationKeywords: seq<string> := ["circumnavigation", "sail", "around", "magellan", "flight"]

  /** The tables `ArgumentAnalyzer.__init__` builds, in declaration order. */
  const EvidenceTable: seq<Evidence> :=
      [ Evidence("satellite", SatelliteKeywords, 15, "Evidence from satellite imagery and space observation"),
        Evidence("gravity", GravityKeywords, 20, "Arguments based on gravitational effects and physics"),
        Evidence("curvature", CurvatureKeywords, 25, "Observations of Earth's curvature"),
        Evidence("time_zones", TimeZonesKeywords, 20, "Evidence from time zones and day/night cycles"),
        Evidence("circumnavigation", CircumnavigationKeywords, 20, "Evidence from global circumnavigation") ]

  const RebuttalTable: seq<RebuttalPool> :=
      [ RebuttalPool("satellite", [
          "Those images could be manipulated or fake.",
          "NASA could be part of a grand conspiracy.",
          "CGI technology can create very convincing images these days."]),
        RebuttalPool("gravity", [
          "What you call gravity could just be density and buoyancy.",
          "If gravity pulled everything to the center, why don't the oceans fall off?",
          "Heavy things fall because they're dense, not because of gravity."]),
        RebuttalPool("curvature", [
          "The horizon appears flat when you look at it.",
          "Ships don't really disappear bottom-first; that's just perspective.",
          "If Earth was curved, buildings would appear tilted."]),
        RebuttalPool("time_zones", [
          "The sun is just a spotlight moving across a flat plane.",
          "Time zones could work the same way on a flat disk.",
          "The sun circles above the flat Earth like a carousel."]),
        RebuttalPool("circumnavigation", [
          "You can travel in a circle on a flat surface too.",
          "The edge of the Earth is surrounded by an ice wall (Antarctica).",
          "Nobody has actually circumnavigated north to south."]) ]

  function NewAnalyzer(): ArgumentAnalyzer
  {
    ArgumentAnalyzer(EvidenceTable, RebuttalTable)
  }

  // ---------------------------------------------------------------------------
  // Keyed lookup in an ordered table
  // ---------------------------------------------------------------------------

  function EvidenceNames(table: seq<Evidence>): (r: seq<string>)
    ensures |r| == |table|
    ensures forall i :: 0 <= i < |table| ==> r[i] == table[i].name
  {
    if table == [] then [] else [table[0].name] + EvidenceNames(table[1..])
  }

  function PoolNames(pools: seq<RebuttalPool>): (r: seq<string>)
    ensures |r| == |pools|
    ensures forall i :: 0 <= i < |pools| ==> r[i] == pools[i].name
  {
    seq(|pools|, i requires 0 <= i < |pools| => pools[i].name)
  }

  /** Dict lookup by key: the position of the first entry with key `key`, if any. */
  function IndexOf(keys: seq<string>, key: string): (r: Option<nat>)
    ensures r.None? <==> key !in keys
    ensures r.Some? ==> r.value < |keys| && keys[r.value] == key
    ensures r.Some? ==> forall j :: 0 <= j < r.value ==> keys[j] != key
  {
    if keys == [] then None
    else if keys[0] == key then Some(0)
    else match IndexOf(keys[1..], key)
      case None => None
      case Some(k) => Some(k + 1)
  }

  /** `rebuttals[category]`, or `None` where Python raises `KeyError`. */
  function Pool(an: ArgumentAnalyzer, category: string): (r: Option<seq<string>>)
    ensures r.None? <==> forall k :: 0 <= k < |an.rebuttals| ==> an.rebuttals[k].name != category
    ensures r.Some? ==> exists k :: 0 <= k < |an.rebuttals| && an.rebuttals[k].name == category
                                  && r.value == an.rebuttals[k].lines
  {
    var names := PoolNames(an.rebuttals);
    match IndexOf(names, category)
    case None => None
    case Some(k) => Some(an.rebuttals[k].lines)
  }

  /**
   * `get_rebuttal(category)`. `random.choice` is modelled by the caller's
   * `pick`: any pick selects some line of the pool and every line is selected
   * by some pick (lemma RebuttalReachable). `None` stands for the `KeyError`
   * of a missing key and the `IndexError` of an empty pool.
   */
  function GetRebuttal(an: ArgumentAnalyzer, category: string, pick: nat): (r: Option<string>)
    ensures r.None? <==> Pool(an, category).None? || Pool(an, category).value == []
    ensures r.Some? ==> r.value in Pool(an, category).value
  {
    match Pool(an, category)
    case None => None
    case Some(lines) => if lines == [] then None else Some(lines[pick % |lines|])
  }

  lemma RebuttalReachable(an: ArgumentAnalyzer, category: string, i: nat)
    requires Pool(an, category).Some? && i < |Pool(an, category).value|
    ensures GetRebuttal(an, category, i) == Some(Pool(an, category).value[i])
  {
  }

  /** `get_evidence_description(category)`, or `None` where Python raises `KeyError`. */
  function GetEvidenceDescription(an: ArgumentAnalyzer, category: string): (r: Option<string>)
    ensures r.None? <==> forall k :: 0 <= k < |an.evidenceWeights| ==> an.evidenceWeights[k].name != category
    ensures r.Some? ==> exists k :: 0 <= k < |an.evidenceWeights| && an.evidenceWeights[k].name == category
                                  && r.value == an.evidenceWeights[k].description
  {
    var names := EvidenceNames(an.evidenceWeights);
    match IndexOf(names, category)
    case None => None
    case Some(k) => Some(an.evidenceWeights[k].description)
  }

  // ---------------------------------------------------------------------------
  // Table invariants
  // ---------------------------------------------------------------------------

  /** Dict keys are unique and every weight is positive. */
  ghost predicate ValidTable(table: seq<Evidence>)
  {
    (forall i :: 0 <= i < |table| ==> table[i].weight > 0) &&
    (forall i, j :: 0 <= i < j < |table| ==> table[i].name != table[j].name)
  }

  /**
   * The evidence table is valid and the rebuttal table is parallel to it:
   * the same keys in the same order, each with a non-empty list.
   */
  ghost predicate WellFormed(an: ArgumentAnalyzer)
  {
    ValidTable(an.evidenceWeights) &&
    EvidenceNames(an.evidenceWeights) == PoolNames(an.rebuttals) &&
    forall i :: 0 <= i < |an.rebuttals| ==> an.rebuttals[i].lines != []
  }

  /** The table built by `__init__` satisfies the invariants. */
  lemma NewAnalyzerWellFormed()
    ensures WellFormed(NewAnalyzer())
  {
    EvidenceTableValid();
    RebuttalTableValid();
  }

  /** In a well-formed analyzer every category key has a non-empty rebuttal list under the same key. */
  lemma WellFormedPools(an: ArgumentAnalyzer)
    requires WellFormed(an)
    ensures forall i :: 0 <= i < |an.evidenceWeights| ==>
              Pool(an, an.evidenceWeights[i].name) == Some(an.rebuttals[i].lines) && an.rebuttals[i].lines != []
  {
    var names := PoolNames(an.rebuttals);
    forall i | 0 <= i < |an.evidenceWeights|
      ensures Pool(an, an.evidenceWeights[i].name) == Some(an.rebuttals[i].lines)
    {
      IndexOfDistinct(names, i);
    }
  }

  /** In a table with distinct keys, the lookup of the `i`-th key finds position `i`. */
  lemma IndexOfDistinct(keys: seq<string>, i: nat)
    requires i < |keys|
    requires forall a, b :: 0 <= a < b < |keys| ==> keys[a] != keys[b]
    ensures IndexOf(keys, keys[i]) == Some(i)
  {
  }

  const CategoryNames: seq<string> := ["satellite", "gravity", "curvature", "time_zones", "circumnavigation"]

  lemma EvidenceTableValid()
    ensures ValidTable(EvidenceTable)
    ensures EvidenceNames(EvidenceTable) == CategoryNames
  {
    assert EvidenceNames(EvidenceTable) == CategoryNames;
  }

  lemma RebuttalTableValid()
    ensures forall i :: 0 <= i < |RebuttalTable| ==> RebuttalTable[i].lines != []
    ensures PoolNames(RebuttalTable) == CategoryNames
  {
    assert PoolNames(RebuttalTable) == CategoryNames;
  }

  // ---------------------------------------------------------------------------
  // Classification
  // ---------------------------------------------------------------------------

  /** Some keyword, lower-cased, is a substring of the lower-cased text `low`. */
  predicate AnyKeyword(keywords: seq<string>, low: string)
  {
    |keywords| > 0 && (Contains(low, Lower(keywords[0])) || AnyKeyword(keywords[1..], low))
  }

  lemma {:induction false} AnyKeywordIff(keywords: seq<string>, low: string)
    ensures AnyKeyword(keywords, low) <==> exists m :: 0 <= m < |keywords| && Contains(low, Lower(keywords[m]))
  {
    if |keywords| > 0 {
      AnyKeywordIff(keywords[1..], low);
      assert forall m :: 0 < m < |keywords| ==> keywords[1..][m - 1] == keywords[m];
    }
  }

  /** Category `k` of the table has a keyword occurring in `low`. */
  predicate Hits(table: seq<Evidence>, low: string, k: int)
  {
    0 <= k < |table| && AnyKeyword(table[k].keywords, low)
  }

  function WeightAt(table: seq<Evidence>, best: Option<nat>): int
    requires best.Some? ==> best.value < |table|
  {
    match best
    case None => 0
    case Some(k) => table[k].weight
  }

  /**
   * The position of the category `analyze_argument` keeps after scanning the
   * first `n` categories: a hit replaces the current best only when its
   * weight is strictly greater than the best so far (initially 0).
   */
  function BestIndex(table: seq<Evidence>, low: string, n: nat): (r: Option<nat>)
    requires n <= |table|
    ensures r.Some? ==> r.value < n
  {
    if n == 0 then None
    else
      var prev := BestIndex(table, low, n - 1);
      if Hits(table, low, n - 1) && table[n - 1].weight > WeightAt(table, prev) then Some(n - 1) else prev
  }

  function AnalysisOf(table: seq<Evidence>, best: Option<nat>): Analysis
    requires best.Some? ==> best.value < |table|
  {
    match best
    case None => Analysis(None, 0)
    case Some(k) => Analysis(Some(table[k].name), table[k].weight)
  }

  /** What `analyze_argument(text)` returns. */
  function Classify(an: ArgumentAnalyzer, text: string): Analysis
  {
    ScanResult(an.evidenceWeights, Lower(text))
  }

  /**
   * Category `k` is the winner among the first `n`: it hits with a positive
   * weight, no hit among the first `n` is heavier, and every earlier hit is
   * strictly lighter (first-declared wins ties).
   */
  ghost predicate WinsAmong(table: seq<Evidence>, low: string, n: nat, k: int)
    requires n <= |table|
  {
    0 <= k < n && Hits(table, low, k) && table[k].weight > 0 &&
    (forall j :: 0 <= j < n && Hits(table, low, j) ==> table[j].weight <= table[k].weight) &&
    (forall j :: 0 <= j < k && Hits(table, low, j) ==> table[j].weight < table[k].weight)
  }

  /** The scan finds the winner, and finds nothing exactly when no positive-weight category hits. */
  lemma {:induction false} BestIndexSpec(table: seq<Evidence>, low: string, n: nat)
    requires n <= |table|
    ensures BestIndex(table, low, n).None? <==>
              forall j :: 0 <= j < n && Hits(table, low, j) ==> table[j].weight <= 0
    ensures BestIndex(table, low, n).Some? ==> WinsAmong(table, low, n, BestIndex(table, low, n).value)
  {
    if n > 0 {
      BestIndexSpec(table, low, n - 1);
    }
  }

  /** At most one category wins. */
  lemma WinnerUnique(table: seq<Evidence>, low: string, n: nat, k1: int, k2: int)
    requires n <= |table|
    requires WinsAmong(table, low, n, k1) && WinsAmong(table, low, n, k2)
    ensures k1 == k2
  {
  }

  /** The full scan of `table` over the lower-cased text `low`. */
  function ScanResult(table: seq<Evidence>, low: string): Analysis
  {
    AnalysisOf(table, BestIndex(table, low, |table|))
  }

  /**
   * The classifier's contract over a valid table: `(None, 0)` exactly when no
   * keyword of any category occurs in the lower-cased text; otherwise the
   * heaviest hitting category, the first declared among equals, with its
   * table weight, which is positive.
   */
  lemma ScanSpec(table: seq<Evidence>, low: string)
    requires ValidTable(table)
    ensures ScanResult(table, low).category.None? <==> forall k :: 0 <= k < |table| ==> !Hits(table, low, k)
    ensures ScanResult(table, low).category.None? <==> ScanResult(table, low).weight == 0
    ensures ScanResult(table, low).category.None? ==> ScanResult(table, low) == Analysis(None, 0)
    ensures ScanResult(table, low).category.Some? ==>
              exists k :: WinsAmong(table, low, |table|, k) &&
                          ScanResult(table, low) == Analysis(Some(table[k].name), table[k].weight)
    ensures forall k :: WinsAmong(table, low, |table|, k) ==>
              ScanResult(table, low) == Analysis(Some(table[k].name), table[k].weight)
  {
    BestIndexSpec(table, low, |table|);
    var best := BestIndex(table, low, |table|);
    forall k | WinsAmong(table, low, |table|, k)
      ensures best == Some(k)
    {
      WinnerUnique(table, low, |table|, best.value, k);
    }
  }

  /** A text matching the keywords of exactly one category is classified as that category, with its weight. */
  lemma SoleMatchWins(table: seq<Evidence>, low: string, k: nat)
    requires ValidTable(table) && Hits(table, low, k)
    requires forall j :: 0 <= j < |table| && j != k ==> !Hits(table, low, j)
    ensures ScanResult(table, low) == Analysis(Some(table[k].name), table[k].weight)
  {
    ScanSpec(table, low);
    assert WinsAmong(table, low, |table|, k);
  }

  /**
   * Of two matching categories of different weights, the lighter one is never
   * the result, wherever their keywords occur in the text; the result weighs
   * at least as much as the heavier one.
   */
  lemma HeavierMatchWins(table: seq<Evidence>, low: string, j: nat, k: nat)
    requires ValidTable(table) && Hits(table, low, j) && Hits(table, low, k)
    requires table[j].weight > table[k].weight
    ensures ScanResult(table, low).category != Some(table[k].name)
    ensures ScanResult(table, low).weight >= table[j].weight
  {
    ScanSpec(table, low);
    var w :| WinsAmong(table, low, |table|, w) &&
             ScanResult(table, low) == Analysis(Some(table[w].name), table[w].weight);
    assert w != k;
  }

  /** Matching ignores case: a text and its lower-cased form classify alike. */
  lemma ClassifyIgnoresCase(an: ArgumentAnalyzer, text: string)
    ensures Classify(an, Lower(text)) == Classify(an, text)
  {
    LowerIdempotent(text);
  }

  /**
   * `analyze_argument`: lower-case the text, then for every category and every
   * keyword keep the category whose weight strictly exceeds the best so far.
   */
  method AnalyzeArgument(an: ArgumentAnalyzer, text: string) returns (category: Option<string>, weight: int)
    ensures Analysis(category, weight) == Classify(an, text)
  {
    var table := an.evidenceWeights;
    var low := Lower(text);
    weight := 0;
    category := None;
    var i := 0;
    while i < |table|
      invariant 0 <= i <= |table|
      invariant Analysis(category, weight) == AnalysisOf(table, BestIndex(table, low, i))
    {
      var e := table[i];
      ghost var before := Analysis(category, weight);
      var j := 0;
      while j < |e.keywords|
        invariant 0 <= j <= |e.keywords|
        invariant Analysis(category, weight) ==
          if (exists m :: 0 <= m < j && Contains(low, Lower(e.keywords[m]))) && e.weight > before.weight
          then Analysis(Some(e.name), e.weight) else before
      {
        if Contains(low, Lower(e.keywords[j])) {
          if e.weight > weight {
            weight := e.weight;
            category := Some(e.name);
          }
        }
        j := j + 1;
      }
      AnyKeywordIff(e.keywords, low);
      i := i + 1;
    }
  }
}
