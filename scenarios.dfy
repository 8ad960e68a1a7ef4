/**
 * Properties of the game as built by `FlatEarthDebateGame()`: the default
 * table's tie-breaks, and the unit tests' sessions for arguments of given
 * categories (five distinct categories win, a repeated category earns half).
 */
module Scenarios {
  import opened Wrappers
  import opened Text
  import opened Analyzer
  import opened Session
  import opened Debate

  /** The weights of the default table, in declaration order. */
  const CategoryWeights: seq<int> := [15, 20, 25, 20, 20]

  /**
   * A table with the default categories' names and weights in the default
   * order. The lemmas below are stated for any such table, which keeps the
   * literal tables out of their proofs; `DefaultAnalyzer` shows that the
   * analyzer the game builds is one.
   */
  ghost predicate DefaultShape(table: seq<Evidence>)
  {
    |table| == 5 && ValidTable(table) &&
    forall k :: 0 <= k < 5 ==> table[k].name == CategoryNames[k] && table[k].weight == CategoryWeights[k]
  }

  lemma DefaultTableShape()
    ensures DefaultShape(EvidenceTable)
  {
    EvidenceTableValid();
    assert forall k :: 0 <= k < 5 ==> EvidenceNames(EvidenceTable)[k] == EvidenceTable[k].name;
  }

  /** The analyzer `FlatEarthDebateGame()` builds satisfies the hypotheses of the lemmas below. */
  lemma DefaultAnalyzer()
    ensures WellFormed(NewAnalyzer()) && DefaultShape(NewAnalyzer().evidenceWeights)
  {
    NewAnalyzerWellFormed();
    DefaultTableShape();
  }

  /** On a default table, an argument classified as the `k`-th category earns that category's weight. */
  lemma ClassifiedWeight(table: seq<Evidence>, low: string, k: nat)
    requires DefaultShape(table)
    requires k < 5 && ScanResult(table, low).category == Some(CategoryNames[k])
    ensures ScanResult(table, low).weight == CategoryWeights[k]
  {
    ScanSpec(table, low);
    var j :| WinsAmong(table, low, |table|, j) &&
             ScanResult(table, low) == Analysis(Some(table[j].name), table[j].weight);
    assert CategoryNames[j] == CategoryNames[k];
  }

  /**
   * Ties go to the first-declared category: when gravity matches and
   * curvature does not, gravity wins whatever else matches, including the
   * equally heavy time_zones and circumnavigation.
   */
  lemma GravityWinsTies(table: seq<Evidence>, low: string)
    requires DefaultShape(table)
    requires Hits(table, low, 1) && !Hits(table, low, 2)
    ensures ScanResult(table, low) == Analysis(Some("gravity"), 20)
  {
    ScanSpec(table, low);
    assert WinsAmong(table, low, |table|, 1);
  }

  /** Of the two categories of weight 20 after gravity, time_zones is declared first and wins the tie. */
  lemma TimeZonesWinTies(table: seq<Evidence>, low: string)
    requires DefaultShape(table)
    requires Hits(table, low, 3) && !Hits(table, low, 1) && !Hits(table, low, 2)
    ensures ScanResult(table, low) == Analysis(Some("time_zones"), 20)
  {
    ScanSpec(table, low);
    assert WinsAmong(table, low, |table|, 3);
  }

  /** Curvature, the heaviest category, wins whenever it matches. */
  lemma CurvatureWinsWhenMatched(table: seq<Evidence>, low: string)
    requires DefaultShape(table) && Hits(table, low, 2)
    ensures ScanResult(table, low) == Analysis(Some("curvature"), 25)
  {
    ScanSpec(table, low);
    assert WinsAmong(table, low, |table|, 2);
  }

  /**
   * Circumnavigation, declared last, wins exactly when it matches and no
   * heavier or earlier category of its weight (gravity, curvature,
   * time_zones) does.
   */
  lemma CircumnavigationWinsTies(table: seq<Evidence>, low: string)
    requires DefaultShape(table)
    ensures ScanResult(table, low) == Analysis(Some("circumnavigation"), 20) <==>
              Hits(table, low, 4) && !Hits(table, low, 1) && !Hits(table, low, 2) && !Hits(table, low, 3)
  {
    ScanSpec(table, low);
    if Hits(table, low, 4) && !Hits(table, low, 1) && !Hits(table, low, 2) && !Hits(table, low, 3) {
      assert WinsAmong(table, low, |table|, 4);
    }
  }

  /** Satellite, the lightest category, wins exactly when it matches and no other category does. */
  lemma SatelliteWinsAlone(table: seq<Evidence>, low: string)
    requires DefaultShape(table)
    ensures ScanResult(table, low) == Analysis(Some("satellite"), 15) <==>
              Hits(table, low, 0) && forall k :: 1 <= k < 5 ==> !Hits(table, low, k)
  {
    ScanSpec(table, low);
    if Hits(table, low, 0) && forall k :: 1 <= k < 5 ==> !Hits(table, low, k) {
      assert WinsAmong(table, low, |table|, 0);
    }
  }

  // ---------------------------------------------------------------------------
  // Sessions
  // ---------------------------------------------------------------------------

  lemma FiveUnrolled(an: ArgumentAnalyzer, arguments: seq<string>)
    requires |arguments| == 5
    ensures BaseTotal(an, arguments) ==
              Classify(an, arguments[0]).weight + Classify(an, arguments[1]).weight +
              Classify(an, arguments[2]).weight + Classify(an, arguments[3]).weight +
              Classify(an, arguments[4]).weight
  {
    var r1 := arguments[1..];
    var r2 := r1[1..];
    var r3 := r2[1..];
    var r4 := r3[1..];
    assert r1[0] == arguments[1] && r2[0] == arguments[2] && r3[0] == arguments[3] && r4[0] == arguments[4];
    assert r4[1..] == [];
    assert BaseTotal(an, r4) == Classify(an, arguments[4]).weight;
    assert BaseTotal(an, r3) == Classify(an, arguments[3]).weight + BaseTotal(an, r4);
    assert BaseTotal(an, r2) == Classify(an, arguments[2]).weight + BaseTotal(an, r3);
    assert BaseTotal(an, r1) == Classify(an, arguments[1]).weight + BaseTotal(an, r2);
  }

  /** The order in which the winning session's arguments name the categories. */
  const WinningOrder: seq<string> := ["curvature", "gravity", "time_zones", "circumnavigation", "satellite"]

  /** A set holding exactly the winning order's categories is the set of all five. */
  lemma WinningSet(used: set<string>)
    requires forall c :: c in used <==> c in WinningOrder
    ensures used == {"curvature", "gravity", "time_zones", "circumnavigation", "satellite"}
  {
  }

  /** Arguments classified in the winning order carry 25 + 20 + 20 + 20 + 15 = 100 base points. */
  lemma WinningTotal(an: ArgumentAnalyzer, arguments: seq<string>)
    requires DefaultShape(an.evidenceWeights)
    requires |arguments| == 5
    requires forall i :: 0 <= i < 5 ==> Classify(an, arguments[i]).category == Some(WinningOrder[i])
    ensures BaseTotal(an, arguments) == 100
  {
    var table := an.evidenceWeights;
    ClassifiedWeight(table, Lower(arguments[0]), 2);
    ClassifiedWeight(table, Lower(arguments[1]), 1);
    ClassifiedWeight(table, Lower(arguments[2]), 3);
    ClassifiedWeight(table, Lower(arguments[3]), 4);
    ClassifiedWeight(table, Lower(arguments[4]), 0);
    FiveUnrolled(an, arguments);
  }

  /**
   * Five arguments classified, in order, as curvature, gravity, time_zones,
   * circumnavigation and satellite earn 100 points from a fresh session,
   * which convinces the opponent and drives skepticism down to 50.
   */
  lemma FiveCategoriesConvince(an: ArgumentAnalyzer, arguments: seq<string>)
    requires WellFormed(an) && DefaultShape(an.evidenceWeights)
    requires |arguments| == 5
    requires forall i :: 0 <= i < 5 ==> Classify(an, arguments[i]).category == Some(WinningOrder[i])
    ensures var t := Play(an, Initial(), arguments);
            && t.credibilityScore == 100 && Convinced(t) && t.attempts == 5 && t.skepticism == 50.0
            && t.usedArguments == {"curvature", "gravity", "time_zones", "circumnavigation", "satellite"}
  {
    WinningTotal(an, arguments);
    FreshCategoriesAddUp(an, Initial(), arguments, WinningOrder);
    InitialReachable();
    PlayPreserves(an, Initial(), arguments);
    WinningSet(Play(an, Initial(), arguments).usedArguments);
  }

  /**
   * Two satellite arguments in a fresh session: the first earns 15 with no
   * repeat message, the second 15 / 2 = 7 with the repeat message.
   */
  lemma RepeatedSatellite(an: ArgumentAnalyzer, a1: string, a2: string, p1: nat, p2: nat)
    requires WellFormed(an) && DefaultShape(an.evidenceWeights)
    requires Classify(an, a1).category == Some("satellite")
    requires Classify(an, a2).category == Some("satellite")
    ensures var r1 := Submit(an, Initial(), a1, p1);
            var r2 := Submit(an, r1.0, a2, p2);
            && r1.1.Scored? && r1.1.score == 15 && r1.1.repeatMessage == None
            && r2.1.Scored? && r2.1.score == 7 && r2.1.repeatMessage == Some(RepeatMessage)
            && r2.0.credibilityScore == 22 && r2.0.attempts == 2 && r2.0.usedArguments == {"satellite"}
  {
    ClassifiedWeight(an.evidenceWeights, Lower(a1), 0);
    ClassifiedWeight(an.evidenceWeights, Lower(a2), 0);
    RepeatHalves(an, Initial(), a1, a2, p1, p2);
  }
}
