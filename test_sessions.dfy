/**
 * The unit tests' sessions, on the tests' own sentences: the score update of
 * a fresh state, a satellite argument repeated with a different sentence, and
 * five arguments of distinct categories that win the game. Each is stated
 * once on values and once as the test drives the objects.
 */
module TestSessions {
  import opened Wrappers
  import opened Analyzer
  import opened Session
  import opened Debate
  import opened Scenarios
  import opened Words
  import opened Keywords
  import opened Sentences

  /** The first and the repeated satellite argument of the repeated-argument test. */
  const FirstSatellite: string := JoinWords(NasaPhotosWords)
  const SecondSatellite: string := JoinWords(SatelliteImagesWords)

  /** The winning test's arguments, in the order it submits them. */
  const WinningArguments: seq<string> :=
    [JoinWords(ShipsDisappearWords), JoinWords(GravityPullsWords), JoinWords(TimeZonesWords),
     JoinWords(SailedAroundWords), JoinWords(FromSpaceWords)]

  /**
   * A fresh game scores "NASA has satellite photos" 15 and then "There are
   * many satellite images", of the same category, half as much, whichever
   * rebuttals are chosen.
   */
  lemma RepeatedArguments(p1: nat, p2: nat)
    ensures WellFormed(NewAnalyzer())
    ensures var r1 := Submit(NewAnalyzer(), Initial(), FirstSatellite, p1);
            var r2 := Submit(NewAnalyzer(), r1.0, SecondSatellite, p2);
            && r1.1.Scored? && r1.1.score == 15
            && r2.1.Scored? && r2.1.score == r1.1.score / 2 && r2.1.repeatMessage == Some(RepeatMessage)
  {
    DefaultTableHolds();
    NasaPhotosClassified(NewAnalyzer());
    SatelliteImagesClassified(NewAnalyzer());
    RepeatedSatellite(NewAnalyzer(), FirstSatellite, SecondSatellite, p1, p2);
  }

  /** Five arguments classified one by one in the winning order. */
  lemma InWinningOrder(an: ArgumentAnalyzer, arguments: seq<string>)
    requires |arguments| == 5
    requires Classify(an, arguments[0]).category == Some("curvature")
    requires Classify(an, arguments[1]).category == Some("gravity")
    requires Classify(an, arguments[2]).category == Some("time_zones")
    requires Classify(an, arguments[3]).category == Some("circumnavigation")
    requires Classify(an, arguments[4]).category == Some("satellite")
    ensures forall i :: 0 <= i < 5 ==> Classify(an, arguments[i]).category == Some(WinningOrder[i])
  {
  }

  /** The five winning arguments fall into curvature, gravity, time_zones, circumnavigation and satellite. */
  lemma WinningClassified(an: ArgumentAnalyzer)
    requires DefaultTable(an.evidenceWeights)
    ensures forall i :: 0 <= i < 5 ==> Classify(an, WinningArguments[i]).category == Some(WinningOrder[i])
  {
    ShipsDisappearClassified(an);
    GravityPullsClassified(an);
    TimeZonesClassified(an);
    SailedAroundClassified(an);
    FromSpaceClassified(an);
    InWinningOrder(an, WinningArguments);
  }

  /** The winning test's five arguments take a fresh game to 100 points, which convinces the opponent. */
  lemma WinningCondition()
    ensures WellFormed(NewAnalyzer())
    ensures var t := Play(NewAnalyzer(), Initial(), WinningArguments);
            && Convinced(t) && t.credibilityScore == 100 && t.attempts == 5 && t.skepticism == 50.0
  {
    DefaultTableHolds();
    WinningClassified(NewAnalyzer());
    FiveCategoriesConvince(NewAnalyzer(), WinningArguments);
  }

  /** A session's remaining arguments, one of them submitted with any pick, end where they would with pick 0. */
  lemma PlayStep(an: ArgumentAnalyzer, s: State, arguments: seq<string>, i: nat, pick: nat)
    requires WellFormed(an) && i < |arguments|
    ensures Play(an, Submit(an, s, arguments[i], pick).0, arguments[i + 1..]) == Play(an, s, arguments[i..])
  {
    StateIgnoresPick(an, s, arguments[i], pick, 0);
    assert arguments[i..][0] == arguments[i] && arguments[i..][1..] == arguments[i + 1..];
  }

  /** `test_score_updating`: a fresh state gains the 20 points it is given and counts one attempt. */
  method ScoreUpdating() returns (gained: int, attempts: int)
    ensures gained == 20 && attempts == 1
  {
    var state := new GameState();
    var initialScore := state.credibilityScore;
    state.UpdateScore(20);
    gained := state.credibilityScore - initialScore;
    attempts := state.attempts;
  }

  /** `test_repeated_arguments`: the repeated category's score is the first score halved, rounded down. */
  method RepeatedArgumentsGame(p1: nat, p2: nat) returns (initialScore: int, repeatedScore: int)
    ensures initialScore == 15 && repeatedScore == initialScore / 2
  {
    var game := new FlatEarthDebateGame();
    RepeatedArguments(p1, p2);
    var result := game.ProcessArgument(FirstSatellite, p1);
    initialScore := result.score;
    result := game.ProcessArgument(SecondSatellite, p2);
    repeatedScore := result.score;
  }

  /** `test_winning_condition`: after the five arguments, whichever rebuttals are chosen, the opponent is convinced. */
  method WinningGame(picks: seq<nat>) returns (convinced: bool)
    requires |picks| == |WinningArguments|
    ensures convinced
  {
    var game := new FlatEarthDebateGame();
    WinningCondition();
    var i := 0;
    while i < |WinningArguments|
      invariant 0 <= i <= |WinningArguments| && game.Valid() && game.analyzer == NewAnalyzer()
      invariant Play(NewAnalyzer(), game.gameState.Model(), WinningArguments[i..]) ==
                Play(NewAnalyzer(), Initial(), WinningArguments)
      modifies game.gameState
    {
      ghost var before := game.gameState.Model();
      var _ := game.ProcessArgument(WinningArguments[i], picks[i]);
      PlayStep(NewAnalyzer(), before, WinningArguments, i, picks[i]);
      i := i + 1;
    }
    assert WinningArguments[i..] == [];
    convinced := game.gameState.IsConvinced();
  }
}
