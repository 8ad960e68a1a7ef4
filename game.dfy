/**
 * The debate driver: one `FlatEarthDebateGame` owns a `GameState` and an
 * `ArgumentAnalyzer`. Submitting an argument classifies it, halves the score
 * of a category already used, records the category and updates the score;
 * a hint names a category not used yet. `Submit` and `Hint` are the
 * operations on values; the class methods are specified by them.
 */
module Debate {
  import opened Wrappers
  import opened Text
  import opened Analyzer
  import opened Session

  const NotUnderstoodMessage: string :=
    "I don't understand how that proves the Earth is round. Please provide clearer evidence."
  const RepeatMessage: string := "This type of argument has been used before. Reduced effectiveness."
  const HintPrefix: string := "Try using evidence about "
  /** The hint once every category is used, written as two literals: the verifier reads the characters of short literals only. */
  const FallbackHint: string := "Try combining " + "different types of evidence in your argument"

  /**
   * The dictionary `process_argument` returns: `success` is false for
   * `Rejected` and true for `Scored`.
   */
  datatype Response =
    | Rejected(message: string, state: Status)
    | Scored(category: string, score: int, rebuttal: string, repeatMessage: Option<string>,
             state: Status, evidenceType: string)

  /** The score an argument earns: the base weight, floor-halved when its category was used before. */
  function EffectiveScore(base: int, repeated: bool): (r: int)
    ensures repeated ==> r * 2 <= base < r * 2 + 2
    ensures !repeated ==> r == base
  {
    if repeated then base / 2 else base
  }

  /** A category the classifier returns has a non-empty rebuttal pool and a description. */
  lemma WinnerHasRebuttal(an: ArgumentAnalyzer, text: string)
    requires WellFormed(an) && Classify(an, text).category.Some?
    ensures Pool(an, Classify(an, text).category.value).Some?
    ensures Pool(an, Classify(an, text).category.value).value != []
    ensures GetEvidenceDescription(an, Classify(an, text).category.value).Some?
    ensures Classify(an, text).weight > 0
  {
    ScanSpec(an.evidenceWeights, Lower(text));
    WellFormedPools(an);
  }

  /**
   * `process_argument(argument)` on the state `s`, returning the new state and
   * the response; `pick` resolves `random.choice` of the rebuttal.
   */
  function Submit(an: ArgumentAnalyzer, s: State, argument: string, pick: nat): (res: (State, Response))
    requires WellFormed(an)
    ensures res.1.Rejected? <==> Classify(an, argument).category.None?
    ensures res.1.state == StatusOf(res.0)
  {
    var analysis := Classify(an, argument);
    match analysis.category
    case None => (s, Rejected(NotUnderstoodMessage, StatusOf(s)))
    case Some(c) =>
      WinnerHasRebuttal(an, argument);
      var repeated := c in s.usedArguments;
      var score := EffectiveScore(analysis.weight, repeated);
      var t := ScoreUpdate(s.(usedArguments := s.usedArguments + {c}), score);
      var rebuttal := GetRebuttal(an, c, pick).value;
      var response := Scored(c, score, rebuttal, if repeated then Some(RepeatMessage) else None,
                             StatusOf(t), GetEvidenceDescription(an, c).value);
      (t, response)
  }

  /**
   * What a submission does. Unclassified text is rejected with the state
   * untouched. Otherwise the category is recorded, one attempt is counted,
   * and the score grows by the category's weight, floor-halved with a repeat
   * message when the category was already used. The rebuttal comes from the
   * category's pool and the evidence type is its description.
   */
  lemma SubmitSpec(an: ArgumentAnalyzer, s: State, argument: string, pick: nat)
    requires WellFormed(an)
    ensures var res := Submit(an, s, argument, pick);
            res.1.Rejected? ==> res.0 == s && res.1 == Rejected(NotUnderstoodMessage, StatusOf(s))
    ensures var res := Submit(an, s, argument, pick);
            res.1.Scored? ==>
              var c := res.1.category;
              && Classify(an, argument).category == Some(c)
              && (c in s.usedArguments ==>
                    res.1.score == Classify(an, argument).weight / 2 && res.1.repeatMessage == Some(RepeatMessage))
              && (c !in s.usedArguments ==>
                    res.1.score == Classify(an, argument).weight && res.1.repeatMessage == None)
              && res.1.score >= 0
              && res.0.usedArguments == s.usedArguments + {c}
              && res.0.attempts == s.attempts + 1
              && res.0.credibilityScore == s.credibilityScore + res.1.score
              && res.0 == ScoreUpdate(s.(usedArguments := s.usedArguments + {c}), res.1.score)
              && res.1.rebuttal in Pool(an, c).value
              && Some(res.1.evidenceType) == GetEvidenceDescription(an, c)
  {
    if Classify(an, argument).category.Some? {
      WinnerHasRebuttal(an, argument);
    }
  }

  /** The chosen rebuttal is the only thing `pick` decides: the new state does not depend on it. */
  lemma StateIgnoresPick(an: ArgumentAnalyzer, s: State, argument: string, p: nat, q: nat)
    requires WellFormed(an)
    ensures Submit(an, s, argument, p).0 == Submit(an, s, argument, q).0
  {
  }

  /** Every rebuttal of the category can be the one returned. */
  lemma EveryRebuttalPossible(an: ArgumentAnalyzer, s: State, argument: string, line: string)
    requires WellFormed(an) && Classify(an, argument).category.Some?
    requires line in Pool(an, Classify(an, argument).category.value).value
    ensures exists p: nat :: Submit(an, s, argument, p).1.rebuttal == line
  {
    var c := Classify(an, argument).category.value;
    var lines := Pool(an, c).value;
    var i :| 0 <= i < |lines| && lines[i] == line;
    RebuttalReachable(an, c, i);
    SubmitSpec(an, s, argument, i);
    assert Submit(an, s, argument, i).1.rebuttal == line;
  }

  /** A submission keeps `Reachable`, never lowers the score, and keeps a convinced session convinced. */
  lemma SubmitPreserves(an: ArgumentAnalyzer, s: State, argument: string, pick: nat)
    requires WellFormed(an) && Reachable(s)
    ensures Reachable(Submit(an, s, argument, pick).0)
    ensures Submit(an, s, argument, pick).0.credibilityScore >= s.credibilityScore
    ensures Submit(an, s, argument, pick).0.skepticism <= s.skepticism
    ensures Convinced(s) ==> Convinced(Submit(an, s, argument, pick).0)
    ensures s.usedArguments <= Submit(an, s, argument, pick).0.usedArguments
  {
    SubmitSpec(an, s, argument, pick);
    var res := Submit(an, s, argument, pick);
    if res.1.Scored? {
      RecordPreserves(s, res.1.category, res.1.score);
    }
  }

  /** Recording a category and a non-negative score change keeps what `SubmitPreserves` promises. */
  lemma RecordPreserves(s: State, c: string, delta: int)
    requires Reachable(s) && delta >= 0
    ensures var t := ScoreUpdate(s.(usedArguments := s.usedArguments + {c}), delta);
            && Reachable(t) && t.credibilityScore >= s.credibilityScore && t.skepticism <= s.skepticism
            && (Convinced(s) ==> Convinced(t)) && s.usedArguments <= t.usedArguments
  {
    var u := s.(usedArguments := s.usedArguments + {c});
    UpdateScorePreserves(u, delta);
    if Convinced(s) {
      ConvincedStays(u, delta);
    }
  }

  /**
   * The repeat penalty does not compound: once a category has been used, every
   * further argument of that category earns half its base weight, however
   * often it has been repeated.
   */
  lemma {:induction false} NoCompounding(an: ArgumentAnalyzer, s: State, a1: string, a2: string, a3: string,
                                         p1: nat, p2: nat, p3: nat)
    requires WellFormed(an)
    requires Classify(an, a1).category.Some?
    requires Classify(an, a2).category == Classify(an, a1).category
    requires Classify(an, a3).category == Classify(an, a1).category
    ensures var s1 := Submit(an, s, a1, p1).0;
            var r2 := Submit(an, s1, a2, p2);
            var r3 := Submit(an, r2.0, a3, p3);
            r2.1.score == Classify(an, a2).weight / 2 && r3.1.score == Classify(an, a3).weight / 2
  {
    var s1 := Submit(an, s, a1, p1).0;
    SubmitSpec(an, s, a1, p1);
    SubmitSpec(an, s1, a2, p2);
    SubmitSpec(an, Submit(an, s1, a2, p2).0, a3, p3);
  }

  /** A whole session: the arguments submitted in order, each rebuttal chosen by pick 0. */
  function Play(an: ArgumentAnalyzer, s: State, arguments: seq<string>): (t: State)
    requires WellFormed(an)
    decreases |arguments|
  {
    if arguments == [] then s
    else Play(an, Submit(an, s, arguments[0], 0).0, arguments[1..])
  }

  /**
   * Over a whole session the score never decreases, skepticism never grows,
   * the used categories only accumulate, at most one attempt is counted per
   * argument, and a convinced opponent stays convinced.
   */
  lemma {:induction false} PlayPreserves(an: ArgumentAnalyzer, s: State, arguments: seq<string>)
    requires WellFormed(an) && Reachable(s)
    ensures Reachable(Play(an, s, arguments))
    ensures Play(an, s, arguments).credibilityScore >= s.credibilityScore
    ensures Play(an, s, arguments).skepticism <= s.skepticism
    ensures s.attempts <= Play(an, s, arguments).attempts <= s.attempts + |arguments|
    ensures s.usedArguments <= Play(an, s, arguments).usedArguments
    ensures Convinced(s) ==> Convinced(Play(an, s, arguments))
    decreases |arguments|
  {
    if arguments != [] {
      var s1 := Submit(an, s, arguments[0], 0).0;
      SubmitPreserves(an, s, arguments[0], 0);
      PlayPreserves(an, s1, arguments[1..]);
    }
  }

  /** The sum of the arguments' base weights. */
  function BaseTotal(an: ArgumentAnalyzer, arguments: seq<string>): int
  {
    if arguments == [] then 0 else Classify(an, arguments[0]).weight + BaseTotal(an, arguments[1..])
  }

  /**
   * Arguments of distinct categories none of which has been used earn their
   * full base weights: the session's score grows by exactly their sum, one
   * attempt is counted for each, and their categories are added to the used
   * set.
   */
  lemma {:induction false} FreshCategoriesAddUp(an: ArgumentAnalyzer, s: State, arguments: seq<string>,
                                                 categories: seq<string>)
    requires WellFormed(an) && |categories| == |arguments|
    requires forall i :: 0 <= i < |arguments| ==> Classify(an, arguments[i]).category == Some(categories[i])
    requires forall i :: 0 <= i < |categories| ==> categories[i] !in s.usedArguments
    requires forall i, j :: 0 <= i < j < |categories| ==> categories[i] != categories[j]
    ensures Play(an, s, arguments).credibilityScore == s.credibilityScore + BaseTotal(an, arguments)
    ensures Play(an, s, arguments).attempts == s.attempts + |arguments|
    ensures forall c :: c in Play(an, s, arguments).usedArguments <==> c in s.usedArguments || c in categories
    decreases |arguments|
  {
    if arguments != [] {
      SubmitSpec(an, s, arguments[0], 0);
      var s1 := Submit(an, s, arguments[0], 0).0;
      var rest := arguments[1..];
      var cs := categories[1..];
      assert forall i :: 0 <= i < |rest| ==> rest[i] == arguments[i + 1] && cs[i] == categories[i + 1];
      assert forall i :: 0 <= i < |cs| ==> cs[i] != categories[0];
      FreshCategoriesAddUp(an, s1, rest, cs);
      assert forall c :: c in categories <==> c == categories[0] || c in cs;
    }
  }

  /**
   * A category used for the first time earns its full weight and no repeat
   * message; the next argument of the same category earns half its weight,
   * rounded down, with the repeat message.
   */
  lemma RepeatHalves(an: ArgumentAnalyzer, s: State, a1: string, a2: string, p1: nat, p2: nat)
    requires WellFormed(an) && Classify(an, a1).category.Some?
    requires Classify(an, a2).category == Classify(an, a1).category
    requires Classify(an, a1).category.value !in s.usedArguments
    ensures var r1 := Submit(an, s, a1, p1);
            var r2 := Submit(an, r1.0, a2, p2);
            && r1.1.Scored? && r1.1.score == Classify(an, a1).weight && r1.1.repeatMessage == None
            && r2.1.Scored? && r2.1.score == Classify(an, a2).weight / 2 && r2.1.repeatMessage == Some(RepeatMessage)
            && r2.0.credibilityScore == s.credibilityScore + r1.1.score + r2.1.score
            && r2.0.attempts == s.attempts + 2
            && r2.0.usedArguments == s.usedArguments + {Classify(an, a1).category.value}
  {
    SubmitSpec(an, s, a1, p1);
    SubmitSpec(an, Submit(an, s, a1, p1).0, a2, p2);
  }

  // ---------------------------------------------------------------------------
  // Hints
  // ---------------------------------------------------------------------------

  /** The table's category names that are not in `used`, in table order. */
  function UnusedNames(names: seq<string>, used: set<string>): (r: seq<string>)
    ensures forall c :: c in r <==> c in names && c !in used
  {
    if names == [] then []
    else (if names[0] in used then [] else [names[0]]) + UnusedNames(names[1..], used)
  }

  /**
   * `get_hint()` given the used categories; `pick` resolves `random.choice`
   * over the unused ones.
   */
  function Hint(an: ArgumentAnalyzer, used: set<string>, pick: nat): (h: string)
    ensures (forall c :: c in EvidenceNames(an.evidenceWeights) ==> c in used) ==> h == FallbackHint
  {
    var unused := UnusedNames(EvidenceNames(an.evidenceWeights), used);
    if unused == [] then FallbackHint
    else
      var c := unused[pick % |unused|];
      KeyHasDescription(an, c);
      HintPrefix + GetEvidenceDescription(an, c).value
  }

  /** A name of the table has a description. */
  lemma KeyHasDescription(an: ArgumentAnalyzer, c: string)
    requires c in EvidenceNames(an.evidenceWeights)
    ensures GetEvidenceDescription(an, c).Some?
  {
    var names := EvidenceNames(an.evidenceWeights);
    var k :| 0 <= k < |names| && names[k] == c;
    assert an.evidenceWeights[k].name == c;
  }

  /**
   * With some category unused, the hint describes one of the unused
   * categories and is not the fallback; with all used, it is the fallback.
   */
  lemma HintSpec(an: ArgumentAnalyzer, used: set<string>, pick: nat)
    ensures (exists c :: c in EvidenceNames(an.evidenceWeights) && c !in used) ==>
              exists c :: c in EvidenceNames(an.evidenceWeights) && c !in used &&
                          GetEvidenceDescription(an, c).Some? &&
                          Hint(an, used, pick) == HintPrefix + GetEvidenceDescription(an, c).value
    ensures Hint(an, used, pick) == FallbackHint <==>
              forall c :: c in EvidenceNames(an.evidenceWeights) ==> c in used
  {
    var names := EvidenceNames(an.evidenceWeights);
    var unused := UnusedNames(names, used);
    if unused != [] {
      var i := pick % |unused|;
      var c := unused[i];
      assert c in names && c !in used;
      KeyHasDescription(an, c);
      var d := GetEvidenceDescription(an, c).value;
      assert Hint(an, used, pick) == HintPrefix + d;
      HintDiffersFromFallback(d);
    }
  }

  lemma HintDiffersFromFallback(d: string)
    ensures HintPrefix + d != FallbackHint
  {
    assert (HintPrefix + d)[4] == 'u' && FallbackHint[4] == 'c';
  }

  lemma ModSmall(i: nat, n: nat)
    requires i < n
    ensures i % n == i
  {
  }

  /** Every unused category can be the one the hint describes. */
  lemma EveryUnusedHintPossible(an: ArgumentAnalyzer, used: set<string>, c: string)
    requires c in EvidenceNames(an.evidenceWeights) && c !in used
    ensures GetEvidenceDescription(an, c).Some?
    ensures exists p: nat :: Hint(an, used, p) == HintPrefix + GetEvidenceDescription(an, c).value
  {
    KeyHasDescription(an, c);
    var unused := UnusedNames(EvidenceNames(an.evidenceWeights), used);
    assert c in unused;
    var i :| 0 <= i < |unused| && unused[i] == c;
    ModSmall(i, |unused|);
    var h := Hint(an, used, i);
    assert h == HintPrefix + GetEvidenceDescription(an, unused[i % |unused|]).value;
  }

  /**
   * `FlatEarthDebateGame`: the session's mutable state and the analyzer built
   * by `ArgumentAnalyzer()`.
   */
  class FlatEarthDebateGame {
    const gameState: GameState
    const analyzer: ArgumentAnalyzer

    /** The analyzer's tables satisfy their invariants; since both fields are constants, this holds for good. */
    ghost predicate Valid()
    {
      WellFormed(analyzer)
    }

    constructor ()
      ensures fresh(gameState) && gameState.Model() == Initial()
      ensures analyzer == NewAnalyzer() && Valid()
    {
      gameState := new GameState();
      analyzer := NewAnalyzer();
      NewAnalyzerWellFormed();
    }

    /** `process_argument(argument)`; `pick` resolves the choice of rebuttal. */
    method ProcessArgument(argument: string, pick: nat) returns (response: Response)
      requires Valid()
      modifies gameState
      ensures (gameState.Model(), response) == Submit(analyzer, old(gameState.Model()), argument, pick)
    {
      ghost var before := gameState.Model();
      var category, score := AnalyzeArgument(analyzer, argument);
      if category.None? {
        response := Rejected(NotUnderstoodMessage, gameState.GetStatus());
        assert (gameState.Model(), response) == Submit(analyzer, before, argument, pick);
        return;
      }
      var c := category.value;
      WinnerHasRebuttal(analyzer, argument);
      var repeatMessage: Option<string>;
      if c in gameState.usedArguments {
        score := score / 2;
        repeatMessage := Some(RepeatMessage);
      } else {
        repeatMessage := None;
      }
      gameState.usedArguments := gameState.usedArguments + {c};
      gameState.UpdateScore(score);
      var rebuttal := GetRebuttal(analyzer, c, pick).value;
      response := Scored(c, score, rebuttal, repeatMessage, gameState.GetStatus(),
                         GetEvidenceDescription(analyzer, c).value);
      assert (gameState.Model(), response) == Submit(analyzer, before, argument, pick);
    }

    /** `get_hint()`. */
    function GetHint(pick: nat): (h: string)
      reads gameState
      ensures h == Hint(analyzer, gameState.usedArguments, pick)
    {
      Hint(analyzer, gameState.usedArguments, pick)
    }
  }
}
