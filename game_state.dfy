/**
 * The session state of one debate: the credibility score the player has
 * built up, the number of scored arguments, the opponent's skepticism and the
 * evidence categories already used. `GameState` is the mutable object; `State`
 * is its value, in terms of which the operations are specified.
 */
module Session {

  /** The score at which the opponent is convinced. */
  const ConfidenceThreshold: int := 100

  /** Skepticism of a fresh session, in percent. */
  const InitialSkepticism: real := 100.0

  /** The fields of a `GameState`, as a value. Skepticism is a real: Python divides with `/`. */
  datatype State = State(credibilityScore: int, attempts: nat, usedArguments: set<string>, skepticism: real)

  /** The dictionary `get_status` returns; the list of used arguments is kept as a set. */
  datatype Status = Status(credibilityScore: int, attempts: nat, skepticism: real, convinced: bool,
                           usedArguments: set<string>)

  function Max(a: real, b: real): real
  {
    if a >= b then a else b
  }

  /** `GameState.__init__`. */
  function Initial(): State
  {
    State(0, 0, {}, InitialSkepticism)
  }

  /** `is_convinced`: the score has reached the threshold (100 itself suffices). */
  predicate Convinced(s: State)
  {
    s.credibilityScore >= ConfidenceThreshold
  }

  /**
   * `update_score(scoreChange)`: the score moves by exactly `scoreChange`, one
   * more attempt is counted and skepticism drops by half the change, never
   * below zero; the used categories are left alone.
   */
  function ScoreUpdate(s: State, scoreChange: int): (t: State)
    ensures t.credibilityScore - s.credibilityScore == scoreChange
    ensures t.attempts == s.attempts + 1
    ensures t.usedArguments == s.usedArguments
    ensures t.skepticism >= 0.0
    ensures t.skepticism == 0.0 || t.skepticism == s.skepticism - scoreChange as real / 2.0
    ensures s.skepticism - scoreChange as real / 2.0 >= 0.0 ==> t.skepticism == s.skepticism - scoreChange as real / 2.0
    ensures s.skepticism - scoreChange as real / 2.0 <= 0.0 ==> t.skepticism == 0.0
    ensures s.skepticism >= 0.0 && scoreChange >= 0 ==> t.skepticism <= s.skepticism
  {
    State(s.credibilityScore + scoreChange, s.attempts + 1, s.usedArguments,
          Max(0.0, s.skepticism - scoreChange as real / 2.0))
  }

  /** `get_status`: the fields mirrored, with `convinced` computed by `is_convinced`. */
  function StatusOf(s: State): (st: Status)
    ensures st.convinced <==> s.credibilityScore >= 100
    ensures st.credibilityScore == s.credibilityScore && st.attempts == s.attempts
    ensures st.skepticism == s.skepticism && st.usedArguments == s.usedArguments
  {
    Status(s.credibilityScore, s.attempts, s.skepticism, Convinced(s), s.usedArguments)
  }

  /**
   * What holds of every state reached from `Initial` by non-negative score
   * changes: the score is non-negative and skepticism is exactly what is left
   * of 100 after subtracting half the score, clamped at 0, so it lies in
   * [0, 100].
   */
  ghost predicate Reachable(s: State)
  {
    s.credibilityScore >= 0 &&
    s.skepticism == Max(0.0, InitialSkepticism - s.credibilityScore as real / 2.0)
  }

  lemma InitialReachable()
    ensures Reachable(Initial())
    ensures !Convinced(Initial())
  {
  }

  /** A non-negative score change preserves `Reachable`, and then skepticism stays in [0, 100]. */
  lemma UpdateScorePreserves(s: State, scoreChange: int)
    requires Reachable(s) && scoreChange >= 0
    ensures Reachable(ScoreUpdate(s, scoreChange))
    ensures 0.0 <= ScoreUpdate(s, scoreChange).skepticism <= InitialSkepticism
  {
    var x := scoreChange as real / 2.0;
    var t := ScoreUpdate(s, scoreChange);
    assert t.credibilityScore as real / 2.0 == s.credibilityScore as real / 2.0 + x;
  }

  /** Once convinced, a non-negative score change keeps the session convinced. */
  lemma ConvincedStays(s: State, scoreChange: int)
    requires Convinced(s) && scoreChange >= 0
    ensures Convinced(ScoreUpdate(s, scoreChange))
  {
  }

  /**
   * The mutable game state. `Model()` reads its fields as a `State`; each
   * method is specified by a function on `State`.
   */
  class GameState {
    var credibilityScore: int
    var attempts: nat
    const confidenceThreshold: int := ConfidenceThreshold
    var usedArguments: set<string>
    var currentSkepticism: real

    function Model(): State
      reads this
    {
      State(credibilityScore, attempts, usedArguments, currentSkepticism)
    }

    constructor ()
      ensures Model() == Initial()
    {
      credibilityScore := 0;
      attempts := 0;
      usedArguments := {};
      currentSkepticism := InitialSkepticism;
    }

    method UpdateScore(scoreChange: int)
      modifies this
      ensures Model() == ScoreUpdate(old(Model()), scoreChange)
    {
      credibilityScore := credibilityScore + scoreChange;
      attempts := attempts + 1;
      currentSkepticism := Max(0.0, currentSkepticism - scoreChange as real / 2.0);
    }

    function IsConvinced(): (r: bool)
      reads this
      ensures r <==> Convinced(Model())
    {
      credibilityScore >= confidenceThreshold
    }

    function GetStatus(): (st: Status)
      reads this
      ensures st == StatusOf(Model())
    {
      Status(credibilityScore, attempts, currentSkepticism, IsConvinced(), usedArguments)
    }
  }
}
