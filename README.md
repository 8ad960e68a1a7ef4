# Flat Earth debate game — a Dafny model of its core

The game lets a player argue that the Earth is round against a skeptical
opponent. Each argument is classified by keywords into one of five evidence
categories. Each category carries a weight, and the weight is added to the
player's credibility score. A category used before earns half its weight,
rounded down. Skepticism drops by half of each score change. The opponent is
convinced once the score reaches 100.

The model has three parts, one per source file:

- `argument_analyzer.dfy` (module `Analyzer`): the two tables built by
  `ArgumentAnalyzer.__init__`, the classifier, and the two table lookups.
  The tables are Python dicts whose insertion order decides ties, so they are
  sequences of records here. The classifier is written twice. `Classify` is
  a specification function. `AnalyzeArgument` is a method with the source's
  nested loops, proved to compute `Classify`.
- `game_state.dfy` (module `Session`): the mutable `GameState` class. It is
  specified through its value `State`: each method is tied to a function on
  `State`, and those functions carry the invariants.
- `game.dfy` (module `Debate`): `FlatEarthDebateGame`. Its
  `ProcessArgument` updates the game state in place. The method is proved
  equal to the function `Submit`, and the properties of whole sessions are
  stated about `Submit`. `GetHint` is specified by `Hint`.

Supporting files:

- `text.dfy` (module `Text`): ASCII lower-casing and substring containment.
- `wrappers.dfy`: an `Option` type. `None` stands for Python's `KeyError`.
- `scenarios.dfy` (module `Scenarios`): the default table's tie-breaks, and
  sessions of arguments whose categories are given.
- `keywords.dfy` (module `Keywords`): which category wins on the default
  tables, from the keywords a text contains and the keyword lists it misses.
- `words.dfy` (module `Words`): sentences as words joined by single spaces,
  and what lower-casing and substring search do to them word by word.
- `sentences.dfy` (module `Sentences`): the classification of all nine
  sentences of the unit tests `flat_earth_game/tests/test_game.py`.
- `test_sessions.dfy` (module `TestSessions`): the unit tests' sessions on
  those sentences, once on values and once driving the objects as the tests
  do.

`random.choice` is modelled by a `pick: nat` argument. The element chosen is
`pool[pick % |pool|]`. The model proves that every element can be chosen and
that nothing else can be.

Where the code and its documentation disagree, the model follows the code.
The docstring of `is_convinced` says the score must exceed the threshold,
but the code tests `>=`, so a score of exactly 100 wins.

## Model

| member | source | states |
|---|---|---|
| Text.LowerHasNoUpper | flat_earth_game/argument_analyzer.py:82 | after `lower()` no upper-case ASCII letter remains |
| Text.LowerIdempotent | flat_earth_game/argument_analyzer.py:82 | lower-casing an already lower-cased text changes nothing |
| Analyzer.NewAnalyzerWellFormed | flat_earth_game/argument_analyzer.py:15-69 | the tables `__init__` builds have unique keys and positive weights; the rebuttal table has the same keys in the same order, each with a non-empty list |
| Analyzer.WellFormedPools | flat_earth_game/argument_analyzer.py:15-69 | in well-formed tables, every evidence key has a non-empty rebuttal list under the same key |
| Analyzer.IndexOf | flat_earth_game/argument_analyzer.py:106 | dict lookup: `None` exactly when the key is absent, otherwise the first position holding that key |
| Analyzer.Pool | flat_earth_game/argument_analyzer.py:106 | `rebuttals[category]`: `None` exactly when no entry has that key, otherwise the list of an entry with that key |
| Analyzer.GetRebuttal | flat_earth_game/argument_analyzer.py:95-106 | the rebuttal is an element of `rebuttals[category]`; `None` exactly when the key is missing or the list is empty |
| Analyzer.RebuttalReachable | flat_earth_game/argument_analyzer.py:106 | every element of the category's list is returned for some pick |
| Analyzer.GetEvidenceDescription | flat_earth_game/argument_analyzer.py:108-118 | `None` exactly when the key is missing, otherwise the description of the entry with that key |
| Analyzer.AnyKeywordIff | flat_earth_game/argument_analyzer.py:87-88 | a category matches exactly when one of its keywords, lower-cased, is a substring of the lower-cased text |
| Analyzer.BestIndexSpec | flat_earth_game/argument_analyzer.py:86-91 | after scanning the first n categories the kept category hits, is at least as heavy as every hit, and is strictly heavier than every earlier hit; nothing is kept exactly when no hit has positive weight |
| Analyzer.WinnerUnique | flat_earth_game/argument_analyzer.py:89 | at most one category meets that description |
| Analyzer.ScanSpec | flat_earth_game/argument_analyzer.py:82-93 | over a valid table, the result is `(None, 0)` exactly when no category matches; otherwise it is the unique winner's name and table weight, and that weight is positive |
| Analyzer.SoleMatchWins | flat_earth_game/argument_analyzer.py:86-93 | a text matching exactly one category yields that category and its weight |
| Analyzer.HeavierMatchWins | flat_earth_game/argument_analyzer.py:89-91 | when two categories of different weights both match, the lighter one is never returned, whatever the keyword order in the text, and the result weighs at least as much as the heavier one |
| Analyzer.ClassifyIgnoresCase | flat_earth_game/argument_analyzer.py:82-88 | a text and its lower-cased form are classified alike |
| Analyzer.AnalyzeArgument | flat_earth_game/argument_analyzer.py:71-93 | the nested keyword loops return exactly `Classify`'s category and weight |
| Session.ScoreUpdate | flat_earth_game/game_state.py:18-27 | the score moves by exactly the change; attempts go up by exactly 1; the used set is unchanged; skepticism is exactly `old - change/2` when that is non-negative and 0 when it is not, i.e. `max(0, old - change/2)`, and never increases for a non-negative change |
| Session.StatusOf | flat_earth_game/game_state.py:38-51 | `convinced` holds exactly when the score is at least 100; the other fields mirror the state |
| Session.InitialReachable | flat_earth_game/game_state.py:10-16 | the initial state satisfies the session invariant and is not convinced |
| Session.UpdateScorePreserves | flat_earth_game/game_state.py:25-27 | a non-negative change keeps the invariant that skepticism is `max(0, 100 - score/2)`, so it stays in [0, 100] |
| Session.ConvincedStays | flat_earth_game/game_state.py:29-36 | once convinced, a non-negative change keeps the session convinced |
| Session.GameState.constructor | flat_earth_game/game_state.py:10-16 | score 0, attempts 0, no used categories, skepticism 100 |
| Session.GameState.UpdateScore | flat_earth_game/game_state.py:18-27 | the object's new fields are `ScoreUpdate` of the old ones |
| Session.GameState.IsConvinced | flat_earth_game/game_state.py:29-36 | true exactly when the score is at least the threshold 100 |
| Session.GameState.GetStatus | flat_earth_game/game_state.py:38-51 | reads the fields without changing them and returns `StatusOf` the state |
| Debate.EffectiveScore | flat_earth_game/game.py:37-41 | a repeated category earns the floor of half its base weight; a new one earns the base weight |
| Debate.WinnerHasRebuttal | flat_earth_game/game.py:46-55 | a category the classifier returns has a non-empty rebuttal list and a description, so the source's lookups cannot raise |
| Debate.Submit | flat_earth_game/game.py:18-56 | the argument is rejected exactly when it is unclassified; the returned status is that of the new state |
| Debate.SubmitSpec | flat_earth_game/game.py:28-56 | rejection leaves the state untouched. Otherwise the category is recorded and one attempt is counted. The score grows by the full or halved weight, with a repeat message exactly when halved. The rebuttal comes from the category's list, and the evidence type is its description |
| Debate.StateIgnoresPick | flat_earth_game/game.py:43-46 | the rebuttal choice does not affect the new state |
| Debate.EveryRebuttalPossible | flat_earth_game/game.py:46 | every rebuttal of the category can be the one returned |
| Debate.SubmitPreserves | flat_earth_game/game.py:37-44 | a submission keeps the session invariant; the score never decreases, skepticism never increases, the used set only grows, and a convinced session stays convinced |
| Debate.RecordPreserves | flat_earth_game/game.py:43-44 | recording a category and then adding a non-negative score keeps those properties |
| Debate.NoCompounding | flat_earth_game/game.py:28-38 | the second and third arguments of one category both earn half their base weight |
| Debate.PlayPreserves | flat_earth_game/game.py:18-56 | over any sequence of submissions: the score never decreases, skepticism never increases, attempts grow by at most one per argument, used categories accumulate, and a convinced session stays convinced |
| Debate.FreshCategoriesAddUp | flat_earth_game/game.py:37-44 | arguments of distinct, unused categories add exactly their base weights and one attempt each, and add exactly their categories to the used set |
| Debate.RepeatHalves | flat_earth_game/game.py:37-41 | a first use earns the full weight with no message; the next use of the same category earns half, with the repeat message |
| Debate.UnusedNames | flat_earth_game/game.py:65 | exactly the table keys not in the used set |
| Debate.Hint | flat_earth_game/game.py:58-70 | when every category has been used, the hint is the fixed fallback string |
| Debate.HintSpec | flat_earth_game/game.py:65-70 | with some category unused, the hint is "Try using evidence about " plus the description of an unused category; it is the fallback exactly when every category has been used |
| Debate.HintDiffersFromFallback | flat_earth_game/game.py:69-70 | no templated hint equals the fallback string |
| Debate.EveryUnusedHintPossible | flat_earth_game/game.py:66-69 | every unused category's description can be the one offered |
| Debate.FlatEarthDebateGame.constructor | flat_earth_game/game.py:13-16 | a fresh initial game state and the default analyzer, whose tables are well-formed |
| Debate.FlatEarthDebateGame.ProcessArgument | flat_earth_game/game.py:18-56 | the in-place update of the game state and the response are exactly `Submit` of the old state |
| Debate.FlatEarthDebateGame.GetHint | flat_earth_game/game.py:58-70 | reads the game state and returns `Hint` of its used categories |
| Scenarios.DefaultAnalyzer | flat_earth_game/argument_analyzer.py:15-41 | the default analyzer is well-formed, with the five categories and weights 15, 20, 25, 20, 20 in declaration order |
| Scenarios.ClassifiedWeight | flat_earth_game/argument_analyzer.py:15-41 | on the default table, an argument classified as a category earns that category's weight |
| Scenarios.GravityWinsTies | flat_earth_game/argument_analyzer.py:21-40 | when gravity matches and curvature does not, the result is `("gravity", 20)`, even if time_zones or circumnavigation (also 20) match |
| Scenarios.TimeZonesWinTies | flat_earth_game/argument_analyzer.py:31-40 | time_zones, declared before circumnavigation, wins their tie |
| Scenarios.SatelliteWinsAlone | flat_earth_game/argument_analyzer.py:16-40 | the result is `("satellite", 15)` exactly when satellite matches and no other category does |
| Scenarios.WinningTotal | flat_earth_game/tests/test_game.py:50-64 | arguments classified in the test's order earn 25 + 20 + 20 + 20 + 15 = 100 base points |
| Scenarios.FiveCategoriesConvince | flat_earth_game/tests/test_game.py:50-64 | any five arguments classified in the test's order, from a fresh session, give score 100 and 5 attempts; the opponent is convinced, skepticism is 50, and all five categories are used |
| Scenarios.RepeatedSatellite | flat_earth_game/tests/test_game.py:40-48 | two satellite arguments in a fresh session score 15 and then 7 with the repeat message: 22 points, 2 attempts |
| Scenarios.CurvatureWinsWhenMatched | flat_earth_game/argument_analyzer.py:26-30 | curvature, the heaviest category, gives `("curvature", 25)` whenever it matches |
| Scenarios.CircumnavigationWinsTies | flat_earth_game/argument_analyzer.py:21-40 | circumnavigation, declared last among the weight-20 categories, wins exactly when it matches and gravity, curvature and time_zones all miss |
| Keywords.DefaultTableHolds | flat_earth_game/argument_analyzer.py:15-41 | the analyzer `__init__` builds is well-formed and carries the five default keyword lists, names and weights |
| Keywords.LacksAllBy | flat_earth_game/argument_analyzer.py:87-88 | a text lacks every keyword of a list when each keyword is known to be missing or holds a letter the text lacks |
| Keywords.Matches | flat_earth_game/argument_analyzer.py:87-88 | a text containing one keyword of a lower-case list matches that category |
| Keywords.Misses | flat_earth_game/argument_analyzer.py:87-88 | a text containing none of a lower-case list's keywords does not match that category |
| Keywords.CurvatureCase | flat_earth_game/argument_analyzer.py:26-30 | on the default tables, a text containing a curvature keyword is `("curvature", 25)` |
| Keywords.GravityCase | flat_earth_game/argument_analyzer.py:21-30 | a gravity keyword and no curvature keyword give `("gravity", 20)` |
| Keywords.TimeZonesCase | flat_earth_game/argument_analyzer.py:21-35 | a time_zones keyword and no curvature or gravity keyword give `("time_zones", 20)` |
| Keywords.CircumnavigationCase | flat_earth_game/argument_analyzer.py:21-40 | a circumnavigation keyword and no curvature, gravity or time_zones keyword give `("circumnavigation", 20)` |
| Keywords.SatelliteCase | flat_earth_game/argument_analyzer.py:16-40 | a satellite keyword and no keyword of any other category give `("satellite", 15)` |
| Sentences.ManyPhotosClassified | flat_earth_game/tests/test_game.py:21-24 | "NASA has many satellite photos of Earth" is classified as `("satellite", 15)` |
| Sentences.GravityProvesClassified | flat_earth_game/tests/test_game.py:26-29 | "Gravity proves Earth is round" is classified as `("gravity", 20)` |
| Sentences.NasaPhotosClassified | flat_earth_game/tests/test_game.py:43 | "NASA has satellite photos" is classified as `("satellite", 15)` |
| Sentences.SatelliteImagesClassified | flat_earth_game/tests/test_game.py:47 | "There are many satellite images" is classified as `("satellite", 15)` |
| Sentences.ShipsDisappearClassified | flat_earth_game/tests/test_game.py:54 | "Ships disappear bottom-first over the horizon" is classified as `("curvature", 25)` |
| Sentences.GravityPullsClassified | flat_earth_game/tests/test_game.py:55 | "Gravity pulls everything to the center" is classified as `("gravity", 20)` |
| Sentences.TimeZonesClassified | flat_earth_game/tests/test_game.py:56 | "Different time zones prove Earth is round" is classified as `("time_zones", 20)`; "time zone" spans two words |
| Sentences.SailedAroundClassified | flat_earth_game/tests/test_game.py:57 | "People have sailed around the world" is classified as `("circumnavigation", 20)`: it holds "around" and no keyword of curvature, gravity or time_zones |
| Sentences.FromSpaceClassified | flat_earth_game/tests/test_game.py:58 | "Satellites show Earth from space" is classified as `("satellite", 15)` |
| TestSessions.ScoreUpdating | flat_earth_game/tests/test_game.py:31-38 | a fresh `GameState` given 20 points gains exactly 20 and counts one attempt |
| TestSessions.RepeatedArguments | flat_earth_game/tests/test_game.py:40-48 | in a fresh game the first satellite sentence scores 15 and the second, of the same category, scores half of that with the repeat message, whatever rebuttals are picked |
| TestSessions.RepeatedArgumentsGame | flat_earth_game/tests/test_game.py:40-48 | driving a new `FlatEarthDebateGame` through the two sentences, the second score is the first (15) halved, rounded down |
| TestSessions.WinningClassified | flat_earth_game/tests/test_game.py:53-59 | the five winning sentences fall, in order, into curvature, gravity, time_zones, circumnavigation and satellite |
| TestSessions.WinningCondition | flat_earth_game/tests/test_game.py:50-64 | the five sentences take a fresh session to score 100 and 5 attempts with skepticism 50, and the opponent is convinced |
| TestSessions.WinningGame | flat_earth_game/tests/test_game.py:50-64 | a new `FlatEarthDebateGame` fed the five sentences in a loop ends convinced, whichever rebuttals are picked |

## Left out

- `main` in `flat_earth_game/game.py` is left out: a console loop of `input` and `print`.
- `flat_earth_game/web_interface.py`, `flat_earth_game/quai_integration.py`
  and `flat_earth_game/solana_integration.py` are not part of this model.
  They hold HTTP routing, blockchain calls and network I/O.
- Randomness: `random.choice` becomes the `pick` argument. The model states
  which results are possible, not how likely each one is.
- The used categories are a set, as in `GameState`. `get_status` returns
  them as a list in an unspecified order; the model keeps the set.
- Lower-casing covers ASCII letters only. Python's `str.lower()` also maps
  other Unicode letters, which no keyword uses.
- Skepticism is a Dafny `real`. Python computes it as a float (after the
  first update) with exact halves of small integers, so nothing is lost.
  IEEE rounding is not modelled.
- `KeyError` from a missing dict key, and `IndexError` from `random.choice`
  on an empty list, become `None`.
- Analyzer.WellFormed: the model's invariant asks the rebuttal table to have
  the same keys in the same order as the evidence table. The source only
  needs every evidence key to be present; `__init__` builds both tables
  that way.
- Debate.Play: whole sessions choose the first rebuttal (pick 0). The new
  state does not depend on the pick (`Debate.StateIgnoresPick`).
- Sentences: each test sentence is written as its words joined by single
  spaces, which is the same string. Each classification is proved for any
  analyzer with the default tables, which includes the one the game builds.
