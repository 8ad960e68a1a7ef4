/**
 * The sentences of the unit tests, classified in the model. Each sentence is
 * written as its words joined by single spaces (`" ".join(words)`), so that
 * the proofs work word by word: a keyword the sentence contains is one of its
 * words (or two neighbouring words), and a keyword it lacks either has a
 * letter the sentence lacks or occurs in none of its words.
 */
module Sentences {
  import opened Wrappers
  import opened Text
  import opened Analyzer
  import opened Keywords
  import opened Words

  // ---------------------------------------------------------------------------
  // "NASA has many satellite photos of Earth"
  // ---------------------------------------------------------------------------

  /** The words of "NASA has many satellite photos of Earth", which `JoinWords` joins back into the sentence. */
  const ManyPhotosWords: seq<string> := ["NASA", "has", "many", "satellite", "photos", "of", "Earth"]
  const ManyPhotosLowWords: seq<string> := ["nasa", "has", "many", "satellite", "photos", "of", "earth"]

  lemma ManyPhotosWordsLowered()
    ensures LowerAll(ManyPhotosWords) == ManyPhotosLowWords
  {
    LowerWord("NASA", "nasa");
    LowerWord("has", "has");
    LowerWord("many", "many");
    LowerWord("satellite", "satellite");
    LowerWord("photos", "photos");
    LowerWord("of", "of");
    LowerWord("Earth", "earth");
    LowerAllOf(ManyPhotosWords, ManyPhotosLowWords);
  }

  lemma ManyPhotosLowered()
    ensures Lower(JoinWords(ManyPhotosWords)) == JoinWords(ManyPhotosLowWords)
  {
    LowerJoin(ManyPhotosWords);
    ManyPhotosWordsLowered();
  }

  lemma ManyPhotosHit()
    ensures Contains(JoinWords(ManyPhotosLowWords), "satellite")
  {
    WordAt(ManyPhotosLowWords, 3);
  }

  lemma ManyPhotosLetters()
    ensures forall c :: c in JoinWords(ManyPhotosLowWords) ==> c in " aefhilmnoprsty"
  {
    assert forall i :: 0 <= i < |ManyPhotosLowWords| ==> forall c :: c in ManyPhotosLowWords[i] ==> c in " aefhilmnoprsty";
    WordsAlphabet(ManyPhotosLowWords, " aefhilmnoprsty");
  }

  lemma ManyPhotosAbsentLetters(low: string)
    requires forall c :: c in low ==> c in " aefhilmnoprsty"
    ensures 'c' !in low && 'z' !in low && 'd' !in low && 'g' !in low && 'u' !in low
  {
  }

  /** The letters the lowered sentence lacks. */
  lemma ManyPhotosLacksLetters()
    ensures var low := JoinWords(ManyPhotosLowWords);
            'c' !in low && 'z' !in low && 'd' !in low && 'g' !in low && 'u' !in low
  {
    ManyPhotosLetters();
    ManyPhotosAbsentLetters(JoinWords(ManyPhotosLowWords));
  }

  lemma ManyPhotosWordsLackShip()
    ensures forall i :: 0 <= i < |ManyPhotosLowWords| ==> !Contains(ManyPhotosLowWords[i], "ship")
  {
    AbsentChar("nasa", "ship", 'h');
    AbsentChar("has", "ship", 'i');
    AbsentChar("many", "ship", 's');
    AbsentChar("satellite", "ship", 'h');
    AbsentChar("photos", "ship", 'i');
    AbsentChar("of", "ship", 's');
    AbsentChar("earth", "ship", 's');
  }

  lemma ManyPhotosWordsLackMass()
    ensures forall i :: 0 <= i < |ManyPhotosLowWords| ==> !Contains(ManyPhotosLowWords[i], "mass")
  {
    AbsentChar("nasa", "mass", 'm');
    AbsentChar("has", "mass", 'm');
    AbsentChar("many", "mass", 's');
    AbsentChar("satellite", "mass", 'm');
    AbsentChar("photos", "mass", 'm');
    AbsentChar("of", "mass", 'm');
    AbsentChar("earth", "mass", 'm');
  }

  lemma ManyPhotosWordsLackSail()
    ensures forall i :: 0 <= i < |ManyPhotosLowWords| ==> !Contains(ManyPhotosLowWords[i], "sail")
  {
    AbsentChar("nasa", "sail", 'i');
    AbsentChar("has", "sail", 'i');
    AbsentChar("many", "sail", 's');
    AbsentPair("satellite", "sail", 1);
    AbsentChar("photos", "sail", 'a');
    AbsentChar("of", "sail", 's');
    AbsentChar("earth", "sail", 's');
  }

  /** The keywords the lowered sentence lacks although it has all their letters. */
  lemma ManyPhotosLacksWords()
    ensures var low := JoinWords(ManyPhotosLowWords);
            !Contains(low, "ship") && !Contains(low, "mass") && !Contains(low, "sail")
  {
    ManyPhotosWordsLackShip();
    NotInWords(ManyPhotosLowWords, "ship");
    ManyPhotosWordsLackMass();
    NotInWords(ManyPhotosLowWords, "mass");
    ManyPhotosWordsLackSail();
    NotInWords(ManyPhotosLowWords, "sail");
  }

  /** A text lacking what this sentence lacks misses every category that would beat satellite. */
  lemma ManyPhotosLacksCategories(low: string)
    requires 'c' !in low && 'z' !in low && 'd' !in low && 'g' !in low && 'u' !in low && !Contains(low, "ship") && !Contains(low, "mass") && !Contains(low, "sail")
    ensures LacksAll(low, CurvatureKeywords) && LacksAll(low, GravityKeywords) && LacksAll(low, TimeZonesKeywords) && LacksAll(low, CircumnavigationKeywords)
  {
    LacksAllBy(low, CurvatureKeywords, "czcsd");
    LacksAllBy(low, GravityKeywords, "ggmcc");
    LacksAllBy(low, TimeZonesKeywords, "zudgdz");
    LacksAllBy(low, CircumnavigationKeywords, "csugg");
  }

  /** `analyze_argument("NASA has many satellite photos of Earth")` returns `("satellite", 15)` on the default tables. */
  lemma ManyPhotosClassified(an: ArgumentAnalyzer)
    requires DefaultTable(an.evidenceWeights)
    ensures Classify(an, JoinWords(ManyPhotosWords)) == Analysis(Some("satellite"), 15)
  {
    ManyPhotosLowered();
    ManyPhotosHit();
    ManyPhotosLacksLetters();
    ManyPhotosLacksWords();
    ManyPhotosLacksCategories(JoinWords(ManyPhotosLowWords));
    assert SatelliteKeywords[0] == "satellite";
    SatelliteCase(an.evidenceWeights, JoinWords(ManyPhotosLowWords), 0);
  }

  // ---------------------------------------------------------------------------
  // "Gravity proves Earth is round"
  // ---------------------------------------------------------------------------

  /** The words of "Gravity proves Earth is round", which `JoinWords` joins back into the sentence. */
  const GravityProvesWords: seq<string> := ["Gravity", "proves", "Earth", "is", "round"]
  const GravityProvesLowWords: seq<string> := ["gravity", "proves", "earth", "is", "round"]

  lemma GravityProvesWordsLowered()
    ensures LowerAll(GravityProvesWords) == GravityProvesLowWords
  {
    LowerWord("Gravity", "gravity");
    LowerWord("proves", "proves");
    LowerWord("Earth", "earth");
    LowerWord("is", "is");
    LowerWord("round", "round");
    LowerAllOf(GravityProvesWords, GravityProvesLowWords);
  }

  lemma GravityProvesLowered()
    ensures Lower(JoinWords(GravityProvesWords)) == JoinWords(GravityProvesLowWords)
  {
    LowerJoin(GravityProvesWords);
    GravityProvesWordsLowered();
  }

  lemma GravityProvesHit()
    ensures Contains(JoinWords(GravityProvesLowWords), "gravity")
  {
    WordAt(GravityProvesLowWords, 0);
  }

  lemma GravityProvesLetters()
    ensures forall c :: c in JoinWords(GravityProvesLowWords) ==> c in " adeghinoprstuvy"
  {
    assert forall i :: 0 <= i < |GravityProvesLowWords| ==> forall c :: c in GravityProvesLowWords[i] ==> c in " adeghinoprstuvy";
    WordsAlphabet(GravityProvesLowWords, " adeghinoprstuvy");
  }

  lemma GravityProvesAbsentLetters(low: string)
    requires forall c :: c in low ==> c in " adeghinoprstuvy"
    ensures 'c' !in low && 'z' !in low
  {
  }

  /** The letters the lowered sentence lacks. */
  lemma GravityProvesLacksLetters()
    ensures var low := JoinWords(GravityProvesLowWords);
            'c' !in low && 'z' !in low
  {
    GravityProvesLetters();
    GravityProvesAbsentLetters(JoinWords(GravityProvesLowWords));
  }

  lemma GravityProvesWordsLackShip()
    ensures forall i :: 0 <= i < |GravityProvesLowWords| ==> !Contains(GravityProvesLowWords[i], "ship")
  {
    AbsentChar("gravity", "ship", 's');
    AbsentChar("proves", "ship", 'h');
    AbsentChar("earth", "ship", 's');
    AbsentChar("is", "ship", 'h');
    AbsentChar("round", "ship", 's');
  }

  lemma GravityProvesWordsLackDisappear()
    ensures forall i :: 0 <= i < |GravityProvesLowWords| ==> !Contains(GravityProvesLowWords[i], "disappear")
  {
    AbsentChar("gravity", "disappear", 'd');
    AbsentChar("proves", "disappear", 'd');
    AbsentChar("earth", "disappear", 'd');
    AbsentChar("is", "disappear", 'd');
    AbsentChar("round", "disappear", 'i');
  }

  /** The keywords the lowered sentence lacks although it has all their letters. */
  lemma GravityProvesLacksWords()
    ensures var low := JoinWords(GravityProvesLowWords);
            !Contains(low, "ship") && !Contains(low, "disappear")
  {
    GravityProvesWordsLackShip();
    NotInWords(GravityProvesLowWords, "ship");
    GravityProvesWordsLackDisappear();
    NotInWords(GravityProvesLowWords, "disappear");
  }

  /** A text lacking what this sentence lacks misses every category that would beat gravity. */
  lemma GravityProvesLacksCategories(low: string)
    requires 'c' !in low && 'z' !in low && !Contains(low, "ship") && !Contains(low, "disappear")
    ensures LacksAll(low, CurvatureKeywords)
  {
    LacksAllBy(low, CurvatureKeywords, "czcsd");
  }

  /** `analyze_argument("Gravity proves Earth is round")` returns `("gravity", 20)` on the default tables. */
  lemma GravityProvesClassified(an: ArgumentAnalyzer)
    requires DefaultTable(an.evidenceWeights)
    ensures Classify(an, JoinWords(GravityProvesWords)) == Analysis(Some("gravity"), 20)
  {
    GravityProvesLowered();
    GravityProvesHit();
    GravityProvesLacksLetters();
    GravityProvesLacksWords();
    GravityProvesLacksCategories(JoinWords(GravityProvesLowWords));
    assert GravityKeywords[0] == "gravity";
    GravityCase(an.evidenceWeights, JoinWords(GravityProvesLowWords), 0);
  }

  // ---------------------------------------------------------------------------
  // "NASA has satellite photos"
  // ---------------------------------------------------------------------------

  /** The words of "NASA has satellite photos", which `JoinWords` joins back into the sentence. */
  const NasaPhotosWords: seq<string> := ["NASA", "has", "satellite", "photos"]
  const NasaPhotosLowWords: seq<string> := ["nasa", "has", "satellite", "photos"]

  lemma NasaPhotosWordsLowered()
    ensures LowerAll(NasaPhotosWords) == NasaPhotosLowWords
  {
    LowerWord("NASA", "nasa");
    LowerWord("has", "has");
    LowerWord("satellite", "satellite");
    LowerWord("photos", "photos");
    LowerAllOf(NasaPhotosWords, NasaPhotosLowWords);
  }

  lemma NasaPhotosLowered()
    ensures Lower(JoinWords(NasaPhotosWords)) == JoinWords(NasaPhotosLowWords)
  {
    LowerJoin(NasaPhotosWords);
    NasaPhotosWordsLowered();
  }

  lemma NasaPhotosHit()
    ensures Contains(JoinWords(NasaPhotosLowWords), "satellite")
  {
    WordAt(NasaPhotosLowWords, 2);
  }

  lemma NasaPhotosLetters()
    ensures forall c :: c in JoinWords(NasaPhotosLowWords) ==> c in " aehilnopst"
  {
    assert forall i :: 0 <= i < |NasaPhotosLowWords| ==> forall c :: c in NasaPhotosLowWords[i] ==> c in " aehilnopst";
    WordsAlphabet(NasaPhotosLowWords, " aehilnopst");
  }

  lemma NasaPhotosAbsentLetters(low: string)
    requires forall c :: c in low ==> c in " aehilnopst"
    ensures 'c' !in low && 'r' !in low && 'd' !in low && 'g' !in low && 'm' !in low && 'f' !in low && 'u' !in low
  {
  }

  /** The letters the lowered sentence lacks. */
  lemma NasaPhotosLacksLetters()
    ensures var low := JoinWords(NasaPhotosLowWords);
            'c' !in low && 'r' !in low && 'd' !in low && 'g' !in low && 'm' !in low && 'f' !in low && 'u' !in low
  {
    NasaPhotosLetters();
    NasaPhotosAbsentLetters(JoinWords(NasaPhotosLowWords));
  }

  lemma NasaPhotosWordsLackShip()
    ensures forall i :: 0 <= i < |NasaPhotosLowWords| ==> !Contains(NasaPhotosLowWords[i], "ship")
  {
    AbsentChar("nasa", "ship", 'h');
    AbsentChar("has", "ship", 'i');
    AbsentChar("satellite", "ship", 'h');
    AbsentChar("photos", "ship", 'i');
  }

  lemma NasaPhotosWordsLackSail()
    ensures forall i :: 0 <= i < |NasaPhotosLowWords| ==> !Contains(NasaPhotosLowWords[i], "sail")
  {
    AbsentChar("nasa", "sail", 'i');
    AbsentChar("has", "sail", 'i');
    AbsentPair("satellite", "sail", 1);
    AbsentChar("photos", "sail", 'a');
  }

  /** The keywords the lowered sentence lacks although it has all their letters. */
  lemma NasaPhotosLacksWords()
    ensures var low := JoinWords(NasaPhotosLowWords);
            !Contains(low, "ship") && !Contains(low, "sail")
  {
    NasaPhotosWordsLackShip();
    NotInWords(NasaPhotosLowWords, "ship");
    NasaPhotosWordsLackSail();
    NotInWords(NasaPhotosLowWords, "sail");
  }

  /** A text lacking what this sentence lacks misses every category that would beat satellite. */
  lemma NasaPhotosLacksCategories(low: string)
    requires 'c' !in low && 'r' !in low && 'd' !in low && 'g' !in low && 'm' !in low && 'f' !in low && 'u' !in low && !Contains(low, "ship") && !Contains(low, "sail")
    ensures LacksAll(low, CurvatureKeywords) && LacksAll(low, GravityKeywords) && LacksAll(low, TimeZonesKeywords) && LacksAll(low, CircumnavigationKeywords)
  {
    LacksAllBy(low, CurvatureKeywords, "crcsd");
    LacksAllBy(low, GravityKeywords, "ggmrf");
    LacksAllBy(low, TimeZonesKeywords, "mudgdm");
    LacksAllBy(low, CircumnavigationKeywords, "csrmf");
  }

  /** `analyze_argument("NASA has satellite photos")` returns `("satellite", 15)` on the default tables. */
  lemma NasaPhotosClassified(an: ArgumentAnalyzer)
    requires DefaultTable(an.evidenceWeights)
    ensures Classify(an, JoinWords(NasaPhotosWords)) == Analysis(Some("satellite"), 15)
  {
    NasaPhotosLowered();
    NasaPhotosHit();
    NasaPhotosLacksLetters();
    NasaPhotosLacksWords();
    NasaPhotosLacksCategories(JoinWords(NasaPhotosLowWords));
    assert SatelliteKeywords[0] == "satellite";
    SatelliteCase(an.evidenceWeights, JoinWords(NasaPhotosLowWords), 0);
  }

  // ---------------------------------------------------------------------------
  // "There are many satellite images"
  // ---------------------------------------------------------------------------

  /** The words of "There are many satellite images", which `JoinWords` joins back into the sentence. */
  const SatelliteImagesWords: seq<string> := ["There", "are", "many", "satellite", "images"]
  const SatelliteImagesLowWords: seq<string> := ["there", "are", "many", "satellite", "images"]

  lemma SatelliteImagesWordsLowered()
    ensures LowerAll(SatelliteImagesWords) == SatelliteImagesLowWords
  {
    LowerWord("There", "there");
    LowerWord("are", "are");
    LowerWord("many", "many");
    LowerWord("satellite", "satellite");
    LowerWord("images", "images");
    LowerAllOf(SatelliteImagesWords, SatelliteImagesLowWords);
  }

  lemma SatelliteImagesLowered()
    ensures Lower(JoinWords(SatelliteImagesWords)) == JoinWords(SatelliteImagesLowWords)
  {
    LowerJoin(SatelliteImagesWords);
    SatelliteImagesWordsLowered();
  }

  lemma SatelliteImagesHit()
    ensures Contains(JoinWords(SatelliteImagesLowWords), "satellite")
  {
    WordAt(SatelliteImagesLowWords, 3);
  }

  lemma SatelliteImagesLetters()
    ensures forall c :: c in JoinWords(SatelliteImagesLowWords) ==> c in " aeghilmnrsty"
  {
    assert forall i :: 0 <= i < |SatelliteImagesLowWords| ==> forall c :: c in SatelliteImagesLowWords[i] ==> c in " aeghilmnrsty";
    WordsAlphabet(SatelliteImagesLowWords, " aeghilmnrsty");
  }

  lemma SatelliteImagesAbsentLetters(low: string)
    requires forall c :: c in low ==> c in " aeghilmnrsty"
    ensures 'c' !in low && 'o' !in low && 'p' !in low && 'd' !in low && 'v' !in low && 'f' !in low && 'z' !in low && 'u' !in low
  {
  }

  /** The letters the lowered sentence lacks. */
  lemma SatelliteImagesLacksLetters()
    ensures var low := JoinWords(SatelliteImagesLowWords);
            'c' !in low && 'o' !in low && 'p' !in low && 'd' !in low && 'v' !in low && 'f' !in low && 'z' !in low && 'u' !in low
  {
    SatelliteImagesLetters();
    SatelliteImagesAbsentLetters(JoinWords(SatelliteImagesLowWords));
  }

  lemma SatelliteImagesWordsLackMass()
    ensures forall i :: 0 <= i < |SatelliteImagesLowWords| ==> !Contains(SatelliteImagesLowWords[i], "mass")
  {
    AbsentChar("there", "mass", 'm');
    AbsentChar("are", "mass", 'm');
    AbsentChar("many", "mass", 's');
    AbsentChar("satellite", "mass", 'm');
    AbsentPair("images", "mass", 1);
  }

  lemma SatelliteImagesWordsLackNight()
    ensures forall i :: 0 <= i < |SatelliteImagesLowWords| ==> !Contains(SatelliteImagesLowWords[i], "night")
  {
    AbsentChar("there", "night", 'n');
    AbsentChar("are", "night", 'n');
    AbsentChar("many", "night", 'i');
    AbsentChar("satellite", "night", 'n');
    AbsentChar("images", "night", 'n');
  }

  lemma SatelliteImagesWordsLackSail()
    ensures forall i :: 0 <= i < |SatelliteImagesLowWords| ==> !Contains(SatelliteImagesLowWords[i], "sail")
  {
    AbsentChar("there", "sail", 's');
    AbsentChar("are", "sail", 's');
    AbsentChar("many", "sail", 's');
    AbsentPair("satellite", "sail", 1);
    AbsentChar("images", "sail", 'l');
  }

  lemma SatelliteImagesWordsLackMagellan()
    ensures forall i :: 0 <= i < |SatelliteImagesLowWords| ==> !Contains(SatelliteImagesLowWords[i], "magellan")
  {
    AbsentChar("there", "magellan", 'm');
    AbsentChar("are", "magellan", 'm');
    AbsentChar("many", "magellan", 'g');
    AbsentChar("satellite", "magellan", 'm');
    AbsentChar("images", "magellan", 'l');
  }

  /** The keywords the lowered sentence lacks although it has all their letters. */
  lemma SatelliteImagesLacksWords()
    ensures var low := JoinWords(SatelliteImagesLowWords);
            !Contains(low, "mass") && !Contains(low, "night") && !Contains(low, "sail") && !Contains(low, "magellan")
  {
    SatelliteImagesWordsLackMass();
    NotInWords(SatelliteImagesLowWords, "mass");
    SatelliteImagesWordsLackNight();
    NotInWords(SatelliteImagesLowWords, "night");
    SatelliteImagesWordsLackSail();
    NotInWords(SatelliteImagesLowWords, "sail");
    SatelliteImagesWordsLackMagellan();
    NotInWords(SatelliteImagesLowWords, "magellan");
  }

  /** A text lacking what this sentence lacks misses every category that would beat satellite. */
  lemma SatelliteImagesLacksCategories(low: string)
    requires 'c' !in low && 'o' !in low && 'p' !in low && 'd' !in low && 'v' !in low && 'f' !in low && 'z' !in low && 'u' !in low && !Contains(low, "mass") && !Contains(low, "night") && !Contains(low, "sail") && !Contains(low, "magellan")
    ensures LacksAll(low, CurvatureKeywords) && LacksAll(low, GravityKeywords) && LacksAll(low, TimeZonesKeywords) && LacksAll(low, CircumnavigationKeywords)
  {
    LacksAllBy(low, CurvatureKeywords, "cocpd");
    LacksAllBy(low, GravityKeywords, "vvmcf");
    LacksAllBy(low, TimeZonesKeywords, "zudndz");
    LacksAllBy(low, CircumnavigationKeywords, "csomf");
  }

  /** `analyze_argument("There are many satellite images")` returns `("satellite", 15)` on the default tables. */
  lemma SatelliteImagesClassified(an: ArgumentAnalyzer)
    requires DefaultTable(an.evidenceWeights)
    ensures Classify(an, JoinWords(SatelliteImagesWords)) == Analysis(Some("satellite"), 15)
  {
    SatelliteImagesLowered();
    SatelliteImagesHit();
    SatelliteImagesLacksLetters();
    SatelliteImagesLacksWords();
    SatelliteImagesLacksCategories(JoinWords(SatelliteImagesLowWords));
    assert SatelliteKeywords[0] == "satellite";
    SatelliteCase(an.evidenceWeights, JoinWords(SatelliteImagesLowWords), 0);
  }

  // ---------------------------------------------------------------------------
  // "Ships disappear bottom-first over the horizon"
  // ---------------------------------------------------------------------------

  /** The words of "Ships disappear bottom-first over the horizon", which `JoinWords` joins back into the sentence. */
  const ShipsDisappearWords: seq<string> := ["Ships", "disappear", "bottom-first", "over", "the", "horizon"]
  const ShipsDisappearLowWords: seq<string> := ["ships", "disappear", "bottom-first", "over", "the", "horizon"]

  lemma ShipsDisappearWordsLowered()
    ensures LowerAll(ShipsDisappearWords) == ShipsDisappearLowWords
  {
    LowerWord("Ships", "ships");
    LowerWord("disappear", "disappear");
    LowerWord("bottom-first", "bottom-first");
    LowerWord("over", "over");
    LowerWord("the", "the");
    LowerWord("horizon", "horizon");
    LowerAllOf(ShipsDisappearWords, ShipsDisappearLowWords);
  }

  lemma ShipsDisappearLowered()
    ensures Lower(JoinWords(ShipsDisappearWords)) == JoinWords(ShipsDisappearLowWords)
  {
    LowerJoin(ShipsDisappearWords);
    ShipsDisappearWordsLowered();
  }

  lemma ShipsDisappearHit()
    ensures Contains(JoinWords(ShipsDisappearLowWords), "horizon")
  {
    WordAt(ShipsDisappearLowWords, 5);
  }

  /** `analyze_argument("Ships disappear bottom-first over the horizon")` returns `("curvature", 25)` on the default tables. */
  lemma ShipsDisappearClassified(an: ArgumentAnalyzer)
    requires DefaultTable(an.evidenceWeights)
    ensures Classify(an, JoinWords(ShipsDisappearWords)) == Analysis(Some("curvature"), 25)
  {
    ShipsDisappearLowered();
    ShipsDisappearHit();
    assert CurvatureKeywords[1] == "horizon";
    CurvatureCase(an.evidenceWeights, JoinWords(ShipsDisappearLowWords), 1);
  }

  // ---------------------------------------------------------------------------
  // "Gravity pulls everything to the center"
  // ---------------------------------------------------------------------------

  /** The words of "Gravity pulls everything to the center", which `JoinWords` joins back into the sentence. */
  const GravityPullsWords: seq<string> := ["Gravity", "pulls", "everything", "to", "the", "center"]
  const GravityPullsLowWords: seq<string> := ["gravity", "pulls", "everything", "to", "the", "center"]

  lemma GravityPullsWordsLowered()
    ensures LowerAll(GravityPullsWords) == GravityPullsLowWords
  {
    LowerWord("Gravity", "gravity");
    LowerWord("pulls", "pulls");
    LowerWord("everything", "everything");
    LowerWord("to", "to");
    LowerWord("the", "the");
    LowerWord("center", "center");
    LowerAllOf(GravityPullsWords, GravityPullsLowWords);
  }

  lemma GravityPullsLowered()
    ensures Lower(JoinWords(GravityPullsWords)) == JoinWords(GravityPullsLowWords)
  {
    LowerJoin(GravityPullsWords);
    GravityPullsWordsLowered();
  }

  lemma GravityPullsHit()
    ensures Contains(JoinWords(GravityPullsLowWords), "gravity")
  {
    WordAt(GravityPullsLowWords, 0);
  }

  lemma GravityPullsLetters()
    ensures forall c :: c in JoinWords(GravityPullsLowWords) ==> c in " aceghilnoprstuvy"
  {
    assert forall i :: 0 <= i < |GravityPullsLowWords| ==> forall c :: c in GravityPullsLowWords[i] ==> c in " aceghilnoprstuvy";
    WordsAlphabet(GravityPullsLowWords, " aceghilnoprstuvy");
  }

  lemma GravityPullsAbsentLetters(low: string)
    requires forall c :: c in low ==> c in " aceghilnoprstuvy"
    ensures 'z' !in low && 'd' !in low
  {
  }

  /** The letters the lowered sentence lacks. */
  lemma GravityPullsLacksLetters()
    ensures var low := JoinWords(GravityPullsLowWords);
            'z' !in low && 'd' !in low
  {
    GravityPullsLetters();
    GravityPullsAbsentLetters(JoinWords(GravityPullsLowWords));
  }

  lemma GravityPullsWordsLackCurve()
    ensures forall i :: 0 <= i < |GravityPullsLowWords| ==> !Contains(GravityPullsLowWords[i], "curve")
  {
    AbsentChar("gravity", "curve", 'c');
    AbsentChar("pulls", "curve", 'c');
    AbsentChar("everything", "curve", 'c');
    AbsentChar("to", "curve", 'c');
    AbsentChar("the", "curve", 'c');
    AbsentChar("center", "curve", 'u');
  }

  lemma GravityPullsWordsLackCurvature()
    ensures forall i :: 0 <= i < |GravityPullsLowWords| ==> !Contains(GravityPullsLowWords[i], "curvature")
  {
    AbsentChar("gravity", "curvature", 'c');
    AbsentChar("pulls", "curvature", 'c');
    AbsentChar("everything", "curvature", 'c');
    AbsentChar("to", "curvature", 'c');
    AbsentChar("the", "curvature", 'c');
    AbsentChar("center", "curvature", 'u');
  }

  lemma GravityPullsWordsLackShip()
    ensures forall i :: 0 <= i < |GravityPullsLowWords| ==> !Contains(GravityPullsLowWords[i], "ship")
  {
    AbsentChar("gravity", "ship", 's');
    AbsentChar("pulls", "ship", 'h');
    AbsentChar("everything", "ship", 's');
    AbsentChar("to", "ship", 's');
    AbsentChar("the", "ship", 's');
    AbsentChar("center", "ship", 's');
  }

  /** The keywords the lowered sentence lacks although it has all their letters. */
  lemma GravityPullsLacksWords()
    ensures var low := JoinWords(GravityPullsLowWords);
            !Contains(low, "curve") && !Contains(low, "curvature") && !Contains(low, "ship")
  {
    GravityPullsWordsLackCurve();
    NotInWords(GravityPullsLowWords, "curve");
    GravityPullsWordsLackCurvature();
    NotInWords(GravityPullsLowWords, "curvature");
    GravityPullsWordsLackShip();
    NotInWords(GravityPullsLowWords, "ship");
  }

  /** A text lacking what this sentence lacks misses every category that would beat gravity. */
  lemma GravityPullsLacksCategories(low: string)
    requires 'z' !in low && 'd' !in low && !Contains(low, "curve") && !Contains(low, "curvature") && !Contains(low, "ship")
    ensures LacksAll(low, CurvatureKeywords)
  {
    LacksAllBy(low, CurvatureKeywords, "czcsd");
  }

  /** `analyze_argument("Gravity pulls everything to the center")` returns `("gravity", 20)` on the default tables. */
  lemma GravityPullsClassified(an: ArgumentAnalyzer)
    requires DefaultTable(an.evidenceWeights)
    ensures Classify(an, JoinWords(GravityPullsWords)) == Analysis(Some("gravity"), 20)
  {
    GravityPullsLowered();
    GravityPullsHit();
    GravityPullsLacksLetters();
    GravityPullsLacksWords();
    GravityPullsLacksCategories(JoinWords(GravityPullsLowWords));
    assert GravityKeywords[0] == "gravity";
    GravityCase(an.evidenceWeights, JoinWords(GravityPullsLowWords), 0);
  }

  // ---------------------------------------------------------------------------
  // "Different time zones prove Earth is round"
  // ---------------------------------------------------------------------------

  /** The words of "Different time zones prove Earth is round", which `JoinWords` joins back into the sentence. */
  const TimeZonesWords: seq<string> := ["Different", "time", "zones", "prove", "Earth", "is", "round"]
  const TimeZonesLowWords: seq<string> := ["different", "time", "zones", "prove", "earth", "is", "round"]

  lemma TimeZonesWordsLowered()
    ensures LowerAll(TimeZonesWords) == TimeZonesLowWords
  {
    LowerWord("Different", "different");
    LowerWord("time", "time");
    LowerWord("zones", "zones");
    LowerWord("prove", "prove");
    LowerWord("Earth", "earth");
    LowerWord("is", "is");
    LowerWord("round", "round");
    LowerAllOf(TimeZonesWords, TimeZonesLowWords);
  }

  lemma TimeZonesLowered()
    ensures Lower(JoinWords(TimeZonesWords)) == JoinWords(TimeZonesLowWords)
  {
    LowerJoin(TimeZonesWords);
    TimeZonesWordsLowered();
  }

  lemma TimeZonesHit()
    ensures Contains(JoinWords(TimeZonesLowWords), "time zone")
  {
    PairAt(TimeZonesLowWords, 1);
    var pair := TimeZonesLowWords[1] + " " + TimeZonesLowWords[2];
    ContainsPrefix("time zone", "s");
    assert pair == "time zone" + "s";
    ContainsTrans(JoinWords(TimeZonesLowWords), pair, "time zone");
  }

  lemma TimeZonesLetters()
    ensures forall c :: c in JoinWords(TimeZonesLowWords) ==> c in " adefhimnoprstuvz"
  {
    assert forall i :: 0 <= i < |TimeZonesLowWords| ==> forall c :: c in TimeZonesLowWords[i] ==> c in " adefhimnoprstuvz";
    WordsAlphabet(TimeZonesLowWords, " adefhimnoprstuvz");
  }

  lemma TimeZonesAbsentLetters(low: string)
    requires forall c :: c in low ==> c in " adefhimnoprstuvz"
    ensures 'c' !in low && 'g' !in low
  {
  }

  /** The letters the lowered sentence lacks. */
  lemma TimeZonesLacksLetters()
    ensures var low := JoinWords(TimeZonesLowWords);
            'c' !in low && 'g' !in low
  {
    TimeZonesLetters();
    TimeZonesAbsentLetters(JoinWords(TimeZonesLowWords));
  }

  lemma TimeZonesWordsLackHorizon()
    ensures forall i :: 0 <= i < |TimeZonesLowWords| ==> !Contains(TimeZonesLowWords[i], "horizon")
  {
    AbsentChar("different", "horizon", 'h');
    AbsentChar("time", "horizon", 'h');
    AbsentChar("zones", "horizon", 'h');
    AbsentChar("prove", "horizon", 'h');
    AbsentChar("earth", "horizon", 'o');
    AbsentChar("is", "horizon", 'h');
    AbsentChar("round", "horizon", 'h');
  }

  lemma TimeZonesWordsLackShip()
    ensures forall i :: 0 <= i < |TimeZonesLowWords| ==> !Contains(TimeZonesLowWords[i], "ship")
  {
    AbsentChar("different", "ship", 's');
    AbsentChar("time", "ship", 's');
    AbsentChar("zones", "ship", 'h');
    AbsentChar("prove", "ship", 's');
    AbsentChar("earth", "ship", 's');
    AbsentChar("is", "ship", 'h');
    AbsentChar("round", "ship", 's');
  }

  lemma TimeZonesWordsLackDisappear()
    ensures forall i :: 0 <= i < |TimeZonesLowWords| ==> !Contains(TimeZonesLowWords[i], "disappear")
  {
    AbsentChar("different", "disappear", 's');
    AbsentChar("time", "disappear", 'd');
    AbsentChar("zones", "disappear", 'd');
    AbsentChar("prove", "disappear", 'd');
    AbsentChar("earth", "disappear", 'd');
    AbsentChar("is", "disappear", 'd');
    AbsentChar("round", "disappear", 'i');
  }

  lemma TimeZonesWordsLackMass()
    ensures forall i :: 0 <= i < |TimeZonesLowWords| ==> !Contains(TimeZonesLowWords[i], "mass")
  {
    AbsentChar("different", "mass", 'm');
    AbsentChar("time", "mass", 'a');
    AbsentChar("zones", "mass", 'm');
    AbsentChar("prove", "mass", 'm');
    AbsentChar("earth", "mass", 'm');
    AbsentChar("is", "mass", 'm');
    AbsentChar("round", "mass", 'm');
  }

  /** The keywords the lowered sentence lacks although it has all their letters. */
  lemma TimeZonesLacksWords()
    ensures var low := JoinWords(TimeZonesLowWords);
            !Contains(low, "horizon") && !Contains(low, "ship") && !Contains(low, "disappear") && !Contains(low, "mass")
  {
    TimeZonesWordsLackHorizon();
    NotInWords(TimeZonesLowWords, "horizon");
    TimeZonesWordsLackShip();
    NotInWords(TimeZonesLowWords, "ship");
    TimeZonesWordsLackDisappear();
    NotInWords(TimeZonesLowWords, "disappear");
    TimeZonesWordsLackMass();
    NotInWords(TimeZonesLowWords, "mass");
  }

  /** A text lacking what this sentence lacks misses every category that would beat time_zones. */
  lemma TimeZonesLacksCategories(low: string)
    requires 'c' !in low && 'g' !in low && !Contains(low, "horizon") && !Contains(low, "ship") && !Contains(low, "disappear") && !Contains(low, "mass")
    ensures LacksAll(low, CurvatureKeywords) && LacksAll(low, GravityKeywords)
  {
    LacksAllBy(low, CurvatureKeywords, "chcsd");
    LacksAllBy(low, GravityKeywords, "ggmcc");
  }

  /** `analyze_argument("Different time zones prove Earth is round")` returns `("time_zones", 20)` on the default tables. */
  lemma TimeZonesClassified(an: ArgumentAnalyzer)
    requires DefaultTable(an.evidenceWeights)
    ensures Classify(an, JoinWords(TimeZonesWords)) == Analysis(Some("time_zones"), 20)
  {
    TimeZonesLowered();
    TimeZonesHit();
    TimeZonesLacksLetters();
    TimeZonesLacksWords();
    TimeZonesLacksCategories(JoinWords(TimeZonesLowWords));
    assert TimeZonesKeywords[0] == "time zone";
    TimeZonesCase(an.evidenceWeights, JoinWords(TimeZonesLowWords), 0);
  }

  // ---------------------------------------------------------------------------
  // "People have sailed around the world"
  // ---------------------------------------------------------------------------

  /** The words of "People have sailed around the world", which `JoinWords` joins back into the sentence. */
  const SailedAroundWords: seq<string> := ["People", "have", "sailed", "around", "the", "world"]
  const SailedAroundLowWords: seq<string> := ["people", "have", "sailed", "around", "the", "world"]

  lemma SailedAroundWordsLowered()
    ensures LowerAll(SailedAroundWords) == SailedAroundLowWords
  {
    LowerWord("People", "people");
    LowerWord("have", "have");
    LowerWord("sailed", "sailed");
    LowerWord("around", "around");
    LowerWord("the", "the");
    LowerWord("world", "world");
    LowerAllOf(SailedAroundWords, SailedAroundLowWords);
  }

  lemma SailedAroundLowered()
    ensures Lower(JoinWords(SailedAroundWords)) == JoinWords(SailedAroundLowWords)
  {
    LowerJoin(SailedAroundWords);
    SailedAroundWordsLowered();
  }

  lemma SailedAroundHit()
    ensures Contains(JoinWords(SailedAroundLowWords), "around")
  {
    WordAt(SailedAroundLowWords, 3);
  }

  lemma SailedAroundLetters()
    ensures forall c :: c in JoinWords(SailedAroundLowWords) ==> c in " adehilnoprstuvw"
  {
    assert forall i :: 0 <= i < |SailedAroundLowWords| ==> forall c :: c in SailedAroundLowWords[i] ==> c in " adehilnoprstuvw";
    WordsAlphabet(SailedAroundLowWords, " adehilnoprstuvw");
  }

  lemma SailedAroundAbsentLetters(low: string)
    requires forall c :: c in low ==> c in " adehilnoprstuvw"
    ensures 'c' !in low && 'z' !in low && 'g' !in low && 'm' !in low && 'f' !in low && 'y' !in low
  {
  }

  /** The letters the lowered sentence lacks. */
  lemma SailedAroundLacksLetters()
    ensures var low := JoinWords(SailedAroundLowWords);
            'c' !in low && 'z' !in low && 'g' !in low && 'm' !in low && 'f' !in low && 'y' !in low
  {
    SailedAroundLetters();
    SailedAroundAbsentLetters(JoinWords(SailedAroundLowWords));
  }

  lemma SailedAroundWordsLackShip()
    ensures forall i :: 0 <= i < |SailedAroundLowWords| ==> !Contains(SailedAroundLowWords[i], "ship")
  {
    AbsentChar("people", "ship", 's');
    AbsentChar("have", "ship", 's');
    AbsentChar("sailed", "ship", 'h');
    AbsentChar("around", "ship", 's');
    AbsentChar("the", "ship", 's');
    AbsentChar("world", "ship", 's');
  }

  lemma SailedAroundWordsLackDisappear()
    ensures forall i :: 0 <= i < |SailedAroundLowWords| ==> !Contains(SailedAroundLowWords[i], "disappear")
  {
    AbsentChar("people", "disappear", 'd');
    AbsentChar("have", "disappear", 'd');
    AbsentChar("sailed", "disappear", 'p');
    AbsentChar("around", "disappear", 'i');
    AbsentChar("the", "disappear", 'd');
    AbsentChar("world", "disappear", 'i');
  }

  lemma SailedAroundWordsLackSun()
    ensures forall i :: 0 <= i < |SailedAroundLowWords| ==> !Contains(SailedAroundLowWords[i], "sun")
  {
    AbsentChar("people", "sun", 's');
    AbsentChar("have", "sun", 's');
    AbsentChar("sailed", "sun", 'u');
    AbsentChar("around", "sun", 's');
    AbsentChar("the", "sun", 's');
    AbsentChar("world", "sun", 's');
  }

  lemma SailedAroundWordsLackShadow()
    ensures forall i :: 0 <= i < |SailedAroundLowWords| ==> !Contains(SailedAroundLowWords[i], "shadow")
  {
    AbsentChar("people", "shadow", 's');
    AbsentChar("have", "shadow", 's');
    AbsentChar("sailed", "shadow", 'h');
    AbsentChar("around", "shadow", 's');
    AbsentChar("the", "shadow", 's');
    AbsentChar("world", "shadow", 's');
  }

  /** The keywords the lowered sentence lacks although it has all their letters. */
  lemma SailedAroundLacksWords()
    ensures var low := JoinWords(SailedAroundLowWords);
            !Contains(low, "ship") && !Contains(low, "disappear") && !Contains(low, "sun") && !Contains(low, "shadow")
  {
    SailedAroundWordsLackShip();
    NotInWords(SailedAroundLowWords, "ship");
    SailedAroundWordsLackDisappear();
    NotInWords(SailedAroundLowWords, "disappear");
    SailedAroundWordsLackSun();
    NotInWords(SailedAroundLowWords, "sun");
    SailedAroundWordsLackShadow();
    NotInWords(SailedAroundLowWords, "shadow");
  }

  /** A text lacking what this sentence lacks misses every category that would beat circumnavigation. */
  lemma SailedAroundLacksCategories(low: string)
    requires 'c' !in low && 'z' !in low && 'g' !in low && 'm' !in low && 'f' !in low && 'y' !in low && !Contains(low, "ship") && !Contains(low, "disappear") && !Contains(low, "sun") && !Contains(low, "shadow")
    ensures LacksAll(low, CurvatureKeywords) && LacksAll(low, GravityKeywords) && LacksAll(low, TimeZonesKeywords)
  {
    LacksAllBy(low, CurvatureKeywords, "czcsd");
    LacksAllBy(low, GravityKeywords, "ggmcf");
    LacksAllBy(low, TimeZonesKeywords, "msygsm");
  }

  /** `analyze_argument("People have sailed around the world")` returns `("circumnavigation", 20)` on the default tables. */
  lemma SailedAroundClassified(an: ArgumentAnalyzer)
    requires DefaultTable(an.evidenceWeights)
    ensures Classify(an, JoinWords(SailedAroundWords)) == Analysis(Some("circumnavigation"), 20)
  {
    SailedAroundLowered();
    SailedAroundHit();
    SailedAroundLacksLetters();
    SailedAroundLacksWords();
    SailedAroundLacksCategories(JoinWords(SailedAroundLowWords));
    assert CircumnavigationKeywords[2] == "around";
    CircumnavigationCase(an.evidenceWeights, JoinWords(SailedAroundLowWords), 2);
  }

  // ---------------------------------------------------------------------------
  // "Satellites show Earth from space"
  // ---------------------------------------------------------------------------

  /** The words of "Satellites show Earth from space", which `JoinWords` joins back into the sentence. */
  const FromSpaceWords: seq<string> := ["Satellites", "show", "Earth", "from", "space"]
  const FromSpaceLowWords: seq<string> := ["satellites", "show", "earth", "from", "space"]

  lemma FromSpaceWordsLowered()
    ensures LowerAll(FromSpaceWords) == FromSpaceLowWords
  {
    LowerWord("Satellites", "satellites");
    LowerWord("show", "show");
    LowerWord("Earth", "earth");
    LowerWord("from", "from");
    LowerWord("space", "space");
    LowerAllOf(FromSpaceWords, FromSpaceLowWords);
  }

  lemma FromSpaceLowered()
    ensures Lower(JoinWords(FromSpaceWords)) == JoinWords(FromSpaceLowWords)
  {
    LowerJoin(FromSpaceWords);
    FromSpaceWordsLowered();
  }

  lemma FromSpaceHit()
    ensures Contains(JoinWords(FromSpaceLowWords), "space")
  {
    WordAt(FromSpaceLowWords, 4);
  }

  lemma FromSpaceLetters()
    ensures forall c :: c in JoinWords(FromSpaceLowWords) ==> c in " acefhilmoprstw"
  {
    assert forall i :: 0 <= i < |FromSpaceLowWords| ==> forall c :: c in FromSpaceLowWords[i] ==> c in " acefhilmoprstw";
    WordsAlphabet(FromSpaceLowWords, " acefhilmoprstw");
  }

  lemma FromSpaceAbsentLetters(low: string)
    requires forall c :: c in low ==> c in " acefhilmoprstw"
    ensures 'u' !in low && 'z' !in low && 'd' !in low && 'g' !in low && 'n' !in low
  {
  }

  /** The letters the lowered sentence lacks. */
  lemma FromSpaceLacksLetters()
    ensures var low := JoinWords(FromSpaceLowWords);
            'u' !in low && 'z' !in low && 'd' !in low && 'g' !in low && 'n' !in low
  {
    FromSpaceLetters();
    FromSpaceAbsentLetters(JoinWords(FromSpaceLowWords));
  }

  lemma FromSpaceWordsLackShip()
    ensures forall i :: 0 <= i < |FromSpaceLowWords| ==> !Contains(FromSpaceLowWords[i], "ship")
  {
    AbsentChar("satellites", "ship", 'h');
    AbsentChar("show", "ship", 'i');
    AbsentChar("earth", "ship", 's');
    AbsentChar("from", "ship", 's');
    AbsentChar("space", "ship", 'h');
  }

  lemma FromSpaceWordsLackMass()
    ensures forall i :: 0 <= i < |FromSpaceLowWords| ==> !Contains(FromSpaceLowWords[i], "mass")
  {
    AbsentChar("satellites", "mass", 'm');
    AbsentChar("show", "mass", 'm');
    AbsentChar("earth", "mass", 'm');
    AbsentChar("from", "mass", 'a');
    AbsentChar("space", "mass", 'm');
  }

  lemma FromSpaceWordsLackForce()
    ensures forall i :: 0 <= i < |FromSpaceLowWords| ==> !Contains(FromSpaceLowWords[i], "force")
  {
    AbsentChar("satellites", "force", 'f');
    AbsentChar("show", "force", 'f');
    AbsentChar("earth", "force", 'f');
    AbsentChar("from", "force", 'c');
    AbsentChar("space", "force", 'f');
  }

  lemma FromSpaceWordsLackSail()
    ensures forall i :: 0 <= i < |FromSpaceLowWords| ==> !Contains(FromSpaceLowWords[i], "sail")
  {
    AbsentPair("satellites", "sail", 1);
    AbsentChar("show", "sail", 'a');
    AbsentChar("earth", "sail", 's');
    AbsentChar("from", "sail", 's');
    AbsentChar("space", "sail", 'i');
  }

  /** The keywords the lowered sentence lacks although it has all their letters. */
  lemma FromSpaceLacksWords()
    ensures var low := JoinWords(FromSpaceLowWords);
            !Contains(low, "ship") && !Contains(low, "mass") && !Contains(low, "force") && !Contains(low, "sail")
  {
    FromSpaceWordsLackShip();
    NotInWords(FromSpaceLowWords, "ship");
    FromSpaceWordsLackMass();
    NotInWords(FromSpaceLowWords, "mass");
    FromSpaceWordsLackForce();
    NotInWords(FromSpaceLowWords, "force");
    FromSpaceWordsLackSail();
    NotInWords(FromSpaceLowWords, "sail");
  }

  /** A text lacking what this sentence lacks misses every category that would beat satellite. */
  lemma FromSpaceLacksCategories(low: string)
    requires 'u' !in low && 'z' !in low && 'd' !in low && 'g' !in low && 'n' !in low && !Contains(low, "ship") && !Contains(low, "mass") && !Contains(low, "force") && !Contains(low, "sail")
    ensures LacksAll(low, CurvatureKeywords) && LacksAll(low, GravityKeywords) && LacksAll(low, TimeZonesKeywords) && LacksAll(low, CircumnavigationKeywords)
  {
    LacksAllBy(low, CurvatureKeywords, "uzusd");
    LacksAllBy(low, GravityKeywords, "ggmnf");
    LacksAllBy(low, TimeZonesKeywords, "zudndz");
    LacksAllBy(low, CircumnavigationKeywords, "usugg");
  }

  /** `analyze_argument("Satellites show Earth from space")` returns `("satellite", 15)` on the default tables. */
  lemma FromSpaceClassified(an: ArgumentAnalyzer)
    requires DefaultTable(an.evidenceWeights)
    ensures Classify(an, JoinWords(FromSpaceWords)) == Analysis(Some("satellite"), 15)
  {
    FromSpaceLowered();
    FromSpaceHit();
    FromSpaceLacksLetters();
    FromSpaceLacksWords();
    FromSpaceLacksCategories(JoinWords(FromSpaceLowWords));
    assert SatelliteKeywords[1] == "space";
    SatelliteCase(an.evidenceWeights, JoinWords(FromSpaceLowWords), 1);
  }
}
