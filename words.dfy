/**
 * Sentences as words joined by single spaces (`" ".join(words)`), and what
 * lower-casing and substring search do to such a sentence, word by word.
 */
module Words {
  import opened Text

  /** The words joined by single spaces. */
  function JoinWords(ws: seq<string>): string
  {
    if ws == [] then [] else if |ws| == 1 then ws[0] else ws[0] + " " + JoinWords(ws[1..])
  }

  /** Every word lower-cased. */
  function LowerAll(ws: seq<string>): (r: seq<string>)
    ensures |r| == |ws| && forall i :: 0 <= i < |ws| ==> r[i] == Lower(ws[i])
  {
    if ws == [] then [] else [Lower(ws[0])] + LowerAll(ws[1..])
  }

  /** A word whose characters lower-case one by one to `l` lower-cases to `l`. */
  lemma LowerWord(w: string, l: string)
    requires |w| == |l| && forall i :: 0 <= i < |w| ==> LowerChar(w[i]) == l[i]
    ensures Lower(w) == l
  {
  }

  /** Words that lower-case one by one to `ls` lower-case to `ls`. */
  lemma LowerAllOf(ws: seq<string>, ls: seq<string>)
    requires |ws| == |ls| && forall i :: 0 <= i < |ws| ==> Lower(ws[i]) == ls[i]
    ensures LowerAll(ws) == ls
  {
  }

  /** Lower-casing a sentence lower-cases each of its words. */
  lemma {:induction false} LowerJoin(ws: seq<string>)
    ensures Lower(JoinWords(ws)) == JoinWords(LowerAll(ws))
  {
    if |ws| > 1 {
      LowerJoin(ws[1..]);
      LowerAppend(ws[0] + " ", JoinWords(ws[1..]));
      LowerAppend(ws[0], " ");
      assert LowerAll(ws)[1..] == LowerAll(ws[1..]);
    }
  }

  /** A needle without spaces that occurs in no word does not occur in the sentence. */
  lemma {:induction false} NotInWords(ws: seq<string>, needle: string)
    requires needle != [] && ' ' !in needle
    requires forall i :: 0 <= i < |ws| ==> !Contains(ws[i], needle)
    ensures !Contains(JoinWords(ws), needle)
  {
    if |ws| == 1 {
      assert !Contains(ws[0], needle);
    } else if |ws| > 1 {
      assert forall i :: 0 <= i < |ws| - 1 ==> ws[1..][i] == ws[i + 1];
      NotInWords(ws[1..], needle);
      assert !Contains(ws[0], needle);
      SplitAtSpace(ws[0], JoinWords(ws[1..]), needle);
    }
  }

  /** A sentence uses only the space and the characters of its words. */
  lemma {:induction false} WordsAlphabet(ws: seq<string>, alphabet: string)
    requires ' ' in alphabet
    requires forall i :: 0 <= i < |ws| ==> forall c :: c in ws[i] ==> c in alphabet
    ensures forall c :: c in JoinWords(ws) ==> c in alphabet
  {
    if |ws| > 1 {
      assert forall i :: 0 <= i < |ws| - 1 ==> ws[1..][i] == ws[i + 1];
      WordsAlphabet(ws[1..], alphabet);
      assert ws[0] in ws;
    } else if |ws| == 1 {
      assert ws[0] in ws;
    }
  }

  /** Every word occurs in the sentence. */
  lemma {:induction false} WordAt(ws: seq<string>, i: nat)
    requires i < |ws|
    ensures Contains(JoinWords(ws), ws[i])
  {
    if |ws| == 1 {
      ContainsPrefix(ws[0], []);
      assert ws[0] + [] == ws[0];
    } else if i == 0 {
      ContainsPrefix(ws[0], " " + JoinWords(ws[1..]));
      assert JoinWords(ws) == ws[0] + (" " + JoinWords(ws[1..]));
    } else {
      WordAt(ws[1..], i - 1);
      ContainsAppend(ws[0] + " ", JoinWords(ws[1..]), ws[i]);
    }
  }

  /** Two neighbouring words occur in the sentence with the space between them. */
  lemma {:induction false} PairAt(ws: seq<string>, i: nat)
    requires i + 1 < |ws|
    ensures Contains(JoinWords(ws), ws[i] + " " + ws[i + 1])
  {
    var pair := ws[i] + " " + ws[i + 1];
    if i == 0 && |ws| == 2 {
      ContainsPrefix(pair, []);
      assert pair + [] == pair;
      assert JoinWords(ws[1..]) == ws[1];
    } else if i == 0 {
      var rest := JoinWords(ws[2..]);
      assert JoinWords(ws[1..]) == ws[1] + " " + rest;
      ContainsPrefix(pair, " " + rest);
      assert JoinWords(ws) == pair + (" " + rest);
    } else {
      PairAt(ws[1..], i - 1);
      ContainsAppend(ws[0] + " ", JoinWords(ws[1..]), pair);
    }
  }
}
