/**
 * The two string operations the classifier relies on: ASCII lower-casing
 * (`str.lower()`) and substring containment (`needle in hay`).
 */
module Text {

  /** Lower-cases one ASCII letter; every other character is left alone. */
  function LowerChar(c: char): char
  {
    if 'A' <= c <= 'Z' then (c as int + 32) as char else c
  }

  predicate IsUpper(c: char)
  {
    'A' <= c <= 'Z'
  }

  /** `s.lower()`, character by character. */
  function Lower(s: string): (r: string)
    ensures |r| == |s|
  {
    seq(|s|, i requires 0 <= i < |s| => LowerChar(s[i]))
  }

  /** No upper-case letter survives lower-casing. */
  lemma LowerHasNoUpper(s: string)
    ensures forall i :: 0 <= i < |s| ==> !IsUpper(Lower(s)[i])
  {
  }

  /** Lower-casing twice is lower-casing once. */
  lemma LowerIdempotent(s: string)
    ensures Lower(Lower(s)) == Lower(s)
  {
    LowerHasNoUpper(s);
  }

  /** Lower-casing distributes over concatenation. */
  lemma LowerAppend(a: string, b: string)
    ensures Lower(a + b) == Lower(a) + Lower(b)
  {
    assert forall i :: 0 <= i < |a + b| ==> Lower(a + b)[i] == (Lower(a) + Lower(b))[i];
  }

  /** `needle` is the slice of `hay` at `i`. */
  predicate OccursAt(hay: string, needle: string, i: int)
  {
    0 <= i && i + |needle| <= |hay| && hay[i..i + |needle|] == needle
  }

  /** `needle in hay`: `needle` occurs in `hay` at some position. */
  predicate Contains(hay: string, needle: string)
  {
    exists i | 0 <= i <= |hay| - |needle| :: OccursAt(hay, needle, i)
  }

  /** A string contains each of its prefixes. */
  lemma ContainsPrefix(a: string, b: string)
    ensures Contains(a + b, a)
  {
    assert (a + b)[..|a|] == a;
    assert OccursAt(a + b, a, 0);
  }

  /** An occurrence in either part of a concatenation is an occurrence in the whole. */
  lemma ContainsAppend(a: string, b: string, needle: string)
    requires Contains(a, needle) || Contains(b, needle)
    ensures Contains(a + b, needle)
  {
    if Contains(a, needle) {
      var i :| 0 <= i <= |a| - |needle| && OccursAt(a, needle, i);
      assert (a + b)[i..i + |needle|] == a[i..i + |needle|];
      assert OccursAt(a + b, needle, i);
    } else {
      var i :| 0 <= i <= |b| - |needle| && OccursAt(b, needle, i);
      assert (a + b)[|a| + i..|a| + i + |needle|] == b[i..i + |needle|];
      assert OccursAt(a + b, needle, |a| + i);
    }
  }

  /** Containment is transitive. */
  lemma ContainsTrans(a: string, b: string, c: string)
    requires Contains(a, b) && Contains(b, c)
    ensures Contains(a, c)
  {
    var i :| 0 <= i <= |a| - |b| && OccursAt(a, b, i);
    var j :| 0 <= j <= |b| - |c| && OccursAt(b, c, j);
    forall k | 0 <= k < |c|
      ensures a[i + j..i + j + |c|][k] == c[k]
    {
      assert a[i..i + |b|][j + k] == b[j + k];
      assert b[j..j + |c|][k] == b[j + k];
    }
    assert a[i + j..i + j + |c|] == c;
    assert OccursAt(a, c, i + j);
  }

  /** A needle with two neighbouring characters that are never neighbours in `hay` does not occur in `hay`. */
  lemma AbsentPair(hay: string, needle: string, k: nat)
    requires k + 1 < |needle|
    requires forall j :: 0 <= j < |hay| - 1 ==> !(hay[j] == needle[k] && hay[j + 1] == needle[k + 1])
    ensures !Contains(hay, needle)
  {
    forall i | 0 <= i && i + |needle| <= |hay|
      ensures !OccursAt(hay, needle, i)
    {
      assert hay[i..i + |needle|][k] == hay[i + k];
      assert hay[i..i + |needle|][k + 1] == hay[i + k + 1];
    }
  }

  /** A needle using a character that `hay` lacks does not occur in `hay`. */
  lemma AbsentChar(hay: string, needle: string, c: char)
    requires c in needle && c !in hay
    ensures !Contains(hay, needle)
  {
    var k :| 0 <= k < |needle| && needle[k] == c;
    forall i | 0 <= i && i + |needle| <= |hay|
      ensures !OccursAt(hay, needle, i)
    {
      assert hay[i..i + |needle|][k] == hay[i + k];
    }
  }

  /** A needle without a space occurs in `a + " " + b` only inside `a` or inside `b`. */
  lemma SplitAtSpace(a: string, b: string, needle: string)
    requires ' ' !in needle
    ensures Contains(a + " " + b, needle) <==> Contains(a, needle) || Contains(b, needle)
  {
    var h := a + " " + b;
    assert h[|a|] == ' ';
    forall i | 0 <= i <= |a| < i + |needle| <= |h|
      ensures !OccursAt(h, needle, i)
    {
      assert h[i..i + |needle|][|a| - i] == ' ';
    }
    forall i | OccursAt(h, needle, i)
      ensures OccursAt(a, needle, i) || OccursAt(b, needle, i - |a| - 1)
    {
      if i + |needle| <= |a| {
        assert h[i..i + |needle|] == a[i..i + |needle|];
      } else {
        assert h[i..i + |needle|] == b[i - |a| - 1..i - |a| - 1 + |needle|];
      }
    }
    forall i | OccursAt(a, needle, i)
      ensures OccursAt(h, needle, i)
    {
      assert h[i..i + |needle|] == a[i..i + |needle|];
    }
    forall i | OccursAt(b, needle, i)
      ensures OccursAt(h, needle, |a| + 1 + i)
    {
      assert h[|a| + 1..] == b;
      assert h[|a| + 1 + i..|a| + 1 + i + |needle|] == h[|a| + 1..][i..i + |needle|];
    }
  }
}
