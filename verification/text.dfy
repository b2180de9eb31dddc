/** String tests shared by the programs: ASCII lower case and substring search. */
module Text {

  function LowerChar(c: char): char {
    if 'A' <= c <= 'Z' then (c as int + 32) as char else c
  }

  function Lower(s: string): string {
    seq(|s|, i requires 0 <= i < |s| => LowerChar(s[i]))
  }

  predicate Contains(s: string, part: string) {
    part <= s || (s != "" && Contains(s[1..], part))
  }

  // ---------------------------------------------------------------- what the tests mean

  /** The same character, or the capital of a small letter. */
  predicate SameLetter(c: char, small: char) {
    c == small || ('a' <= small <= 'z' && c as int == small as int - 32)
  }

  /** The text is the phrase in any mixture of small and capital letters. */
  ghost predicate Spells(s: string, phrase: string) {
    |s| == |phrase| && forall i :: 0 <= i < |s| ==> SameLetter(s[i], phrase[i])
  }

  ghost predicate Small(phrase: string) {
    forall i :: 0 <= i < |phrase| ==> !('A' <= phrase[i] <= 'Z')
  }

  /** Somewhere in the text the phrase is written, in any mixture of small and capital letters. */
  ghost predicate Says(s: string, phrase: string) {
    exists pre: string, mid: string, post: string :: s == pre + mid + post && Spells(mid, phrase)
  }

  lemma {:induction false} LowerIff(s: string, phrase: string)
    requires Small(phrase)
    ensures Lower(s) == phrase <==> Spells(s, phrase)
  {
    if Lower(s) == phrase {
      forall i | 0 <= i < |s| ensures SameLetter(s[i], phrase[i]) {
        assert Lower(s)[i] == phrase[i];
      }
    }
  }

  lemma {:induction false} ContainsSplit(s: string, part: string) returns (k: nat)
    requires Contains(s, part)
    ensures k + |part| <= |s| && s[k..k + |part|] == part
  {
    if part <= s {
      k := 0;
    } else {
      var j := ContainsSplit(s[1..], part);
      k := j + 1;
      assert s[k..k + |part|] == s[1..][j..j + |part|];
    }
  }

  lemma {:induction false} SplitContains(s: string, part: string, k: nat)
    requires k + |part| <= |s| && s[k..k + |part|] == part
    ensures Contains(s, part)
  {
    if k > 0 {
      assert s[1..][k - 1..k - 1 + |part|] == s[k..k + |part|];
      SplitContains(s[1..], part, k - 1);
    }
  }

  /** Searching the lowered text for a phrase in small letters is asking whether the text says it. */
  lemma {:induction false} ContainsIff(s: string, phrase: string)
    requires Small(phrase)
    ensures Contains(Lower(s), phrase) <==> Says(s, phrase)
  {
    hide Spells, Small;
    if Contains(Lower(s), phrase) {
      var k := ContainsSplit(Lower(s), phrase);
      var mid := s[k..k + |phrase|];
      assert Lower(mid) == Lower(s)[k..k + |phrase|];
      LowerIff(mid, phrase);
      assert s == s[..k] + mid + s[k + |phrase|..];
    }
    if Says(s, phrase) {
      var pre: string, mid: string, post: string :| s == pre + mid + post && Spells(mid, phrase);
      LowerIff(mid, phrase);
      assert Lower(s)[|pre|..|pre| + |mid|] == Lower(mid);
      SplitContains(Lower(s), phrase, |pre|);
    }
  }
}
