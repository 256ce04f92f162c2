/** Tag normalisation shared by the two permission filters: strip, lower-case, drop the empty ones. */
module Tags {
  import opened Text

  function LowerChar(c: char): char {
    if 'A' <= c <= 'Z' then (c - 'A') + 'a' else c
  }

  function Lower(s: string): string {
    seq(|s|, i requires 0 <= i < |s| => LowerChar(s[i]))
  }

  /** Lower-casing maps exactly the capital letters, in alphabetical order, and is complete after one pass. */
  lemma LowerCaseLetters(c: char, k: nat)
    ensures k < 26 ==> LowerChar("ABCDEFGHIJKLMNOPQRSTUVWXYZ"[k]) == "abcdefghijklmnopqrstuvwxyz"[k]
    ensures c !in "ABCDEFGHIJKLMNOPQRSTUVWXYZ" ==> LowerChar(c) == c
    ensures LowerChar(c) !in "ABCDEFGHIJKLMNOPQRSTUVWXYZ"
  {
    var capitals := "ABCDEFGHIJKLMNOPQRSTUVWXYZ";
    if 'A' <= c <= 'Z' {
      assert capitals[(c - 'A') as int] == c;
    }
    assert forall i :: 0 <= i < 26 ==> capitals[i] == 'A' + i as char;
    assert forall i :: 0 <= i < 26 ==> "abcdefghijklmnopqrstuvwxyz"[i] == 'a' + i as char;
  }

  lemma LowerKeepsSpace(c: char)
    ensures IsSpace(LowerChar(c)) <==> IsSpace(c)
    ensures LowerChar(LowerChar(c)) == LowerChar(c)
  {
  }

  lemma {:induction false} LowerLeft(s: string)
    ensures StripLeft(Lower(s)) == Lower(StripLeft(s))
  {
    if s != "" {
      LowerKeepsSpace(s[0]);
      if IsSpace(s[0]) {
        assert Lower(s)[1..] == Lower(s[1..]);
        LowerLeft(s[1..]);
      }
    }
  }

  lemma {:induction false} LowerRight(s: string)
    ensures StripRight(Lower(s)) == Lower(StripRight(s))
  {
    if s != "" {
      LowerKeepsSpace(s[|s| - 1]);
      if IsSpace(s[|s| - 1]) {
        assert Lower(s)[..|s| - 1] == Lower(s[..|s| - 1]);
        LowerRight(s[..|s| - 1]);
      }
    }
  }

  /** The two steps commute, and each is complete after one pass. */
  lemma LowerStripped(s: string)
    ensures Strip(Lower(s)) == Lower(Strip(s)) && Lower(Lower(s)) == Lower(s)
    ensures Strip(Lower(Strip(s))) == Lower(Strip(s)) && Lower(Strip(Lower(Strip(s)))) == Lower(Strip(s))
  {
    LowerLeft(s);
    LowerRight(StripLeft(s));
    forall i | 0 <= i < |s| ensures LowerChar(LowerChar(s[i])) == LowerChar(s[i]) {
      LowerKeepsSpace(s[i]);
    }
    StripStable(s);
    LowerLeft(Strip(s));
    LowerRight(StripLeft(Strip(s)));
    forall i | 0 <= i < |Strip(s)| ensures LowerChar(LowerChar(Strip(s)[i])) == LowerChar(Strip(s)[i]) {
      LowerKeepsSpace(Strip(s)[i]);
    }
  }

  function NormalizeTags(tags: seq<string>): set<string> {
    set t | t in tags && Strip(t) != "" :: Lower(Strip(t))
  }
}
