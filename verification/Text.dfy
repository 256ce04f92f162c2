/** String operations the source relies on: decimal numerals, `str.split`, `str.join`. */
module Text {

  datatype Option<+T> = None | Some(value: T)

  datatype Result<+T, +E> = Ok(value: T) | Err(error: E)

  // ---- Decimal numerals: str(n) and int(s) ----

  predicate IsDigit(c: char) { '0' <= c <= '9' }

  function Digit(d: nat): char
    requires d < 10
  {
    '0' + d as char
  }

  function ToDecimal(n: nat): string {
    if n < 10 then [Digit(n)] else ToDecimal(n / 10) + [Digit(n % 10)]
  }

  function FromDigits(s: string): Option<nat> {
    if s == "" || !IsDigit(s[|s| - 1]) then None
    else
      var d: nat := (s[|s| - 1] - '0') as int;
      if |s| == 1 then Some(d)
      else
        match FromDigits(s[..|s| - 1])
        case None => None
        case Some(n) => Some(10 * n + d)
  }

  /** `int(s)` on an optional sign followed by ASCII digits; anything else is a ValueError. */
  function ParseInt(s: string): Option<int> {
    if s != "" && (s[0] == '-' || s[0] == '+') then
      match FromDigits(s[1..])
      case None => None
      case Some(n) => var i: int := if s[0] == '-' then 0 - n else n; Some(i)
    else
      match FromDigits(s)
      case None => None
      case Some(n) => Some(n)
  }

  lemma {:induction false} DecimalDigits(n: nat)
    ensures ToDecimal(n) != ""
    ensures forall i :: 0 <= i < |ToDecimal(n)| ==> IsDigit(ToDecimal(n)[i])
  {
    if n < 10 {
    } else {
      DecimalDigits(n / 10);
    }
  }

  lemma {:induction false} DecimalRoundTrip(n: nat)
    ensures FromDigits(ToDecimal(n)) == Some(n)
    ensures ParseInt(ToDecimal(n)) == Some(n)
  {
    DecimalDigits(n);
    if n < 10 {
    } else {
      DecimalRoundTrip(n / 10);
      var s := ToDecimal(n);
      assert s[..|s| - 1] == ToDecimal(n / 10);
      DecimalDigits(n / 10);
    }
    assert IsDigit(ToDecimal(n)[0]);
  }

  /** Exactly the non-empty digit strings are read as numbers. */
  lemma {:induction false} DigitsAreRead(s: string)
    ensures FromDigits(s).Some? <==> s != "" && forall i :: 0 <= i < |s| ==> '0' <= s[i] <= '9'
  {
    if |s| > 1 {
      DigitsAreRead(s[..|s| - 1]);
      assert forall i :: 0 <= i < |s| - 1 ==> s[i] == s[..|s| - 1][i];
    }
  }

  /** A sign is read, with and without digits after it. */
  lemma SignedNumerals(n: nat, s: string)
    ensures ParseInt("-" + ToDecimal(n)).Some? && ParseInt("-" + ToDecimal(n)).value + n == 0
    ensures ParseInt("+" + ToDecimal(n)) == Some(n)
    ensures ParseInt(s).Some? <==>
              var digits := if s != "" && s[0] in "+-" then s[1..] else s;
              digits != "" && forall i :: 0 <= i < |digits| ==> '0' <= digits[i] <= '9'
  {
    DecimalRoundTrip(n);
    assert ("-" + ToDecimal(n))[1..] == ToDecimal(n) && ("+" + ToDecimal(n))[1..] == ToDecimal(n);
    DigitsAreRead(if s != "" && s[0] in "+-" then s[1..] else s);
  }

  // ---- Words: text.split() and " ".join(words) ----

  predicate IsSpace(c: char) { c == ' ' || '\t' <= c <= '\r' || '\U{1C}' <= c <= '\U{1F}' }

  /** The ASCII white space of Python's `str.isspace`: blank, tab, the line breaks and the four separators. */
  lemma WhiteSpace(c: char)
    ensures IsSpace(c) <==> c in [' ', '\t', '\n', '\U{0B}', '\U{0C}', '\r', '\U{1C}', '\U{1D}', '\U{1E}', '\U{1F}']
  {
  }

  /** A word as `str.split()` returns it: non-empty and free of whitespace. */
  predicate IsWord(w: string) {
    w != "" && forall i :: 0 <= i < |w| ==> !IsSpace(w[i])
  }

  predicate AllWords(ws: seq<string>) {
    forall i :: 0 <= i < |ws| ==> IsWord(ws[i])
  }

  function WordsFrom(cur: string, text: string): seq<string>
    decreases |text|
  {
    if text == "" then (if cur == "" then [] else [cur])
    else if IsSpace(text[0]) then (if cur == "" then [] else [cur]) + WordsFrom("", text[1..])
    else WordsFrom(cur + [text[0]], text[1..])
  }

  function Words(text: string): seq<string> { WordsFrom("", text) }

  function Join(ws: seq<string>): string {
    if |ws| == 0 then "" else if |ws| == 1 then ws[0] else ws[0] + " " + Join(ws[1..])
  }

  lemma {:induction false} WordsFromAreWords(cur: string, text: string)
    requires cur == "" || IsWord(cur)
    ensures AllWords(WordsFrom(cur, text))
    decreases |text|
  {
    if text == "" {
    } else if IsSpace(text[0]) {
      WordsFromAreWords("", text[1..]);
    } else {
      WordsFromAreWords(cur + [text[0]], text[1..]);
    }
  }

  lemma WordsAreWords(text: string)
    ensures AllWords(Words(text))
  {
    WordsFromAreWords("", text);
  }

  lemma {:induction false} WordsFromAbsorbs(cur: string, w: string, rest: string)
    requires forall i :: 0 <= i < |w| ==> !IsSpace(w[i])
    ensures WordsFrom(cur, w + rest) == WordsFrom(cur + w, rest)
    decreases |w|
  {
    if w == "" {
      assert w + rest == rest && cur + w == cur;
    } else {
      assert (w + rest)[1..] == w[1..] + rest;
      assert (cur + [w[0]]) + w[1..] == cur + w;
      WordsFromAbsorbs(cur + [w[0]], w[1..], rest);
    }
  }

  /** Splitting a joined word list gives the word list back. */
  lemma {:induction false} WordsOfJoin(ws: seq<string>)
    requires AllWords(ws)
    ensures Words(Join(ws)) == ws
  {
    if |ws| == 0 {
    } else if |ws| == 1 {
      WordsFromAbsorbs("", ws[0], "");
      assert ws[0] + "" == ws[0] && "" + ws[0] == ws[0];
    } else {
      var rest := " " + Join(ws[1..]);
      WordsFromAbsorbs("", ws[0], rest);
      assert ws[0] + rest == Join(ws) && "" + ws[0] == ws[0];
      assert rest[0] == ' ' && rest[1..] == Join(ws[1..]);
      WordsOfJoin(ws[1..]);
      assert ws == [ws[0]] + ws[1..];
    }
  }

  // ---- clean_document_text: collapse whitespace runs to one blank, then strip ----

  function Collapse(text: string, afterSpace: bool): string {
    if text == "" then ""
    else if IsSpace(text[0]) then (if afterSpace then "" else " ") + Collapse(text[1..], true)
    else [text[0]] + Collapse(text[1..], false)
  }

  function StripLeft(text: string): string {
    if text != "" && IsSpace(text[0]) then StripLeft(text[1..]) else text
  }

  function StripRight(text: string): string {
    if text != "" && IsSpace(text[|text| - 1]) then StripRight(text[..|text| - 1]) else text
  }

  function Strip(text: string): string { StripRight(StripLeft(text)) }

  /** `not text.strip()` */
  predicate IsBlank(text: string) { forall i :: 0 <= i < |text| ==> IsSpace(text[i]) }

  lemma {:induction false} LeftOfBlank(text: string)
    ensures StripLeft(text) == "" <==> IsBlank(text)
    ensures StripLeft(text) != "" ==> !IsSpace(StripLeft(text)[0])
  {
    if text != "" && IsSpace(text[0]) {
      LeftOfBlank(text[1..]);
      if IsBlank(text[1..]) {
        assert forall i :: 0 < i < |text| ==> text[i] == text[1..][i - 1];
      } else {
        var i :| 0 <= i < |text[1..]| && !IsSpace(text[1..][i]);
        assert !IsSpace(text[i + 1]);
      }
    }
  }

  lemma {:induction false} RightKeepsHead(text: string)
    requires text != "" && !IsSpace(text[0])
    ensures StripRight(text) != ""
  {
    if IsSpace(text[|text| - 1]) {
      RightKeepsHead(text[..|text| - 1]);
    }
  }

  /** Stripping leaves nothing exactly of a text of white space. */
  lemma BlankIsStripped(text: string)
    ensures Strip(text) == "" <==> IsBlank(text)
  {
    LeftOfBlank(text);
    if StripLeft(text) != "" {
      RightKeepsHead(StripLeft(text));
    }
  }

  lemma {:induction false} LeftTrims(text: string) returns (cut: string)
    ensures text == cut + StripLeft(text) && IsBlank(cut)
  {
    cut := "";
    if text != "" && IsSpace(text[0]) {
      cut := LeftTrims(text[1..]);
      cut := [text[0]] + cut;
    }
  }

  lemma {:induction false} RightTrims(text: string) returns (cut: string)
    ensures text == StripRight(text) + cut && IsBlank(cut)
    ensures StripRight(text) != "" ==> !IsSpace(StripRight(text)[|StripRight(text)| - 1])
  {
    cut := "";
    if text != "" && IsSpace(text[|text| - 1]) {
      cut := RightTrims(text[..|text| - 1]);
      assert text == text[..|text| - 1] + [text[|text| - 1]];
      cut := cut + [text[|text| - 1]];
    }
  }

  /** Stripping cuts off white space at both ends and nothing else, and leaves none there. */
  lemma StripTrims(text: string) returns (left: string, right: string)
    ensures text == left + Strip(text) + right && IsBlank(left) && IsBlank(right)
    ensures Strip(text) != "" ==> !IsSpace(Strip(text)[0]) && !IsSpace(Strip(text)[|Strip(text)| - 1])
  {
    left := LeftTrims(text);
    right := RightTrims(StripLeft(text));
    LeftOfBlank(text);
    var kept := Strip(text);
    assert StripLeft(text) == kept + right;
    assert kept != "" ==> kept[0] == StripLeft(text)[0];
  }

  /** What has no white space at its ends is left alone, so stripping twice is stripping once. */
  lemma StripStable(text: string)
    ensures Strip(Strip(text)) == Strip(text)
  {
    var left, right := StripTrims(text);
  }

  function CleanDocumentText(text: string): string { Strip(Collapse(text, false)) }

  lemma {:induction false} CollapseKeepsWords(cur: string, text: string, afterSpace: bool)
    requires afterSpace ==> cur == ""
    ensures WordsFrom(cur, Collapse(text, afterSpace)) == WordsFrom(cur, text)
    decreases |text|
  {
    if text == "" {
    } else if IsSpace(text[0]) {
      CollapseKeepsWords("", text[1..], true);
      if !afterSpace {
        var c := Collapse(text, afterSpace);
        assert c[0] == ' ' && c[1..] == Collapse(text[1..], true);
      } else {
        assert Collapse(text, afterSpace) == Collapse(text[1..], true);
      }
    } else {
      CollapseKeepsWords(cur + [text[0]], text[1..], false);
      assert Collapse(text, afterSpace)[1..] == Collapse(text[1..], false);
    }
  }

  lemma {:induction false} StripLeftKeepsWords(text: string)
    ensures Words(StripLeft(text)) == Words(text)
  {
    if text != "" && IsSpace(text[0]) {
      StripLeftKeepsWords(text[1..]);
    }
  }

  lemma {:induction false} TrailingSpace(cur: string, text: string, c: char)
    requires IsSpace(c)
    ensures WordsFrom(cur, text + [c]) == WordsFrom(cur, text)
    decreases |text|
  {
    if text == "" {
      assert (text + [c])[1..] == "";
    } else {
      assert (text + [c])[1..] == text[1..] + [c];
      if IsSpace(text[0]) {
        TrailingSpace("", text[1..], c);
      } else {
        TrailingSpace(cur + [text[0]], text[1..], c);
      }
    }
  }

  lemma {:induction false} StripRightKeepsWords(text: string)
    ensures Words(StripRight(text)) == Words(text)
  {
    if text != "" && IsSpace(text[|text| - 1]) {
      var n := |text| - 1;
      StripRightKeepsWords(text[..n]);
      TrailingSpace("", text[..n], text[n]);
      assert text[..n] + [text[n]] == text;
    }
  }

  /** Cleaning a document never changes its words. */
  lemma CleaningKeepsWords(text: string)
    ensures Words(CleanDocumentText(text)) == Words(text)
  {
    CollapseKeepsWords("", text, false);
    StripLeftKeepsWords(Collapse(text, false));
    StripRightKeepsWords(StripLeft(Collapse(text, false)));
  }

  // ---- s.split(sep) for a non-empty separator ----

  function SplitFrom(cur: string, s: string, sep: string): (pieces: seq<string>)
    requires sep != ""
    ensures |pieces| >= 1
    decreases |s|
  {
    if s == "" then [cur]
    else if sep <= s then [cur] + SplitFrom("", s[|sep|..], sep)
    else SplitFrom(cur + [s[0]], s[1..], sep)
  }

  function SplitOn(s: string, sep: string): (pieces: seq<string>)
    requires sep != ""
    ensures |pieces| >= 1
  {
    SplitFrom("", s, sep)
  }

  predicate OccursAt(s: string, sub: string, i: nat) {
    i + |sub| <= |s| && s[i..i + |sub|] == sub
  }

  predicate Contains(s: string, sub: string) {
    exists i: nat | i <= |s| :: OccursAt(s, sub, i)
  }
}
