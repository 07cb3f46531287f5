/** The text normalisation of mental.py: `clean_text`, applied to every cell of
    the question and context columns, and `clean_user_input`, applied to the
    chatbot's query. Both lower-case and strip; they differ in the order of the
    two steps and in what they accept. */
module Normalizer {

  /** One cell of the question/answer table: a text value, or the NaN that
      pandas stores for an empty field. */
  datatype Cell = Text(s: string) | Missing

  /** The ASCII characters for which Python's `str.isspace()` holds: the space,
      the control characters 9 to 13 (tab, line feed, vertical tab, form feed,
      carriage return) and the separators 28 to 31. */
  predicate IsSpace(c: char) {
    c == ' ' || 9 <= c as int <= 13 || 28 <= c as int <= 31
  }

  predicate IsUpper(c: char) {
    'A' <= c <= 'Z'
  }

  /** `str.lower()` on one character, for the ASCII letters. */
  function LowerChar(c: char): char {
    if IsUpper(c) then (c as int - 'A' as int + 'a' as int) as char else c
  }

  /** `str.lower()`: every character lower-cased, the length unchanged. */
  function Lower(s: string): string {
    seq(|s|, i requires 0 <= i < |s| => LowerChar(s[i]))
  }

  predicate AllSpace(s: string) {
    forall i :: 0 <= i < |s| ==> IsSpace(s[i])
  }

  predicate NoUpper(s: string) {
    forall i :: 0 <= i < |s| ==> !IsUpper(s[i])
  }

  /** Neither the first nor the last character is whitespace. */
  predicate NoOuterSpace(s: string) {
    s == [] || (!IsSpace(s[0]) && !IsSpace(s[|s| - 1]))
  }

  /** What both normalisers produce from text. */
  predicate Normal(s: string) {
    NoOuterSpace(s) && NoUpper(s)
  }

  /** `str.lstrip()`; `TrimLeftSpec` says what it removes. */
  function TrimLeft(s: string): string {
    if |s| > 0 && IsSpace(s[0]) then TrimLeft(s[1..]) else s
  }

  /** `str.rstrip()`; `TrimRightSpec` says what it removes. */
  function TrimRight(s: string): string {
    if |s| > 0 && IsSpace(s[|s| - 1]) then TrimRight(s[..|s| - 1]) else s
  }

  /** `str.strip()`; `StripSpec` says what it removes. */
  function Strip(s: string): string {
    TrimRight(TrimLeft(s))
  }

  /** `clean_text` (mental.py:10-13): a text cell is lower-cased and then
      stripped; any other cell is returned as it is. */
  function CleanText(c: Cell): Cell {
    match c
    case Missing => Missing
    case Text(s) => Text(Strip(Lower(s)))
  }

  /** `clean_user_input` (mental.py:49-50): stripped and then lower-cased. */
  function CleanUserInput(s: string): string {
    Lower(Strip(s))
  }

  // ---------------------------------------------------------------------------
  // Lemmas

  /** `lstrip` keeps a suffix of `s`, everything it cuts off is whitespace,
      and what it keeps does not start with whitespace. */
  lemma {:induction false} TrimLeftSpec(s: string)
    ensures |TrimLeft(s)| <= |s| && TrimLeft(s) == s[|s| - |TrimLeft(s)|..]
    ensures AllSpace(s[..|s| - |TrimLeft(s)|])
    ensures TrimLeft(s) == [] || !IsSpace(TrimLeft(s)[0])
  {
    if |s| > 0 && IsSpace(s[0]) {
      var r := TrimLeft(s[1..]);
      TrimLeftSpec(s[1..]);
      assert s[..|s| - |r|] == [s[0]] + s[1..][..|s| - 1 - |r|];
    }
  }

  /** `rstrip` keeps a prefix of `s`, everything it cuts off is whitespace,
      and what it keeps does not end with whitespace. */
  lemma {:induction false} TrimRightSpec(s: string)
    ensures |TrimRight(s)| <= |s| && TrimRight(s) == s[..|TrimRight(s)|]
    ensures AllSpace(s[|TrimRight(s)|..])
    ensures TrimRight(s) == [] || !IsSpace(TrimRight(s)[|TrimRight(s)| - 1])
  {
    if |s| > 0 && IsSpace(s[|s| - 1]) {
      var r := TrimRight(s[..|s| - 1]);
      TrimRightSpec(s[..|s| - 1]);
      assert s[|r|..] == s[..|s| - 1][|r|..] + [s[|s| - 1]];
    }
  }

  /** `strip` keeps a contiguous part of `s` with whitespace only before and
      after it, and that part has no whitespace at either end. */
  lemma StripSpec(s: string)
    ensures var k := |s| - |TrimLeft(s)|;
      && 0 <= k && k + |Strip(s)| <= |s|
      && Strip(s) == s[k..k + |Strip(s)|]
      && AllSpace(s[..k]) && AllSpace(s[k + |Strip(s)|..])
    ensures NoOuterSpace(Strip(s))
  {
    var t := TrimLeft(s);
    var k := |s| - |t|;
    TrimLeftSpec(s);
    TrimRightSpec(t);
    var r := Strip(s);
    assert t == s[k..];
    assert r == s[k..k + |r|];
    assert s[k + |r|..] == t[|r|..];
  }

  /** Lower-casing keeps whitespace where it is and removes every upper-case letter. */
  lemma LowerNormal(s: string)
    requires NoOuterSpace(s)
    ensures Normal(Lower(s))
  {
    var t := Lower(s);
    if s != [] {
      assert t[0] == LowerChar(s[0]) && t[|t| - 1] == LowerChar(s[|s| - 1]);
    }
  }

  /** Lower-casing touches no whitespace, so it commutes with `lstrip`. */
  lemma {:induction false} TrimLeftLower(s: string)
    ensures TrimLeft(Lower(s)) == Lower(TrimLeft(s))
  {
    var t := Lower(s);
    if |s| > 0 && IsSpace(s[0]) {
      assert IsSpace(t[0]);
      assert t[1..] == Lower(s[1..]);
      TrimLeftLower(s[1..]);
    } else {
      assert t == [] || !IsSpace(t[0]);
    }
  }

  /** Lower-casing commutes with `rstrip`. */
  lemma {:induction false} TrimRightLower(s: string)
    ensures TrimRight(Lower(s)) == Lower(TrimRight(s))
  {
    var t := Lower(s);
    if |s| > 0 && IsSpace(s[|s| - 1]) {
      assert IsSpace(t[|t| - 1]);
      assert t[..|t| - 1] == Lower(s[..|s| - 1]);
      TrimRightLower(s[..|s| - 1]);
    } else {
      assert t == [] || !IsSpace(t[|t| - 1]);
    }
  }

  /** Lower-then-strip and strip-then-lower agree. */
  lemma StripLower(s: string)
    ensures Strip(Lower(s)) == Lower(Strip(s))
  {
    TrimLeftLower(s);
    TrimRightLower(TrimLeft(s));
  }

  /** `clean_text` keeps a non-text cell as it is and turns text into text
      without outer whitespace or upper-case letters, never longer. */
  lemma CleanTextShape(c: Cell)
    ensures c.Missing? ==> CleanText(c) == Missing
    ensures c.Text? ==> CleanText(c).Text? && Normal(CleanText(c).s) && |CleanText(c).s| <= |c.s|
  {
    if c.Text? {
      StripLower(c.s);
      StripSpec(c.s);
      LowerNormal(Strip(c.s));
    }
  }

  /** `clean_user_input` gives text without outer whitespace or upper-case
      letters, never longer. */
  lemma CleanUserInputShape(s: string)
    ensures Normal(CleanUserInput(s)) && |CleanUserInput(s)| <= |s|
  {
    StripSpec(s);
    LowerNormal(Strip(s));
  }

  /** For every text, `clean_text` and `clean_user_input` give the same
      string: a raw question of the table and the same raw string typed as a
      query normalise to the same key. */
  lemma CleanTextAgreesWithUserInput(s: string)
    ensures CleanText(Text(s)) == Text(CleanUserInput(s))
  {
    StripLower(s);
  }

  /** A normal string is left alone by both steps. */
  lemma NormalIsFixed(s: string)
    requires Normal(s)
    ensures Lower(s) == s && Strip(s) == s
  {
    assert TrimLeft(s) == s;
    assert TrimRight(s) == s;
  }

  /** `clean_text` is idempotent. */
  lemma CleanTextIdempotent(c: Cell)
    ensures CleanText(CleanText(c)) == CleanText(c)
  {
    if c.Text? {
      CleanTextShape(c);
      NormalIsFixed(CleanText(c).s);
    }
  }

  /** `clean_user_input` is idempotent. */
  lemma CleanUserInputIdempotent(s: string)
    ensures CleanUserInput(CleanUserInput(s)) == CleanUserInput(s)
  {
    CleanUserInputShape(s);
    NormalIsFixed(CleanUserInput(s));
  }

  /** Leading whitespace does not change `lstrip`. */
  lemma {:induction false} TrimLeftSpaces(w: string, s: string)
    requires AllSpace(w)
    ensures TrimLeft(w + s) == TrimLeft(s)
  {
    if w == [] {
      assert w + s == s;
    } else {
      assert (w + s)[1..] == w[1..] + s;
      TrimLeftSpaces(w[1..], s);
    }
  }

  /** Trailing whitespace does not change `rstrip`. */
  lemma {:induction false} TrimRightSpaces(s: string, w: string)
    requires AllSpace(w)
    ensures TrimRight(s + w) == TrimRight(s)
  {
    if w == [] {
      assert s + w == s;
    } else {
      assert (s + w)[..|s + w| - 1] == s + w[..|w| - 1];
      TrimRightSpaces(s, w[..|w| - 1]);
    }
  }

  /** Once `lstrip` has reached a non-blank character, whatever follows is kept. */
  lemma {:induction false} TrimLeftKeepsTail(s: string, w: string)
    requires TrimLeft(s) != []
    ensures TrimLeft(s + w) == TrimLeft(s) + w
  {
    if IsSpace(s[0]) {
      assert (s + w)[1..] == s[1..] + w;
      TrimLeftKeepsTail(s[1..], w);
    }
  }

  /** Whitespace added around a string does not change `str.strip()`. */
  lemma StripPadded(w1: string, s: string, w2: string)
    requires AllSpace(w1) && AllSpace(w2)
    ensures Strip(w1 + s + w2) == Strip(s)
  {
    var t := s + w2;
    assert w1 + s + w2 == w1 + t;
    TrimLeftSpaces(w1, t);
    if TrimLeft(s) != [] {
      TrimLeftKeepsTail(s, w2);
      TrimRightSpaces(TrimLeft(s), w2);
    } else {
      TrimLeftSpec(s);
      assert s[..|s|] == s;
      assert AllSpace(t);
      TrimLeftSpaces(t, []);
      assert t + [] == t;
    }
  }
}
