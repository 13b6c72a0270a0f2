// The string operations of Python that the OBJ loader relies on, over `seq<char>`:
// str.strip, str.startswith, str.split() and str.split(sep), and int() on a decimal
// literal.
module PyStrings {
  import opened Wrappers

  /** str.isspace for one character: the characters Python counts as whitespace. */
  predicate IsWhitespace(c: char) {
    || c == ' ' || '\t' <= c <= '\r' || '\U{1c}' <= c <= '\U{1f}' || c == '\U{85}' || c == '\U{a0}'
    || c == '\U{1680}' || '\U{2000}' <= c <= '\U{200a}' || c == '\U{2028}' || c == '\U{2029}'
    || c == '\U{202f}' || c == '\U{205f}' || c == '\U{3000}'
  }

  predicate IsDigit(c: char) {
    '0' <= c <= '9'
  }

  function DigitValue(c: char): nat
    requires IsDigit(c)
  {
    (c as int - '0' as int) as nat
  }

  /** str.lstrip(): the string without its leading whitespace. */
  function LStrip(s: string): (t: string)
    ensures |t| <= |s|
    ensures |t| > 0 ==> !IsWhitespace(t[0]) && t[|t| - 1] == s[|s| - 1]
  {
    if |s| > 0 && IsWhitespace(s[0]) then LStrip(s[1..]) else s
  }

  /** str.rstrip(): the string without its trailing whitespace. */
  function RStrip(s: string): (t: string)
    ensures |t| <= |s|
    ensures |t| > 0 ==> !IsWhitespace(t[|t| - 1]) && t[0] == s[0]
  {
    if |s| > 0 && IsWhitespace(s[|s| - 1]) then RStrip(s[..|s| - 1]) else s
  }

  /** str.strip(): neither end of the result is whitespace. */
  function Strip(s: string): (t: string)
    ensures |t| <= |s|
    ensures |t| > 0 ==> !IsWhitespace(t[0]) && !IsWhitespace(t[|t| - 1])
  {
    RStrip(LStrip(s))
  }

  /** str.startswith(prefix). */
  predicate StartsWith(s: string, prefix: string) {
    prefix <= s
  }

  /** The length of the run of non-whitespace characters that s starts with. */
  function WordLength(s: string): (n: nat)
    ensures n <= |s|
  {
    if |s| == 0 || IsWhitespace(s[0]) then 0 else 1 + WordLength(s[1..])
  }

  /** WordLength counts a run of non-whitespace that whitespace or the end stops. */
  lemma {:induction false} WordRun(s: string)
    ensures forall k :: 0 <= k < WordLength(s) ==> !IsWhitespace(s[k])
    ensures WordLength(s) < |s| ==> IsWhitespace(s[WordLength(s)])
  {
    if |s| > 0 && !IsWhitespace(s[0]) {
      WordRun(s[1..]);
    }
  }

  /** str.split(): the maximal runs of non-whitespace characters, in order. */
  function Split(s: string): (r: seq<string>)
    decreases |s|
  {
    if |s| == 0 then []
    else if IsWhitespace(s[0]) then Split(s[1..])
    else
      var n := WordLength(s);
      [s[..n]] + Split(s[n..])
  }

  /** The words str.split() gives are nonempty and hold no whitespace. */
  lemma {:induction false} SplitWords(s: string)
    ensures forall i :: 0 <= i < |Split(s)| ==> |Split(s)[i]| > 0 && forall k :: 0 <= k < |Split(s)[i]| ==> !IsWhitespace(Split(s)[i][k])
    decreases |s|
  {
    if |s| > 0 {
      if IsWhitespace(s[0]) {
        SplitWords(s[1..]);
      } else {
        WordRun(s);
        SplitWords(s[WordLength(s)..]);
      }
    }
  }

  /** str.split(maxsplit=1)[1]: what follows the first word and the whitespace after it,
      or None where the list has no second item (indexing it raises IndexError). */
  function AfterFirstWord(s: string): (r: Option<string>)
    ensures r.Some? ==> |r.value| > 0 && !IsWhitespace(r.value[0])
  {
    var t := LStrip(s);
    var rest := LStrip(t[WordLength(t)..]);
    if |rest| == 0 then None else Some(rest)
  }

  /** str.split(sep) for a one-character separator: the pieces between separators, at
      least one, possibly empty. */
  function SplitOn(s: string, sep: char): (r: seq<string>)
    ensures |r| >= 1
    decreases |s|
  {
    if sep !in s then [s]
    else
      var i := IndexOf(s, sep);
      [s[..i]] + SplitOn(s[i + 1..], sep)
  }

  /** The first position of c in s. */
  function IndexOf(s: string, c: char): (i: nat)
    requires c in s
    ensures i < |s| && s[i] == c
  {
    if s[0] == c then 0 else 1 + IndexOf(s[1..], c)
  }

  /** The pieces joined back with the separator between them. */
  function Join(pieces: seq<string>, sep: char): string
    requires |pieces| >= 1
  {
    if |pieces| == 1 then pieces[0] else pieces[0] + [sep] + Join(pieces[1..], sep)
  }

  /** Splitting on a separator loses nothing: joining the pieces gives the string back. */
  lemma {:induction false} SplitOnJoin(s: string, sep: char)
    ensures Join(SplitOn(s, sep), sep) == s
    decreases |s|
  {
    if sep in s {
      var i := IndexOf(s, sep);
      SplitOnJoin(s[i + 1..], sep);
      assert s == s[..i] + [sep] + s[i + 1..];
    }
  }

  /** The value of a run of decimal digits in which single underscores may stand between
      two digits, as int() reads it; None for anything else. */
  function DigitsValue(b: string): (v: Option<nat>)
    ensures v.Some? ==> |b| > 0 && IsDigit(b[0]) && IsDigit(b[|b| - 1])
    decreases |b|
  {
    if |b| == 0 || !IsDigit(b[|b| - 1]) then None
    else if |b| == 1 then Some(DigitValue(b[0]))
    else
      var init := b[..|b| - 1];
      var init' := if init[|init| - 1] == '_' then init[..|init| - 1] else init;
      match DigitsValue(init')
      case None => None
      case Some(v) =>
        assert b[0] == init'[0];
        Some(10 * v + DigitValue(b[|b| - 1]))
  }

  /** int(s) for a decimal literal: surrounding whitespace, an optional sign, then digits;
      anything else raises ValueError. */
  function ParseInt(s: string): (r: Outcome<int>)
    ensures r.Raised? ==> r.exc == ValueError
  {
    var t := Strip(s);
    if |t| > 0 && (t[0] == '-' || t[0] == '+') then
      match DigitsValue(t[1..])
      case Some(n) =>
        var v: int := n;
        Ok(if t[0] == '-' then -v else v)
      case None => Raised(ValueError)
    else
      match DigitsValue(t)
      case Some(n) => Ok(n)
      case None => Raised(ValueError)
  }

  function DigitChar(d: nat): (c: char)
    requires d < 10
    ensures IsDigit(c) && DigitValue(c) == d
  {
    ('0' as int + d) as char
  }

  /** str(n) for a natural number. */
  function Decimal(n: nat): (s: string)
    ensures |s| > 0 && forall k :: 0 <= k < |s| ==> IsDigit(s[k])
  {
    if n < 10 then [DigitChar(n)] else Decimal(n / 10) + [DigitChar(n % 10)]
  }

  /** str(n) for an integer. */
  function Show(n: int): (s: string)
    ensures |s| > 0 && (s[0] == '-' || IsDigit(s[0])) && IsDigit(s[|s| - 1])
  {
    if n < 0 then "-" + Decimal(-n) else Decimal(n)
  }

  lemma {:induction false} DecimalValue(n: nat)
    ensures DigitsValue(Decimal(n)) == Some(n)
  {
    if n >= 10 {
      DecimalValue(n / 10);
      var b := Decimal(n);
      assert b[..|b| - 1] == Decimal(n / 10);
    }
  }

  /** int() reads back what str() writes. */
  lemma ParseShow(n: int)
    ensures ParseInt(Show(n)) == Ok(n)
  {
    var s := Show(n);
    StripsNothing(s);
    if n < 0 {
      assert s[0] == '-' && s[1..] == Decimal(-n);
      DecimalValue(-n);
    } else {
      assert s == Decimal(n) && IsDigit(s[0]);
      DecimalValue(n);
    }
  }

  /** A string that neither starts nor ends with whitespace is its own strip. */
  lemma StripsNothing(s: string)
    requires |s| > 0 && !IsWhitespace(s[0]) && !IsWhitespace(s[|s| - 1])
    ensures Strip(s) == s
  {
    assert LStrip(s) == s;
    assert RStrip(s) == s;
  }

  /** A word followed by whitespace is exactly as long as WordLength says. */
  lemma {:induction false} WordLengthOfPrefix(s: string, word: string)
    requires |word| < |s| && word <= s && IsWhitespace(s[|word|])
    requires forall k :: 0 <= k < |word| ==> !IsWhitespace(word[k])
    ensures WordLength(s) == |word|
  {
    if |word| > 0 {
      assert s[0] == word[0];
      WordLengthOfPrefix(s[1..], word[1..]);
    }
  }

  /** Stripping the front keeps a string whose last character is not whitespace nonempty. */
  lemma {:induction false} LStripKeepsLast(s: string)
    requires |s| > 0 && !IsWhitespace(s[|s| - 1])
    ensures |LStrip(s)| > 0
  {
    if IsWhitespace(s[0]) {
      LStripKeepsLast(s[1..]);
    }
  }

  /** A stripped line made of a keyword, a space and more has a second word:
      split(maxsplit=1)[1] cannot raise IndexError on it. */
  lemma {:induction false} AfterKeyword(line: string, keyword: string)
    requires |keyword| > 0 && forall k :: 0 <= k < |keyword| ==> !IsWhitespace(keyword[k])
    requires keyword + " " <= line && Strip(line) == line
    ensures AfterFirstWord(line).Some?
  {
    assert line[0] == keyword[0] && line[|keyword|] == ' ';
    assert !IsWhitespace(line[|line| - 1]);
    assert LStrip(line) == line;
    WordLengthOfPrefix(line, keyword);
    LStripKeepsLast(line[|keyword|..]);
  }
}
