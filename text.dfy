/** The string operations the game relies on: `str.lower`, `str.strip`,
    `int(...)` on a line of user input, and `str(...)` of an integer. */
module Text {
  import opened Wrappers

  /** `str.lower` on one character, for the ASCII letters. */
  function LowerChar(c: char): (r: char)
    ensures 'A' <= c <= 'Z' ==> 'a' <= r <= 'z' && r as int == c as int + 32
    ensures !('A' <= c <= 'Z') ==> r == c
  {
    if 'A' <= c <= 'Z' then (c as int + 32) as char else c
  }

  /** `str.lower`: every character lowered, nothing else changed. */
  function Lower(s: string): (r: string)
    ensures |r| == |s|
    ensures forall i :: 0 <= i < |s| ==> r[i] == LowerChar(s[i])
  {
    if s == [] then [] else [LowerChar(s[0])] + Lower(s[1..])
  }

  lemma LowerIdempotent(s: string)
    ensures Lower(Lower(s)) == Lower(s)
  {
  }

  /** The whitespace characters beyond ASCII, as `str.isspace` knows them:
      next line U+0085, no-break space U+00A0, the Ogham space mark U+1680,
      the spaces U+2000 to U+200A, the line and paragraph separators U+2028
      and U+2029, the narrow no-break space U+202F, the medium mathematical
      space U+205F and the ideographic space U+3000. */
  predicate IsWideSpace(c: char) {
    || c == '\U{85}' || c == '\U{A0}' || c == '\U{1680}'
    || '\U{2000}' <= c <= '\U{200A}'
    || c == '\U{2028}' || c == '\U{2029}' || c == '\U{202F}' || c == '\U{205F}'
    || c == '\U{3000}'
  }

  /** Whitespace as `int` skips it around a number: C's ASCII whitespace
      (tab, line feed, vertical tab, form feed, carriage return and space),
      and every non-ASCII whitespace character, which `int` first turns into
      a space. */
  predicate IsIntSpace(c: char) {
    c == ' ' || '\t' <= c <= '\r' || IsWideSpace(c)
  }

  /** Whitespace as `str.isspace` sees it, which is what `str.strip` removes:
      the whitespace `int` skips and, in addition, the four ASCII separators
      U+001C to U+001F. */
  predicate IsSpace(c: char) {
    IsIntSpace(c) || '\U{1C}' <= c <= '\U{1F}'
  }

  /** Which of the two sets of whitespace a trim removes. */
  datatype Blanks = StripBlanks | IntBlanks

  predicate IsBlank(c: char, w: Blanks) {
    match w
    case StripBlanks => IsSpace(c)
    case IntBlanks => IsIntSpace(c)
  }

  predicate IsDigit(c: char) {
    '0' <= c <= '9'
  }

  predicate AllDigits(s: string) {
    forall i :: 0 <= i < |s| ==> IsDigit(s[i])
  }

  /** `s` without the whitespace at its front. */
  function TrimStart(s: string, w: Blanks): (r: string)
    ensures |r| <= |s|
  {
    if s != [] && IsBlank(s[0], w) then TrimStart(s[1..], w) else s
  }

  /** `s` without the whitespace at its back. */
  function TrimEnd(s: string, w: Blanks): (r: string)
    ensures |r| <= |s|
  {
    if s != [] && IsBlank(s[|s| - 1], w) then TrimEnd(s[..|s| - 1], w) else s
  }

  /** `s` without whitespace at either end. */
  function Trim(s: string, w: Blanks): string
  {
    TrimEnd(TrimStart(s, w), w)
  }

  /** `str.strip()`. */
  function Strip(s: string): string
  {
    Trim(s, StripBlanks)
  }

  /** `TrimStart` keeps a suffix that does not start with whitespace and
      drops only whitespace. */
  lemma {:induction false} TrimStartDrops(s: string, w: Blanks)
    ensures var r := TrimStart(s, w);
      && |r| <= |s| && r == s[|s| - |r|..]
      && (r != [] ==> !IsBlank(r[0], w))
      && (forall i :: 0 <= i < |s| - |r| ==> IsBlank(s[i], w))
  {
    if s != [] && IsBlank(s[0], w) {
      TrimStartDrops(s[1..], w);
      var r := TrimStart(s, w);
      assert forall i :: 1 <= i < |s| - |r| ==> s[i] == s[1..][i - 1];
    }
  }

  /** `TrimEnd` keeps a prefix that does not end with whitespace and drops
      only whitespace. */
  lemma {:induction false} TrimEndDrops(s: string, w: Blanks)
    ensures var r := TrimEnd(s, w);
      && |r| <= |s| && r == s[..|r|]
      && (r != [] ==> !IsBlank(r[|r| - 1], w))
      && (forall i :: |r| <= i < |s| ==> IsBlank(s[i], w))
  {
    if s != [] && IsBlank(s[|s| - 1], w) {
      TrimEndDrops(s[..|s| - 1], w);
      var r := TrimEnd(s, w);
      assert forall i :: |r| <= i < |s| - 1 ==> s[i] == s[..|s| - 1][i];
    }
  }

  /** What a trim keeps: the stretch `s[a..a + |r|]`, where `a` is the
      length of the leading whitespace, with only whitespace before and after
      it and none at its own ends; a string without whitespace at its ends is
      kept whole. */
  lemma TrimKeepsMiddle(s: string, w: Blanks)
    ensures var r := Trim(s, w); var a := |s| - |TrimStart(s, w)|;
      && a + |r| <= |s| && r == s[a..a + |r|]
      && (forall i :: 0 <= i < a ==> IsBlank(s[i], w))
      && (forall i :: a + |r| <= i < |s| ==> IsBlank(s[i], w))
      && (r != [] ==> !IsBlank(r[0], w) && !IsBlank(r[|r| - 1], w))
    ensures s == [] || (!IsBlank(s[0], w) && !IsBlank(s[|s| - 1], w)) ==> Trim(s, w) == s
  {
    var t := TrimStart(s, w);
    TrimStartDrops(s, w);
    TrimEndDrops(t, w);
    var a := |s| - |t|;
    var r := Trim(s, w);
    assert r != [] ==> r[0] == t[0];
    forall i | a + |r| <= i < |s|
      ensures IsBlank(s[i], w)
    {
      assert s[i] == t[i - a];
    }
  }

  /** The two sets differ: `strip` removes a leading U+001C, and `int`
      refuses a line that starts with one. */
  lemma SeparatorsDiffer()
    ensures Strip("\U{1C}1") == "1"
    ensures ParseInt("\U{1C}1") == None
  {
    assert TrimStart("\U{1C}1", StripBlanks) == "1";
    assert Trim("\U{1C}1", IntBlanks) == "\U{1C}1";
  }

  /** A no-break space before a number is removed by `strip` and skipped by
      `int` alike. */
  lemma NoBreakSpaceSkipped()
    ensures Strip("\U{A0}1") == "1"
    ensures ParseInt("\U{A0}1") == Some(1)
  {
    assert TrimStart("\U{A0}1", StripBlanks) == "1";
    assert TrimStart("\U{A0}1", IntBlanks) == "1";
    assert ParseDigits("1") == Some(1);
  }

  function DigitValue(c: char): (d: nat)
    requires IsDigit(c)
    ensures d < 10
  {
    c as int - '0' as int
  }

  function DigitChar(d: nat): (c: char)
    requires d < 10
    ensures IsDigit(c) && DigitValue(c) == d
  {
    ('0' as int + d) as char
  }

  /** The value of one or more decimal digits, most significant first;
      `None` for anything else. */
  function ParseDigits(s: string): Option<nat>
  {
    if s == [] || !IsDigit(s[|s| - 1]) then None
    else if |s| == 1 then Some(DigitValue(s[0]))
    else
      match ParseDigits(s[..|s| - 1])
      case None => None
      case Some(v) => Some(v * 10 + DigitValue(s[|s| - 1]))
  }

  /** `ParseDigits` accepts exactly the non-empty strings of digits. */
  lemma {:induction false} ParseDigitsAccepts(s: string)
    ensures ParseDigits(s).Some? <==> |s| > 0 && AllDigits(s)
  {
    if |s| > 1 && IsDigit(s[|s| - 1]) {
      var p := s[..|s| - 1];
      ParseDigitsAccepts(p);
      assert forall i :: 0 <= i < |p| ==> p[i] == s[i];
    }
  }

  /** Every character is whitespace `int` skips, a digit or a sign. */
  predicate NumericChars(s: string) {
    forall i :: 0 <= i < |s| ==> IsIntSpace(s[i]) || IsDigit(s[i]) || s[i] == '-' || s[i] == '+'
  }

  /** CPython's default limit on the number of decimal digits `int` reads
      and `str` writes (`sys.get_int_max_str_digits()`, Python 3.11 on);
      beyond it both raise ValueError. */
  const MaxStrDigits := 4300

  /** An optional sign followed by at least one and at most `MaxStrDigits`
      decimal digits. */
  function ParseSigned(t: string): Option<int>
  {
    var signed := |t| > 0 && (t[0] == '-' || t[0] == '+');
    var digits := if signed then t[1..] else t;
    if |digits| > MaxStrDigits then None
    else
      match ParseDigits(digits)
      case None => None
      case Some(v) =>
        var n: int := v;
        Some(if signed && t[0] == '-' then -n else n)
  }

  /** `int(text)`: optional surrounding whitespace around an optional sign and
      decimal digits; anything else is the ValueError case, `None`. */
  function ParseInt(s: string): Option<int>
  {
    ParseSigned(Trim(s, IntBlanks))
  }

  /** A line that `int` accepts holds only whitespace, digits and signs. */
  lemma ParsedIsNumeric(s: string)
    ensures ParseInt(s).Some? ==> NumericChars(s)
  {
    var t := Trim(s, IntBlanks);
    var a := |s| - |TrimStart(s, IntBlanks)|;
    TrimKeepsMiddle(s, IntBlanks);
    if ParseSigned(t).Some? {
      if |t| > 0 && (t[0] == '-' || t[0] == '+') {
        ParseDigitsAccepts(t[1..]);
        assert forall i :: 1 <= i < |t| ==> t[i] == t[1..][i - 1];
      } else {
        ParseDigitsAccepts(t);
      }
      assert NumericChars(t);
      forall i | a <= i < a + |t|
        ensures IsDigit(s[i]) || s[i] == '-' || s[i] == '+'
      {
        assert s[i] == t[i - a];
      }
    }
  }

  /** `str(n)` for a natural number: its decimal digits without leading zeros. */
  function FormatNat(n: nat): (s: string)
    ensures |s| > 0 && AllDigits(s)
    ensures |s| > 1 ==> s[0] != '0'
  {
    if n < 10 then [DigitChar(n)] else FormatNat(n / 10) + [DigitChar(n % 10)]
  }

  /** `str(n)` for an integer. */
  function FormatInt(n: int): (s: string)
    ensures |s| > 0
  {
    if n < 0 then "-" + FormatNat(-n) else FormatNat(n)
  }

  lemma {:induction false} FormatNatValue(n: nat)
    ensures ParseDigits(FormatNat(n)) == Some(n)
  {
    var s := FormatNat(n);
    if n >= 10 {
      FormatNatValue(n / 10);
      assert s[..|s| - 1] == FormatNat(n / 10);
    }
  }

  /** A larger number never has fewer digits. */
  lemma {:induction false} FormatNatGrows(n: nat, m: nat)
    requires n <= m
    ensures |FormatNat(n)| <= |FormatNat(m)|
  {
    if n >= 10 {
      FormatNatGrows(n / 10, m / 10);
    }
  }

  /** Reading back what `str` wrote gives the same integer, as long as it
      has at most `MaxStrDigits` digits; a longer one is refused. */
  lemma ParseFormatInt(n: int)
    ensures var digits := FormatNat(if n < 0 then -n else n);
      ParseInt(FormatInt(n)) == if |digits| <= MaxStrDigits then Some(n) else None
  {
    var s := FormatInt(n);
    assert !IsIntSpace(s[0]) && !IsIntSpace(s[|s| - 1]);
    assert TrimStart(s, IntBlanks) == s;
    assert Trim(s, IntBlanks) == s;
    ParseSignedFormatInt(n);
  }

  /** `ParseSigned` reads back the text of `n`, within the digit limit. */
  lemma ParseSignedFormatInt(n: int)
    ensures var digits := FormatNat(if n < 0 then -n else n);
      ParseSigned(FormatInt(n)) == if |digits| <= MaxStrDigits then Some(n) else None
  {
    var s := FormatInt(n);
    if n < 0 {
      FormatNatValue(-n);
      assert s[0] == '-' && s[1..] == FormatNat(-n);
    } else {
      FormatNatValue(n);
      assert s[0] != '-' && s[0] != '+';
    }
  }

  /** A string made of whitespace, digits and signs is unchanged by lowering. */
  lemma NumericIsLowerCase(s: string)
    ensures NumericChars(s) ==> Lower(s) == s
  {
  }

  /** Lowering cannot turn a letter into whitespace, a digit or a sign. */
  lemma LoweredStaysNonNumeric(s: string)
    requires !NumericChars(s)
    ensures !NumericChars(Lower(s))
  {
    var i :| 0 <= i < |s| && !(IsIntSpace(s[i]) || IsDigit(s[i]) || s[i] == '-' || s[i] == '+');
    assert Lower(s)[i] == LowerChar(s[i]);
  }

  /** Lowering never changes what `int` makes of a line: digits, signs and
      whitespace are not letters, and a letter makes both parses fail. */
  lemma ParseIgnoresCase(s: string)
    ensures ParseInt(Lower(s)) == ParseInt(s)
  {
    ParsedIsNumeric(s);
    ParsedIsNumeric(Lower(s));
    if NumericChars(s) {
      NumericIsLowerCase(s);
    } else {
      LoweredStaysNonNumeric(s);
    }
  }
}
