/**
  The pieces of JavaScript's string semantics that the chess server, the
  move-suggestion helper and the browser client rely on: white space as
  `trim`, `parseInt` and the pattern `\s` understand it, decimal rendering
  (`Number.prototype.toString`), `padStart(2, '0')`, `includes`,
  `split(':')` and `split(/\s+/)`.
 */
module JsText {
  import opened Wrappers

  /** White space and line terminators in the sense of ECMAScript (the class `\s`). */
  predicate IsJsSpace(c: char) {
    c == ' ' || '\t' <= c <= '\r' || c == '\U{00A0}' || c == '\U{1680}' ||
    '\U{2000}' <= c <= '\U{200A}' || c == '\U{2028}' || c == '\U{2029}' ||
    c == '\U{202F}' || c == '\U{205F}' || c == '\U{3000}' || c == '\U{FEFF}'
  }

  /** `w` occurs in `s` starting at position `k`. */
  predicate OccursAt(w: string, s: string, k: nat) {
    k + |w| <= |s| && s[k..k + |w|] == w
  }

  /** `w` occurs in `s` at some position. */
  ghost predicate IsSubstring(w: string, s: string) {
    exists k :: OccursAt(w, s, k)
  }

  // ---------------------------------------------------------------- trimming

  /** `trimStart`: drops the leading white space, and nothing else. */
  function TrimStart(s: string): (r: string)
    ensures |r| <= |s| && r == s[|s| - |r|..]
    ensures forall j :: 0 <= j < |s| - |r| ==> IsJsSpace(s[j])
    ensures |r| > 0 ==> !IsJsSpace(r[0])
  {
    if |s| > 0 && IsJsSpace(s[0]) then TrimStart(s[1..]) else s
  }

  /** `trimEnd`: drops the trailing white space, and nothing else. */
  function TrimEnd(s: string): (r: string)
    ensures |r| <= |s| && r == s[..|r|]
    ensures forall j :: |r| <= j < |s| ==> IsJsSpace(s[j])
    ensures |r| > 0 ==> !IsJsSpace(r[|r| - 1])
  {
    if |s| > 0 && IsJsSpace(s[|s| - 1]) then TrimEnd(s[..|s| - 1]) else s
  }

  /** `r` occurs in `s` at position `a`, and everything before and after it is white space. */
  predicate TrimmedAt(s: string, r: string, a: nat) {
    OccursAt(r, s, a) &&
    (forall j :: 0 <= j < a ==> IsJsSpace(s[j])) &&
    (forall j :: a + |r| <= j < |s| ==> IsJsSpace(s[j]))
  }

  /** `trim`: `s` with only white space cut from its two ends, so that the rest neither starts nor ends with white space. */
  function Trim(s: string): (r: string)
    ensures exists a :: TrimmedAt(s, r, a)
    ensures IsSubstring(r, s)
    ensures |r| > 0 ==> !IsJsSpace(r[0]) && !IsJsSpace(r[|r| - 1])
  {
    var t := TrimStart(s);
    var r := TrimEnd(t);
    var a := |s| - |t|;
    assert s[a..a + |r|] == t[..|r|];
    forall j | a + |r| <= j < |s|
      ensures IsJsSpace(s[j])
    {
      assert s[j] == t[j - a];
    }
    assert TrimmedAt(s, r, a);
    r
  }

  // ------------------------------------------------------------ decimal digits

  predicate IsDigit(c: char) {
    '0' <= c <= '9'
  }

  predicate AllDigits(s: string) {
    forall i :: 0 <= i < |s| ==> IsDigit(s[i])
  }

  function DigitChar(d: nat): (c: char)
    requires d < 10
    ensures IsDigit(c)
  {
    ('0' as int + d) as char
  }

  function DigitValue(c: char): (d: nat)
    requires IsDigit(c)
    ensures d < 10 && DigitChar(d) == c
  {
    c as int - '0' as int
  }

  /** The decimal rendering of a non-negative integer, as `n.toString()` gives it. */
  function NatToString(n: nat): (s: string)
    ensures |s| >= 1 && AllDigits(s)
    ensures s[0] == '0' ==> n == 0
  {
    if n < 10 then [DigitChar(n)] else NatToString(n / 10) + [DigitChar(n % 10)]
  }

  /** `n.toString()` for any integer: a minus sign in front of the magnitude. */
  function IntToString(n: int): (s: string)
    ensures n >= 0 ==> s == NatToString(n)
    ensures n < 0 ==> s == "-" + NatToString(-n)
  {
    if n < 0 then "-" + NatToString(-n) else NatToString(n)
  }

  /** The number a string of decimal digits denotes (leading zeros allowed). */
  function DigitsValue(s: string): nat
    requires AllDigits(s)
  {
    if s == [] then 0 else DigitsValue(s[..|s| - 1]) * 10 + DigitValue(s[|s| - 1])
  }

  /** Reading back the decimal rendering of `n` gives `n`. */
  lemma {:induction false} DigitsValueOfNatToString(n: nat)
    ensures DigitsValue(NatToString(n)) == n
  {
    if n >= 10 {
      var s := NatToString(n);
      assert s[..|s| - 1] == NatToString(n / 10);
      DigitsValueOfNatToString(n / 10);
    }
  }

  /** A leading zero does not change the value of a digit string. */
  lemma {:induction false} DigitsValueLeadingZero(s: string)
    requires AllDigits(s)
    ensures AllDigits("0" + s) && DigitsValue("0" + s) == DigitsValue(s)
  {
    if s != [] {
      assert ("0" + s)[..|"0" + s| - 1] == "0" + s[..|s| - 1];
      DigitsValueLeadingZero(s[..|s| - 1]);
    }
  }

  /** The rendering has one digit below 10 and two from 10 to 99. */
  lemma NatToStringLength(n: nat)
    ensures n < 10 ==> |NatToString(n)| == 1
    ensures 10 <= n < 100 ==> |NatToString(n)| == 2
  {
  }

  /** `s.padStart(2, '0')`: zeros in front until the string has two characters. */
  function PadStart2(s: string): (r: string)
    ensures |s| >= 2 ==> r == s
    ensures |s| < 2 ==> |r| == 2 && r[2 - |s|..] == s && forall i :: 0 <= i < 2 - |s| ==> r[i] == '0'
  {
    if |s| == 0 then "00" else if |s| == 1 then "0" + s else s
  }

  /**
    Padding the decimal rendering of `n` gives at least two digits with the
    value `n`, and exactly two below 100.
   */
  lemma PaddedValue(n: nat)
    ensures |PadStart2(NatToString(n))| >= 2 && AllDigits(PadStart2(NatToString(n)))
    ensures n < 100 ==> |PadStart2(NatToString(n))| == 2
    ensures DigitsValue(PadStart2(NatToString(n))) == n
  {
    NatToStringLength(n);
    DigitsValueOfNatToString(n);
    if n < 10 {
      DigitsValueLeadingZero(NatToString(n));
    }
  }

  // ---------------------------------------------------------------- parseInt

  predicate IsHexDigit(c: char) {
    IsDigit(c) || 'a' <= c <= 'f' || 'A' <= c <= 'F'
  }

  function HexDigitValue(c: char): (d: nat)
    requires IsHexDigit(c)
    ensures d < 16
  {
    if IsDigit(c) then DigitValue(c)
    else if 'a' <= c <= 'f' then c as int - 'a' as int + 10
    else c as int - 'A' as int + 10
  }

  /** The position of the first character from `i` on that is not white space. */
  function SkipSpace(s: string, i: nat): (j: nat)
    decreases |s| - i
  {
    if i < |s| && IsJsSpace(s[i]) then SkipSpace(s, i + 1) else i
  }

  /**
    The run of digits in base `radix` (10 or 16) that starts at `i`, read
    onto `acc`; `None` when the run is empty and nothing was read before.
   */
  function DigitRun(s: string, i: nat, radix: nat, acc: nat, any: bool): Option<nat>
    decreases |s| - i
  {
    if i < |s| && (if radix == 16 then IsHexDigit(s[i]) else IsDigit(s[i])) then
      DigitRun(s, i + 1, radix, acc * radix + (if radix == 16 then HexDigitValue(s[i]) else DigitValue(s[i])), true)
    else if any then Some(acc)
    else None
  }

  /**
    `parseInt(s)` without a radix: leading white space is skipped, then an
    optional sign, then a `0x`/`0X` prefix selects hexadecimal; the longest
    run of digits that follows is the value. No digits at all gives NaN,
    written `None`.
   */
  function ParseInt(s: string): (r: Option<int>)
  {
    var i := SkipSpace(s, 0);
    var signed := i < |s| && (s[i] == '-' || s[i] == '+');
    var j := if signed then i + 1 else i;
    var hex := j + 1 < |s| && s[j] == '0' && (s[j + 1] == 'x' || s[j + 1] == 'X');
    match (if hex then DigitRun(s, j + 2, 16, 0, false) else DigitRun(s, j, 10, 0, false))
    case None => None
    case Some(m) => Some(if signed && s[i] == '-' then -(m as int) else m as int)
  }

  /** A non-empty string of decimal digits parses to the number it denotes. */
  lemma ParseIntOfDigits(s: string)
    requires |s| > 0 && AllDigits(s)
    ensures ParseInt(s) == Some(DigitsValue(s) as int)
  {
    assert !IsJsSpace(s[0]) && s[0] != '-' && s[0] != '+';
    assert |s| >= 2 ==> s[1] != 'x' && s[1] != 'X';
    assert s[..0] == [];
    DecimalRunOfDigits(s, 0);
  }

  /** Reading the digits from `i` on, after those before it, gives the value of the whole string. */
  lemma {:induction false} DecimalRunOfDigits(s: string, i: nat)
    requires AllDigits(s) && i <= |s|
    ensures DigitRun(s, i, 10, DigitsValue(s[..i]), i > 0) == if |s| > 0 then Some(DigitsValue(s)) else None
    decreases |s| - i
  {
    if i < |s| {
      assert s[..i + 1][..i] == s[..i];
      DecimalRunOfDigits(s, i + 1);
    } else {
      assert s[..i] == s;
    }
  }

  // ---------------------------------------------------------------- includes

  /** `text.includes(pat)`. */
  function Contains(text: string, pat: string): (b: bool)
    ensures b <==> IsSubstring(pat, text)
    decreases |text|
  {
    if |pat| > |text| then false
    else if text[..|pat|] == pat then
      assert OccursAt(pat, text, 0);
      true
    else
      ContainsStep(text, pat);
      Contains(text[1..], pat)
  }

  lemma ContainsStep(text: string, pat: string)
    requires |pat| <= |text| && text[..|pat|] != pat
    ensures IsSubstring(pat, text) <==> IsSubstring(pat, text[1..])
  {
    if IsSubstring(pat, text) {
      var k: nat :| OccursAt(pat, text, k);
      assert k != 0;
      assert text[1..][k - 1..k - 1 + |pat|] == text[k..k + |pat|];
      assert OccursAt(pat, text[1..], k - 1);
    }
    if IsSubstring(pat, text[1..]) {
      var k: nat :| OccursAt(pat, text[1..], k);
      assert text[k + 1..k + 1 + |pat|] == text[1..][k..k + |pat|];
      assert OccursAt(pat, text, k + 1);
    }
  }

  /** A part of a suffix of `s` is a part of `s`. */
  lemma SubstringOfSuffix(w: string, s: string, d: nat)
    requires d <= |s| && IsSubstring(w, s[d..])
    ensures IsSubstring(w, s)
  {
    var k: nat :| OccursAt(w, s[d..], k);
    assert s[d + k..d + k + |w|] == s[d..][k..k + |w|];
    assert OccursAt(w, s, d + k);
  }

  // ----------------------------------------------------------------- split

  /** `s.split(sep)` for a one-character separator: the fields between separators. */
  function Split(s: string, sep: char): (fields: seq<string>)
    ensures |fields| >= 1
  {
    if |s| == 0 then [""]
    else
      var rest := Split(s[1..], sep);
      if s[0] == sep then [""] + rest else [[s[0]] + rest[0]] + rest[1..]
  }

  /** A string without the separator is a single field. */
  lemma {:induction false} SplitNoSeparator(s: string, sep: char)
    requires sep !in s
    ensures Split(s, sep) == [s]
  {
    if |s| > 0 {
      SplitNoSeparator(s[1..], sep);
      assert [s[0]] + s[1..] == s;
    }
  }

  /** Splitting `a + sep + b`, where `a` has no separator, gives `a` followed by the fields of `b`. */
  lemma {:induction false} SplitAfterField(a: string, b: string, sep: char)
    requires sep !in a
    ensures Split(a + [sep] + b, sep) == [a] + Split(b, sep)
  {
    if |a| == 0 {
      assert a + [sep] + b == [sep] + b;
      assert ([sep] + b)[1..] == b;
    } else {
      SplitAfterField(a[1..], b, sep);
      assert (a + [sep] + b)[1..] == a[1..] + [sep] + b;
      assert [a[0]] + a[1..] == a;
    }
  }

  /** The index of the first white-space character of `s`, or `|s|` if there is none. */
  function FirstSpace(s: string): (i: nat)
    ensures i <= |s| && (i < |s| ==> IsJsSpace(s[i]))
    ensures forall j :: 0 <= j < i ==> !IsJsSpace(s[j])
  {
    if |s| == 0 || IsJsSpace(s[0]) then 0 else 1 + FirstSpace(s[1..])
  }

  /** `s.split(/\s+/)`: the fields between maximal runs of white space. */
  function SplitWs(s: string): (words: seq<string>)
    ensures |words| >= 1
    decreases |s|
  {
    var i := FirstSpace(s);
    if i == |s| then [s] else [s[..i]] + SplitWs(TrimStart(s[i..]))
  }

  /** Every word that `split(/\s+/)` produces occurs in the string it came from. */
  lemma {:induction false} WordsAreSubstrings(s: string)
    ensures forall w :: w in SplitWs(s) ==> IsSubstring(w, s)
    decreases |s|
  {
    var i := FirstSpace(s);
    if i == |s| {
      assert OccursAt(s, s, 0);
    } else {
      var t := TrimStart(s[i..]);
      var d := |s| - |t|;
      assert t == s[d..];
      WordsAreSubstrings(t);
      forall w | w in SplitWs(s) ensures IsSubstring(w, s) {
        if w == s[..i] {
          assert OccursAt(w, s, 0);
        } else {
          assert w in SplitWs(t);
          SubstringOfSuffix(w, s, d);
        }
      }
    }
  }
}
