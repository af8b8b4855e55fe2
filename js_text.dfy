/** JavaScript string and number behaviour that the blog's code relies on:
    truthiness of optional strings, Number.prototype.toString on integers,
    String.prototype.trim, and what a regular-expression `.` refuses to match. */
module JsText {

  /** A value that JavaScript may leave `undefined`. */
  datatype Option<+T> = None | Some(value: T)

  /** `undefined` and `""` are falsy; every other string is truthy. */
  predicate Truthy(s: Option<string>) {
    s.Some? && s.value != ""
  }

  /** `s || fallback` for an optional string. */
  function OrElse(s: Option<string>, fallback: string): string {
    if Truthy(s) then s.value else fallback
  }

  // ---------------------------------------------------------------------------
  // Number.prototype.toString for integers

  predicate IsDigit(c: char) {
    '0' <= c <= '9'
  }

  function DigitChar(d: nat): (c: char)
    requires d < 10
    ensures IsDigit(c)
  {
    ('0' as int + d) as char
  }

  function DigitValue(c: char): (d: nat)
    requires IsDigit(c)
    ensures d < 10 && DigitChar(d) == c
  {
    c as int - '0' as int
  }

  /** Decimal digits of `n`, most significant first, without leading zeros. */
  function NatToDecimal(n: nat): (r: string)
    ensures |r| >= 1
    ensures forall i :: 0 <= i < |r| ==> IsDigit(r[i])
    ensures r[0] == '0' ==> n == 0 && r == "0"
    decreases n
  {
    if n < 10 then [DigitChar(n)] else NatToDecimal(n / 10) + [DigitChar(n % 10)]
  }

  /** `(n).toString()` for an integral number: a minus sign, then the decimal digits. */
  function IntToString(n: int): (r: string)
    ensures |r| >= 1
    ensures r[0] == '-' <==> n < 0
  {
    if n < 0 then "-" + NatToDecimal(-n) else NatToDecimal(n)
  }

  /** The value of a string of decimal digits. */
  function DecimalValue(s: string): nat
    requires forall i :: 0 <= i < |s| ==> IsDigit(s[i])
  {
    if s == [] then 0 else 10 * DecimalValue(s[..|s| - 1]) + DigitValue(s[|s| - 1])
  }

  /** Decimal digits as `toString` writes them: at least one, and no leading zero
      unless the number is zero itself. */
  predicate IsCanonicalDecimal(s: string) {
    && s != []
    && (forall i :: 0 <= i < |s| ==> IsDigit(s[i]))
    && (s[0] == '0' ==> |s| == 1)
  }

  /** Reads back exactly what IntToString writes: a canonical run of digits,
      or a minus sign before one that is not zero. Anything else, such as
      `007`, `-0`, ` 5` or `5a`, is refused. */
  function ParseInt(s: string): Option<int> {
    if |s| > 1 && s[0] == '-' && s[1] != '0' && IsCanonicalDecimal(s[1..]) then
      Some(-(DecimalValue(s[1..]) as int))
    else if IsCanonicalDecimal(s) then
      Some(DecimalValue(s))
    else
      None
  }

  lemma {:induction false} DecimalRoundTrip(n: nat)
    ensures DecimalValue(NatToDecimal(n)) == n
    decreases n
  {
    var r := NatToDecimal(n);
    if n >= 10 {
      DecimalRoundTrip(n / 10);
      assert r[..|r| - 1] == NatToDecimal(n / 10);
    }
  }

  /** Parsing the text of an integer gives the integer back. */
  lemma IntToStringRoundTrip(n: int)
    ensures ParseInt(IntToString(n)) == Some(n)
  {
    if n < 0 {
      var d := NatToDecimal(-n);
      assert DecimalValue(d) == -n by {
        DecimalRoundTrip(-n);
      }
      assert IntToString(n) == "-" + d && ("-" + d)[1..] == d;
    } else {
      DecimalRoundTrip(n);
    }
  }

  /** A run of digits that does not start with zero is worth at least one. */
  lemma {:induction false} DecimalPositive(s: string)
    requires s != [] && s[0] != '0' && forall i :: 0 <= i < |s| ==> IsDigit(s[i])
    ensures DecimalValue(s) >= 1
    decreases |s|
  {
    if |s| > 1 {
      DecimalPositive(s[..|s| - 1]);
    }
  }

  /** Printing the value of a canonical run of digits gives the run back. */
  lemma {:induction false} CanonicalDecimalRoundTrip(s: string)
    requires IsCanonicalDecimal(s)
    ensures NatToDecimal(DecimalValue(s)) == s
    decreases |s|
  {
    if |s| > 1 {
      var init, c := s[..|s| - 1], s[|s| - 1];
      assert IsCanonicalDecimal(init);
      DecimalPositive(init);
      CanonicalDecimalRoundTrip(init);
      var v := DecimalValue(s);
      assert v / 10 == DecimalValue(init) && v % 10 == DigitValue(c);
      assert s == init + [c];
    }
  }

  /** ParseInt accepts only texts that IntToString writes: whatever it reads,
      printing the value gives the same text back. */
  lemma ParseIntOnlyPrinted(s: string, n: int)
    requires ParseInt(s) == Some(n)
    ensures IntToString(n) == s
  {
    if |s| > 1 && s[0] == '-' && s[1] != '0' && IsCanonicalDecimal(s[1..]) {
      var d := s[1..];
      DecimalPositive(d);
      CanonicalDecimalRoundTrip(d);
      assert s == "-" + d;
    } else {
      CanonicalDecimalRoundTrip(s);
    }
  }

  /** Distinct integers print differently. */
  lemma IntToStringInjective(a: int, b: int)
    ensures IntToString(a) == IntToString(b) <==> a == b
  {
    IntToStringRoundTrip(a);
    IntToStringRoundTrip(b);
  }

  // ---------------------------------------------------------------------------
  // Array.from

  /** `Array.from({length: len}, (_, i) => i + 1)`: the numbers 1 to `len`,
      nothing for a length below one (a negative length counts as zero). */
  function Range(len: int): (r: seq<int>)
    ensures |r| == if len < 0 then 0 else len
    ensures forall i :: 0 <= i < |r| ==> r[i] == i + 1
    decreases if len < 0 then 0 else len
  {
    if len <= 0 then [] else Range(len - 1) + [len]
  }

  // ---------------------------------------------------------------------------
  // String.prototype.trim

  /** The line terminators of ECMAScript; a regular-expression `.` matches
      every character but these. */
  predicate IsLineTerminator(c: char) {
    c == '\n' || c == '\r' || c == '\U{2028}' || c == '\U{2029}'
  }

  /** ECMAScript WhiteSpace and LineTerminator characters, which trim removes. */
  const JsWhitespace: set<char> := {
    '\t', '\U{000B}', '\U{000C}', ' ', '\U{00A0}', '\U{FEFF}', '\U{1680}',
    '\U{2000}', '\U{2001}', '\U{2002}', '\U{2003}', '\U{2004}', '\U{2005}',
    '\U{2006}', '\U{2007}', '\U{2008}', '\U{2009}', '\U{200A}',
    '\U{202F}', '\U{205F}', '\U{3000}',
    '\n', '\r', '\U{2028}', '\U{2029}'
  }

  predicate IsJsWhitespace(c: char) {
    c in JsWhitespace
  }

  /** `s[i..j]` is what trimming `s` keeps: everything before `i` and from `j`
      on is whitespace, and a non-empty kept part has no whitespace at its ends. */
  predicate TrimmedAt(s: string, i: int, j: int) {
    && 0 <= i <= j <= |s|
    && (forall k :: 0 <= k < i ==> IsJsWhitespace(s[k]))
    && (forall k :: j <= k < |s| ==> IsJsWhitespace(s[k]))
    && (i < j ==> !IsJsWhitespace(s[i]) && !IsJsWhitespace(s[j - 1]))
  }

  /** The first index at or after `i` that does not hold whitespace, or `|s|`. */
  function SkipWhitespace(s: string, i: nat): (k: nat)
    requires i <= |s|
    ensures i <= k <= |s|
    ensures forall m :: i <= m < k ==> IsJsWhitespace(s[m])
    ensures k < |s| ==> !IsJsWhitespace(s[k])
    decreases |s| - i
  {
    if i < |s| && IsJsWhitespace(s[i]) then SkipWhitespace(s, i + 1) else i
  }

  /** The smallest index at or after `lo`, and at most `j`, from which on
      `s[..j]` holds only whitespace. */
  function BackWhitespace(s: string, lo: nat, j: nat): (k: nat)
    requires lo <= j <= |s|
    ensures lo <= k <= j
    ensures forall m :: k <= m < j ==> IsJsWhitespace(s[m])
    ensures lo < k ==> !IsJsWhitespace(s[k - 1])
    decreases j
  {
    if lo < j && IsJsWhitespace(s[j - 1]) then BackWhitespace(s, lo, j - 1) else j
  }

  /** `s.trim()`. */
  function Trim(s: string): (r: string)
    ensures exists i, j :: TrimmedAt(s, i, j) && r == s[i..j]
  {
    var i := SkipWhitespace(s, 0);
    var j := BackWhitespace(s, i, |s|);
    assert TrimmedAt(s, i, j);
    s[i..j]
  }

  /** Trim is the only cut with the TrimmedAt shape: any such cut keeps the same text. */
  lemma TrimUnique(s: string, i: int, j: int)
    requires TrimmedAt(s, i, j)
    ensures Trim(s) == s[i..j]
  {
    var i', j' :| TrimmedAt(s, i', j') && Trim(s) == s[i'..j'];
    assert TrimmedAt(s, i', j') && TrimmedAt(s, i, j);
    if i < j && i' < j' {
      assert i == i' && j == j';
    }
  }

  /** Trimming twice is trimming once. */
  lemma TrimIdempotent(s: string)
    ensures Trim(Trim(s)) == Trim(s)
  {
    var r := Trim(s);
    assert TrimmedAt(r, 0, |r|);
    TrimUnique(r, 0, |r|);
  }
}
