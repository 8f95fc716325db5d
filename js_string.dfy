/** The JavaScript string operations the application relies on:
    `String.prototype.trim`, `split`/`join` on a one-character separator,
    `padStart`, and the decimal rendering of integers in template strings.
    Strings are sequences of code points; JavaScript counts UTF-16 code units,
    which differs only for characters outside the Basic Multilingual Plane. */
module JsString {

  /** The WhiteSpace and LineTerminator code points of ECMA-262 (sections 12.2
      and 12.3): exactly the characters that `trim` removes. */
  predicate IsJsWhitespace(c: char) {
    || c == '\t' || c == '\n' || c == '\U{000B}' || c == '\U{000C}' || c == '\r'
    || c == ' ' || c == '\U{00A0}' || c == '\U{1680}'
    || ('\U{2000}' <= c <= '\U{200A}')
    || c == '\U{2028}' || c == '\U{2029}' || c == '\U{202F}' || c == '\U{205F}'
    || c == '\U{3000}' || c == '\U{FEFF}'
  }

  predicate AllWhitespace(s: string) {
    forall k :: 0 <= k < |s| ==> IsJsWhitespace(s[k])
  }

  /** Neither end of `s` is whitespace. */
  predicate IsTrimmed(s: string) {
    s == [] || (!IsJsWhitespace(s[0]) && !IsJsWhitespace(s[|s| - 1]))
  }

  /** The first index at or after `i` that is not whitespace, or `|s|`. */
  function SkipForward(s: string, i: nat): (j: nat)
    requires i <= |s|
    ensures i <= j <= |s|
    ensures forall k :: i <= k < j ==> IsJsWhitespace(s[k])
    ensures j < |s| ==> !IsJsWhitespace(s[j])
    decreases |s| - i
  {
    if i < |s| && IsJsWhitespace(s[i]) then SkipForward(s, i + 1) else i
  }

  /** The index just past the last character before `j` that is not
      whitespace, but not below `lo`. */
  function SkipBackward(s: string, lo: nat, j: nat): (e: nat)
    requires lo <= j <= |s|
    ensures lo <= e <= j
    ensures forall k :: e <= k < j ==> IsJsWhitespace(s[k])
    ensures e > lo ==> !IsJsWhitespace(s[e - 1])
    decreases j
  {
    if j > lo && IsJsWhitespace(s[j - 1]) then SkipBackward(s, lo, j - 1) else j
  }

  /** Where the trimmed text starts inside `s` (what `trimStart` drops). */
  function TrimOffset(s: string): (o: nat)
    ensures o <= |s|
  {
    SkipForward(s, 0)
  }

  /** Where the trimmed text ends inside `s` (what `trimEnd` then drops). */
  function TrimEndIndex(s: string): (e: nat)
    ensures TrimOffset(s) <= e <= |s|
  {
    SkipBackward(s, TrimOffset(s), |s|)
  }

  /** `String.prototype.trim`: `s` is whitespace, then the result, then
      whitespace; the result is empty exactly when `s` is all whitespace, and a
      string that is already trimmed is returned unchanged. */
  function Trim(s: string): (r: string)
    ensures IsTrimmed(r)
    ensures TrimOffset(s) + |r| <= |s| && r == s[TrimOffset(s)..TrimOffset(s) + |r|]
    ensures forall k :: 0 <= k < TrimOffset(s) ==> IsJsWhitespace(s[k])
    ensures forall k :: TrimOffset(s) + |r| <= k < |s| ==> IsJsWhitespace(s[k])
    ensures r == [] <==> AllWhitespace(s)
    ensures IsTrimmed(s) ==> r == s
  {
    var a, e := TrimOffset(s), TrimEndIndex(s);
    assert a < |s| ==> e > a;
    assert IsTrimmed(s) && s != [] ==> a == 0 && e == |s|;
    s[a..e]
  }

  lemma TrimIdempotent(s: string)
    ensures Trim(Trim(s)) == Trim(s)
  {
  }

  /** `Array.prototype.join` with a one-character separator. */
  function Join(parts: seq<string>, sep: char): string {
    if |parts| == 0 then ""
    else if |parts| == 1 then parts[0]
    else parts[0] + [sep] + Join(parts[1..], sep)
  }

  /** `String.prototype.split` with a one-character separator: never empty,
      no piece contains the separator, and joining the pieces back gives `s`. */
  function Split(s: string, sep: char): (parts: seq<string>)
    ensures |parts| >= 1
    ensures forall i :: 0 <= i < |parts| ==> sep !in parts[i]
    ensures Join(parts, sep) == s
  {
    if |s| == 0 then [""]
    else
      var rest := Split(s[1..], sep);
      if s[0] == sep then
        assert Join([""] + rest, sep) == "" + [sep] + Join(rest, sep) by {
          assert ([""] + rest)[1..] == rest;
        }
        assert s == [sep] + s[1..];
        [""] + rest
      else
        var parts := [[s[0]] + rest[0]] + rest[1..];
        assert s == [s[0]] + s[1..];
        if |rest| == 1 then
          parts
        else
          assert parts[1..] == rest[1..];
          assert Join(rest, sep) == rest[0] + [sep] + Join(rest[1..], sep);
          parts
  }

  lemma {:induction false} SplitNoSeparator(p: string, tail: string, sep: char)
    requires sep !in p
    ensures Split(p + tail, sep) ==
      [p + Split(tail, sep)[0]] + Split(tail, sep)[1..]
    decreases |p|
  {
    var q := Split(tail, sep);
    if |p| > 0 {
      assert (p + tail)[1..] == p[1..] + tail;
      assert (p + tail)[0] == p[0] && p[0] in p;
      assert sep !in p[1..];
      SplitNoSeparator(p[1..], tail, sep);
      var rest := Split(p[1..] + tail, sep);
      assert rest == [p[1..] + q[0]] + q[1..];
      assert rest[0] == p[1..] + q[0];
      assert rest[1..] == q[1..];
      assert Split(p + tail, sep) == [[p[0]] + rest[0]] + rest[1..];
      assert [p[0]] + (p[1..] + q[0]) == p + q[0];
    } else {
      assert p + tail == tail;
      assert p + q[0] == q[0];
      assert q == [q[0]] + q[1..];
    }
  }

  /** A string without the separator splits into itself alone. */
  lemma SplitWithoutSeparator(s: string, sep: char)
    requires sep !in s
    ensures Split(s, sep) == [s]
  {
    SplitNoSeparator(s, "", sep);
    assert s + "" == s;
    assert Split("", sep) == [""];
  }

  /** A first piece `p` followed by the separator: `p` is the first part and
      the rest splits on its own. */
  lemma SplitAtSeparator(p: string, tail: string, sep: char)
    requires sep !in p
    ensures Split(p + [sep] + tail, sep) == [p] + Split(tail, sep)
  {
    var t := [sep] + tail;
    assert t[1..] == tail;
    assert Split(t, sep) == [""] + Split(tail, sep);
    assert p + [sep] + tail == p + t;
    SplitNoSeparator(p, t, sep);
    assert p + "" == p;
    assert ([""] + Split(tail, sep))[1..] == Split(tail, sep);
  }

  /** Splitting undoes joining when no piece contains the separator. */
  lemma {:induction false} SplitJoin(parts: seq<string>, sep: char)
    requires |parts| >= 1
    requires forall i :: 0 <= i < |parts| ==> sep !in parts[i]
    ensures Split(Join(parts, sep), sep) == parts
    decreases |parts|
  {
    if |parts| == 1 {
      SplitNoSeparator(parts[0], "", sep);
      assert parts[0] + "" == parts[0];
      assert Split("", sep) == [""];
      assert parts == [parts[0]];
    } else {
      var tail := [sep] + Join(parts[1..], sep);
      SplitJoin(parts[1..], sep);
      assert Split(tail, sep) == [""] + parts[1..] by {
        assert tail[1..] == Join(parts[1..], sep);
      }
      assert Join(parts, sep) == parts[0] + tail;
      SplitNoSeparator(parts[0], tail, sep);
      var q := Split(tail, sep);
      assert q[0] == "" && q[1..] == parts[1..];
      assert parts[0] + "" == parts[0];
      assert parts == [parts[0]] + parts[1..];
    }
  }

  predicate IsDigit(c: char) {
    '0' <= c <= '9'
  }

  predicate AllDigits(s: string) {
    forall k :: 0 <= k < |s| ==> IsDigit(s[k])
  }

  function DigitChar(d: nat): (c: char)
    requires d < 10
    ensures IsDigit(c)
  {
    ('0' as int + d) as char
  }

  function DigitValue(c: char): nat
    requires IsDigit(c)
  {
    c as int - '0' as int
  }

  /** The value of a run of decimal digits. */
  function DecimalValue(s: string): nat
    requires AllDigits(s)
  {
    if |s| == 0 then 0 else DecimalValue(s[..|s| - 1]) * 10 + DigitValue(s[|s| - 1])
  }

  /** The decimal text JavaScript produces for a non-negative integer: digits
      only, no leading zero. */
  function NatToString(n: nat): (s: string)
    ensures |s| >= 1 && AllDigits(s)
    ensures |s| > 1 ==> s[0] != '0'
    ensures n < 10 <==> |s| == 1
  {
    if n < 10 then [DigitChar(n)] else NatToString(n / 10) + [DigitChar(n % 10)]
  }

  /** Reading the rendered digits back gives the number. */
  lemma {:induction false} NatToStringValue(n: nat)
    ensures DecimalValue(NatToString(n)) == n
  {
    if n >= 10 {
      var s := NatToString(n);
      assert s[..|s| - 1] == NatToString(n / 10);
      NatToStringValue(n / 10);
    }
  }

  /** The decimal text of any integer, with a leading '-' when negative. */
  function IntToString(i: int): (s: string)
    ensures |s| >= 1
    ensures i < 0 <==> s[0] == '-'
  {
    if i < 0 then "-" + NatToString(-i) else NatToString(i)
  }

  /** `String.prototype.padStart(width, fill)` with a one-character fill. */
  function PadStart(s: string, width: nat, fill: char): (r: string)
    ensures |r| == if |s| >= width then |s| else width
    ensures r[|r| - |s|..] == s
    ensures forall k :: 0 <= k < |r| - |s| ==> r[k] == fill
  {
    if |s| >= width then s else Repeat(fill, width - |s|) + s
  }

  /** `n` copies of `c`. */
  function Repeat(c: char, n: nat): (r: string)
    ensures |r| == n && forall k :: 0 <= k < n ==> r[k] == c
  {
    if n == 0 then [] else Repeat(c, n - 1) + [c]
  }

  /** `padStart(width, "0")`, which `format` and `String(n).padStart` use
      for the parts of a date. */
  function ZeroPad(n: nat, width: nat): (r: string)
    ensures AllDigits(r) && |r| >= width
  {
    PadStart(NatToString(n), width, '0')
  }

  lemma {:induction false} DecimalValueOfZeros(z: nat)
    ensures AllDigits(Repeat('0', z)) && DecimalValue(Repeat('0', z)) == 0
  {
    if z > 0 {
      DecimalValueOfZeros(z - 1);
      assert Repeat('0', z)[..z - 1] == Repeat('0', z - 1);
    }
  }

  /** Leading zeros do not change the value of a run of digits. */
  lemma {:induction false} DecimalValueLeadingZeros(z: nat, s: string)
    requires AllDigits(s)
    ensures AllDigits(Repeat('0', z) + s)
    ensures DecimalValue(Repeat('0', z) + s) == DecimalValue(s)
    decreases |s|
  {
    var t := Repeat('0', z) + s;
    DecimalValueOfZeros(z);
    if |s| == 0 {
      assert t == Repeat('0', z);
    } else {
      DecimalValueLeadingZeros(z, s[..|s| - 1]);
      assert t[..|t| - 1] == Repeat('0', z) + s[..|s| - 1];
    }
  }

  /** Zero padding keeps the number: reading the digits back gives `n`. */
  lemma ZeroPadValue(n: nat, width: nat)
    ensures DecimalValue(ZeroPad(n, width)) == n
  {
    var s := NatToString(n);
    NatToStringValue(n);
    if |s| < width {
      DecimalValueLeadingZeros(width - |s|, s);
    }
  }

  /** A number of four digits or more is not padded to four. */
  lemma ZeroPadWide(n: nat)
    requires n >= 1000
    ensures ZeroPad(n, 4) == NatToString(n)
  {
    NatToStringStep(n);
    NatToStringStep(n / 10);
    NatToStringStep(n / 10 / 10);
  }

  lemma NatToStringStep(n: nat)
    requires n >= 10
    ensures |NatToString(n)| == |NatToString(n / 10)| + 1
  {
  }

  /** Text of the form digits, '-', rest splits at its first '-' only one
      way. */
  lemma DigitsThenDash(a: string, ra: string, b: string, rb: string)
    requires AllDigits(a) && AllDigits(b)
    requires a + "-" + ra == b + "-" + rb
    ensures a == b && ra == rb
  {
    var t := a + "-" + ra;
    assert t[|a|] == '-';
    assert (b + "-" + rb)[|b|] == '-';
    assert a == t[..|a|];
    assert b == t[..|b|];
    assert ra == t[|a| + 1..];
  }

  function StartsWith(s: string, prefix: string): bool {
    |prefix| <= |s| && s[..|prefix|] == prefix
  }
}
