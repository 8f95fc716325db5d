/** Base64 as the browser's `btoa` and `atob` apply it to byte strings.
    `btoa` is the padded encoding of RFC 4648, section 4. `atob` is the
    "forgiving-base64 decode" of the WHATWG Infra standard: it drops ASCII
    whitespace, accepts the padding or its absence, rejects a length that
    leaves a remainder of 1 modulo 4 and any character outside the alphabet,
    and discards the unused low bits of the last character.
    `String.fromCharCode(...bytes)` and `charCodeAt(0)` only convert between a
    byte array and a byte string, so both sides are modelled on bytes. */
module Base64 {
  import opened Wrappers

  type byte = b: int | 0 <= b < 256
  type sextet = v: int | 0 <= v < 64

  /** The 64 characters of the alphabet (RFC 4648, section 4, Table 1). */
  predicate IsAlphabetChar(c: char) {
    ('A' <= c <= 'Z') || ('a' <= c <= 'z') || ('0' <= c <= '9') || c == '+' || c == '/'
  }

  predicate AllAlphabet(s: string) {
    forall k :: 0 <= k < |s| ==> IsAlphabetChar(s[k])
  }

  /** The 6-bit value of an alphabet character (0 for any other character,
      which `Atob` rejects before decoding). */
  function ValueOf(c: char): sextet
  {
    if 'A' <= c <= 'Z' then c as int - 'A' as int
    else if 'a' <= c <= 'z' then c as int - 'a' as int + 26
    else if '0' <= c <= '9' then c as int - '0' as int + 52
    else if c == '+' then 62
    else if c == '/' then 63
    else 0
  }

  /** The character that encodes a 6-bit group; `ValueOf` inverts it. */
  function CharOf(v: sextet): (c: char)
    ensures IsAlphabetChar(c) && ValueOf(c) == v
  {
    if v < 26 then ('A' as int + v) as char
    else if v < 52 then ('a' as int + (v - 26)) as char
    else if v < 62 then ('0' as int + (v - 52)) as char
    else if v == 62 then '+'
    else '/'
  }

  /** Characters needed for `n` bytes before padding: four per group of three
      bytes, and two or three for a final group of one or two bytes. */
  function UnpaddedLength(n: nat): (m: nat)
    ensures m % 4 != 1
  {
    if n == 0 then 0 else if n == 1 then 2 else if n == 2 then 3 else 4 + UnpaddedLength(n - 3)
  }

  /** The unpadded length leaves remainder 0, 2 or 3 modulo 4, as `n` leaves
      0, 1 or 2 modulo 3. */
  lemma {:induction false} UnpaddedLengthMod(n: nat)
    ensures n % 3 == 0 ==> UnpaddedLength(n) % 4 == 0
    ensures n % 3 == 1 ==> UnpaddedLength(n) % 4 == 2
    ensures n % 3 == 2 ==> UnpaddedLength(n) % 4 == 3
  {
    if n >= 3 {
      UnpaddedLengthMod(n - 3);
      var m := UnpaddedLength(n - 3);
      assert UnpaddedLength(n) == m + 4;
      assert (m + 4) % 4 == m % 4;
      assert (n - 3) % 3 == n % 3;
    }
  }

  /** The unpadded length is `ceil(4n / 3)`. */
  lemma {:induction false} UnpaddedLengthClosed(n: nat)
    ensures UnpaddedLength(n) == (4 * n + 2) / 3
  {
    if n >= 3 {
      UnpaddedLengthClosed(n - 3);
      assert UnpaddedLength(n) == 4 + UnpaddedLength(n - 3);
      assert (4 * n + 2) / 3 == (4 * (n - 3) + 2) / 3 + 4;
    }
  }

  /** The four 6-bit groups of three bytes `x y z`, most significant first. */
  function Sextet0(x: byte): sextet { x / 4 }
  function Sextet1(x: byte, y: byte): sextet { (x % 4) * 16 + y / 16 }
  function Sextet2(y: byte, z: byte): sextet { (y % 16) * 4 + z / 64 }
  function Sextet3(z: byte): sextet { z % 64 }

  /** The three bytes of four 6-bit groups `v0 v1 v2 v3`. */
  function Byte0(v0: sextet, v1: sextet): byte { v0 * 4 + v1 / 16 }
  function Byte1(v1: sextet, v2: sextet): byte { (v1 % 16) * 16 + v2 / 4 }
  function Byte2(v2: sextet, v3: sextet): byte { (v2 % 4) * 64 + v3 }

  /** Regrouping the 6-bit groups of three bytes gives back the bytes; a
      missing byte counts as zero, as in a final group of one or two bytes. */
  lemma DecodeGroup(x: byte, y: byte, z: byte)
    ensures Byte0(Sextet0(x), Sextet1(x, y)) == x
    ensures Byte1(Sextet1(x, y), Sextet2(y, z)) == y
    ensures Byte2(Sextet2(y, z), Sextet3(z)) == z
  {
  }

  /** The encoding without its trailing '=' characters. */
  function EncodeUnpadded(b: seq<byte>): (s: string)
    ensures |s| == UnpaddedLength(|b|)
    ensures AllAlphabet(s)
    decreases |b|
  {
    if |b| == 0 then ""
    else if |b| == 1 then
      [CharOf(Sextet0(b[0])), CharOf(Sextet1(b[0], 0))]
    else if |b| == 2 then
      [CharOf(Sextet0(b[0])), CharOf(Sextet1(b[0], b[1])), CharOf(Sextet2(b[1], 0))]
    else
      var rest := EncodeUnpadded(b[3..]);
      var head := [CharOf(Sextet0(b[0])), CharOf(Sextet1(b[0], b[1])),
                   CharOf(Sextet2(b[1], b[2])), CharOf(Sextet3(b[2]))];
      assert forall k :: 0 <= k < |head + rest| ==>
        (head + rest)[k] == if k < 4 then head[k] else rest[k - 4];
      head + rest
  }

  /** The '=' characters that complete the last group of four. */
  function Padding(n: nat): string {
    if n % 3 == 1 then "==" else if n % 3 == 2 then "=" else ""
  }

  /** `btoa`: RFC 4648 base64 with padding. */
  function Btoa(b: seq<byte>): (s: string)
    ensures forall k :: 0 <= k < |s| ==> IsAlphabetChar(s[k]) || s[k] == '='
  {
    var u := EncodeUnpadded(b);
    var s := u + Padding(|b|);
    assert forall k :: 0 <= k < |s| ==> s[k] == if k < |u| then u[k] else Padding(|b|)[k - |u|];
    s
  }

  /** `btoa` emits four characters for every started group of three bytes. */
  lemma BtoaLength(b: seq<byte>)
    ensures |Btoa(b)| == 4 * ((|b| + 2) / 3)
  {
    var n := |b|;
    UnpaddedLengthClosed(n);
    assert |Btoa(b)| == (4 * n + 2) / 3 + |Padding(n)|;
    if n % 3 == 0 {
      assert (4 * n + 2) / 3 == 4 * (n / 3) && (n + 2) / 3 == n / 3;
    } else if n % 3 == 1 {
      assert (4 * n + 2) / 3 == 4 * (n / 3) + 2 && (n + 2) / 3 == n / 3 + 1;
    } else {
      assert (4 * n + 2) / 3 == 4 * (n / 3) + 3 && (n + 2) / 3 == n / 3 + 1;
    }
  }

  /** Decodes alphabet characters, four to three bytes; a final group of two
      or three characters yields one or two bytes, its low bits discarded. (A
      final single character, which `Atob` rejects first, yields nothing.) */
  function DecodeUnpadded(s: string): (b: seq<byte>)
    decreases |s|
  {
    if |s| <= 1 then []
    else if |s| == 2 then
      [Byte0(ValueOf(s[0]), ValueOf(s[1]))]
    else if |s| == 3 then
      [Byte0(ValueOf(s[0]), ValueOf(s[1])), Byte1(ValueOf(s[1]), ValueOf(s[2]))]
    else
      [Byte0(ValueOf(s[0]), ValueOf(s[1])), Byte1(ValueOf(s[1]), ValueOf(s[2])),
       Byte2(ValueOf(s[2]), ValueOf(s[3]))] + DecodeUnpadded(s[4..])
  }

  /** ASCII whitespace as the WHATWG Infra standard defines it. */
  predicate IsAsciiWhitespace(c: char) {
    c == '\t' || c == '\n' || c == '\U{000C}' || c == '\r' || c == ' '
  }

  function RemoveAsciiWhitespace(s: string): (r: string)
    ensures |r| <= |s|
    ensures forall k :: 0 <= k < |r| ==> !IsAsciiWhitespace(r[k])
    ensures (forall k :: 0 <= k < |s| ==> !IsAsciiWhitespace(s[k])) ==> r == s
  {
    if |s| == 0 then ""
    else
      var rest := RemoveAsciiWhitespace(s[1..]);
      if IsAsciiWhitespace(s[0]) then rest
      else
        assert forall k :: 1 <= k < |[s[0]] + rest| ==> ([s[0]] + rest)[k] == rest[k - 1];
        assert (forall k :: 0 <= k < |s| ==> !IsAsciiWhitespace(s[k])) ==>
          forall k :: 0 <= k < |s[1..]| ==> !IsAsciiWhitespace(s[1..][k]);
        assert s == [s[0]] + s[1..];
        [s[0]] + rest
  }

  /** When the length is a multiple of four, one or two final '=' are removed. */
  function StripPadding(s: string): string {
    if |s| % 4 == 0 && |s| >= 2 && s[|s| - 1] == '=' && s[|s| - 2] == '=' then s[..|s| - 2]
    else if |s| % 4 == 0 && |s| >= 1 && s[|s| - 1] == '=' then s[..|s| - 1]
    else s
  }

  /** `atob`: `None` where the browser throws `InvalidCharacterError`. */
  function Atob(s: string): Option<seq<byte>> {
    var t := StripPadding(RemoveAsciiWhitespace(s));
    if |t| % 4 == 1 || !AllAlphabet(t) then None else Some(DecodeUnpadded(t))
  }

  lemma EncodeOne(x: byte)
    ensures EncodeUnpadded([x]) == [CharOf(Sextet0(x)), CharOf(Sextet1(x, 0))]
  {
  }

  lemma EncodeTwo(x: byte, y: byte)
    ensures EncodeUnpadded([x, y]) ==
      [CharOf(Sextet0(x)), CharOf(Sextet1(x, y)), CharOf(Sextet2(y, 0))]
  {
  }

  lemma DecodeTwoChars(c0: char, c1: char)
    ensures DecodeUnpadded([c0, c1]) == [Byte0(ValueOf(c0), ValueOf(c1))]
  {
  }

  lemma DecodeThreeChars(c0: char, c1: char, c2: char)
    ensures DecodeUnpadded([c0, c1, c2]) ==
      [Byte0(ValueOf(c0), ValueOf(c1)), Byte1(ValueOf(c1), ValueOf(c2))]
  {
  }

  /** A last group of one byte survives encoding and decoding. */
  lemma DecodeOne(b: seq<byte>)
    requires |b| == 1
    ensures DecodeUnpadded(EncodeUnpadded(b)) == b
  {
    var x := b[0];
    assert b == [x];
    EncodeOne(x);
    DecodeTwoChars(CharOf(Sextet0(x)), CharOf(Sextet1(x, 0)));
    DecodeGroup(x, 0, 0);
  }

  /** A last group of two bytes survives encoding and decoding. */
  lemma DecodeTwo(b: seq<byte>)
    requires |b| == 2
    ensures DecodeUnpadded(EncodeUnpadded(b)) == b
  {
    var x, y := b[0], b[1];
    assert b == [x, y];
    EncodeTwo(x, y);
    DecodeThreeChars(CharOf(Sextet0(x)), CharOf(Sextet1(x, y)), CharOf(Sextet2(y, 0)));
    DecodeGroup(x, y, 0);
  }

  lemma EncodeHead(x: byte, y: byte, z: byte, t: seq<byte>)
    ensures EncodeUnpadded([x, y, z] + t) ==
      [CharOf(Sextet0(x)), CharOf(Sextet1(x, y)), CharOf(Sextet2(y, z)), CharOf(Sextet3(z))]
      + EncodeUnpadded(t)
  {
    var b := [x, y, z] + t;
    assert b[0] == x && b[1] == y && b[2] == z && b[3..] == t;
  }

  lemma DecodeHead(c0: char, c1: char, c2: char, c3: char, r: string)
    ensures DecodeUnpadded([c0, c1, c2, c3] + r) ==
      [Byte0(ValueOf(c0), ValueOf(c1)), Byte1(ValueOf(c1), ValueOf(c2)),
       Byte2(ValueOf(c2), ValueOf(c3))] + DecodeUnpadded(r)
  {
    var s := [c0, c1, c2, c3] + r;
    assert s[0] == c0 && s[1] == c1 && s[2] == c2 && s[3] == c3 && s[4..] == r;
  }

  /** One group of three bytes: the round trip of the rest extends to the
      group followed by the rest. */
  lemma DecodeStep(x: byte, y: byte, z: byte, t: seq<byte>)
    requires DecodeUnpadded(EncodeUnpadded(t)) == t
    ensures DecodeUnpadded(EncodeUnpadded([x, y, z] + t)) == [x, y, z] + t
  {
    var c0, c1, c2, c3 := CharOf(Sextet0(x)), CharOf(Sextet1(x, y)), CharOf(Sextet2(y, z)), CharOf(Sextet3(z));
    EncodeHead(x, y, z, t);
    DecodeHead(c0, c1, c2, c3, EncodeUnpadded(t));
    DecodeGroup(x, y, z);
  }

  lemma HeadOfThree(b: seq<byte>)
    requires |b| >= 3
    ensures b == [b[0], b[1], b[2]] + b[3..]
  {
  }

  /** Decoding the unpadded encoding gives back the bytes. */
  lemma {:induction false} DecodeEncodeUnpadded(b: seq<byte>)
    ensures DecodeUnpadded(EncodeUnpadded(b)) == b
    decreases |b|
  {
    if |b| == 1 {
      DecodeOne(b);
    } else if |b| == 2 {
      DecodeTwo(b);
    } else if |b| >= 3 {
      var t := b[3..];
      DecodeEncodeUnpadded(t);
      DecodeStep(b[0], b[1], b[2], t);
      HeadOfThree(b);
    }
  }

  /** Removing the padding of an encoding leaves the unpadded encoding. */
  lemma StripPaddingOfBtoa(b: seq<byte>)
    ensures StripPadding(Btoa(b)) == EncodeUnpadded(b)
  {
    var u := EncodeUnpadded(b);
    UnpaddedLengthMod(|b|);
    if |b| % 3 == 1 {
      StripTwo(u);
    } else if |b| % 3 == 2 {
      StripOne(u);
    } else {
      assert Btoa(b) == u;
      StripNone(u);
    }
  }

  lemma StripTwo(u: string)
    requires |u| % 4 == 2
    ensures StripPadding(u + "==") == u
  {
    var s := u + "==";
    assert s[|s| - 1] == '=' && s[|s| - 2] == '=';
    assert s[..|s| - 2] == u;
  }

  lemma StripOne(u: string)
    requires AllAlphabet(u) && |u| % 4 == 3
    ensures StripPadding(u + "=") == u
  {
    var s := u + "=";
    assert s[..|s| - 1] == u;
    assert s[|s| - 2] == u[|u| - 1];
    assert IsAlphabetChar(u[|u| - 1]);
  }

  lemma StripNone(u: string)
    requires AllAlphabet(u)
    ensures StripPadding(u) == u
  {
    if |u| > 0 {
      assert IsAlphabetChar(u[|u| - 1]);
    }
  }

  /** `atob(btoa(b))` gives back `b`. */
  lemma {:induction false} AtobBtoa(b: seq<byte>)
    ensures Atob(Btoa(b)) == Some(b)
  {
    var s := Btoa(b);
    assert forall k :: 0 <= k < |s| ==> !IsAsciiWhitespace(s[k]);
    assert RemoveAsciiWhitespace(s) == s;
    StripPaddingOfBtoa(b);
    DecodeEncodeUnpadded(b);
  }

  /** `btoa` never emits the separator ':'; so no encoded segment contains it. */
  lemma {:induction false} BtoaHasNoColon(b: seq<byte>)
    ensures ':' !in Btoa(b)
  {
    var s := Btoa(b);
    forall k | 0 <= k < |s| ensures s[k] != ':' {
      assert IsAlphabetChar(s[k]) || s[k] == '=';
    }
  }
}
