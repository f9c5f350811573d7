/**
 * `encodeURIComponent` and `decodeURIComponent` (section 18.2.6 of ECMA-262,
 * 2015 edition) over strings of Unicode scalar values: letters, digits and
 * `- _ . ! ~ * ' ( )` are kept, every other character is written as the
 * UTF-8 bytes of its code point, each as `%` and two upper-case hex digits.
 */
module UriComponent {
  import opened Wrappers

  /** The characters `encodeURIComponent` leaves as they are. */
  predicate Unreserved(c: char)
  {
    ('A' <= c <= 'Z') || ('a' <= c <= 'z') || ('0' <= c <= '9')
    || c == '-' || c == '_' || c == '.' || c == '!' || c == '~'
    || c == '*' || c == '\'' || c == '(' || c == ')'
  }

  // ---------------------------------------------------------------------------
  // Hex digits and UTF-8
  // ---------------------------------------------------------------------------

  function HexDigit(d: nat): (c: char)
    requires d < 16
    ensures Unreserved(c)
  {
    if d < 10 then ('0' as int + d) as char else ('A' as int + d - 10) as char
  }

  /** The value of a hex digit of either case. */
  function HexValue(c: char): (r: Option<nat>)
    ensures r.Some? ==> r.value < 16
  {
    if '0' <= c <= '9' then Some(c as int - '0' as int)
    else if 'A' <= c <= 'F' then Some(c as int - 'A' as int + 10)
    else if 'a' <= c <= 'f' then Some(c as int - 'a' as int + 10)
    else None
  }

  lemma HexValueOfDigit(d: nat)
    requires d < 16
    ensures HexValue(HexDigit(d)) == Some(d)
  {
  }

  /** A code point Dafny's `char` can hold: not a surrogate, at most U+10FFFF. */
  predicate IsScalar(cp: int)
  {
    (0 <= cp < 0xD800) || (0xE000 <= cp < 0x11_0000)
  }

  /** The UTF-8 encoding of a code point: one to four bytes. */
  function Utf8(cp: nat): (bytes: seq<nat>)
    requires cp < 0x11_0000
    ensures 1 <= |bytes| <= 4 && forall j :: 0 <= j < |bytes| ==> bytes[j] < 256
  {
    if cp < 0x80 then [cp]
    else if cp < 0x800 then [0xC0 + cp / 64, 0x80 + cp % 64]
    else if cp < 0x1_0000 then [0xE0 + cp / 4096, 0x80 + cp / 64 % 64, 0x80 + cp % 64]
    else [0xF0 + cp / 262144, 0x80 + cp / 4096 % 64, 0x80 + cp / 64 % 64, 0x80 + cp % 64]
  }

  /** One byte written as `%` and two upper-case hex digits. */
  function Escape(b: nat): (r: string)
    requires b < 256
    ensures |r| == 3 && r[0] == '%'
  {
    ['%', HexDigit(b / 16), HexDigit(b % 16)]
  }

  /** The escapes of a byte sequence, three characters per byte. */
  function Escapes(bytes: seq<nat>): (r: string)
    requires forall j :: 0 <= j < |bytes| ==> bytes[j] < 256
    ensures |r| == 3 * |bytes|
    decreases |bytes|
  {
    if bytes == [] then "" else Escape(bytes[0]) + Escapes(bytes[1..])
  }

  /** Escapes hold only `%` and hex digits. */
  lemma {:induction false} EscapesAlphabet(bytes: seq<nat>)
    requires forall j :: 0 <= j < |bytes| ==> bytes[j] < 256
    ensures forall k :: 0 <= k < |Escapes(bytes)| ==> Unreserved(Escapes(bytes)[k]) || Escapes(bytes)[k] == '%'
    decreases |bytes|
  {
    if bytes != [] {
      EscapesAlphabet(bytes[1..]);
      var e, r := Escape(bytes[0]), Escapes(bytes[1..]);
      assert Escapes(bytes) == e + r;
      forall k | 0 <= k < |e + r| ensures Unreserved((e + r)[k]) || (e + r)[k] == '%' {
        if k >= 3 {
          assert (e + r)[k] == r[k - 3];
        }
      }
    }
  }

  // ---------------------------------------------------------------------------
  // encodeURIComponent
  // ---------------------------------------------------------------------------

  function EncodeChar(c: char): (r: string)
    ensures |r| > 0
  {
    if Unreserved(c) then [c] else Escapes(Utf8(c as int))
  }

  /** `encodeURIComponent(s)`. */
  function Encode(s: string): (r: string)
    ensures |r| >= |s|
    decreases |s|
  {
    if s == [] then "" else EncodeChar(s[0]) + Encode(s[1..])
  }

  /** An encoded string holds only unreserved characters and `%`. */
  lemma {:induction false} EncodedAlphabet(s: string)
    ensures forall k :: 0 <= k < |Encode(s)| ==> Unreserved(Encode(s)[k]) || Encode(s)[k] == '%'
    decreases |s|
  {
    if s != [] {
      EncodedAlphabet(s[1..]);
      var head, rest := EncodeChar(s[0]), Encode(s[1..]);
      if !Unreserved(s[0]) {
        EscapesAlphabet(Utf8(s[0] as int));
      }
      assert Encode(s) == head + rest;
      forall k | 0 <= k < |head + rest|
        ensures Unreserved((head + rest)[k]) || (head + rest)[k] == '%'
      {
        if k >= |head| {
          assert (head + rest)[k] == rest[k - |head|];
        }
      }
    }
  }

  lemma {:induction false} EncodeAppend(a: string, b: string)
    ensures Encode(a + b) == Encode(a) + Encode(b)
    decreases |a|
  {
    if a == [] {
      assert a + b == b;
    } else {
      assert (a + b)[0] == a[0] && (a + b)[1..] == a[1..] + b;
      EncodeAppend(a[1..], b);
      assert Encode(a + b) == EncodeChar(a[0]) + Encode(a[1..] + b);
    }
  }

  /** A character that is neither unreserved nor `%` never appears in an
      encoded value. */
  lemma EncodedExcludes(s: string, d: char)
    requires !Unreserved(d) && d != '%'
    ensures d !in Encode(s)
  {
    EncodedAlphabet(s);
    forall k | 0 <= k < |Encode(s)| ensures Encode(s)[k] != d {
    }
  }

  /** None of the query delimiters, nor `+`, appears in an encoded value. */
  lemma EncodedHasNoDelimiter(s: string)
    ensures '&' !in Encode(s) && '=' !in Encode(s) && '?' !in Encode(s) && '#' !in Encode(s)
    ensures '+' !in Encode(s)
  {
    EncodedExcludes(s, '&');
    EncodedExcludes(s, '=');
    EncodedExcludes(s, '?');
    EncodedExcludes(s, '#');
    EncodedExcludes(s, '+');
  }

  // ---------------------------------------------------------------------------
  // decodeURIComponent
  // ---------------------------------------------------------------------------

  /** The byte written as `%XY` at `i`, if there is one. */
  function ByteAt(t: string, i: nat): (r: Option<nat>)
    ensures r.Some? ==> r.value < 256
  {
    if i + 3 <= |t| && t[i] == '%' && HexValue(t[i + 1]).Some? && HexValue(t[i + 2]).Some?
    then Some(16 * HexValue(t[i + 1]).value + HexValue(t[i + 2]).value)
    else None
  }

  /** The six payload bits of the continuation byte written at `i`. */
  function ContinuationAt(t: string, i: nat): (r: Option<nat>)
    ensures r.Some? ==> r.value < 64
  {
    match ByteAt(t, i)
    case Some(b) => if 0x80 <= b < 0xC0 then Some(b - 0x80) else None
    case None => None
  }

  /** The character written by the escapes at the start of `t`, and how many
      characters they take up; `None` where `decodeURIComponent` throws a
      URIError (a malformed escape, a stray continuation byte, a cut-off
      sequence, an overlong form, a surrogate or a code point past
      U+10FFFF). */
  function ReadEscaped(t: string): (r: Option<(char, nat)>)
    ensures r.Some? ==> 3 <= r.value.1 <= |t|
  {
    match ByteAt(t, 0)
    case None => None
    case Some(b0) =>
      if b0 < 0x80 then Some((b0 as char, 3))
      else if 0xC0 <= b0 < 0xE0 then ReadTwo(t, b0)
      else if 0xE0 <= b0 < 0xF0 then ReadThree(t, b0)
      else if 0xF0 <= b0 < 0xF8 then ReadFour(t, b0)
      else None
  }

  /** A two-byte sequence led by `b0`: one continuation byte, and no overlong
      form. */
  function ReadTwo(t: string, b0: nat): (r: Option<(char, nat)>)
    requires 0xC0 <= b0 < 0xE0
    ensures r.Some? ==> r.value.1 == 6 <= |t|
  {
    match ContinuationAt(t, 3)
    case None => None
    case Some(x1) =>
      var cp := (b0 - 0xC0) * 64 + x1;
      if 0x80 <= cp then Some((cp as char, 6)) else None
  }

  /** A three-byte sequence led by `b0`: no overlong form, no surrogate. */
  function ReadThree(t: string, b0: nat): (r: Option<(char, nat)>)
    requires 0xE0 <= b0 < 0xF0
    ensures r.Some? ==> r.value.1 == 9 <= |t|
  {
    match (ContinuationAt(t, 3), ContinuationAt(t, 6))
    case (Some(x1), Some(x2)) =>
      var cp := (b0 - 0xE0) * 4096 + x1 * 64 + x2;
      if 0x800 <= cp && IsScalar(cp) then Some((cp as char, 9)) else None
    case _ => None
  }

  /** A four-byte sequence led by `b0`: no overlong form, nothing past
      U+10FFFF. */
  function ReadFour(t: string, b0: nat): (r: Option<(char, nat)>)
    requires 0xF0 <= b0 < 0xF8
    ensures r.Some? ==> r.value.1 == 12 <= |t|
  {
    match (ContinuationAt(t, 3), ContinuationAt(t, 6), ContinuationAt(t, 9))
    case (Some(x1), Some(x2), Some(x3)) =>
      var cp := (b0 - 0xF0) * 262144 + x1 * 4096 + x2 * 64 + x3;
      if 0x1_0000 <= cp < 0x11_0000 then Some((cp as char, 12)) else None
    case _ => None
  }

  function Prepend(c: char, rest: Option<string>): Option<string>
  {
    match rest
    case Some(s) => Some([c] + s)
    case None => None
  }

  /** `decodeURIComponent(t)`, or `None` where it throws. */
  function Decode(t: string): (r: Option<string>)
    ensures r.Some? ==> |r.value| <= |t|
    ensures '%' !in t ==> r == Some(t)
    decreases |t|
  {
    if t == [] then Some("")
    else if t[0] != '%' then
      assert t == [t[0]] + t[1..];
      Prepend(t[0], Decode(t[1..]))
    else
      match ReadEscaped(t)
      case None => None
      case Some((c, k)) => Prepend(c, Decode(t[k..]))
  }

  // ---------------------------------------------------------------------------
  // Decoding undoes encoding
  // ---------------------------------------------------------------------------

  /** Reading a byte further along a longer text. */
  lemma ByteAtShift(p: string, t: string, i: nat)
    ensures ByteAt(p + t, |p| + i) == ByteAt(t, i)
  {
    if i + 3 <= |t| {
      assert (p + t)[|p| + i] == t[i] && (p + t)[|p| + i + 1] == t[i + 1] && (p + t)[|p| + i + 2] == t[i + 2];
    }
  }

  /** The escape of one byte reads back as that byte. */
  lemma ByteOfEscape(b: nat, rest: string)
    requires b < 256
    ensures ByteAt(Escape(b) + rest, 0) == Some(b)
  {
    var t := Escape(b) + rest;
    assert t[0] == '%' && t[1] == HexDigit(b / 16) && t[2] == HexDigit(b % 16);
    HexValueOfDigit(b / 16);
    HexValueOfDigit(b % 16);
  }

  /** The escapes of byte `j` sit at `i = 3j` and read back as that byte. */
  lemma {:induction false} ByteOfEscapes(bytes: seq<nat>, rest: string, j: nat, i: nat)
    requires forall k :: 0 <= k < |bytes| ==> bytes[k] < 256
    requires j < |bytes| && i == 3 * j
    ensures ByteAt(Escapes(bytes) + rest, i) == Some(bytes[j])
    decreases j
  {
    var e, tail := Escape(bytes[0]), Escapes(bytes[1..]) + rest;
    assert Escapes(bytes) + rest == e + tail;
    if j == 0 {
      ByteOfEscape(bytes[0], tail);
    } else {
      ByteOfEscapes(bytes[1..], rest, j - 1, i - 3);
      ByteAtShift(e, tail, i - 3);
    }
  }

  lemma ContinuationOfEscapes(bytes: seq<nat>, rest: string, j: nat, i: nat, x: nat)
    requires forall k :: 0 <= k < |bytes| ==> bytes[k] < 256
    requires j < |bytes| && i == 3 * j && 0x80 <= bytes[j] < 0xC0 && x == bytes[j] - 0x80
    ensures ContinuationAt(Escapes(bytes) + rest, i) == Some(x)
  {
    ByteOfEscapes(bytes, rest, j, i);
  }

  /** The arithmetic of two-byte UTF-8: lead and continuation bytes in
      range, and the payload bits put back together give the code point. */
  lemma Utf8Two(cp: nat)
    requires 0x80 <= cp < 0x800
    ensures var bytes := Utf8(cp);
      |bytes| == 2 && 0xC0 <= bytes[0] < 0xE0 && 0x80 <= bytes[1] < 0xC0
      && (bytes[0] - 0xC0) * 64 + (bytes[1] - 0x80) == cp
  {
  }

  /** Taking six bits off a number: quotient and remainder by 64. */
  lemma SixBits(n: nat)
    ensures n == 64 * (n / 64) + n % 64 && n % 64 < 64
    ensures n / 4096 == n / 64 / 64 && n / 262144 == n / 4096 / 64
  {
  }

  lemma Utf8Three(cp: nat)
    requires 0x800 <= cp < 0x1_0000
    ensures var bytes := Utf8(cp);
      |bytes| == 3 && 0xE0 <= bytes[0] < 0xF0 && 0x80 <= bytes[1] < 0xC0 && 0x80 <= bytes[2] < 0xC0
      && (bytes[0] - 0xE0) * 4096 + (bytes[1] - 0x80) * 64 + (bytes[2] - 0x80) == cp
  {
    SixBits(cp);
    SixBits(cp / 64);
  }

  lemma Utf8Four(cp: nat)
    requires 0x1_0000 <= cp < 0x11_0000
    ensures var bytes := Utf8(cp);
      |bytes| == 4 && 0xF0 <= bytes[0] < 0xF8 && 0x80 <= bytes[1] < 0xC0 && 0x80 <= bytes[2] < 0xC0
      && 0x80 <= bytes[3] < 0xC0
      && (bytes[0] - 0xF0) * 262144 + (bytes[1] - 0x80) * 4096 + (bytes[2] - 0x80) * 64
        + (bytes[3] - 0x80) == cp
  {
    SixBits(cp);
    SixBits(cp / 64);
    SixBits(cp / 4096);
  }

  /** How a well-formed two-byte sequence reads, whatever text carries it. */
  lemma ReadTwoFrom(t: string, b0: nat, x1: nat, c: char)
    requires ByteAt(t, 0) == Some(b0) && 0xC0 <= b0 < 0xE0 && ContinuationAt(t, 3) == Some(x1)
    requires (b0 - 0xC0) * 64 + x1 == c as int >= 0x80
    ensures ReadEscaped(t) == Some((c, 6))
  {
    assert ReadEscaped(t) == ReadTwo(t, b0);
  }

  lemma ReadThreeFrom(t: string, b0: nat, x1: nat, x2: nat, c: char)
    requires ByteAt(t, 0) == Some(b0) && 0xE0 <= b0 < 0xF0
    requires ContinuationAt(t, 3) == Some(x1) && ContinuationAt(t, 6) == Some(x2)
    requires (b0 - 0xE0) * 4096 + x1 * 64 + x2 == c as int >= 0x800
    ensures ReadEscaped(t) == Some((c, 9))
  {
    assert ReadEscaped(t) == ReadThree(t, b0);
  }

  lemma ReadFourFrom(t: string, b0: nat, x1: nat, x2: nat, x3: nat, c: char)
    requires ByteAt(t, 0) == Some(b0) && 0xF0 <= b0 < 0xF8
    requires ContinuationAt(t, 3) == Some(x1) && ContinuationAt(t, 6) == Some(x2)
    requires ContinuationAt(t, 9) == Some(x3)
    requires (b0 - 0xF0) * 262144 + x1 * 4096 + x2 * 64 + x3 == c as int >= 0x1_0000
    ensures ReadEscaped(t) == Some((c, 12))
  {
    assert ReadEscaped(t) == ReadFour(t, b0);
  }

  /** How the escapes of a well-formed two-byte sequence read back. */
  lemma ReadTwoOf(bytes: seq<nat>, rest: string, c: char)
    requires |bytes| == 2 && 0xC0 <= bytes[0] < 0xE0 && 0x80 <= bytes[1] < 0xC0
    requires (bytes[0] - 0xC0) * 64 + (bytes[1] - 0x80) == c as int >= 0x80
    ensures ReadEscaped(Escapes(bytes) + rest) == Some((c, 6))
  {
    ByteOfEscapes(bytes, rest, 0, 0);
    ContinuationOfEscapes(bytes, rest, 1, 3, bytes[1] - 0x80);
    ReadTwoFrom(Escapes(bytes) + rest, bytes[0], bytes[1] - 0x80, c);
  }

  lemma ReadThreeOf(bytes: seq<nat>, rest: string, c: char)
    requires |bytes| == 3 && 0xE0 <= bytes[0] < 0xF0 && 0x80 <= bytes[1] < 0xC0 && 0x80 <= bytes[2] < 0xC0
    requires (bytes[0] - 0xE0) * 4096 + (bytes[1] - 0x80) * 64 + (bytes[2] - 0x80) == c as int >= 0x800
    ensures ReadEscaped(Escapes(bytes) + rest) == Some((c, 9))
  {
    ByteOfEscapes(bytes, rest, 0, 0);
    ContinuationOfEscapes(bytes, rest, 1, 3, bytes[1] - 0x80);
    ContinuationOfEscapes(bytes, rest, 2, 6, bytes[2] - 0x80);
    ReadThreeFrom(Escapes(bytes) + rest, bytes[0], bytes[1] - 0x80, bytes[2] - 0x80, c);
  }

  lemma ReadFourOf(bytes: seq<nat>, rest: string, c: char)
    requires |bytes| == 4 && 0xF0 <= bytes[0] < 0xF8 && 0x80 <= bytes[1] < 0xC0
    requires 0x80 <= bytes[2] < 0xC0 && 0x80 <= bytes[3] < 0xC0
    requires (bytes[0] - 0xF0) * 262144 + (bytes[1] - 0x80) * 4096 + (bytes[2] - 0x80) * 64
      + (bytes[3] - 0x80) == c as int >= 0x1_0000
    ensures ReadEscaped(Escapes(bytes) + rest) == Some((c, 12))
  {
    ByteOfEscapes(bytes, rest, 0, 0);
    ContinuationOfEscapes(bytes, rest, 1, 3, bytes[1] - 0x80);
    ContinuationOfEscapes(bytes, rest, 2, 6, bytes[2] - 0x80);
    ContinuationOfEscapes(bytes, rest, 3, 9, bytes[3] - 0x80);
    ReadFourFrom(Escapes(bytes) + rest, bytes[0], bytes[1] - 0x80, bytes[2] - 0x80, bytes[3] - 0x80, c);
  }

  /** The escapes of one character read back as that character. */
  lemma ReadEscapedChar(c: char, rest: string)
    requires !Unreserved(c)
    ensures ReadEscaped(EncodeChar(c) + rest) == Some((c, |EncodeChar(c)|))
  {
    var cp := c as int;
    if cp < 0x80 {
      ByteOfEscapes(Utf8(cp), rest, 0, 0);
    } else if cp < 0x800 {
      Utf8Two(cp);
      ReadTwoOf(Utf8(cp), rest, c);
    } else if cp < 0x1_0000 {
      Utf8Three(cp);
      ReadThreeOf(Utf8(cp), rest, c);
    } else {
      Utf8Four(cp);
      ReadFourOf(Utf8(cp), rest, c);
    }
  }

  lemma DecodeEncodedChar(c: char, rest: string)
    ensures Decode(EncodeChar(c) + rest) == Prepend(c, Decode(rest))
  {
    var t := EncodeChar(c) + rest;
    if Unreserved(c) {
      assert t[0] == c && t[1..] == rest;
    } else {
      assert t[0] == '%' by {
        var bytes := Utf8(c as int);
        assert EncodeChar(c) == Escape(bytes[0]) + Escapes(bytes[1..]);
      }
      ReadEscapedChar(c, rest);
      assert t[|EncodeChar(c)|..] == rest;
    }
  }

  /** `decodeURIComponent(encodeURIComponent(s)) === s` for every string. */
  lemma {:induction false} DecodeEncode(s: string)
    ensures Decode(Encode(s)) == Some(s)
    decreases |s|
  {
    if s != [] {
      var rest := Encode(s[1..]);
      assert Encode(s) == EncodeChar(s[0]) + rest;
      DecodeEncode(s[1..]);
      DecodeEncodedChar(s[0], rest);
      assert Prepend(s[0], Some(s[1..])) == Some(s) by {
        assert [s[0]] + s[1..] == s;
      }
    }
  }

  /** Different strings encode differently. */
  lemma EncodeInjective(a: string, b: string)
    requires Encode(a) == Encode(b)
    ensures a == b
  {
    DecodeEncode(a);
    DecodeEncode(b);
  }
}
