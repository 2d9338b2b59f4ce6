/** `encodeURIComponent` as ECMA-262 (section 19.2.6.5, "Encode") defines it: each
    character outside the unreserved set becomes the `%XX` escapes of its UTF-8 bytes,
    in upper-case hexadecimal. `Decode` is the percent-decoding that undoes it. */
module UriEncoding {
  import opened Common

  /** A-Z a-z 0-9 and `-_.!~*'()`: left as they are. */
  predicate IsUnreserved(c: char) {
    ('A' <= c <= 'Z') || ('a' <= c <= 'z') || ('0' <= c <= '9')
    || c == '-' || c == '_' || c == '.' || c == '!' || c == '~' || c == '*' || c == '\''
    || c == '(' || c == ')'
  }

  predicate IsUpperHex(c: char) {
    ('0' <= c <= '9') || ('A' <= c <= 'F')
  }

  predicate IsHex(c: char) {
    IsUpperHex(c) || ('a' <= c <= 'f')
  }

  function HexDigit(n: nat): (c: char)
    requires n < 16
    ensures IsUpperHex(c)
  {
    if n < 10 then ('0' as int + n) as char else ('A' as int + n - 10) as char
  }

  function HexValue(c: char): (n: nat)
    requires IsHex(c)
    ensures n < 16
  {
    if '0' <= c <= '9' then c as int - '0' as int
    else if 'A' <= c <= 'F' then c as int - 'A' as int + 10
    else c as int - 'a' as int + 10
  }

  lemma HexRoundTrip(n: nat)
    requires n < 16
    ensures HexValue(HexDigit(n)) == n
  {
  }

  predicate IsByte(b: nat) { b < 256 }

  /** The UTF-8 encoding of a Unicode scalar value. */
  function Utf8(cp: nat): (bytes: seq<nat>)
    requires cp < 0x11_0000
    ensures 1 <= |bytes| <= 4
    ensures forall i :: 0 <= i < |bytes| ==> IsByte(bytes[i])
  {
    if cp < 0x80 then [cp]
    else if cp < 0x800 then [0xC0 + cp / 64, 0x80 + cp % 64]
    else if cp < 0x1_0000 then [0xE0 + cp / 4096, 0x80 + (cp / 64) % 64, 0x80 + cp % 64]
    else [0xF0 + cp / 262144, 0x80 + (cp / 4096) % 64, 0x80 + (cp / 64) % 64, 0x80 + cp % 64]
  }

  /** `%XX` for one byte. */
  function Escape(b: nat): string
    requires IsByte(b)
  {
    ['%', HexDigit(b / 16), HexDigit(b % 16)]
  }

  function EscapeAll(bytes: seq<nat>): (r: string)
    requires forall i :: 0 <= i < |bytes| ==> IsByte(bytes[i])
    ensures |r| == 3 * |bytes|
  {
    if bytes == [] then [] else Escape(bytes[0]) + EscapeAll(bytes[1..])
  }

  function EncodeChar(c: char): (r: string)
    ensures 1 <= |r| <= 12
    ensures IsUnreserved(c) <==> r == [c]
  {
    if IsUnreserved(c) then [c] else EscapeAll(Utf8(c as int))
  }

  /** `encodeURIComponent(s)` (a string of scalar values cannot hold the lone
      surrogate for which it throws). Every character becomes itself or one to four
      `%XX` escapes. */
  function Encode(s: string): (r: string)
    ensures |s| <= |r| <= 12 * |s|
  {
    if s == [] then [] else EncodeChar(s[0]) + Encode(s[1..])
  }

  /** What an encoded string can contain: unreserved characters, `%` and upper-case
      hexadecimal digits, and nothing else (no `/`, `?`, `&`, `=`, `#`, space). */
  predicate InEncodedAlphabet(c: char) {
    IsUnreserved(c) || c == '%' || IsUpperHex(c)
  }

  lemma {:induction false} EscapeAllAlphabet(bytes: seq<nat>)
    requires forall i :: 0 <= i < |bytes| ==> IsByte(bytes[i])
    ensures forall k :: 0 <= k < |EscapeAll(bytes)| ==> InEncodedAlphabet(EscapeAll(bytes)[k])
    decreases |bytes|
  {
    if bytes != [] {
      EscapeAllAlphabet(bytes[1..]);
    }
  }

  lemma {:induction false} EncodeAlphabet(s: string)
    ensures forall k :: 0 <= k < |Encode(s)| ==> InEncodedAlphabet(Encode(s)[k])
    decreases |s|
  {
    if s != [] {
      EncodeAlphabet(s[1..]);
      if !IsUnreserved(s[0]) {
        EscapeAllAlphabet(Utf8(s[0] as int));
      }
    }
  }

  /** A string made only of unreserved characters is its own encoding. */
  lemma {:induction false} EncodeUnreservedIdentity(s: string)
    requires forall k :: 0 <= k < |s| ==> IsUnreserved(s[k])
    ensures Encode(s) == s
    decreases |s|
  {
    if s != [] {
      EncodeUnreservedIdentity(s[1..]);
    }
  }

  /** Encoding works character by character: it distributes over concatenation. */
  lemma {:induction false} EncodeAppend(a: string, b: string)
    ensures Encode(a + b) == Encode(a) + Encode(b)
    decreases |a|
  {
    if a == [] {
      assert a + b == b;
    } else {
      var head := EncodeChar(a[0]);
      assert (a + b)[0] == a[0] && (a + b)[1..] == a[1..] + b;
      assert Encode(a + b) == head + Encode(a[1..] + b);
      EncodeAppend(a[1..], b);
      assert head + (Encode(a[1..]) + Encode(b)) == (head + Encode(a[1..])) + Encode(b);
    }
  }

  /** The byte written as `%XX` at position `i`, if there is one. */
  function ByteAt(s: string, i: nat): Option<nat> {
    if i + 3 <= |s| && s[i] == '%' && IsHex(s[i + 1]) && IsHex(s[i + 2])
    then Some(HexValue(s[i + 1]) * 16 + HexValue(s[i + 2]))
    else None
  }

  /** The six payload bits of a UTF-8 continuation byte written at position `i`. */
  function ContinuationAt(s: string, i: nat): Option<nat> {
    match ByteAt(s, i)
    case None => None
    case Some(b) => if 0x80 <= b < 0xC0 then Some(b - 0x80) else None
  }

  predicate IsScalar(cp: int) {
    0 <= cp < 0xD800 || 0xE000 <= cp < 0x11_0000
  }

  /** The smallest value a UTF-8 sequence of `width / 3` escaped bytes may carry:
      a longer sequence than the value needs is an overlong form. */
  function Least(width: nat): nat {
    if width == 6 then 0x80 else if width == 9 then 0x800 else if width == 12 then 0x1_0000 else 0
  }

  /** The scalar value `cp` as a character, when it is one and is written in its
      shortest form. */
  function ScalarChar(cp: nat, width: nat): Option<(char, nat)> {
    if Least(width) <= cp && IsScalar(cp) then Some((cp as char, width)) else None
  }

  /** Decodes the first character of `s`: its value and how many characters it took. */
  function DecodeOne(s: string): (r: Option<(char, nat)>)
    requires s != []
    ensures r.Some? ==> 1 <= r.value.1 <= |s|
  {
    if s[0] != '%' then Some((s[0], 1))
    else
      match ByteAt(s, 0)
      case None => None
      case Some(b0) =>
        if b0 < 0x80 then Some((b0 as char, 3))
        else if 0xC0 <= b0 < 0xE0 then
          match ContinuationAt(s, 3)
          case None => None
          case Some(c1) => ScalarChar((b0 - 0xC0) * 64 + c1, 6)
        else if 0xE0 <= b0 < 0xF0 then
          match (ContinuationAt(s, 3), ContinuationAt(s, 6))
          case (Some(c1), Some(c2)) => ScalarChar((b0 - 0xE0) * 4096 + c1 * 64 + c2, 9)
          case _ => None
        else if 0xF0 <= b0 < 0xF8 then
          match (ContinuationAt(s, 3), ContinuationAt(s, 6), ContinuationAt(s, 9))
          case (Some(c1), Some(c2), Some(c3)) =>
            ScalarChar((b0 - 0xF0) * 262144 + c1 * 4096 + c2 * 64 + c3, 12)
          case _ => None
        else None
  }

  /** Percent-decoding with UTF-8, as `decodeURIComponent` does it: `None` (its
      `URIError`) for a `%` without two hexadecimal digits, a byte that cannot start a
      sequence, a missing continuation byte, an overlong form, a surrogate or a value
      past U+10FFFF. A decoded string is never longer than its encoding. */
  function Decode(s: string): (r: Option<string>)
    ensures r.Some? ==> |r.value| <= |s|
    decreases |s|
  {
    if s == [] then Some([])
    else
      match DecodeOne(s)
      case None => None
      case Some((c, k)) =>
        match Decode(s[k..])
        case None => None
        case Some(rest) => Some([c] + rest)
  }

  lemma EscapeByte(b: nat, rest: string)
    requires IsByte(b)
    ensures ByteAt(Escape(b) + rest, 0) == Some(b)
  {
    HexRoundTrip(b / 16);
    HexRoundTrip(b % 16);
  }

  lemma EscapeShift(prefix: string, rest: string, i: nat)
    requires |prefix| == i
    ensures ByteAt(prefix + rest, i) == ByteAt(rest, 0)
  {
    var s := prefix + rest;
    if i + 3 <= |s| {
      assert s[i] == rest[0] && s[i + 1] == rest[1] && s[i + 2] == rest[2];
    }
  }

  lemma DecodeWidth1(b0: nat, rest: string)
    requires b0 < 0x80
    ensures DecodeOne(Escape(b0) + rest) == Some((b0 as char, 3))
  {
    EscapeByte(b0, rest);
  }

  lemma DecodeWidth2(b0: nat, b1: nat, rest: string)
    requires 0xC0 <= b0 < 0xE0 && 0x80 <= b1 < 0xC0
    ensures DecodeOne(Escape(b0) + Escape(b1) + rest) == ScalarChar((b0 - 0xC0) * 64 + (b1 - 0x80), 6)
  {
    var e0, e1 := Escape(b0), Escape(b1);
    assert e0 + e1 + rest == e0 + (e1 + rest);
    EscapeByte(b0, e1 + rest);
    EscapeShift(e0, e1 + rest, 3);
    EscapeByte(b1, rest);
  }

  lemma DecodeWidth3(b0: nat, b1: nat, b2: nat, rest: string)
    requires 0xE0 <= b0 < 0xF0 && 0x80 <= b1 < 0xC0 && 0x80 <= b2 < 0xC0
    ensures DecodeOne(Escape(b0) + Escape(b1) + Escape(b2) + rest)
         == ScalarChar((b0 - 0xE0) * 4096 + (b1 - 0x80) * 64 + (b2 - 0x80), 9)
  {
    var e0, e1, e2 := Escape(b0), Escape(b1), Escape(b2);
    var s := e0 + e1 + e2 + rest;
    assert s == e0 + (e1 + (e2 + rest));
    assert s == (e0 + e1) + (e2 + rest);
    EscapeByte(b0, e1 + (e2 + rest));
    EscapeShift(e0, e1 + (e2 + rest), 3);
    EscapeByte(b1, e2 + rest);
    EscapeShift(e0 + e1, e2 + rest, 6);
    EscapeByte(b2, rest);
  }

  lemma DecodeWidth4(b0: nat, b1: nat, b2: nat, b3: nat, rest: string)
    requires 0xF0 <= b0 < 0xF8 && 0x80 <= b1 < 0xC0 && 0x80 <= b2 < 0xC0 && 0x80 <= b3 < 0xC0
    ensures DecodeOne(Escape(b0) + Escape(b1) + Escape(b2) + Escape(b3) + rest)
         == ScalarChar((b0 - 0xF0) * 262144 + (b1 - 0x80) * 4096 + (b2 - 0x80) * 64 + (b3 - 0x80), 12)
  {
    var e0, e1, e2, e3 := Escape(b0), Escape(b1), Escape(b2), Escape(b3);
    var s := e0 + e1 + e2 + e3 + rest;
    assert s == e0 + (e1 + (e2 + (e3 + rest)));
    assert s == (e0 + e1) + (e2 + (e3 + rest));
    assert s == (e0 + e1 + e2) + (e3 + rest);
    EscapeByte(b0, e1 + (e2 + (e3 + rest)));
    EscapeShift(e0, e1 + (e2 + (e3 + rest)), 3);
    EscapeByte(b1, e2 + (e3 + rest));
    EscapeShift(e0 + e1, e2 + (e3 + rest), 6);
    EscapeByte(b2, e3 + rest);
    EscapeShift(e0 + e1 + e2, e3 + rest, 9);
    EscapeByte(b3, rest);
  }

  lemma Utf8Two(cp: nat)
    requires 0x80 <= cp < 0x800
    ensures 0xC0 <= 0xC0 + cp / 64 < 0xE0 && 0x80 <= 0x80 + cp % 64 < 0xC0
    ensures (cp / 64) * 64 + cp % 64 == cp
  {
  }

  lemma Utf8Three(cp: nat)
    requires 0x800 <= cp < 0x1_0000
    ensures 0xE0 <= 0xE0 + cp / 4096 < 0xF0
    ensures 0x80 <= 0x80 + (cp / 64) % 64 < 0xC0 && 0x80 <= 0x80 + cp % 64 < 0xC0
    ensures (cp / 4096) * 4096 + ((cp / 64) % 64) * 64 + cp % 64 == cp
  {
    var q := cp / 64;
    assert cp == q * 64 + cp % 64;
    assert q == (q / 64) * 64 + q % 64;
    assert q / 64 == cp / 4096;
  }

  lemma Utf8Four(cp: nat)
    requires 0x1_0000 <= cp < 0x11_0000
    ensures 0xF0 <= 0xF0 + cp / 262144 < 0xF8
    ensures 0x80 <= 0x80 + (cp / 4096) % 64 < 0xC0
    ensures 0x80 <= 0x80 + (cp / 64) % 64 < 0xC0 && 0x80 <= 0x80 + cp % 64 < 0xC0
    ensures (cp / 262144) * 262144 + ((cp / 4096) % 64) * 4096 + ((cp / 64) % 64) * 64 + cp % 64 == cp
  {
    var q := cp / 64;
    var r := q / 64;
    assert cp == q * 64 + cp % 64;
    assert q == r * 64 + q % 64;
    assert r == (r / 64) * 64 + r % 64;
    assert r == cp / 4096;
    assert r / 64 == cp / 262144;
  }

  lemma EncodeOneByte(c: char, rest: string)
    requires !IsUnreserved(c) && c as int < 0x80
    ensures DecodeOne(EncodeChar(c) + rest) == Some((c, |EncodeChar(c)|))
  {
    var bytes := Utf8(c as int);
    assert EscapeAll(bytes) == Escape(bytes[0]) + EscapeAll(bytes[1..]);
    DecodeWidth1(bytes[0], rest);
  }

  lemma EncodeTwoBytes(c: char, rest: string)
    requires 0x80 <= c as int < 0x800
    ensures DecodeOne(EncodeChar(c) + rest) == Some((c, |EncodeChar(c)|))
  {
    var cp := c as int;
    var bytes := Utf8(cp);
    Utf8Two(cp);
    assert EscapeAll(bytes[1..]) == Escape(bytes[1]) + EscapeAll(bytes[2..]);
    assert EscapeAll(bytes) == Escape(bytes[0]) + Escape(bytes[1]);
    DecodeWidth2(bytes[0], bytes[1], rest);
  }

  lemma EncodeThreeBytes(c: char, rest: string)
    requires 0x800 <= c as int < 0x1_0000
    ensures DecodeOne(EncodeChar(c) + rest) == Some((c, |EncodeChar(c)|))
  {
    var cp := c as int;
    var bytes := Utf8(cp);
    Utf8Three(cp);
    assert EscapeAll(bytes[2..]) == Escape(bytes[2]) + EscapeAll(bytes[3..]);
    assert EscapeAll(bytes[1..]) == Escape(bytes[1]) + Escape(bytes[2]);
    assert EscapeAll(bytes) == Escape(bytes[0]) + Escape(bytes[1]) + Escape(bytes[2]);
    DecodeWidth3(bytes[0], bytes[1], bytes[2], rest);
  }

  lemma EncodeFourBytes(c: char, rest: string)
    requires 0x1_0000 <= c as int
    ensures DecodeOne(EncodeChar(c) + rest) == Some((c, |EncodeChar(c)|))
  {
    var cp := c as int;
    var bytes := Utf8(cp);
    Utf8Four(cp);
    assert EscapeAll(bytes[3..]) == Escape(bytes[3]) + EscapeAll(bytes[4..]);
    assert EscapeAll(bytes[2..]) == Escape(bytes[2]) + Escape(bytes[3]);
    assert EscapeAll(bytes[1..]) == Escape(bytes[1]) + Escape(bytes[2]) + Escape(bytes[3]);
    assert EscapeAll(bytes) == Escape(bytes[0]) + Escape(bytes[1]) + Escape(bytes[2]) + Escape(bytes[3]);
    DecodeWidth4(bytes[0], bytes[1], bytes[2], bytes[3], rest);
  }

  /** The escapes of one character decode back to that character. */
  lemma EncodeCharDecodes(c: char, rest: string)
    ensures DecodeOne(EncodeChar(c) + rest) == Some((c, |EncodeChar(c)|))
  {
    if IsUnreserved(c) {
      assert (EncodeChar(c) + rest)[0] == c;
    } else if c as int < 0x80 {
      EncodeOneByte(c, rest);
    } else if c as int < 0x800 {
      EncodeTwoBytes(c, rest);
    } else if c as int < 0x1_0000 {
      EncodeThreeBytes(c, rest);
    } else {
      EncodeFourBytes(c, rest);
    }
  }

  /** Decoding the encoding gives the original string back, so distinct strings never
      share an encoding. */
  lemma {:induction false} DecodeEncode(s: string)
    ensures Decode(Encode(s)) == Some(s)
    decreases |s|
  {
    if s != [] {
      var e, tail := EncodeChar(s[0]), Encode(s[1..]);
      assert Encode(s) == e + tail;
      EncodeCharDecodes(s[0], tail);
      assert (e + tail)[|e|..] == tail;
      DecodeEncode(s[1..]);
      assert s == [s[0]] + s[1..];
    }
  }

  /** Overlong forms are refused, as `decodeURIComponent` refuses them: `/` written in
      two or three bytes does not decode, while its one-byte escape does. */
  lemma OverlongRefused()
    ensures Decode("%C0%AF") == None
    ensures Decode("%E0%80%AF") == None
    ensures Decode("%2F") == Some("/")
  {
    assert ByteAt("%C0%AF", 0) == Some(0xC0) && ContinuationAt("%C0%AF", 3) == Some(0x2F);
    assert ByteAt("%E0%80%AF", 0) == Some(0xE0);
    assert ContinuationAt("%E0%80%AF", 3) == Some(0) && ContinuationAt("%E0%80%AF", 6) == Some(0x2F);
    assert ByteAt("%2F", 0) == Some(0x2F);
    assert DecodeOne("%2F") == Some(('/', 3));
    assert "%2F"[3..] == [];
    assert Decode("%2F"[3..]) == Some([]);
    assert Decode("%2F") == Some(['/'] + []);
    assert ['/'] + [] == "/";
  }
}
