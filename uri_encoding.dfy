/** JavaScript's encodeURIComponent, which the news route applies to the search
    keywords before placing them in the upstream URL: every character outside
    the unreserved set `A-Z a-z 0-9 - _ . ! ~ * ' ( )` is replaced by the
    bytes of its UTF-8 encoding, each written `%XX` with upper-case hex digits.

    Dafny's `char` is a Unicode scalar value, so every string here is a
    well-formed sequence of code points; the URIError that encodeURIComponent
    throws on a lone UTF-16 surrogate has no counterpart.

    A decoder comes with it (the inverse, reading a well-formed escape as
    decodeURIComponent does), and the round trip is proved. */
module UriEncoding {
  import opened Text

  /** The characters encodeURIComponent leaves as they are. */
  predicate Unreserved(c: char) {
    ('A' <= c <= 'Z') || ('a' <= c <= 'z') || ('0' <= c <= '9') || c in "-_.!~*'()"
  }

  /** A character that can appear in encodeURIComponent's output. */
  predicate UriSafe(c: char) {
    Unreserved(c) || c == '%'
  }

  /** Upper-case hex digit of `d`. */
  function HexDigit(d: nat): (r: char)
    requires d < 16
    ensures Unreserved(r)
  {
    if d < 10 then (('0' as int) + d) as char else (('A' as int) + d - 10) as char
  }

  /** The byte `b` as `%XX`. */
  function Percent(b: nat): (r: Str)
    requires b < 256
    ensures |r| == 3 && r[0] == '%' && Unreserved(r[1]) && Unreserved(r[2])
  {
    ['%', HexDigit(b / 16), HexDigit(b % 16)]
  }

  predicate IsBytes(bs: seq<nat>) {
    forall i :: 0 <= i < |bs| ==> bs[i] < 256
  }

  /** The UTF-8 bytes of one code point (1 to 4 of them). */
  function Utf8(c: char): (r: seq<nat>)
    ensures 1 <= |r| <= 4 && IsBytes(r)
  {
    var cp := c as int;
    if cp < 0x80 then [cp]
    else if cp < 0x800 then [0xC0 + cp / 64, 0x80 + cp % 64]
    else if cp < 0x10000 then [0xE0 + cp / 4096, 0x80 + (cp / 64) % 64, 0x80 + cp % 64]
    else [0xF0 + cp / 262144, 0x80 + (cp / 4096) % 64, 0x80 + (cp / 64) % 64, 0x80 + cp % 64]
  }

  /** Each byte as `%XX`, in order. */
  function PercentBytes(bs: seq<nat>): (r: Str)
    requires IsBytes(bs)
    ensures |r| == 3 * |bs|
    ensures forall i :: 0 <= i < |r| ==> UriSafe(r[i])
  {
    if bs == [] then [] else Percent(bs[0]) + PercentBytes(bs[1..])
  }

  /** One character as encodeURIComponent writes it. */
  function EncodeChar(c: char): (r: Str)
    ensures forall i :: 0 <= i < |r| ==> UriSafe(r[i])
  {
    if Unreserved(c) then [c] else PercentBytes(Utf8(c))
  }

  /** encodeURIComponent. The output holds only unreserved characters and `%`:
      in particular no `&`, `=`, `?` or `#`, so it cannot end or split a
      query-string parameter. */
  function EncodeUriComponent(s: Str): (r: Str)
    ensures forall i :: 0 <= i < |r| ==> UriSafe(r[i])
  {
    if s == [] then [] else EncodeChar(s[0]) + EncodeUriComponent(s[1..])
  }

  // ---------------------------------------------------------------------------
  // Decoding
  // ---------------------------------------------------------------------------

  /** The value of a hex digit of either case. */
  function HexValue(c: char): Option<nat> {
    if '0' <= c <= '9' then Some(c as int - '0' as int)
    else if 'A' <= c <= 'F' then Some(c as int - 'A' as int + 10)
    else if 'a' <= c <= 'f' then Some(c as int - 'a' as int + 10)
    else None
  }

  /** The byte written `%XX` at index `k` of `s`, if there is one. */
  function ReadByte(s: Str, k: nat): (r: Option<nat>)
    ensures r.Some? ==> k + 3 <= |s| && r.value < 256
  {
    if k + 3 <= |s| && s[k] == '%' then
      match (HexValue(s[k + 1]), HexValue(s[k + 2]))
      case (Some(hi), Some(lo)) => if hi < 16 && lo < 16 then Some(hi * 16 + lo) else None
      case _ => None
    else None
  }

  /** The payload (low six bits) of a UTF-8 continuation byte at index `k`. */
  function ReadContinuation(s: Str, k: nat): (r: Option<nat>)
    ensures r.Some? ==> k + 3 <= |s| && r.value < 64
  {
    match ReadByte(s, k)
    case Some(b) => if 0x80 <= b < 0xC0 then Some(b - 0x80) else None
    case None => None
  }

  /** The character of code point `cp`, when `cp` is a Unicode scalar value. */
  function ScalarChar(cp: int): Option<char> {
    if 0 <= cp < 0xD800 || 0xE000 <= cp < 0x110000 then Some(cp as char) else None
  }

  /** Reads the escaped UTF-8 sequence at the start of `s`: the character and
      how many input characters it took. */
  function DecodeEscape(s: Str): (r: Option<(char, nat)>)
    ensures r.Some? ==> 3 <= r.value.1 <= |s|
  {
    match ReadByte(s, 0)
    case None => None
    case Some(b0) =>
      if b0 < 0x80 then
        match ScalarChar(b0) case Some(c) => Some((c, 3)) case None => None
      else if 0xC0 <= b0 < 0xE0 then
        match ReadContinuation(s, 3)
        case Some(x1) =>
          (match ScalarChar((b0 - 0xC0) * 64 + x1) case Some(c) => Some((c, 6)) case None => None)
        case None => None
      else if 0xE0 <= b0 < 0xF0 then
        match (ReadContinuation(s, 3), ReadContinuation(s, 6))
        case (Some(x1), Some(x2)) =>
          (match ScalarChar(((b0 - 0xE0) * 64 + x1) * 64 + x2) case Some(c) => Some((c, 9)) case None => None)
        case _ => None
      else if 0xF0 <= b0 < 0xF8 then
        match (ReadContinuation(s, 3), ReadContinuation(s, 6), ReadContinuation(s, 9))
        case (Some(x1), Some(x2), Some(x3)) =>
          (match ScalarChar((((b0 - 0xF0) * 64 + x1) * 64 + x2) * 64 + x3)
           case Some(c) => Some((c, 12)) case None => None)
        case _ => None
      else None
  }

  /** Reference decoder: `%XX` escapes are read as UTF-8, every other
      character stands for itself; a malformed escape gives None. It is more
      permissive than JavaScript's `decodeURIComponent` on input no encoder
      writes: it accepts overlong forms (`%C0%80` reads as U+0000), which
      `decodeURIComponent` rejects. On what `EncodeUriComponent` writes the
      two agree, and that is all the round trip relies on. */
  function DecodeUriComponent(s: Str): Option<Str>
    decreases |s|
  {
    if s == [] then Some([])
    else if s[0] != '%' then
      match DecodeUriComponent(s[1..])
      case Some(t) => Some([s[0]] + t)
      case None => None
    else
      match DecodeEscape(s)
      case None => None
      case Some((c, n)) =>
        match DecodeUriComponent(s[n..])
        case Some(t) => Some([c] + t)
        case None => None
  }

  // ---------------------------------------------------------------------------
  // Round trip
  // ---------------------------------------------------------------------------

  lemma HexRoundTrip(d: nat)
    requires d < 16
    ensures HexValue(HexDigit(d)) == Some(d)
  {
  }

  /** `%XX` at index `k` reads back as the byte. */
  lemma ReadPercentAt(s: Str, k: nat, b: nat)
    requires b < 256 && k + 3 <= |s| && s[k..k + 3] == Percent(b)
    ensures ReadByte(s, k) == Some(b)
  {
    assert s[k] == s[k..k + 3][0] && s[k + 1] == s[k..k + 3][1] && s[k + 2] == s[k..k + 3][2];
    HexRoundTrip(b / 16);
    HexRoundTrip(b % 16);
  }

  /** The `i`-th escape of an escaped byte string sits at index `3 * i`. */
  lemma {:induction false} PercentBytesAt(bs: seq<nat>, rest: Str, i: nat)
    requires IsBytes(bs) && i < |bs|
    ensures 3 * i + 3 <= |PercentBytes(bs) + rest|
    ensures (PercentBytes(bs) + rest)[3 * i..3 * i + 3] == Percent(bs[i])
  {
    var s := PercentBytes(bs) + rest;
    assert s == Percent(bs[0]) + (PercentBytes(bs[1..]) + rest);
    if i > 0 {
      PercentBytesAt(bs[1..], rest, i - 1);
      assert s[3 * i..3 * i + 3] == (PercentBytes(bs[1..]) + rest)[3 * (i - 1)..3 * (i - 1) + 3];
    }
  }

  /** Reading the `i`-th escaped byte. */
  lemma ReadPercentBytes(bs: seq<nat>, rest: Str, i: nat)
    requires IsBytes(bs) && i < |bs|
    ensures ReadByte(PercentBytes(bs) + rest, 3 * i) == Some(bs[i])
  {
    PercentBytesAt(bs, rest, i);
    ReadPercentAt(PercentBytes(bs) + rest, 3 * i, bs[i]);
  }

  /** Splitting a code point into 6-bit groups and reassembling it. */
  lemma Regroup3(cp: nat)
    ensures (cp / 4096 * 64 + (cp / 64) % 64) * 64 + cp % 64 == cp
  {
    var h := cp / 64;
    assert h / 64 == cp / 4096;
    assert h == h / 64 * 64 + h % 64;
    assert cp == h * 64 + cp % 64;
  }

  lemma Regroup4(cp: nat)
    ensures ((cp / 262144 * 64 + (cp / 4096) % 64) * 64 + (cp / 64) % 64) * 64 + cp % 64 == cp
  {
    var h := cp / 64;
    Regroup3(h);
    assert h / 64 == cp / 4096;
    assert h / 4096 == cp / 262144;
    assert cp == h * 64 + cp % 64;
  }

  /** One, two, three or four escaped bytes read back as the character whose
      code point they spell. */
  lemma Escape1(s: Str, b0: nat, c: char)
    requires ReadByte(s, 0) == Some(b0)
    requires b0 < 0x80 && c as int == b0
    ensures DecodeEscape(s) == Some((c, 3))
  {
  }

  lemma Escape2(s: Str, b0: nat, b1: nat, c: char)
    requires ReadByte(s, 0) == Some(b0) && ReadByte(s, 3) == Some(b1)
    requires 0xC0 <= b0 < 0xE0 && 0x80 <= b1 < 0xC0
    requires c as int == (b0 - 0xC0) * 64 + (b1 - 0x80)
    ensures DecodeEscape(s) == Some((c, 6))
  {
  }

  lemma Escape3(s: Str, b0: nat, b1: nat, b2: nat, c: char)
    requires ReadByte(s, 0) == Some(b0) && ReadByte(s, 3) == Some(b1) && ReadByte(s, 6) == Some(b2)
    requires 0xE0 <= b0 < 0xF0 && 0x80 <= b1 < 0xC0 && 0x80 <= b2 < 0xC0
    requires c as int == ((b0 - 0xE0) * 64 + (b1 - 0x80)) * 64 + (b2 - 0x80)
    ensures DecodeEscape(s) == Some((c, 9))
  {
  }

  lemma Escape4(s: Str, b0: nat, b1: nat, b2: nat, b3: nat, c: char)
    requires ReadByte(s, 0) == Some(b0) && ReadByte(s, 3) == Some(b1)
    requires ReadByte(s, 6) == Some(b2) && ReadByte(s, 9) == Some(b3)
    requires 0xF0 <= b0 < 0xF8 && 0x80 <= b1 < 0xC0 && 0x80 <= b2 < 0xC0 && 0x80 <= b3 < 0xC0
    requires c as int == (((b0 - 0xF0) * 64 + (b1 - 0x80)) * 64 + (b2 - 0x80)) * 64 + (b3 - 0x80)
    ensures DecodeEscape(s) == Some((c, 12))
  {
  }

  /** The escapes of one character read back as that character, by the
      length of its UTF-8 encoding. */
  lemma DecodeEscapeOf1(c: char, rest: Str)
    requires c as int < 0x80
    ensures DecodeEscape(PercentBytes(Utf8(c)) + rest) == Some((c, 3))
  {
    var bs := Utf8(c);
    ReadPercentBytes(bs, rest, 0);
    Escape1(PercentBytes(bs) + rest, bs[0], c);
  }

  lemma DecodeEscapeOf2(c: char, rest: Str)
    requires 0x80 <= c as int < 0x800
    ensures DecodeEscape(PercentBytes(Utf8(c)) + rest) == Some((c, 6))
  {
    var cp := c as int;
    var bs := Utf8(c);
    assert bs == [0xC0 + cp / 64, 0x80 + cp % 64];
    ReadPercentBytes(bs, rest, 0);
    ReadPercentBytes(bs, rest, 1);
    Escape2(PercentBytes(bs) + rest, bs[0], bs[1], c);
  }

  lemma DecodeEscapeOf3(c: char, rest: Str)
    requires 0x800 <= c as int < 0x10000
    ensures DecodeEscape(PercentBytes(Utf8(c)) + rest) == Some((c, 9))
  {
    var cp := c as int;
    var bs := Utf8(c);
    assert bs == [0xE0 + cp / 4096, 0x80 + (cp / 64) % 64, 0x80 + cp % 64];
    ReadPercentBytes(bs, rest, 0);
    ReadPercentBytes(bs, rest, 1);
    ReadPercentBytes(bs, rest, 2);
    Regroup3(cp);
    Escape3(PercentBytes(bs) + rest, bs[0], bs[1], bs[2], c);
  }

  lemma DecodeEscapeOf4(c: char, rest: Str)
    requires 0x10000 <= c as int
    ensures DecodeEscape(PercentBytes(Utf8(c)) + rest) == Some((c, 12))
  {
    var cp := c as int;
    var bs := Utf8(c);
    assert bs == [0xF0 + cp / 262144, 0x80 + (cp / 4096) % 64, 0x80 + (cp / 64) % 64, 0x80 + cp % 64];
    ReadPercentBytes(bs, rest, 0);
    ReadPercentBytes(bs, rest, 1);
    ReadPercentBytes(bs, rest, 2);
    ReadPercentBytes(bs, rest, 3);
    Regroup4(cp);
    Escape4(PercentBytes(bs) + rest, bs[0], bs[1], bs[2], bs[3], c);
  }

  lemma DecodeEscapeOf(c: char, rest: Str)
    ensures DecodeEscape(PercentBytes(Utf8(c)) + rest) == Some((c, 3 * |Utf8(c)|))
  {
    var cp := c as int;
    if cp < 0x80 {
      DecodeEscapeOf1(c, rest);
    } else if cp < 0x800 {
      DecodeEscapeOf2(c, rest);
    } else if cp < 0x10000 {
      DecodeEscapeOf3(c, rest);
    } else {
      DecodeEscapeOf4(c, rest);
    }
  }

  /** Decoding undoes encodeURIComponent: no two strings share an encoding. */
  lemma {:induction false} EncodeRoundTrip(s: Str)
    ensures DecodeUriComponent(EncodeUriComponent(s)) == Some(s)
  {
    if s != [] {
      var c := s[0];
      var tail := EncodeUriComponent(s[1..]);
      var e := EncodeChar(c) + tail;
      EncodeRoundTrip(s[1..]);
      if Unreserved(c) {
        assert e[1..] == tail;
      } else {
        DecodeEscapeOf(c, tail);
        assert e[3 * |Utf8(c)|..] == tail;
      }
      assert [c] + s[1..] == s;
    }
  }

  lemma EncodeInjective(s: Str, t: Str)
    requires s != t
    ensures EncodeUriComponent(s) != EncodeUriComponent(t)
  {
    EncodeRoundTrip(s);
    EncodeRoundTrip(t);
  }
}
