/** JavaScript's `encodeURIComponent` on strings of Unicode scalar values:
    each character's UTF-8 bytes, with every byte outside the unreserved
    ASCII set written as `%` and two upper-case hex digits. */
module Uri {
  import opened Wrappers

  /** The characters `encodeURIComponent` leaves as they are. */
  predicate Unreserved(c: char) {
    ('A' <= c <= 'Z') || ('a' <= c <= 'z') || ('0' <= c <= '9')
    || c in {'-', '_', '.', '!', '~', '*', '\'', '(', ')'}
  }

  predicate IsByte(b: int) { 0 <= b < 256 }

  /** The UTF-8 encoding of one scalar value. */
  function Utf8(c: char): (bytes: seq<int>)
    ensures 1 <= |bytes| <= 4
    ensures forall i :: 0 <= i < |bytes| ==> IsByte(bytes[i])
    ensures (c as int < 0x80) <==> |bytes| == 1
    ensures |bytes| == 1 ==> bytes[0] == c as int
    ensures |bytes| > 1 ==> forall i :: 0 <= i < |bytes| ==> bytes[i] >= 0x80
  {
    var n := c as int;
    if n < 0x80 then [n]
    else if n < 0x800 then [0xC0 + n / 0x40, 0x80 + n % 0x40]
    else if n < 0x1_0000 then [0xE0 + n / 0x1000, 0x80 + (n / 0x40) % 0x40, 0x80 + n % 0x40]
    else [0xF0 + n / 0x4_0000, 0x80 + (n / 0x1000) % 0x40, 0x80 + (n / 0x40) % 0x40, 0x80 + n % 0x40]
  }

  function Utf8Bytes(s: string): (bytes: seq<int>)
    ensures forall i :: 0 <= i < |bytes| ==> IsByte(bytes[i])
    ensures |bytes| >= |s|
  {
    if s == [] then [] else Utf8(s[0]) + Utf8Bytes(s[1..])
  }

  function HexDigit(d: int): (c: char)
    requires 0 <= d < 16
    ensures ('0' <= c <= '9') || ('A' <= c <= 'F')
  {
    if d < 10 then ('0' as int + d) as char else ('A' as int + d - 10) as char
  }

  /** The value of an upper-case hex digit, `None` for any other character. */
  function HexValue(c: char): (r: Option<int>)
    ensures r.Some? ==> 0 <= r.value < 16
  {
    if '0' <= c <= '9' then Some(c as int - '0' as int)
    else if 'A' <= c <= 'F' then Some(c as int - 'A' as int + 10)
    else None
  }

  lemma HexRoundTrip(d: int)
    requires 0 <= d < 16
    ensures HexValue(HexDigit(d)) == Some(d)
  {
  }

  /** One byte as it appears in the output. */
  function EscapeByte(b: int): (r: string)
    requires IsByte(b)
    ensures |r| == 1 || |r| == 3
    ensures |r| == 1 <==> b < 0x80 && Unreserved(b as char)
    ensures |r| == 3 ==> r[0] == '%'
  {
    if b < 0x80 && Unreserved(b as char) then [b as char] else ['%', HexDigit(b / 16), HexDigit(b % 16)]
  }

  function EscapeBytes(bytes: seq<int>): (r: string)
    requires forall i :: 0 <= i < |bytes| ==> IsByte(bytes[i])
  {
    if bytes == [] then [] else EscapeByte(bytes[0]) + EscapeBytes(bytes[1..])
  }

  /** `encodeURIComponent`. */
  function EncodeURIComponent(s: string): string {
    EscapeBytes(Utf8Bytes(s))
  }

  /** A character that can appear in an encoded component. */
  predicate EncodedChar(c: char) {
    Unreserved(c) || c == '%' || ('A' <= c <= 'F')
  }

  /** Escaped output holds only unreserved characters, `%` and hex digits, so
      never a `&`, `=`, `#` or space that would end or split a query parameter. */
  lemma {:induction false} EscapeBytesAlphabet(bytes: seq<int>)
    requires forall i :: 0 <= i < |bytes| ==> IsByte(bytes[i])
    ensures forall i :: 0 <= i < |EscapeBytes(bytes)| ==> EncodedChar(EscapeBytes(bytes)[i])
  {
    if bytes != [] {
      EscapeBytesAlphabet(bytes[1..]);
      var head := EscapeByte(bytes[0]);
      var rest := EscapeBytes(bytes[1..]);
      assert EscapeBytes(bytes) == head + rest;
      forall i | 0 <= i < |head| ensures EncodedChar(head[i]) {
      }
    }
  }

  lemma EncodeAlphabet(s: string)
    ensures forall i :: 0 <= i < |EncodeURIComponent(s)| ==> EncodedChar(EncodeURIComponent(s)[i])
    ensures forall i :: 0 <= i < |EncodeURIComponent(s)| ==> EncodeURIComponent(s)[i] !in {'&', '=', '#', ' '}
  {
    EscapeBytesAlphabet(Utf8Bytes(s));
  }

  /** Percent-decoding to bytes: `%XX` is one byte, an unreserved character
      stands for itself; anything else is rejected. */
  function DecodeBytes(s: string): Option<seq<int>>
    decreases |s|
  {
    if s == [] then Some([])
    else if s[0] == '%' then
      if |s| < 3 || HexValue(s[1]).None? || HexValue(s[2]).None? then None
      else match DecodeBytes(s[3..])
        case None => None
        case Some(rest) => Some([HexValue(s[1]).value * 16 + HexValue(s[2]).value] + rest)
    else if Unreserved(s[0]) then
      match DecodeBytes(s[1..])
      case None => None
      case Some(rest) => Some([s[0] as int] + rest)
    else None
  }

  /** Decoding an escaped byte string gives the bytes back. */
  lemma {:induction false} EscapeBytesRoundTrip(bytes: seq<int>)
    requires forall i :: 0 <= i < |bytes| ==> IsByte(bytes[i])
    ensures DecodeBytes(EscapeBytes(bytes)) == Some(bytes)
  {
    if bytes != [] {
      var b := bytes[0];
      var head := EscapeByte(b);
      var rest := EscapeBytes(bytes[1..]);
      EscapeBytesRoundTrip(bytes[1..]);
      var s := head + rest;
      assert EscapeBytes(bytes) == s;
      if |head| == 1 {
        assert s[0] == b as char && s[1..] == rest;
      } else {
        HexRoundTrip(b / 16);
        HexRoundTrip(b % 16);
        assert s[0] == '%' && s[1] == HexDigit(b / 16) && s[2] == HexDigit(b % 16) && s[3..] == rest;
      }
      assert bytes == [b] + bytes[1..];
    }
  }

  /** Percent-decoding an encoded component recovers its UTF-8 bytes. */
  lemma EncodeRoundTrip(s: string)
    ensures DecodeBytes(EncodeURIComponent(s)) == Some(Utf8Bytes(s))
  {
    EscapeBytesRoundTrip(Utf8Bytes(s));
  }

  /** A string of unreserved ASCII characters is encoded as itself. */
  lemma {:induction false} EncodeUnreserved(s: string)
    requires forall i :: 0 <= i < |s| ==> Unreserved(s[i])
    ensures EncodeURIComponent(s) == s
  {
    if s != [] {
      EncodeUnreserved(s[1..]);
      assert Utf8Bytes(s) == [s[0] as int] + Utf8Bytes(s[1..]);
      assert EscapeBytes(Utf8Bytes(s)) == EscapeByte(s[0] as int) + EscapeBytes(Utf8Bytes(s[1..]));
      assert s == [s[0]] + s[1..];
    }
  }
}
