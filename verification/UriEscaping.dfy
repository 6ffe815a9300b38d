/** Uri.EscapeDataString: every character outside the unreserved set of
    section 2.3 of RFC 3986 is replaced by the bytes of its UTF-8 encoding,
    each written as "%" and two upper-case hexadecimal digits (section 2.1 of
    RFC 3986). */
module UriEscaping {

  type byte = b: int | 0 <= b < 256

  /** ALPHA / DIGIT / "-" / "." / "_" / "~" (section 2.3 of RFC 3986). */
  predicate IsUnreserved(c: char) {
    || ('A' <= c <= 'Z') || ('a' <= c <= 'z') || ('0' <= c <= '9')
    || c == '-' || c == '.' || c == '_' || c == '~'
  }

  /** The UTF-8 encoding of one Unicode scalar value (section 3 of RFC 3629). */
  function Utf8(c: char): (bs: seq<byte>)
    ensures 1 <= |bs| <= 4
    ensures |bs| == 1 <==> c as int < 0x80
    ensures |bs| == 1 ==> bs[0] == c as int
  {
    var v := c as int;
    if v < 0x80 then [v]
    else if v < 0x800 then [0xC0 + v / 0x40, 0x80 + v % 0x40]
    else if v < 0x1_0000 then [0xE0 + v / 0x1000, 0x80 + (v / 0x40) % 0x40, 0x80 + v % 0x40]
    else [0xF0 + v / 0x4_0000, 0x80 + (v / 0x1000) % 0x40, 0x80 + (v / 0x40) % 0x40, 0x80 + v % 0x40]
  }

  /** The UTF-8 encoding of a whole string. */
  function Utf8String(s: string): seq<byte> {
    if s == [] then [] else Utf8(s[0]) + Utf8String(s[1..])
  }

  const HexDigits: string := "0123456789ABCDEF"

  function HexChar(n: int): char
    requires 0 <= n < 16
  {
    HexDigits[n]
  }

  /** The value of a hexadecimal digit of either case, or -1. */
  function HexValue(c: char): (v: int)
    ensures -1 <= v < 16
  {
    if '0' <= c <= '9' then c as int - '0' as int
    else if 'A' <= c <= 'F' then c as int - 'A' as int + 10
    else if 'a' <= c <= 'f' then c as int - 'a' as int + 10
    else -1
  }

  /** "%HH" for one byte. */
  function EncodeByte(b: byte): string {
    ['%', HexChar(b / 16), HexChar(b % 16)]
  }

  function EncodeBytes(bs: seq<byte>): string {
    if bs == [] then [] else EncodeByte(bs[0]) + EncodeBytes(bs[1..])
  }

  function EscapeChar(c: char): string {
    if IsUnreserved(c) then [c] else EncodeBytes(Utf8(c))
  }

  lemma {:induction false} EncodeBytesAlphabet(bs: seq<byte>)
    ensures forall i :: 0 <= i < |EncodeBytes(bs)| ==>
      IsUnreserved(EncodeBytes(bs)[i]) || EncodeBytes(bs)[i] == '%'
  {
    if bs != [] {
      EncodeBytesAlphabet(bs[1..]);
    }
  }

  /** Uri.EscapeDataString. Its result holds unreserved characters and "%"
      only: no brace, slash, "?", "&" or space of the input survives. */
  function EscapeDataString(s: string): (r: string)
    ensures forall i :: 0 <= i < |r| ==> IsUnreserved(r[i]) || r[i] == '%'
  {
    if s == [] then []
    else
      EncodeBytesAlphabet(Utf8(s[0]));
      EscapeChar(s[0]) + EscapeDataString(s[1..])
  }

  /** Percent-decoding to bytes (section 2.1 of RFC 3986): "%HH" is one byte,
      any other character stands for its own code. */
  function PercentDecode(s: string): seq<int>
    decreases |s|
  {
    if s == [] then []
    else if |s| >= 3 && s[0] == '%' && HexValue(s[1]) >= 0 && HexValue(s[2]) >= 0 then
      [16 * HexValue(s[1]) + HexValue(s[2])] + PercentDecode(s[3..])
    else [s[0] as int] + PercentDecode(s[1..])
  }

  lemma HexRoundTrip(n: int)
    requires 0 <= n < 16
    ensures HexValue(HexChar(n)) == n
  {
  }

  lemma DecodeEncodedByte(b: byte, tail: string)
    ensures PercentDecode(EncodeByte(b) + tail) == [b] + PercentDecode(tail)
  {
    HexRoundTrip(b / 16);
    HexRoundTrip(b % 16);
    var s := EncodeByte(b) + tail;
    assert s[0] == '%' && s[1] == HexChar(b / 16) && s[2] == HexChar(b % 16);
    assert s[3..] == tail;
  }

  lemma {:induction false} DecodeEncodedBytes(bs: seq<byte>, rest: string)
    ensures PercentDecode(EncodeBytes(bs) + rest) == bs + PercentDecode(rest)
  {
    if bs != [] {
      var tail := EncodeBytes(bs[1..]) + rest;
      assert EncodeBytes(bs) + rest == EncodeByte(bs[0]) + tail;
      DecodeEncodedByte(bs[0], tail);
      DecodeEncodedBytes(bs[1..], rest);
      assert bs == [bs[0]] + bs[1..];
    } else {
      assert EncodeBytes(bs) + rest == rest;
    }
  }

  lemma DecodeEscapedChar(c: char, rest: string)
    ensures PercentDecode(EscapeChar(c) + rest) == Utf8(c) + PercentDecode(rest)
  {
    if IsUnreserved(c) {
      var s := [c] + rest;
      assert s[0] == c && s[1..] == rest;
    } else {
      DecodeEncodedBytes(Utf8(c), rest);
    }
  }

  /** Decoding undoes the escaping: the escaped string carries exactly the
      UTF-8 bytes of the input. */
  lemma {:induction false} EscapeDecodeRoundTrip(s: string)
    ensures PercentDecode(EscapeDataString(s)) == Utf8String(s)
  {
    if s != [] {
      EscapeDecodeRoundTrip(s[1..]);
      DecodeEscapedChar(s[0], EscapeDataString(s[1..]));
    }
  }

  /** A string made only of unreserved characters is left as it is. */
  lemma {:induction false} EscapeUnreservedIdentity(s: string)
    requires forall i :: 0 <= i < |s| ==> IsUnreserved(s[i])
    ensures EscapeDataString(s) == s
  {
    if s != [] {
      EscapeUnreservedIdentity(s[1..]);
      assert s == [s[0]] + s[1..];
    }
  }

  /** A space is written as %20, as in "A B" becoming "A%20B". */
  lemma EscapeSpace()
    ensures EscapeDataString("A B") == "A%20B"
  {
    assert EscapeChar(' ') == "%20";
    assert EscapeDataString("A B") == "A" + EscapeDataString(" B");
    assert EscapeDataString(" B") == "%20" + EscapeDataString("B");
  }
}
