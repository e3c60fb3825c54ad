/**
 * Percent-decoding as done by the link pass of `Feed::check` (urlencoding::decode): a `%`
 * followed by two hexadecimal digits, in either case, stands for the byte they spell, as in
 * section 2.1 of RFC 3986; any other `%` is kept literally. Bytes are modelled as characters
 * 0..255, so the UTF-8 reassembly of multi-byte characters is not part of this model.
 */
module PercentCoding {

  predicate IsHexDigit(c: char)
  {
    ('0' <= c <= '9') || ('a' <= c <= 'f') || ('A' <= c <= 'F')
  }

  function HexValue(c: char): (v: nat)
    requires IsHexDigit(c)
    ensures v < 16
  {
    if '0' <= c <= '9' then c as nat - '0' as nat
    else if 'a' <= c <= 'f' then c as nat - 'a' as nat + 10
    else c as nat - 'A' as nat + 10
  }

  /** Upper-case digit, as RFC 3986 recommends for producers. */
  function HexDigit(v: nat): (c: char)
    requires v < 16
    ensures IsHexDigit(c) && HexValue(c) == v
  {
    if v < 10 then ('0' as nat + v) as char else ('A' as nat + v - 10) as char
  }

  /** The decoded link: `%XX` becomes the byte 0xXX, everything else is copied. */
  function Decode(s: string): (r: string)
    ensures |r| <= |s|
    decreases |s|
  {
    if s == [] then []
    else if s[0] == '%' && |s| >= 3 && IsHexDigit(s[1]) && IsHexDigit(s[2]) then
      [(16 * HexValue(s[1]) + HexValue(s[2])) as char] + Decode(s[3..])
    else [s[0]] + Decode(s[1..])
  }

  /** Characters RFC 3986 calls unreserved (section 2.3): never escaped. */
  predicate IsUnreserved(c: char)
  {
    ('a' <= c <= 'z') || ('A' <= c <= 'Z') || ('0' <= c <= '9') || c == '-' || c == '.' || c == '_' || c == '~'
  }

  predicate IsByteString(s: string)
  {
    forall i :: 0 <= i < |s| ==> s[i] as int < 256
  }

  /** The encoder that Decode inverts: every byte that is not unreserved becomes `%XX`. */
  function Encode(s: string): (r: string)
    requires IsByteString(s)
    ensures |r| >= |s|
    decreases |s|
  {
    if s == [] then []
    else if IsUnreserved(s[0]) then [s[0]] + Encode(s[1..])
    else ['%', HexDigit(s[0] as int / 16), HexDigit(s[0] as int % 16)] + Encode(s[1..])
  }

  /** Decoding undoes encoding. */
  lemma {:induction false} DecodeEncode(s: string)
    requires IsByteString(s)
    ensures Decode(Encode(s)) == s
    decreases |s|
  {
    if s != [] {
      var e := Encode(s);
      var tail := Encode(s[1..]);
      DecodeEncode(s[1..]);
      if IsUnreserved(s[0]) {
        assert e == [s[0]] + tail && e[1..] == tail;
      } else {
        var b := s[0] as int;
        assert e == ['%', HexDigit(b / 16), HexDigit(b % 16)] + tail && e[3..] == tail;
        assert (16 * HexValue(e[1]) + HexValue(e[2])) == b;
      }
      assert s == [s[0]] + s[1..];
    }
  }

  /** A link without `%` is returned unchanged. */
  lemma {:induction false} DecodePlain(s: string)
    requires '%' !in s
    ensures Decode(s) == s
    decreases |s|
  {
    if s != [] {
      DecodePlain(s[1..]);
      assert s == [s[0]] + s[1..];
    }
  }

  /** Text before the first escape is copied, and the escape decodes to its byte. */
  lemma DecodeEscape(a: string, h: char, l: char, b: string)
    requires '%' !in a && IsHexDigit(h) && IsHexDigit(l)
    ensures Decode(a + ['%', h, l] + b) == a + [(16 * HexValue(h) + HexValue(l)) as char] + Decode(b)
    decreases |a|
  {
    var s := a + ['%', h, l] + b;
    if a == [] {
      assert s == ['%', h, l] + b && s[3..] == b;
    } else {
      assert s[0] == a[0] && s[1..] == a[1..] + ['%', h, l] + b;
      DecodeEscape(a[1..], h, l, b);
      assert a == [a[0]] + a[1..];
    }
  }

  /** "%20" is a space: "https://ex.com/a%20b" decodes to "https://ex.com/a b". */
  lemma DecodeSpace(a: string, b: string)
    requires '%' !in a
    ensures Decode(a + "%20" + b) == a + " " + Decode(b)
  {
    assert "%20" == ['%', '2', '0'];
    DecodeEscape(a, '2', '0', b);
    assert (16 * HexValue('2') + HexValue('0')) as char == ' ';
  }
}
