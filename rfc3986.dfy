/**
 * `rawurlencode` and its inverse `rawurldecode`: percent-encoding as in
 * sections 2.1 and 2.3 of RFC 3986. A PHP string is a byte string; here each
 * char of a string stands for one byte.
 */
module Rfc3986 {

  /** The unreserved characters of section 2.3 of RFC 3986, which
      rawurlencode leaves as they are. */
  predicate Unreserved(c: char) {
    || 'A' <= c <= 'Z' || 'a' <= c <= 'z' || '0' <= c <= '9'
    || c == '-' || c == '.' || c == '_' || c == '~'
  }

  /** Every char stands for a byte: the domain of PHP strings. */
  predicate IsByteString(s: string) {
    forall i :: 0 <= i < |s| ==> s[i] as int < 256
  }

  function HexDigit(d: nat): char
    requires d < 16
  {
    "0123456789ABCDEF"[d]
  }

  predicate IsHex(c: char) {
    '0' <= c <= '9' || 'A' <= c <= 'F' || 'a' <= c <= 'f'
  }

  function HexValue(c: char): (d: nat)
    requires IsHex(c)
    ensures d < 16
  {
    if '0' <= c <= '9' then c as int - '0' as int
    else if 'A' <= c <= 'F' then c as int - 'A' as int + 10
    else c as int - 'a' as int + 10
  }

  lemma HexDigitValue(d: nat)
    requires d < 16
    ensures IsHex(HexDigit(d)) && HexValue(HexDigit(d)) == d
  {
  }

  /** One byte: an unreserved character as it is, any other as '%' and two
      upper-case hex digits (a char above 255, which no PHP string holds,
      is encoded by its low byte). */
  function EncodeChar(c: char): string {
    if Unreserved(c) then [c]
    else
      var b := c as int % 256;
      ['%', HexDigit(b / 16), HexDigit(b % 16)]
  }

  /** `rawurlencode`: the result consists of unreserved characters and the
      '%' of percent-encoded bytes only; in particular it holds no '&'. */
  function RawUrlEncode(s: string): (r: string)
    ensures forall i :: 0 <= i < |r| ==> Unreserved(r[i]) || r[i] == '%'
  {
    if s == [] then "" else EncodeChar(s[0]) + RawUrlEncode(s[1..])
  }

  /** `rawurldecode`: '%' followed by two hex digits (either case) becomes
      that byte; every other char is kept. */
  function RawUrlDecode(s: string): string
    decreases |s|
  {
    if s == [] then ""
    else if |s| >= 3 && s[0] == '%' && IsHex(s[1]) && IsHex(s[2]) then
      [(16 * HexValue(s[1]) + HexValue(s[2])) as char] + RawUrlDecode(s[3..])
    else
      [s[0]] + RawUrlDecode(s[1..])
  }

  lemma DecodeEncodedChar(c: char, rest: string)
    requires c as int < 256
    ensures RawUrlDecode(EncodeChar(c) + rest) == [c] + RawUrlDecode(rest)
  {
    if Unreserved(c) {
      var e := [c] + rest;
      assert EncodeChar(c) + rest == e;
      assert e[0] == c && c != '%';
      assert e[1..] == rest;
      assert RawUrlDecode(e) == [c] + RawUrlDecode(rest);
    } else {
      var b := c as int % 256;
      assert b == c as int;
      assert EncodeChar(c) == ['%', HexDigit(b / 16), HexDigit(b % 16)];
      DecodePercentTriple(b, rest);
      assert b as char == c;
    }
  }

  lemma DecodePercentTriple(b: nat, rest: string)
    requires b < 256
    ensures RawUrlDecode(['%', HexDigit(b / 16), HexDigit(b % 16)] + rest) == [b as char] + RawUrlDecode(rest)
  {
    var hi, lo := b / 16, b % 16;
    var e := ['%', HexDigit(hi), HexDigit(lo)] + rest;
    HexDigitValue(hi);
    HexDigitValue(lo);
    assert e[0] == '%' && e[1] == HexDigit(hi) && e[2] == HexDigit(lo);
    assert e[3..] == rest;
    assert 16 * hi + lo == b;
  }

  /** rawurldecode undoes rawurlencode on every PHP string. */
  lemma {:induction false} DecodeInvertsEncode(s: string)
    requires IsByteString(s)
    ensures RawUrlDecode(RawUrlEncode(s)) == s
  {
    if s != [] {
      DecodeInvertsEncode(s[1..]);
      DecodeEncodedChar(s[0], RawUrlEncode(s[1..]));
      assert s == [s[0]] + s[1..];
    }
  }

  /** rawurlencode works byte by byte: encoding a concatenation is
      concatenating the encodings. */
  lemma {:induction false} EncodeDistributes(s: string, t: string)
    ensures RawUrlEncode(s + t) == RawUrlEncode(s) + RawUrlEncode(t)
  {
    if s != [] {
      EncodeDistributes(s[1..], t);
      assert (s + t)[0] == s[0] && (s + t)[1..] == s[1..] + t;
    } else {
      assert s + t == t;
    }
  }

  /** An unreserved character is kept as it is. */
  lemma UnreservedIsKept(c: char)
    requires Unreserved(c)
    ensures RawUrlEncode([c]) == [c]
  {
    assert [c][1..] == [];
  }

  predicate IsUpperHex(c: char) {
    '0' <= c <= '9' || 'A' <= c <= 'F'
  }

  /** Any other byte becomes '%' and two upper-case hex digits that denote
      it. */
  lemma OtherByteIsEscaped(c: char)
    requires c as int < 256 && !Unreserved(c)
    ensures var r := RawUrlEncode([c]);
      && |r| == 3 && r[0] == '%' && IsUpperHex(r[1]) && IsUpperHex(r[2])
      && 16 * HexValue(r[1]) + HexValue(r[2]) == c as int
  {
    var b := c as int % 256;
    assert b == c as int;
    assert RawUrlEncode([c]) == EncodeChar(c) + RawUrlEncode([]) by {
      assert [c][1..] == [];
    }
    assert EncodeChar(c) == ['%', HexDigit(b / 16), HexDigit(b % 16)];
    HexPair(b);
  }

  lemma HexPair(b: nat)
    requires b < 256
    ensures IsUpperHex(HexDigit(b / 16)) && IsUpperHex(HexDigit(b % 16))
    ensures 16 * HexValue(HexDigit(b / 16)) + HexValue(HexDigit(b % 16)) == b
  {
    var hi, lo := b / 16, b % 16;
    HexDigitValue(hi);
    HexDigitValue(lo);
    assert 16 * hi + lo == b;
  }

  /** A space anywhere in a value is encoded as "%20". */
  lemma SpaceAnywhereIsPercent20(s: string, t: string)
    ensures RawUrlEncode(s + " " + t) == RawUrlEncode(s) + "%20" + RawUrlEncode(t)
  {
    EncodeDistributes(s + " ", t);
    EncodeDistributes(s, " ");
    SpaceIsPercent20();
  }

  /** A space is encoded as "%20", never as '+'. */
  lemma SpaceIsPercent20()
    ensures RawUrlEncode(" ") == "%20"
    ensures RawUrlEncode("a b") == "a%20b"
  {
    assert " "[1..] == "";
    assert "a b"[1..] == " b";
    assert " b"[1..] == "b";
  }
}
