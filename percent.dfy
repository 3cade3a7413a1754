/**
 * Percent-encoding as HttpParameter.encode does it: java.net.URLEncoder
 * (the "web form" convention, over the UTF-8 bytes of the text) followed by
 * three fix-ups that turn it into the percent-encoding of section 2.1 of
 * RFC 3986 with the unreserved set of section 2.3 (the encoding section 3.6
 * of RFC 5849 prescribes).
 */
module PercentEncoding {
  import opened Common

  function HexDigit(n: int): (c: char)
    requires 0 <= n < 16
  {
    if n < 10 then ('0' as int + n) as char else ('A' as int + n - 10) as char
  }

  predicate IsUpperHex(c: char) {
    '0' <= c <= '9' || 'A' <= c <= 'F'
  }

  function HexValue(c: char): (n: int)
    requires IsUpperHex(c)
    ensures 0 <= n < 16 && HexDigit(n) == c
  {
    if c <= '9' then c as int - '0' as int else c as int - 'A' as int + 10
  }

  function Triplet(b: byte): string {
    ['%', HexDigit(b / 16), HexDigit(b % 16)]
  }

  predicate IsAlphaNum(b: int) {
    'a' as int <= b <= 'z' as int || 'A' as int <= b <= 'Z' as int || '0' as int <= b <= '9' as int
  }

  /** Bytes java.net.URLEncoder leaves as they are: a-z A-Z 0-9 . - * _ */
  predicate UrlEncoderSafe(b: int) {
    IsAlphaNum(b) || b == '.' as int || b == '-' as int || b == '*' as int || b == '_' as int
  }

  /** The unreserved characters of section 2.3 of RFC 3986: ALPHA DIGIT - . _ ~ */
  predicate Unreserved(b: int) {
    IsAlphaNum(b) || b == '-' as int || b == '.' as int || b == '_' as int || b == '~' as int
  }

  /** What URLEncoder.encode emits for one UTF-8 byte. */
  function UrlEncoderByte(b: byte): string {
    if UrlEncoderSafe(b) then [b as char]
    else if b == ' ' as int then "+"
    else Triplet(b)
  }

  /**
   * URLEncoder.encode(s, "UTF-8") stated over the UTF-8 bytes of s; the
   * library calls it as a foreign routine, so this is its specification.
   */
  function UrlEncoder(bytes: seq<byte>): string {
    if bytes == [] then [] else UrlEncoderByte(bytes[0]) + UrlEncoder(bytes[1..])
  }

  /** HttpClientImpl.encode: the plain URLEncoder call. */
  function UrlEncode(s: string): string {
    UrlEncoder(Utf8(s))
  }

  /** Percent-encoding of one byte under RFC 3986: unreserved bytes literal, all others %XY. */
  function PercentByte(b: byte): string {
    if Unreserved(b) then [b as char] else Triplet(b)
  }

  /** The intended encoding, defined directly from RFC 3986. */
  function PercentEncode(bytes: seq<byte>): string {
    if bytes == [] then [] else PercentByte(bytes[0]) + PercentEncode(bytes[1..])
  }

  /** Every '%' begins a full %XY triplet: the shape of URLEncoder's output. */
  predicate WellFormedTriplets(e: string) {
    forall k :: 0 <= k < |e| && e[k] == '%' ==> k + 2 < |e|
  }

  /**
   * The fix-up pass of HttpParameter.encode as a function: '*' to "%2A",
   * '+' to "%20", "%7E" to '~', everything else copied.
   */
  function FixUp(e: string): string {
    if e == [] then []
    else if e[0] == '*' then "%2A" + FixUp(e[1..])
    else if e[0] == '+' then "%20" + FixUp(e[1..])
    else if e[0] == '%' && 2 < |e| && e[1] == '7' && e[2] == 'E' then "~" + FixUp(e[3..])
    else [e[0]] + FixUp(e[1..])
  }

  /** One step of the fix-up pass at position i. */
  lemma FixUpAt(e: string, i: nat)
    requires i < |e|
    ensures e[i] == '*' ==> FixUp(e[i..]) == "%2A" + FixUp(e[i + 1..])
    ensures e[i] == '+' ==> FixUp(e[i..]) == "%20" + FixUp(e[i + 1..])
    ensures e[i] == '%' && i + 2 < |e| && e[i + 1] == '7' && e[i + 2] == 'E' ==>
      FixUp(e[i..]) == "~" + FixUp(e[i + 3..])
    ensures e[i] != '*' && e[i] != '+' && !(e[i] == '%' && i + 2 < |e| && e[i + 1] == '7' && e[i + 2] == 'E') ==>
      FixUp(e[i..]) == [e[i]] + FixUp(e[i + 1..])
  {
    var rest := e[i..];
    assert rest[0] == e[i] && rest[1..] == e[i + 1..];
    if i + 2 < |e| {
      assert rest[1] == e[i + 1] && rest[2] == e[i + 2] && rest[3..] == e[i + 3..];
    }
  }

  /** The fix-up loop of HttpParameter.encode, which skips ahead by two after "%7E". */
  method FixUpLoop(encoded: string) returns (r: string)
    requires WellFormedTriplets(encoded)
    ensures r == FixUp(encoded)
  {
    var buf := "";
    var i := 0;
    while i < |encoded|
      invariant 0 <= i <= |encoded|
      invariant buf + FixUp(encoded[i..]) == FixUp(encoded)
    {
      FixUpAt(encoded, i);
      var focus := encoded[i];
      ghost var before, start := buf, i;
      var piece: string;
      if focus == '*' {
        piece := "%2A";
      } else if focus == '+' {
        piece := "%20";
      } else if focus == '%' && i + 1 < |encoded| && encoded[i + 1] == '7' && encoded[i + 2] == 'E' {
        piece := "~";
        i := i + 2;
      } else {
        piece := [focus];
      }
      i := i + 1;
      assert FixUp(encoded[start..]) == piece + FixUp(encoded[i..]);
      buf := buf + piece;
      assert before + (piece + FixUp(encoded[i..])) == buf + FixUp(encoded[i..]);
    }
    r := buf;
  }

  lemma {:induction false} WellFormedAppend(a: string, b: string)
    requires WellFormedTriplets(a) && WellFormedTriplets(b)
    ensures WellFormedTriplets(a + b)
  {
    forall k | 0 <= k < |a + b| && (a + b)[k] == '%' ensures k + 2 < |a + b| {
      if k >= |a| {
        assert b[k - |a|] == '%';
      }
    }
  }

  lemma {:induction false} UrlEncoderWellFormed(bytes: seq<byte>)
    ensures WellFormedTriplets(UrlEncoder(bytes))
  {
    if bytes != [] {
      UrlEncoderWellFormed(bytes[1..]);
      WellFormedAppend(UrlEncoderByte(bytes[0]), UrlEncoder(bytes[1..]));
    }
  }

  lemma HexDigitNotSpecial(n: int)
    requires 0 <= n < 16
    ensures HexDigit(n) != '*' && HexDigit(n) != '+' && HexDigit(n) != '%'
    ensures IsUpperHex(HexDigit(n))
  {
  }

  /** The fix-ups turn URLEncoder's rendering of one byte into its RFC 3986 rendering. */
  lemma FixUpByte(b: byte, rest: string)
    ensures FixUp(UrlEncoderByte(b) + rest) == PercentByte(b) + FixUp(rest)
  {
    var chunk := UrlEncoderByte(b);
    var e := chunk + rest;
    if UrlEncoderSafe(b) {
      assert e[0] == b as char && e[1..] == rest;
    } else if b == ' ' as int {
      assert e[0] == '+' && e[1..] == rest;
    } else {
      var hi, lo := b / 16, b % 16;
      HexDigitNotSpecial(hi);
      HexDigitNotSpecial(lo);
      assert e[0] == '%' && e[1] == HexDigit(hi) && e[2] == HexDigit(lo);
      if b == 0x7E {
        assert e[3..] == rest;
      } else {
        assert !(HexDigit(hi) == '7' && HexDigit(lo) == 'E');
        var e1 := e[1..];
        assert e1 == [HexDigit(hi), HexDigit(lo)] + rest;
        var e2 := e1[1..];
        assert e2 == [HexDigit(lo)] + rest;
        assert e2[0] == HexDigit(lo) && e2[1..] == rest;
        assert FixUp(e2) == [HexDigit(lo)] + FixUp(rest);
        assert e1[0] == HexDigit(hi);
        assert FixUp(e1) == [HexDigit(hi)] + FixUp(e2);
        assert FixUp(e) == ['%'] + FixUp(e1);
      }
    }
  }

  /** The fix-up pass applied to URLEncoder's output is exactly RFC 3986 percent-encoding. */
  lemma {:induction false} FixUpUrlEncoder(bytes: seq<byte>)
    ensures FixUp(UrlEncoder(bytes)) == PercentEncode(bytes)
  {
    if bytes != [] {
      FixUpByte(bytes[0], UrlEncoder(bytes[1..]));
      FixUpUrlEncoder(bytes[1..]);
    }
  }

  /** HttpParameter.encode: URLEncoder, then the fix-up loop; the result is RFC 3986 percent-encoding of the UTF-8 bytes. */
  method Encode(value: string) returns (r: string)
    ensures r == PercentEncode(Utf8(value))
  {
    var encoded := UrlEncode(value);
    UrlEncoderWellFormed(Utf8(value));
    r := FixUpLoop(encoded);
    FixUpUrlEncoder(Utf8(value));
  }

  /** HttpParameter.encode and HttpClientImpl.encode differ only by the fix-ups. */
  lemma EncodeVersusUrlEncode(s: string)
    ensures FixUp(UrlEncode(s)) == PercentEncode(Utf8(s))
  {
    FixUpUrlEncoder(Utf8(s));
  }

  /** Characters that can appear in an encoded string. */
  predicate EncodedChar(c: char) {
    Unreserved(c as int) || c == '%' || IsUpperHex(c)
  }

  /** The output alphabet: unreserved characters, '%' and upper-case hex digits only; in particular no '&', '=', '+', '*' or space. */
  lemma {:induction false} PercentEncodeAlphabet(bytes: seq<byte>)
    ensures forall i :: 0 <= i < |PercentEncode(bytes)| ==> EncodedChar(PercentEncode(bytes)[i])
    ensures '&' !in PercentEncode(bytes) && '=' !in PercentEncode(bytes)
    ensures '+' !in PercentEncode(bytes) && '*' !in PercentEncode(bytes) && ' ' !in PercentEncode(bytes)
    ensures IsAscii(PercentEncode(bytes))
  {
    if bytes != [] {
      PercentEncodeAlphabet(bytes[1..]);
      var head, tail := PercentByte(bytes[0]), PercentEncode(bytes[1..]);
      HexDigitNotSpecial(bytes[0] / 16);
      HexDigitNotSpecial(bytes[0] % 16);
      assert forall i :: 0 <= i < |head| ==> EncodedChar(head[i]);
      forall i | 0 <= i < |head + tail| ensures EncodedChar((head + tail)[i]) {
        if i >= |head| {
          assert (head + tail)[i] == tail[i - |head|];
        }
      }
    }
  }

  /** Percent-decoding: %XY gives a byte, an unreserved character gives itself, anything else is malformed. */
  function PercentDecode(s: string): Option<seq<byte>>
  {
    if s == [] then Some([])
    else if s[0] == '%' then
      if 3 <= |s| && IsUpperHex(s[1]) && IsUpperHex(s[2]) then
        match PercentDecode(s[3..])
        case Some(rest) => Some([HexValue(s[1]) * 16 + HexValue(s[2])] + rest)
        case None => None
      else None
    else if Unreserved(s[0] as int) && s[0] as int < 256 then
      match PercentDecode(s[1..])
      case Some(rest) => Some([s[0] as int] + rest)
      case None => None
    else None
  }

  /** Decoding the output of the encoder gives back the bytes: nothing is lost or ambiguous. */
  lemma {:induction false} PercentRoundTrip(bytes: seq<byte>)
    ensures PercentDecode(PercentEncode(bytes)) == Some(bytes)
  {
    if bytes != [] {
      var b := bytes[0];
      var s := PercentEncode(bytes);
      PercentRoundTrip(bytes[1..]);
      if Unreserved(b) {
        assert s[0] == b as char && s[1..] == PercentEncode(bytes[1..]);
      } else {
        HexDigitNotSpecial(b / 16);
        HexDigitNotSpecial(b % 16);
        assert s[0] == '%' && s[1] == HexDigit(b / 16) && s[2] == HexDigit(b % 16);
        assert s[3..] == PercentEncode(bytes[1..]);
        assert HexValue(s[1]) == b / 16 && HexValue(s[2]) == b % 16;
      }
      assert bytes == [b] + bytes[1..];
    }
  }

  /** Percent-encoding distributes over concatenation: it works byte by byte. */
  lemma {:induction false} PercentEncodeAppend(a: seq<byte>, b: seq<byte>)
    ensures PercentEncode(a + b) == PercentEncode(a) + PercentEncode(b)
  {
    if a == [] {
      assert a + b == b;
    } else {
      assert (a + b)[0] == a[0] && (a + b)[1..] == a[1..] + b;
      PercentEncodeAppend(a[1..], b);
    }
  }

  lemma PercentEncodeSingle(b: byte)
    ensures PercentEncode([b]) == PercentByte(b)
  {
    assert [b][1..] == [];
  }

  /** The worked example: space is %20 (never '+'), '*' is %2A, '~' stays literal. */
  lemma EncodeExample()
    ensures PercentEncode(Utf8(" *~")) == "%20%2A~"
  {
    Utf8Example();
    EncodeBytesExample();
  }

  lemma Utf8Example()
    ensures Utf8(" *~") == [32, 42, 126]
  {
    Utf8Ascii(" *~");
  }

  lemma EncodeBytesExample()
    ensures PercentEncode([32, 42, 126]) == "%20%2A~"
  {
    PercentEncodeSingle(32);
    PercentEncodeSingle(42);
    PercentEncodeSingle(126);
    var bytes: seq<byte> := [32, 42, 126];
    assert bytes == [32] + [42] + [126];
    PercentEncodeAppend([32], [42]);
    PercentEncodeAppend([32, 42], [126]);
  }
}
