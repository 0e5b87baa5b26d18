/** URLEncode: percent-encoding of the upload form fields. A byte that is an
    ASCII letter or digit, or one of '-', '_', '.', '~' (the unreserved
    characters of section 2.3 of RFC 3986) is kept as it is; every other
    byte becomes '%' and two upper-case hexadecimal digits (section 2.1 of
    RFC 3986). The string is taken as its bytes, `(unsigned char)i`. */
module UrlEncode {
  import opened Types

  /** `isalnum(i) || i == '-' || i == '_' || i == '.' || i == '~'`, with
      isalnum in the "C" locale. */
  predicate Unreserved(b: byte)
  {
    ('0' as int <= b <= '9' as int) || ('A' as int <= b <= 'Z' as int) || ('a' as int <= b <= 'z' as int) ||
    b == '-' as int || b == '_' as int || b == '.' as int || b == '~' as int
  }

  /** An upper-case hexadecimal digit (`std::hex` with `std::uppercase`). */
  function HexDigit(d: int): (c: char)
    requires 0 <= d < 16
  {
    if d < 10 then ('0' as int + d) as char else ('A' as int + d - 10) as char
  }

  predicate UpperHex(c: char)
  {
    '0' <= c <= '9' || 'A' <= c <= 'F'
  }

  /** The characters the encoder can emit. */
  predicate OutputChar(c: char)
  {
    c == '%' || UpperHex(c) || (c as int < 0x100 && Unreserved(c as int))
  }

  /** The value of a hexadecimal digit; -1 for any other character. */
  function HexValue(c: char): (d: int)
    ensures -1 <= d < 16
  {
    if '0' <= c <= '9' then c as int - '0' as int
    else if 'A' <= c <= 'F' then c as int - 'A' as int + 10
    else if 'a' <= c <= 'f' then c as int - 'a' as int + 10
    else -1
  }

  lemma HexDigitValue(d: int)
    requires 0 <= d < 16
    ensures HexValue(HexDigit(d)) == d
    ensures UpperHex(HexDigit(d))
  {
  }

  /** What one byte becomes: itself, or `%` and `setw(2)` with fill '0'. */
  function Escape(b: byte): seq<char>
  {
    if Unreserved(b) then [b as char] else ['%', HexDigit(b / 16), HexDigit(b % 16)]
  }

  /** The whole encoded string. */
  function Encoded(s: seq<byte>): seq<char>
  {
    if s == [] then [] else Escape(s[0]) + Encoded(s[1..])
  }

  /** The number of bytes that are escaped. */
  function EscapedCount(s: seq<byte>): (n: nat)
    ensures n <= |s|
  {
    if s == [] then 0 else (if Unreserved(s[0]) then 0 else 1) + EscapedCount(s[1..])
  }

  /** Encoding works byte by byte. */
  lemma {:induction false} EncodedAppend(a: seq<byte>, b: seq<byte>)
    ensures Encoded(a + b) == Encoded(a) + Encoded(b)
  {
    if a == [] {
      assert a + b == b;
    } else {
      assert (a + b)[0] == a[0];
      assert (a + b)[1..] == a[1..] + b;
      EncodedAppend(a[1..], b);
    }
  }

  /** The output is two characters longer per escaped byte. */
  lemma {:induction false} EncodedLength(s: seq<byte>)
    ensures |Encoded(s)| == |s| + 2 * EscapedCount(s)
  {
    if s != [] {
      EncodedLength(s[1..]);
    }
  }

  /** Every output character is unreserved, '%' or an upper-case
      hexadecimal digit. */
  lemma {:induction false} EncodedAlphabet(s: seq<byte>)
    ensures forall k :: 0 <= k < |Encoded(s)| ==> OutputChar(Encoded(s)[k])
  {
    if s != [] {
      EncodedAlphabet(s[1..]);
      var b := s[0];
      if !Unreserved(b) {
        HexDigitValue(b / 16);
        HexDigitValue(b % 16);
      }
      var e := Escape(b);
      var r := Encoded(s[1..]);
      assert Encoded(s) == e + r;
      forall k | 0 <= k < |Encoded(s)|
        ensures OutputChar(Encoded(s)[k])
      {
        if k >= |e| {
          assert Encoded(s)[k] == r[k - |e|];
        }
      }
    }
  }

  /** A string of unreserved bytes comes out unchanged. */
  lemma {:induction false} EncodedUnreserved(s: seq<byte>)
    requires forall k :: 0 <= k < |s| ==> Unreserved(s[k])
    ensures Encoded(s) == seq(|s|, k requires 0 <= k < |s| => s[k] as char)
    ensures EscapedCount(s) == 0
  {
    if s != [] {
      EncodedUnreserved(s[1..]);
    }
  }

  /** Percent-decoding: '%' and two hexadecimal digits give one byte, any
      other character gives itself. */
  function Decoded(t: seq<char>): seq<int>
  {
    if t == [] then []
    else if t[0] == '%' && |t| >= 3 && HexValue(t[1]) >= 0 && HexValue(t[2]) >= 0 then
      [HexValue(t[1]) * 16 + HexValue(t[2])] + Decoded(t[3..])
    else [t[0] as int] + Decoded(t[1..])
  }

  /** Decoding undoes the encoding, so distinct strings encode differently. */
  lemma {:induction false} DecodedEncoded(s: seq<byte>)
    ensures Decoded(Encoded(s)) == s
  {
    if s != [] {
      var b := s[0];
      var r := Encoded(s[1..]);
      DecodedEncoded(s[1..]);
      if Unreserved(b) {
        assert Encoded(s) == [b as char] + r;
        assert (Encoded(s))[1..] == r;
      } else {
        HexDigitValue(b / 16);
        HexDigitValue(b % 16);
        assert Encoded(s) == ['%', HexDigit(b / 16), HexDigit(b % 16)] + r;
        assert (Encoded(s))[3..] == r;
      }
    }
  }

  /** URLEncode: one pass over the bytes, appending each one's encoding. */
  method URLEncode(value: seq<byte>) returns (escaped: string)
    ensures escaped == Encoded(value)
  {
    escaped := [];
    for i := 0 to |value|
      invariant escaped == Encoded(value[..i])
    {
      var b := value[i];
      EncodedAppend(value[..i], [b]);
      assert value[..i + 1] == value[..i] + [b];
      assert Encoded([b]) == Escape(b) + Encoded([]);
      if Unreserved(b) {
        escaped := escaped + [b as char];
        continue;
      }
      escaped := escaped + ['%', HexDigit(b / 16), HexDigit(b % 16)];
    }
    assert value[..|value|] == value;
  }
}
