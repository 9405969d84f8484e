/**
 * The two encodings the synchroniser converts between: hexadecimal text
 * (`bytes.fromhex`, the form of an MD5 E-Tag) and Base64 with padding
 * (`base64.b64encode`, the alphabet of section 4 of RFC 4648, the form of
 * a Content-MD5 header).
 */
module Codec {
  import opened Wrappers
  import opened Text

  type byte = x: int | 0 <= x < 256

  // ---------------------------------------------------------------------
  // Hexadecimal
  // ---------------------------------------------------------------------

  /** The characters `bytes.fromhex` skips before a pair of digits. */
  predicate IsSpace(c: char) {
    c == ' ' || c == '\t' || c == '\n' || c == '\r' || c == '\U{B}' || c == '\U{C}'
  }

  function HexValue(c: char): (r: Option<int>)
    ensures r.Some? ==> 0 <= r.value < 16
  {
    if '0' <= c <= '9' then Some(c as int - '0' as int)
    else if 'a' <= c <= 'f' then Some(c as int - 'a' as int + 10)
    else if 'A' <= c <= 'F' then Some(c as int - 'A' as int + 10)
    else None
  }

  function HexDigit(v: int): (c: char)
    requires 0 <= v < 16
    ensures HexValue(c) == Some(v)
    ensures LowerChar(c) == c && !IsSpace(c)
  {
    if v < 10 then ('0' as int + v) as char else ('a' as int + v - 10) as char
  }

  /** The lower-case hexadecimal text of some bytes, two digits per byte. */
  function ToHex(b: seq<byte>): (s: string)
    ensures |s| == 2 * |b|
    ensures forall i :: 0 <= i < |s| ==> HexValue(s[i]).Some? && LowerChar(s[i]) == s[i]
  {
    if b == [] then [] else [HexDigit(b[0] / 16), HexDigit(b[0] % 16)] + ToHex(b[1..])
  }

  /**
   * `bytes.fromhex`: white space may come before each pair of digits, a
   * pair must be two hexadecimal digits; anything else raises ValueError
   * (here None).
   */
  function FromHex(s: string): Option<seq<byte>>
    decreases |s|
  {
    if s == [] then Some([])
    else if IsSpace(s[0]) then FromHex(s[1..])
    else if |s| < 2 then None
    else
      match (HexPair(s[0], s[1]), FromHex(s[2..]))
      case (Some(x), Some(rest)) => Some([x] + rest)
      case _ => None
  }

  /** The byte of two hexadecimal digits, high digit first. */
  function HexPair(c0: char, c1: char): (r: Option<byte>)
    ensures r.Some? <==> HexValue(c0).Some? && HexValue(c1).Some?
  {
    match (HexValue(c0), HexValue(c1))
    case (Some(hi), Some(lo)) => Some(hi * 16 + lo)
    case _ => None
  }

  /** Decoding the hexadecimal text of some bytes gives those bytes back. */
  lemma {:induction false} FromHexToHex(b: seq<byte>)
    ensures FromHex(ToHex(b)) == Some(b)
  {
    if b != [] {
      FromHexToHex(b[1..]);
      var s := ToHex(b);
      var hi, lo := b[0] / 16, b[0] % 16;
      assert s[0] == HexDigit(hi) && s[1] == HexDigit(lo) && s[2..] == ToHex(b[1..]);
      assert !IsSpace(s[0]) && HexValue(s[0]) == Some(hi) && HexValue(s[1]) == Some(lo);
      assert HexPair(s[0], s[1]) == Some(b[0]);
      assert b == [b[0]] + b[1..];
    }
  }

  /** `bytes.fromhex` does not care about the case of the digits. */
  lemma {:induction false} FromHexIgnoresCase(s: string)
    ensures FromHex(Lower(s)) == FromHex(s)
    decreases |s|
  {
    if s != [] {
      var t := Lower(s);
      HexValueLower(s[0]);
      LowerDrop(s, 1);
      FromHexIgnoresCase(s[1..]);
      if |s| >= 2 {
        HexValueLower(s[1]);
        LowerDrop(s, 2);
        FromHexIgnoresCase(s[2..]);
      }
      FromHexStep(s, t);
    }
  }

  /** Two texts whose first two characters and whose tails decode alike decode alike. */
  lemma FromHexStep(s: string, t: string)
    requires |s| == |t| > 0
    requires IsSpace(t[0]) == IsSpace(s[0]) && HexValue(t[0]) == HexValue(s[0])
    requires FromHex(t[1..]) == FromHex(s[1..])
    requires |s| >= 2 ==> HexPair(t[0], t[1]) == HexPair(s[0], s[1]) && FromHex(t[2..]) == FromHex(s[2..])
    ensures FromHex(t) == FromHex(s)
  {
  }

  lemma HexValueLower(c: char)
    ensures HexValue(LowerChar(c)) == HexValue(c)
  {
  }

  /** Without white space, every two characters give one byte. */
  lemma {:induction false} FromHexLength(s: string)
    requires forall i :: 0 <= i < |s| ==> !IsSpace(s[i])
    requires FromHex(s).Some?
    ensures 2 * |FromHex(s).value| == |s|
    decreases |s|
  {
    if s != [] {
      FromHexLength(s[2..]);
    }
  }

  // ---------------------------------------------------------------------
  // Base64 (section 4 of RFC 4648)
  // ---------------------------------------------------------------------

  /** The character of a six-bit value. */
  function B64Char(v: int): (c: char)
    requires 0 <= v < 64
    ensures c != '='
  {
    if v < 26 then ('A' as int + v) as char
    else if v < 52 then ('a' as int + v - 26) as char
    else if v < 62 then ('0' as int + v - 52) as char
    else if v == 62 then '+'
    else '/'
  }

  /** The six-bit value of a character of the alphabet. */
  function B64Value(c: char): (r: Option<int>)
    ensures r.Some? ==> 0 <= r.value < 64
  {
    if 'A' <= c <= 'Z' then Some(c as int - 'A' as int)
    else if 'a' <= c <= 'z' then Some(c as int - 'a' as int + 26)
    else if '0' <= c <= '9' then Some(c as int - '0' as int + 52)
    else if c == '+' then Some(62)
    else if c == '/' then Some(63)
    else None
  }

  lemma B64ValueChar(v: int)
    requires 0 <= v < 64
    ensures B64Value(B64Char(v)) == Some(v)
  {
  }

  /** The four six-bit values of three bytes, most significant bits first. */
  function Sextets(b0: byte, b1: byte, b2: byte): (r: (int, int, int, int))
    ensures 0 <= r.0 < 64 && 0 <= r.1 < 64 && 0 <= r.2 < 64 && 0 <= r.3 < 64
  {
    (b0 / 4, b0 % 4 * 16 + b1 / 16, b1 % 16 * 4 + b2 / 64, b2 % 64)
  }

  /** The three bytes packed in four six-bit values. */
  function Octets(c0: int, c1: int, c2: int, c3: int): (int, int, int) {
    (c0 * 4 + c1 / 16, c1 % 16 * 16 + c2 / 4, c2 % 4 * 64 + c3)
  }

  /** The four characters of a group of three bytes, the last `pad` of them `=`. */
  function Quad(b0: byte, b1: byte, b2: byte, pad: int): (s: string)
    requires 0 <= pad <= 2
    ensures |s| == 4 && s[0] != '=' && s[1] != '='
    ensures s[2] == '=' <==> pad == 2
    ensures s[3] == '=' <==> pad >= 1
  {
    var c := Sextets(b0, b1, b2);
    [B64Char(c.0), B64Char(c.1), if pad == 2 then '=' else B64Char(c.2), if pad >= 1 then '=' else B64Char(c.3)]
  }

  /** `base64.b64encode`: three bytes become four characters, a short tail is padded with `=`. */
  function Base64Encode(b: seq<byte>): (s: string)
    ensures |s| == 4 * ((|b| + 2) / 3)
    decreases |b|
  {
    if |b| == 0 then []
    else if |b| == 1 then Quad(b[0], 0, 0, 2)
    else if |b| == 2 then Quad(b[0], b[1], 0, 1)
    else Quad(b[0], b[1], b[2], 0) + Base64Encode(b[3..])
  }

  /**
   * The inverse of `Base64Encode`: groups of four characters, `=` only as
   * padding of the last group.
   */
  function Base64Decode(s: string): Option<seq<byte>>
    decreases |s|
  {
    if s == [] then Some([])
    else if |s| < 4 then None
    else
      match (B64Value(s[0]), B64Value(s[1]), B64Value(s[2]), B64Value(s[3]))
      case (Some(c0), Some(c1), None, None) =>
        if |s| == 4 && s[2] == '=' && s[3] == '=' then Some([Octets(c0, c1, 0, 0).0]) else None
      case (Some(c0), Some(c1), Some(c2), None) =>
        if |s| == 4 && s[3] == '=' then
          var o := Octets(c0, c1, c2, 0); Some([o.0, o.1])
        else None
      case (Some(c0), Some(c1), Some(c2), Some(c3)) =>
        (match Base64Decode(s[4..])
         case Some(rest) => var o := Octets(c0, c1, c2, c3); Some([o.0, o.1, o.2] + rest)
         case None => None)
      case _ => None
  }

  /** `x == q * 16 + r` with `0 <= r < 16` fixes the quotient and the remainder. */
  lemma DivMod16(x: int, q: int, r: int)
    requires 0 <= r < 16 && x == q * 16 + r
    ensures x / 16 == q && x % 16 == r
  {
  }

  /** `x == q * 4 + r` with `0 <= r < 4` fixes the quotient and the remainder. */
  lemma DivMod4(x: int, q: int, r: int)
    requires 0 <= r < 4 && x == q * 4 + r
    ensures x / 4 == q && x % 4 == r
  {
  }

  /** The four six-bit values of three bytes give the three bytes back. */
  lemma DecodeGroup(b0: byte, b1: byte, b2: byte)
    ensures var c := Sextets(b0, b1, b2); Octets(c.0, c.1, c.2, c.3) == (b0 as int, b1 as int, b2 as int)
  {
    var c := Sextets(b0, b1, b2);
    DivMod16(c.1, b0 % 4, b1 / 16);
    DivMod4(c.2, b1 % 16, b2 / 64);
  }

  /** Decoding the Base64 text of some bytes gives those bytes back. */
  lemma {:induction false} Base64RoundTrip(b: seq<byte>)
    ensures Base64Decode(Base64Encode(b)) == Some(b)
    decreases |b|
  {
    if |b| == 1 {
      DecodeOne(b);
    } else if |b| == 2 {
      DecodeTwo(b);
    } else if |b| >= 3 {
      Base64RoundTrip(b[3..]);
      DecodeGroups(b);
    }
  }

  /** The characters of a group carry the six-bit values of its bytes. */
  lemma QuadValues(b0: byte, b1: byte, b2: byte, pad: int)
    requires 0 <= pad <= 2
    ensures var q, c := Quad(b0, b1, b2, pad), Sextets(b0, b1, b2);
      && B64Value(q[0]) == Some(c.0) && B64Value(q[1]) == Some(c.1)
      && (pad < 2 ==> B64Value(q[2]) == Some(c.2))
      && (pad < 1 ==> B64Value(q[3]) == Some(c.3))
  {
    var c := Sextets(b0, b1, b2);
    B64ValueChar(c.0);
    B64ValueChar(c.1);
    B64ValueChar(c.2);
    B64ValueChar(c.3);
  }

  lemma DecodeOne(b: seq<byte>)
    requires |b| == 1
    ensures Base64Decode(Base64Encode(b)) == Some(b)
  {
    var b0 := b[0];
    assert b == [b0];
    var q, c := Quad(b0, 0, 0, 2), Sextets(b0, 0, 0);
    QuadValues(b0, 0, 0, 2);
    DecodeGroup(b0, 0, 0);
    DecodeLast1(q, c.0, c.1);
  }

  lemma DecodeTwo(b: seq<byte>)
    requires |b| == 2
    ensures Base64Decode(Base64Encode(b)) == Some(b)
  {
    var b0, b1 := b[0], b[1];
    assert b == [b0, b1];
    var q, c := Quad(b0, b1, 0, 1), Sextets(b0, b1, 0);
    QuadValues(b0, b1, 0, 1);
    DecodeGroup(b0, b1, 0);
    DecodeLast2(q, c.0, c.1, c.2);
  }

  lemma DecodeGroups(b: seq<byte>)
    requires |b| >= 3 && Base64Decode(Base64Encode(b[3..])) == Some(b[3..])
    ensures Base64Decode(Base64Encode(b)) == Some(b)
  {
    EncodeGroup(b);
    Head3(b);
    DecodeThree(b[0], b[1], b[2], Base64Encode(b[3..]), b[3..]);
  }

  lemma EncodeGroup(b: seq<byte>)
    requires |b| >= 3
    ensures Base64Encode(b) == Quad(b[0], b[1], b[2], 0) + Base64Encode(b[3..])
  {
  }

  lemma Head3<T>(b: seq<T>)
    requires |b| >= 3
    ensures b == [b[0], b[1], b[2]] + b[3..]
  {
  }

  lemma DecodeThree(b0: byte, b1: byte, b2: byte, t: string, rest: seq<byte>)
    requires Base64Decode(t) == Some(rest)
    ensures Base64Decode(Quad(b0, b1, b2, 0) + t) == Some([b0, b1, b2] + rest)
  {
    var q, c := Quad(b0, b1, b2, 0), Sextets(b0, b1, b2);
    QuadValues(b0, b1, b2, 0);
    DecodeGroup(b0, b1, b2);
    DecodeFull(q, t, c.0, c.1, c.2, c.3, rest);
  }

  lemma DecodeLast1(s: string, c0: int, c1: int)
    requires |s| == 4 && s[2] == '=' && s[3] == '='
    requires B64Value(s[0]) == Some(c0) && B64Value(s[1]) == Some(c1)
    ensures Base64Decode(s) == Some([Octets(c0, c1, 0, 0).0])
  {
  }

  lemma DecodeLast2(s: string, c0: int, c1: int, c2: int)
    requires |s| == 4 && s[3] == '='
    requires B64Value(s[0]) == Some(c0) && B64Value(s[1]) == Some(c1) && B64Value(s[2]) == Some(c2)
    ensures var o := Octets(c0, c1, c2, 0); Base64Decode(s) == Some([o.0, o.1])
  {
  }

  lemma DecodeFull(q: string, t: string, c0: int, c1: int, c2: int, c3: int, rest: seq<byte>)
    requires |q| == 4 && Base64Decode(t) == Some(rest)
    requires B64Value(q[0]) == Some(c0) && B64Value(q[1]) == Some(c1)
    requires B64Value(q[2]) == Some(c2) && B64Value(q[3]) == Some(c3)
    ensures var o := Octets(c0, c1, c2, c3); Base64Decode(q + t) == Some([o.0, o.1, o.2] + rest)
  {
    var s := q + t;
    assert s[0] == q[0] && s[1] == q[1] && s[2] == q[2] && s[3] == q[3] && s[4..] == t;
  }

  /** Different bytes never share a Base64 text. */
  lemma Base64Injective(a: seq<byte>, b: seq<byte>)
    requires Base64Encode(a) == Base64Encode(b)
    ensures a == b
  {
    Base64RoundTrip(a);
    Base64RoundTrip(b);
  }

  /** The text of a 16-byte digest is 24 characters, the last two `=`. */
  lemma Base64OfDigest(d: seq<byte>)
    requires |d| == 16
    ensures var s := Base64Encode(d); |s| == 24 && s[22] == '=' && s[23] == '='
    ensures forall i :: 0 <= i < 22 ==> Base64Encode(d)[i] != '='
  {
    Base64Split(d, 15);
    NoPadding(d[..15]);
  }

  /** A whole number of groups is encoded without padding. */
  lemma {:induction false} NoPadding(b: seq<byte>)
    requires |b| % 3 == 0
    ensures forall i :: 0 <= i < |Base64Encode(b)| ==> Base64Encode(b)[i] != '='
    decreases |b|
  {
    if b != [] {
      NoPadding(b[3..]);
    }
  }

  /** Encoding a whole number of groups, then the rest, is encoding everything. */
  lemma {:induction false} Base64Split(b: seq<byte>, n: int)
    requires 0 <= n <= |b| && n % 3 == 0
    ensures Base64Encode(b) == Base64Encode(b[..n]) + Base64Encode(b[n..])
    decreases n
  {
    if n > 0 {
      GroupSlices(b, n);
      Base64Split(b[3..], n - 3);
      EncodeFirstGroup(b);
      EncodeFirstGroup(b[..n]);
      AppendGroup(Base64Encode(b[..3]), Base64Encode(b[..n][3..]), Base64Encode(b[n..]));
    } else {
      assert b[..0] == [] && b[0..] == b;
    }
  }

  lemma GroupSlices(b: seq<byte>, n: int)
    requires 3 <= n <= |b|
    ensures b[3..][..n - 3] == b[..n][3..] && b[3..][n - 3..] == b[n..] && b[..n][..3] == b[..3]
  {
  }

  /** The text of three or more bytes starts with the text of the first three. */
  lemma EncodeFirstGroup(b: seq<byte>)
    requires |b| >= 3
    ensures Base64Encode(b) == Base64Encode(b[..3]) + Base64Encode(b[3..])
  {
    EncodeGroup(b);
    FirstGroupText(b);
  }

  /** The text of the first three bytes is their quad. */
  lemma FirstGroupText(b: seq<byte>)
    requires |b| >= 3
    ensures Base64Encode(b[..3]) == Quad(b[0], b[1], b[2], 0)
  {
    var c := b[..3];
    assert c[0] == b[0] && c[1] == b[1] && c[2] == b[2] && c[3..] == [];
    EncodeGroup(c);
  }

  lemma AppendGroup(g: string, x: string, y: string)
    ensures g + (x + y) == (g + x) + y
  {
  }
}
