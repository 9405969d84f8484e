/**
 * The docstring examples of `file_b64md5` and `etag_to_md5` in util.py,
 * all about the MD5 digest of the repository's LICENSE file. The expected
 * texts are written in pieces of eight hexadecimal digits and of four
 * Base64 characters, the units in which they are computed.
 */
module ETagExamples {
  import opened Wrappers
  import opened Text
  import opened Codec
  import opened ETag

  /** The MD5 digest of LICENSE, byte by byte. */
  const LicenseDigest: seq<byte> :=
    [0x1e, 0xbb, 0xd3, 0xe3, 0x42, 0x37, 0xaf, 0x26, 0xda, 0x5d, 0xc0, 0x8a, 0x4e, 0x44, 0x04, 0x64]

  /** Its E-Tag, `1ebbd3e34237af26da5dc08a4e440464`. */
  const LicenseEtag: string := "1ebbd3e3" + "4237af26" + "da5dc08a" + "4e440464"

  /** The same E-Tag in upper case. */
  const UpperEtag: string := "1EBBD3E3" + "4237AF26" + "DA5DC08A" + "4E440464"

  /** Its Base64 text, `HrvT40I3rybaXcCKTkQEZA==`. */
  const LicenseB64: string := "HrvT" + ("40I3" + ("ryba" + ("XcCK" + ("TkQE" + "ZA=="))))

  /** The hexadecimal text of the digest is the E-Tag of the examples. */
  lemma LicenseHex()
    ensures ToHex(LicenseDigest) == LicenseEtag
  {
    var a: seq<byte>, b: seq<byte>, c: seq<byte>, e: seq<byte> :=
      [0x1e, 0xbb, 0xd3, 0xe3], [0x42, 0x37, 0xaf, 0x26], [0xda, 0x5d, 0xc0, 0x8a], [0x4e, 0x44, 0x04, 0x64];
    HexWord1();
    HexWord2();
    HexWord3();
    HexWord4();
    DigestWords();
    ToHexAppend(a, b);
    ToHexAppend(a + b, c);
    ToHexAppend(a + b + c, e);
  }

  /** The digest as four words of four bytes. */
  lemma DigestWords()
    ensures LicenseDigest == [0x1e, 0xbb, 0xd3, 0xe3] + [0x42, 0x37, 0xaf, 0x26] + [0xda, 0x5d, 0xc0, 0x8a] + [0x4e, 0x44, 0x04, 0x64]
  {
  }

  /** The digest as five groups of three bytes and a last byte. */
  lemma DigestGroups()
    ensures LicenseDigest == [0x1e, 0xbb, 0xd3] + ([0xe3, 0x42, 0x37] + ([0xaf, 0x26, 0xda] + ([0x5d, 0xc0, 0x8a] + ([0x4e, 0x44, 0x04] + [0x64]))))
  {
  }

  // The digest's four words and their eight hexadecimal digits each.

  lemma HexWord1() ensures ToHex([0x1e, 0xbb, 0xd3, 0xe3]) == "1ebbd3e3" { HexQuad(0x1e, 0xbb, 0xd3, 0xe3, "1ebbd3e3"); }
  lemma HexWord2() ensures ToHex([0x42, 0x37, 0xaf, 0x26]) == "4237af26" { HexQuad(0x42, 0x37, 0xaf, 0x26, "4237af26"); }
  lemma HexWord3() ensures ToHex([0xda, 0x5d, 0xc0, 0x8a]) == "da5dc08a" { HexQuad(0xda, 0x5d, 0xc0, 0x8a, "da5dc08a"); }
  lemma HexWord4() ensures ToHex([0x4e, 0x44, 0x04, 0x64]) == "4e440464" { HexQuad(0x4e, 0x44, 0x04, 0x64, "4e440464"); }

  /** Four bytes whose digits are those of an eight-character text. */
  lemma HexQuad(w: byte, x: byte, y: byte, z: byte, s: string)
    requires |s| == 8
    requires s[0] == HexDigit(w / 16) && s[1] == HexDigit(w % 16) && s[2] == HexDigit(x / 16) && s[3] == HexDigit(x % 16)
    requires s[4] == HexDigit(y / 16) && s[5] == HexDigit(y % 16) && s[6] == HexDigit(z / 16) && s[7] == HexDigit(z % 16)
    ensures ToHex([w, x, y, z]) == s
  {
    LicenseHexPair(w, x, s[..4]);
    LicenseHexPair(y, z, s[4..]);
    ToHexAppend([w, x], [y, z]);
    assert [w, x] + [y, z] == [w, x, y, z];
    assert s[..4] + s[4..] == s;
  }

  /** Two bytes whose digits are those of a four-character text. */
  lemma LicenseHexPair(x: byte, y: byte, s: string)
    requires |s| == 4
    requires s[0] == HexDigit(x / 16) && s[1] == HexDigit(x % 16) && s[2] == HexDigit(y / 16) && s[3] == HexDigit(y % 16)
    ensures ToHex([x, y]) == s
  {
    assert [x, y][1..] == [y] && [y][1..] == [];
  }

  /** The hexadecimal text of a concatenation is the concatenation of the texts. */
  lemma {:induction false} ToHexAppend(x: seq<byte>, y: seq<byte>)
    ensures ToHex(x + y) == ToHex(x) + ToHex(y)
  {
    if x != [] {
      assert (x + y)[1..] == x[1..] + y;
      ToHexAppend(x[1..], y);
    } else {
      assert x + y == y;
    }
  }

  /** A group of three bytes in front of some more encodes as its quad in front of theirs. */
  lemma B64Group(x: byte, y: byte, z: byte, rest: seq<byte>, q: string, t: string)
    requires Quad(x, y, z, 0) == q && Base64Encode(rest) == t
    ensures Base64Encode([x, y, z] + rest) == q + t
  {
    EncodeGroup([x, y, z] + rest);
    assert ([x, y, z] + rest)[3..] == rest;
  }

  /** The Base64 text of the digest is the value the examples print. */
  lemma LicenseBase64()
    ensures Base64Encode(LicenseDigest) == LicenseB64
  {
    DigestGroups();
    Base64From3();
    B64Group(0x1e, 0xbb, 0xd3, [0xe3, 0x42, 0x37] + ([0xaf, 0x26, 0xda] + ([0x5d, 0xc0, 0x8a] + ([0x4e, 0x44, 0x04] + [0x64]))),
      "HrvT", "40I3" + ("ryba" + ("XcCK" + ("TkQE" + "ZA=="))));
  }

  // The digest's Base64 text from byte 3, 6, 9, 12 and 15 on, one group at a time.

  lemma Base64From3()
    ensures Base64Encode([0xe3, 0x42, 0x37] + ([0xaf, 0x26, 0xda] + ([0x5d, 0xc0, 0x8a] + ([0x4e, 0x44, 0x04] + [0x64]))))
         == "40I3" + ("ryba" + ("XcCK" + ("TkQE" + "ZA==")))
  {
    Base64From6();
    B64Group(0xe3, 0x42, 0x37, [0xaf, 0x26, 0xda] + ([0x5d, 0xc0, 0x8a] + ([0x4e, 0x44, 0x04] + [0x64])),
      "40I3", "ryba" + ("XcCK" + ("TkQE" + "ZA==")));
  }

  lemma Base64From6()
    ensures Base64Encode([0xaf, 0x26, 0xda] + ([0x5d, 0xc0, 0x8a] + ([0x4e, 0x44, 0x04] + [0x64]))) == "ryba" + ("XcCK" + ("TkQE" + "ZA=="))
  {
    Base64From9();
    B64Group(0xaf, 0x26, 0xda, [0x5d, 0xc0, 0x8a] + ([0x4e, 0x44, 0x04] + [0x64]), "ryba", "XcCK" + ("TkQE" + "ZA=="));
  }

  lemma Base64From9()
    ensures Base64Encode([0x5d, 0xc0, 0x8a] + ([0x4e, 0x44, 0x04] + [0x64])) == "XcCK" + ("TkQE" + "ZA==")
  {
    Base64From12();
    B64Group(0x5d, 0xc0, 0x8a, [0x4e, 0x44, 0x04] + [0x64], "XcCK", "TkQE" + "ZA==");
  }

  lemma Base64From12()
    ensures Base64Encode([0x4e, 0x44, 0x04] + [0x64]) == "TkQE" + "ZA=="
  {
    Base64From15();
    B64Group(0x4e, 0x44, 0x04, [0x64], "TkQE", "ZA==");
  }

  lemma Base64From15()
    ensures Base64Encode([0x64]) == "ZA=="
  {
    assert Base64Encode([0x64]) == Quad(0x64, 0, 0, 2);
  }

  /** `file_b64md5('LICENSE')`, given the digest of LICENSE. */
  lemma FileB64Md5Example()
    ensures FileB64Md5(LicenseDigest) == LicenseB64
  {
    LicenseBase64();
  }

  /** Lowering the upper-case E-Tag gives the E-Tag. */
  lemma LowerUpperEtag()
    ensures Lower(UpperEtag) == LicenseEtag
  {
    var u1, u2, u3, u4 := "1EBBD3E3", "4237AF26", "DA5DC08A", "4E440464";
    assert Lower(u1) == "1ebbd3e3";
    assert Lower(u2) == "4237af26";
    assert Lower(u3) == "da5dc08a";
    assert Lower(u4) == "4e440464";
    LowerConcat(u1, u2);
    LowerConcat(u1 + u2, u3);
    LowerConcat(u1 + u2 + u3, u4);
  }

  /** Lowering the quoted upper-case E-Tag gives the quoted E-Tag. */
  lemma LowerQuotedUpper()
    ensures Lower("\"" + UpperEtag + "\"") == "\"" + LicenseEtag + "\""
  {
    LowerUpperEtag();
    LowerConcat("\"", UpperEtag);
    LowerConcat("\"" + UpperEtag, "\"");
  }

  /** The three `etag_to_md5` examples: bare, quoted, and quoted in upper case. */
  lemma EtagToMd5Examples()
    ensures EtagToMd5(LicenseEtag) == Some(LicenseB64)
    ensures EtagToMd5("\"" + LicenseEtag + "\"") == Some(LicenseB64)
    ensures EtagToMd5("\"" + UpperEtag + "\"") == Some(LicenseB64)
  {
    LicenseHex();
    FileB64Md5Example();
    EtagOfDigest(LicenseDigest);
    LowerQuotedUpper();
    EtagIgnoresCase("\"" + UpperEtag + "\"");
  }
}
