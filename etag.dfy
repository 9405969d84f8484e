/**
 * Content digests as the synchroniser compares them (`file_b64md5` and
 * `etag_to_md5` in util.py): a local file's MD5 digest in Base64, and a
 * remote object's E-Tag converted to the same form.
 */
module ETag {
  import opened Wrappers
  import opened Text
  import opened Codec

  /** What a non-MD5 E-Tag is converted to. */
  const Sentinel: string := "AAAAAAAAAAAAAAAAAAAAAA=="

  /**
   * `file_b64md5`: the Base64 text of a file's MD5 digest. The digest
   * itself (reading the file, hashing) is a parameter.
   */
  function FileB64Md5(digest: seq<byte>): (r: string)
    requires |digest| == 16
    ensures |r| == 24 && r[22] == '=' && r[23] == '='
    ensures forall i :: 0 <= i < 22 ==> r[i] != '='
  {
    Base64OfDigest(digest);
    Base64Encode(digest)
  }

  /** At most one leading, then at most one trailing, double quote removed. */
  function Unquote(s: string): (r: string)
    ensures |s| - 2 <= |r| <= |s|
  {
    var a := if StartsWith(s, "\"") then s[1..] else s;
    if EndsWith(a, "\"") then a[..|a| - 1] else a
  }

  /**
   * `etag_to_md5`: a 32-character E-Tag (after unquoting) is read as
   * hexadecimal and re-encoded in Base64; any other E-Tag gives the
   * sentinel. A 32-character E-Tag that is not hexadecimal makes
   * `bytes.fromhex` raise ValueError (here None).
   */
  function EtagToMd5(s: string): Option<string> {
    var etag := Unquote(s);
    if |etag| == 32 then
      match FromHex(Lower(etag))
      case Some(digest) => Some(Base64Encode(digest))
      case None => None
    else Some(Sentinel)
  }

  // ---------------------------------------------------------------------
  // Properties
  // ---------------------------------------------------------------------

  /** A quoted E-Tag loses exactly its two quotes. */
  lemma UnquoteQuoted(h: string)
    ensures Unquote("\"" + h + "\"") == h
  {
    var s := "\"" + h + "\"";
    assert StartsWith(s, "\"") && s[1..] == h + "\"";
    assert EndsWith(h + "\"", "\"") && (h + "\"")[..|h|] == h;
  }

  /** An E-Tag with no quote at either end is kept. */
  lemma UnquoteBare(h: string)
    requires !StartsWith(h, "\"") && !EndsWith(h, "\"")
    ensures Unquote(h) == h
  {
  }

  /** Unquoting commutes with lowering: a quote is not a letter. */
  lemma UnquoteLower(s: string)
    ensures Unquote(Lower(s)) == Lower(Unquote(s))
  {
    QuotesKept(s);
    var a := if StartsWith(s, "\"") then s[1..] else s;
    if StartsWith(s, "\"") {
      LowerDrop(s, 1);
    }
    QuotesKept(a);
    if EndsWith(a, "\"") {
      LowerTake(a, |a| - 1);
    }
  }

  /** Lowering keeps a quote at either end, and adds none. */
  lemma QuotesKept(s: string)
    ensures StartsWith(Lower(s), "\"") == StartsWith(s, "\"")
    ensures EndsWith(Lower(s), "\"") == EndsWith(s, "\"")
  {
    if |s| > 0 {
      var t, n := Lower(s), |s| - 1;
      LowerKeeps(s, 0, '"');
      LowerKeeps(s, n, '"');
      assert t[..1] == [t[0]] && s[..1] == [s[0]];
      assert t[n..] == [t[n]] && s[n..] == [s[n]];
    }
  }

  /** The conversion does not depend on the case of the E-Tag. */
  lemma EtagIgnoresCase(s: string)
    ensures EtagToMd5(Lower(s)) == EtagToMd5(s)
  {
    UnquoteLower(s);
    LowerIdempotent(Unquote(s));
  }

  /** The conversion does not depend on whether the E-Tag is quoted. */
  lemma EtagIgnoresQuotes(h: string)
    requires !StartsWith(h, "\"") && !EndsWith(h, "\"")
    ensures EtagToMd5("\"" + h + "\"") == EtagToMd5(h)
  {
    UnquoteQuoted(h);
    UnquoteBare(h);
  }

  /**
   * The E-Tag of an object stored by a plain upload is the hexadecimal
   * MD5 digest of its content, possibly quoted, possibly in upper case:
   * it converts to exactly what `file_b64md5` computes for that content,
   * so an unchanged file is never seen as an update.
   */
  lemma EtagOfDigest(d: seq<byte>)
    requires |d| == 16
    ensures EtagToMd5(ToHex(d)) == Some(FileB64Md5(d))
    ensures EtagToMd5("\"" + ToHex(d) + "\"") == Some(FileB64Md5(d))
  {
    var h := ToHex(d);
    assert Lower(h) == h;
    FromHexToHex(d);
    UnquoteQuoted(h);
    HexUnquoted(h);
    UnquoteBare(h);
  }

  /** A text of hexadecimal digits has no quote at either end. */
  lemma HexUnquoted(h: string)
    requires |h| > 0 && HexValue(h[0]).Some? && HexValue(h[|h| - 1]).Some?
    ensures !StartsWith(h, "\"") && !EndsWith(h, "\"")
  {
  }

  /** Any E-Tag other than 32 characters, such as a multipart one, gives the sentinel. */
  lemma EtagNotMd5(s: string)
    requires |Unquote(s)| != 32
    ensures EtagToMd5(s) == Some(Sentinel)
  {
  }

  /** The sentinel is what `file_b64md5` gives for an all-zero digest. */
  lemma SentinelIsZeroDigest()
    ensures FileB64Md5(seq(16, i => 0)) == Sentinel
  {
    var z := seq(16, i => 0);
    Base64Split(z, 15);
    assert z[..15] == seq(15, i => 0);
    ZeroGroups(5);
    assert z[15..] == [0];
    assert Quad(0, 0, 0, 2) == "AA==";
  }

  /** Groups of zero bytes encode to `A`s. */
  lemma {:induction false} ZeroGroups(n: nat)
    ensures Base64Encode(seq(3 * n, i => 0)) == seq(4 * n, i => 'A')
  {
    if n > 0 {
      ZeroHead(n);
      ZeroGroups(n - 1);
      AsHead(n);
    }
  }

  /** Three zero bytes in front encode as `AAAA` in front. */
  lemma ZeroHead(n: nat)
    requires n > 0
    ensures Base64Encode(seq(3 * n, i => 0)) == ['A', 'A', 'A', 'A'] + Base64Encode(seq(3 * (n - 1), i => 0))
  {
    var z: seq<byte> := seq(3 * n, i => 0);
    assert z[0] == 0 && z[1] == 0 && z[2] == 0;
    assert z[3..] == seq(3 * (n - 1), i => 0);
    EncodeGroup(z);
    assert Quad(0, 0, 0, 0) == ['A', 'A', 'A', 'A'];
  }

  lemma AsHead(n: nat)
    requires n > 0
    ensures seq(4 * n, i => 'A') == ['A', 'A', 'A', 'A'] + seq(4 * (n - 1), i => 'A')
  {
  }

  /** A successful conversion of an E-Tag without white space has the form of `file_b64md5`. */
  lemma EtagMd5Shape(s: string)
    requires forall i :: 0 <= i < |Unquote(s)| ==> !IsSpace(Unquote(s)[i])
    requires EtagToMd5(s).Some?
    ensures |EtagToMd5(s).value| == 24 && EtagToMd5(s).value[22..] == "=="
  {
    var etag := Unquote(s);
    if |etag| == 32 {
      var t := Lower(etag);
      forall i | 0 <= i < |t| ensures !IsSpace(t[i]) {
        assert !IsSpace(etag[i]);
      }
      FromHexLength(t);
      Base64OfDigest(FromHex(t).value);
    }
  }
}
