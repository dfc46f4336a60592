/** Base 64 encodings of section 4 (standard alphabet, `=` padding) and
    section 5 (URL- and filename-safe alphabet) of RFC 4648, and the
    rewrite chain that turns the first into the second without padding,
    as the PKCE code challenge of section 4.2 of RFC 7636 requires. */
module Base64 {
  import opened Util
  import opened Strings

  type byte = x: int | 0 <= x < 256

  /** A SHA-256 digest: 32 bytes. */
  type Digest = s: seq<byte> | |s| == 32 witness seq(32, i => 0)

  datatype Alphabet = Standard | UrlSafe

  /** The character for a 6-bit value in either alphabet; the two differ
      only at 62 (`+` / `-`) and 63 (`/` / `_`). */
  function Sextet(a: Alphabet, i: int): char
    requires 0 <= i < 64
  {
    if i < 26 then ('A' as int + i) as char
    else if i < 52 then ('a' as int + (i - 26)) as char
    else if i < 62 then ('0' as int + (i - 52)) as char
    else if i == 62 then (if a == Standard then '+' else '-')
    else (if a == Standard then '/' else '_')
  }

  /** The characters of the URL-safe alphabet. */
  predicate IsUrlChar(c: char)
  {
    ('A' <= c <= 'Z') || ('a' <= c <= 'z') || ('0' <= c <= '9') || c == '-' || c == '_'
  }

  predicate AllUrlChars(s: string)
  {
    forall i :: 0 <= i < |s| ==> IsUrlChar(s[i])
  }

  /** The 6-bit value a URL-safe character stands for. */
  function UrlIndex(c: char): (i: int)
    requires IsUrlChar(c)
    ensures 0 <= i < 64 && Sextet(UrlSafe, i) == c
  {
    if 'A' <= c <= 'Z' then c as int - 'A' as int
    else if 'a' <= c <= 'z' then c as int - 'a' as int + 26
    else if '0' <= c <= '9' then c as int - '0' as int + 52
    else if c == '-' then 62
    else 63
  }

  /** Encodes `b` three bytes (four characters) at a time; a final group of
      one or two bytes gives two or three characters, followed by `==` or
      `=` when `pad` holds. */
  function Encode(a: Alphabet, pad: bool, b: seq<byte>): string
    decreases |b|
  {
    if |b| == 0 then ""
    else if |b| == 1 then
      [Sextet(a, b[0] / 4), Sextet(a, (b[0] % 4) * 16)] + (if pad then "==" else "")
    else if |b| == 2 then
      [Sextet(a, b[0] / 4), Sextet(a, (b[0] % 4) * 16 + b[1] / 16), Sextet(a, (b[1] % 16) * 4)]
      + (if pad then "=" else "")
    else
      [Sextet(a, b[0] / 4), Sextet(a, (b[0] % 4) * 16 + b[1] / 16),
       Sextet(a, (b[1] % 16) * 4 + b[2] / 64), Sextet(a, b[2] % 64)]
      + Encode(a, pad, b[3..])
  }

  /** `btoa` over the binary string made of the bytes of `b`. */
  function Btoa(b: seq<byte>): string
  {
    Encode(Standard, true, b)
  }

  /** The reference definition: base64url of section 5 of RFC 4648 with the
      padding omitted (section 3.2 of RFC 4648, Appendix A of RFC 7636). */
  function Base64UrlNoPad(b: seq<byte>): string
  {
    Encode(UrlSafe, false, b)
  }

  /** The chain of `generateCodeChallenge` applied to the `btoa` output:
      `+` becomes `-`, then `/` becomes `_`, then every `=` is removed. */
  function UrlSafeRewrite(s: string): (t: string)
    ensures '+' !in t && '/' !in t && '=' !in t
  {
    var t1 := ReplaceAll(s, '+', "-");
    var t2 := ReplaceAll(t1, '/', "_");
    ReplaceAllKeepsAbsent(t1, '/', "_", '+');
    var t3 := ReplaceAll(t2, '=', "");
    ReplaceAllKeepsAbsent(t2, '=', "", '+');
    ReplaceAllKeepsAbsent(t2, '=', "", '/');
    t3
  }

  lemma RewriteAppend(x: string, y: string)
    ensures UrlSafeRewrite(x + y) == UrlSafeRewrite(x) + UrlSafeRewrite(y)
  {
    ReplaceAllAppend(x, y, '+', "-");
    ReplaceAllAppend(ReplaceAll(x, '+', "-"), ReplaceAll(y, '+', "-"), '/', "_");
    ReplaceAllAppend(ReplaceAll(ReplaceAll(x, '+', "-"), '/', "_"),
                     ReplaceAll(ReplaceAll(y, '+', "-"), '/', "_"), '=', "");
  }

  lemma RewriteSextet(i: int)
    requires 0 <= i < 64
    ensures UrlSafeRewrite([Sextet(Standard, i)]) == [Sextet(UrlSafe, i)]
  {
    var c := Sextet(Standard, i);
    ReplaceAllSingleton(c, '+', "-");
    var c1 := if c == '+' then '-' else c;
    ReplaceAllSingleton(c1, '/', "_");
    var c2 := if c1 == '/' then '_' else c1;
    ReplaceAllSingleton(c2, '=', "");
  }

  lemma RewritePadding()
    ensures UrlSafeRewrite("=") == "" && UrlSafeRewrite("==") == ""
  {
    ReplaceAllSingleton('=', '+', "-");
    ReplaceAllSingleton('=', '/', "_");
    ReplaceAllSingleton('=', '=', "");
    RewriteAppend("=", "=");
    assert "==" == "=" + "=";
  }

  /** Rewriting four standard characters gives the same four indices in the
      URL-safe alphabet. */
  lemma RewriteGroup(i0: int, i1: int, i2: int, i3: int)
    requires 0 <= i0 < 64 && 0 <= i1 < 64 && 0 <= i2 < 64 && 0 <= i3 < 64
    ensures UrlSafeRewrite([Sextet(Standard, i0), Sextet(Standard, i1), Sextet(Standard, i2)])
         == [Sextet(UrlSafe, i0), Sextet(UrlSafe, i1), Sextet(UrlSafe, i2)]
    ensures UrlSafeRewrite([Sextet(Standard, i0), Sextet(Standard, i1), Sextet(Standard, i2), Sextet(Standard, i3)])
         == [Sextet(UrlSafe, i0), Sextet(UrlSafe, i1), Sextet(UrlSafe, i2), Sextet(UrlSafe, i3)]
  {
    var s0, s1, s2, s3 := Sextet(Standard, i0), Sextet(Standard, i1), Sextet(Standard, i2), Sextet(Standard, i3);
    RewriteSextet(i0);
    RewriteSextet(i1);
    RewriteSextet(i2);
    RewriteSextet(i3);
    RewriteAppend([s0], [s1]);
    assert [s0, s1] == [s0] + [s1];
    RewriteAppend([s0, s1], [s2]);
    assert [s0, s1, s2] == [s0, s1] + [s2];
    RewriteAppend([s0, s1, s2], [s3]);
    assert [s0, s1, s2, s3] == [s0, s1, s2] + [s3];
  }

  lemma RewriteOneByte(b: seq<byte>)
    requires |b| == 1
    ensures UrlSafeRewrite(Btoa(b)) == Base64UrlNoPad(b)
  {
    var s0, s1 := Sextet(Standard, b[0] / 4), Sextet(Standard, (b[0] % 4) * 16);
    assert Btoa(b) == [s0, s1] + "==";
    assert Base64UrlNoPad(b) == [Sextet(UrlSafe, b[0] / 4), Sextet(UrlSafe, (b[0] % 4) * 16)] + "";
    RewriteSextet(b[0] / 4);
    RewriteSextet((b[0] % 4) * 16);
    RewriteAppend([s0], [s1]);
    assert [s0, s1] == [s0] + [s1];
    RewriteAppend([s0, s1], "==");
    RewritePadding();
  }

  lemma RewriteTwoBytes(b: seq<byte>)
    requires |b| == 2
    ensures UrlSafeRewrite(Btoa(b)) == Base64UrlNoPad(b)
  {
    var i0, i1, i2 := b[0] / 4, (b[0] % 4) * 16 + b[1] / 16, (b[1] % 16) * 4;
    var g := [Sextet(Standard, i0), Sextet(Standard, i1), Sextet(Standard, i2)];
    assert Btoa(b) == g + "=";
    assert Base64UrlNoPad(b) == [Sextet(UrlSafe, i0), Sextet(UrlSafe, i1), Sextet(UrlSafe, i2)] + "";
    RewriteGroup(i0, i1, i2, 0);
    RewriteAppend(g, "=");
    RewritePadding();
  }

  lemma RewriteFullGroup(b: seq<byte>)
    requires |b| >= 3
    requires UrlSafeRewrite(Btoa(b[3..])) == Base64UrlNoPad(b[3..])
    ensures UrlSafeRewrite(Btoa(b)) == Base64UrlNoPad(b)
  {
    var i0, i1, i2, i3 := b[0] / 4, (b[0] % 4) * 16 + b[1] / 16, (b[1] % 16) * 4 + b[2] / 64, b[2] % 64;
    var g := [Sextet(Standard, i0), Sextet(Standard, i1), Sextet(Standard, i2), Sextet(Standard, i3)];
    assert Btoa(b) == g + Btoa(b[3..]);
    assert Base64UrlNoPad(b)
        == [Sextet(UrlSafe, i0), Sextet(UrlSafe, i1), Sextet(UrlSafe, i2), Sextet(UrlSafe, i3)]
           + Base64UrlNoPad(b[3..]);
    RewriteGroup(i0, i1, i2, i3);
    RewriteAppend(g, Btoa(b[3..]));
  }

  /** The rewrite chain of the source computes exactly unpadded base64url. */
  lemma {:induction false} RewriteIsBase64Url(b: seq<byte>)
    ensures UrlSafeRewrite(Btoa(b)) == Base64UrlNoPad(b)
    decreases |b|
  {
    if |b| == 0 {
      assert Btoa(b) == "" && Base64UrlNoPad(b) == "";
    } else if |b| == 1 {
      RewriteOneByte(b);
    } else if |b| == 2 {
      RewriteTwoBytes(b);
    } else {
      RewriteIsBase64Url(b[3..]);
      RewriteFullGroup(b);
    }
  }

  /** Unpadded base64url output has ceil(4n/3) characters. */
  lemma {:induction false} Base64UrlLength(b: seq<byte>)
    ensures |Base64UrlNoPad(b)| == (4 * |b| + 2) / 3
    decreases |b|
  {
    if |b| >= 3 {
      Base64UrlLength(b[3..]);
    }
  }

  lemma {:induction false} Base64UrlAlphabet(b: seq<byte>)
    ensures AllUrlChars(Base64UrlNoPad(b))
    decreases |b|
  {
    if |b| >= 3 {
      Base64UrlAlphabet(b[3..]);
    }
  }

  /** Decoding of unpadded base64url (the inverse, used only to show that the
      encoding loses nothing). Leftover bits of a short final group must be
      zero, as section 3.5 of RFC 4648 describes for canonical encodings. */
  function DecodeBase64Url(s: string): Option<seq<byte>>
    decreases |s|
  {
    if |s| == 0 then Some([])
    else if |s| == 1 then None
    else if !IsUrlChar(s[0]) || !IsUrlChar(s[1]) then None
    else
      var c0, c1 := UrlIndex(s[0]), UrlIndex(s[1]);
      var b0 := c0 * 4 + c1 / 16;
      if |s| == 2 then (if c1 % 16 == 0 then Some([b0]) else None)
      else if !IsUrlChar(s[2]) then None
      else
        var c2 := UrlIndex(s[2]);
        var b1 := (c1 % 16) * 16 + c2 / 4;
        if |s| == 3 then (if c2 % 4 == 0 then Some([b0, b1]) else None)
        else if !IsUrlChar(s[3]) then None
        else
          var b2 := (c2 % 4) * 64 + UrlIndex(s[3]);
          match DecodeBase64Url(s[4..])
          case None => None
          case Some(rest) => Some([b0, b1, b2] + rest)
  }

  lemma SextetRoundTrip(i: int)
    requires 0 <= i < 64
    ensures IsUrlChar(Sextet(UrlSafe, i)) && UrlIndex(Sextet(UrlSafe, i)) == i
  {
  }

  /** Splitting three bytes into four 6-bit values and joining them again
      gives back the three bytes. */
  lemma GroupArithmetic(b0: byte, b1: byte, b2: byte)
    ensures (b0 / 4) * 4 + ((b0 % 4) * 16 + b1 / 16) / 16 == b0
    ensures (((b0 % 4) * 16 + b1 / 16) % 16) * 16 + ((b1 % 16) * 4 + b2 / 64) / 4 == b1
    ensures (((b1 % 16) * 4 + b2 / 64) % 4) * 64 + b2 % 64 == b2
    ensures ((b0 % 4) * 16) % 16 == 0 && ((b1 % 16) * 4) % 4 == 0
  {
  }

  lemma DecodeShortGroups(b0: byte, b1: byte)
    ensures DecodeBase64Url([Sextet(UrlSafe, b0 / 4), Sextet(UrlSafe, (b0 % 4) * 16)]) == Some([b0])
    ensures DecodeBase64Url([Sextet(UrlSafe, b0 / 4), Sextet(UrlSafe, (b0 % 4) * 16 + b1 / 16),
                             Sextet(UrlSafe, (b1 % 16) * 4)]) == Some([b0, b1])
  {
    SextetRoundTrip(b0 / 4);
    SextetRoundTrip((b0 % 4) * 16);
    SextetRoundTrip((b0 % 4) * 16 + b1 / 16);
    SextetRoundTrip((b1 % 16) * 4);
    GroupArithmetic(b0, 0, 0);
    GroupArithmetic(b0, b1, 0);
  }

  lemma DecodeFullGroup(b0: byte, b1: byte, b2: byte, rest: string)
    ensures DecodeBase64Url([Sextet(UrlSafe, b0 / 4), Sextet(UrlSafe, (b0 % 4) * 16 + b1 / 16),
                             Sextet(UrlSafe, (b1 % 16) * 4 + b2 / 64), Sextet(UrlSafe, b2 % 64)] + rest)
         == match DecodeBase64Url(rest)
            case None => None
            case Some(r) => Some([b0, b1, b2] + r)
  {
    var g := [Sextet(UrlSafe, b0 / 4), Sextet(UrlSafe, (b0 % 4) * 16 + b1 / 16),
              Sextet(UrlSafe, (b1 % 16) * 4 + b2 / 64), Sextet(UrlSafe, b2 % 64)];
    SextetRoundTrip(b0 / 4);
    SextetRoundTrip((b0 % 4) * 16 + b1 / 16);
    SextetRoundTrip((b1 % 16) * 4 + b2 / 64);
    SextetRoundTrip(b2 % 64);
    GroupArithmetic(b0, b1, b2);
    assert (g + rest)[4..] == rest;
  }

  lemma DecodeEncodeShort(b: seq<byte>)
    requires 1 <= |b| <= 2
    ensures DecodeBase64Url(Base64UrlNoPad(b)) == Some(b)
  {
    if |b| == 1 {
      assert Base64UrlNoPad(b) == [Sextet(UrlSafe, b[0] / 4), Sextet(UrlSafe, (b[0] % 4) * 16)];
      DecodeShortGroups(b[0], 0);
      assert b == [b[0]];
    } else {
      assert Base64UrlNoPad(b) == [Sextet(UrlSafe, b[0] / 4), Sextet(UrlSafe, (b[0] % 4) * 16 + b[1] / 16),
                                   Sextet(UrlSafe, (b[1] % 16) * 4)];
      DecodeShortGroups(b[0], b[1]);
      assert b == [b[0], b[1]];
    }
  }

  /** Base64url without padding is invertible: decoding the encoding of any
      byte string gives that byte string back. */
  lemma {:induction false} DecodeEncode(b: seq<byte>)
    ensures DecodeBase64Url(Base64UrlNoPad(b)) == Some(b)
    decreases |b|
  {
    if 1 <= |b| <= 2 {
      DecodeEncodeShort(b);
    } else if |b| >= 3 {
      var rest := Base64UrlNoPad(b[3..]);
      assert Base64UrlNoPad(b) == [Sextet(UrlSafe, b[0] / 4), Sextet(UrlSafe, (b[0] % 4) * 16 + b[1] / 16),
                                   Sextet(UrlSafe, (b[1] % 16) * 4 + b[2] / 64), Sextet(UrlSafe, b[2] % 64)]
                                  + rest;
      DecodeFullGroup(b[0], b[1], b[2], rest);
      DecodeEncode(b[3..]);
      assert b == [b[0], b[1], b[2]] + b[3..];
    }
  }

  /** The code challenge is unpadded base64url of the digest: 43 characters
      of the URL-safe alphabet, none of them `+`, `/` or `=`. */
  lemma ChallengeOfDigest(d: Digest)
    ensures UrlSafeRewrite(Btoa(d)) == Base64UrlNoPad(d)
    ensures |Base64UrlNoPad(d)| == 43
    ensures AllUrlChars(Base64UrlNoPad(d))
    ensures DecodeBase64Url(Base64UrlNoPad(d)) == Some(d)
  {
    RewriteIsBase64Url(d);
    Base64UrlLength(d);
    Base64UrlAlphabet(d);
    DecodeEncode(d);
  }
}
