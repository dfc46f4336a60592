/** The two browser encoders on the authorization path: `TextEncoder`
    (UTF-8), which turns the verifier into the bytes that are hashed, and the
    `application/x-www-form-urlencoded` serializer behind
    `URLSearchParams.toString()`, which builds the query of the
    authorization URL and the body of the token requests. */
module WebEncoding {
  import opened Base64
  import opened Strings

  /** UTF-8 of one Unicode scalar value (section 3 of RFC 3629). */
  function Utf8Char(c: char): (b: seq<byte>)
    ensures 1 <= |b| <= 4
    ensures (c as int < 0x80) <==> |b| == 1
  {
    var n := c as int;
    if n < 0x80 then [n]
    else if n < 0x800 then [0xC0 + n / 64, 0x80 + n % 64]
    else if n < 0x10000 then [0xE0 + n / 4096, 0x80 + (n / 64) % 64, 0x80 + n % 64]
    else [0xF0 + n / 262144, 0x80 + (n / 4096) % 64, 0x80 + (n / 64) % 64, 0x80 + n % 64]
  }

  /** `new TextEncoder().encode(s)`. */
  function Utf8Encode(s: string): seq<byte>
  {
    if s == [] then [] else Utf8Char(s[0]) + Utf8Encode(s[1..])
  }

  predicate IsAscii(s: string)
  {
    forall i :: 0 <= i < |s| ==> s[i] as int < 0x80
  }

  /** An ASCII string encodes to one byte per character, its code. */
  lemma {:induction false} Utf8OfAscii(s: string)
    requires IsAscii(s)
    ensures |Utf8Encode(s)| == |s|
    ensures forall i :: 0 <= i < |s| ==> Utf8Encode(s)[i] == s[i] as int
  {
    if s != [] {
      Utf8OfAscii(s[1..]);
      assert Utf8Encode(s) == [s[0] as int] + Utf8Encode(s[1..]);
    }
  }

  /** Bytes the form serializer leaves as they are: ASCII letters, digits and
      `*`, `-`, `.`, `_`. */
  predicate FormSafe(x: byte)
  {
    ('A' as int <= x <= 'Z' as int) || ('a' as int <= x <= 'z' as int)
    || ('0' as int <= x <= '9' as int)
    || x == '*' as int || x == '-' as int || x == '.' as int || x == '_' as int
  }

  function HexDigit(d: int): char
    requires 0 <= d < 16
  {
    if d < 10 then ('0' as int + d) as char else ('A' as int + (d - 10)) as char
  }

  /** One byte: itself if safe, `+` for a space, `%XX` (upper-case hex)
      otherwise. */
  function FormEncodeByte(x: byte): (s: string)
    ensures 1 <= |s| <= 3
  {
    if FormSafe(x) then [x as char]
    else if x == 0x20 then "+"
    else ['%', HexDigit(x / 16), HexDigit(x % 16)]
  }

  function FormEncodeBytes(b: seq<byte>): string
  {
    if b == [] then "" else FormEncodeByte(b[0]) + FormEncodeBytes(b[1..])
  }

  /** The form encoding of a name or a value. */
  function FormEncode(s: string): string
  {
    FormEncodeBytes(Utf8Encode(s))
  }

  /** `URLSearchParams.toString()`: `name=value` pairs, in order, joined by `&`. */
  function SerializeForm(params: seq<(string, string)>): string
  {
    Join(seq(|params|, i requires 0 <= i < |params| => FormEncode(params[i].0) + "=" + FormEncode(params[i].1)), "&")
  }

  /** Every character of the URL-safe base64 alphabet passes through the form
      serializer unchanged: a code challenge needs no percent-encoding. */
  lemma {:induction false} FormEncodeUrlSafe(s: string)
    requires AllUrlChars(s)
    ensures FormEncode(s) == s
  {
    if s != [] {
      FormEncodeUrlSafe(s[1..]);
      assert Utf8Encode(s) == [s[0] as int] + Utf8Encode(s[1..]);
      assert ([s[0] as int] + Utf8Encode(s[1..]))[1..] == Utf8Encode(s[1..]);
      assert s == [s[0]] + s[1..];
    }
  }
}
