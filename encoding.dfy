/**
 * Text encodings of a raw digest used in fingerprints: PHP's lowercase hex
 * output of `hash()`, and `rtrim(strtr(base64_encode(d), '+/', '-_'), '=')`,
 * which is the base64 encoding of section 4 of RFC 4648 carried over to the
 * URL-safe alphabet of section 5 with the padding removed.
 */
module Encoding {
  import opened Basics

  // ---------------------------------------------------------------- hex

  predicate IsHexChar(c: char) {
    '0' <= c <= '9' || 'a' <= c <= 'f'
  }

  function HexDigit(d: nat): (c: char)
    requires d < 16
    ensures IsHexChar(c)
  {
    if d < 10 then ('0' as int + d) as char else ('a' as int + d - 10) as char
  }

  function HexValue(c: char): (d: nat)
    requires IsHexChar(c)
    ensures d < 16
  {
    if c <= '9' then c as int - '0' as int else c as int - 'a' as int + 10
  }

  /** Lowercase hex, two characters per byte, high nibble first. */
  function Hex(b: seq<byte>): (s: string)
    ensures |s| == 2 * |b|
    ensures forall i :: 0 <= i < |s| ==> IsHexChar(s[i])
  {
    if b == [] then [] else [HexDigit(b[0] / 16), HexDigit(b[0] % 16)] + Hex(b[1..])
  }

  /** Reads lowercase hex back into bytes. */
  function Unhex(s: string): (b: seq<byte>)
    requires |s| % 2 == 0
    requires forall i :: 0 <= i < |s| ==> IsHexChar(s[i])
    ensures |b| == |s| / 2
  {
    if s == [] then [] else [HexValue(s[0]) * 16 + HexValue(s[1])] + Unhex(s[2..])
  }

  /** Hex loses nothing: reading it back gives the digest. */
  lemma {:induction false} UnhexHex(b: seq<byte>)
    ensures Unhex(Hex(b)) == b
  {
    if b != [] {
      var s := Hex(b);
      assert s[2..] == Hex(b[1..]);
      UnhexHex(b[1..]);
      assert HexValue(s[0]) == b[0] / 16 && HexValue(s[1]) == b[0] % 16;
    }
  }

  lemma HexInjective(a: seq<byte>, b: seq<byte>)
    requires Hex(a) == Hex(b)
    ensures a == b
  {
    UnhexHex(a);
    UnhexHex(b);
  }

  /** A hex digest holds no separator that keys use. */
  lemma HexLacksSeparators(b: seq<byte>)
    ensures ':' !in Hex(b) && '.' !in Hex(b) && '=' !in Hex(b)
  {
    var s := Hex(b);
    assert forall i :: 0 <= i < |s| ==> IsHexChar(s[i]);
  }

  // ------------------------------------------------------------- base64

  /** Character of the 6-bit value `i`: table 1 of RFC 4648, or table 2 (URL-safe) when `url`. */
  function Symbol(i: nat, url: bool): char
    requires i < 64
  {
    if i < 26 then ('A' as int + i) as char
    else if i < 52 then ('a' as int + i - 26) as char
    else if i < 62 then ('0' as int + i - 52) as char
    else if i == 62 then (if url then '-' else '+')
    else (if url then '_' else '/')
  }

  predicate IsUrlChar(c: char) {
    'A' <= c <= 'Z' || 'a' <= c <= 'z' || '0' <= c <= '9' || c == '-' || c == '_'
  }

  lemma SymbolUrl(i: nat)
    requires i < 64
    ensures IsUrlChar(Symbol(i, true))
  {
  }

  /** The four symbols of a complete group of three bytes. */
  function Group(b0: byte, b1: byte, b2: byte, url: bool): string {
    [Symbol(b0 / 4, url), Symbol((b0 % 4) * 16 + b1 / 16, url),
     Symbol((b1 % 16) * 4 + b2 / 64, url), Symbol(b2 % 64, url)]
  }

  /** `base64_encode`: section 4 of RFC 4648, with '=' padding. */
  function Base64(b: seq<byte>): (s: string)
    decreases |b|
  {
    if |b| >= 3 then Group(b[0], b[1], b[2], false) + Base64(b[3..])
    else if |b| == 2 then [Symbol(b[0] / 4, false), Symbol((b[0] % 4) * 16 + b[1] / 16, false), Symbol((b[1] % 16) * 4, false), '=']
    else if |b| == 1 then [Symbol(b[0] / 4, false), Symbol((b[0] % 4) * 16, false), '=', '=']
    else []
  }

  function UrlSafeChar(c: char): char {
    if c == '+' then '-' else if c == '/' then '_' else c
  }

  /** `strtr($s, '+/', '-_')`. */
  function UrlSafe(s: string): (r: string)
    ensures |r| == |s|
  {
    if s == [] then [] else [UrlSafeChar(s[0])] + UrlSafe(s[1..])
  }

  /** `rtrim($s, $c)` for a single character `$c`. */
  function TrimRight(s: string, c: char): (r: string)
    ensures |r| <= |s| && r == s[..|r|]
    ensures r == [] || r[|r| - 1] != c
    ensures forall i :: |r| <= i < |s| ==> s[i] == c
  {
    if s != [] && s[|s| - 1] == c then TrimRight(s[..|s| - 1], c) else s
  }

  /** The digest encoding used by the base64 variants, written as the PHP code computes it. */
  function Base64Url(b: seq<byte>): string {
    TrimRight(UrlSafe(Base64(b)), '=')
  }

  /**
   * Reference definition: the URL-safe alphabet of section 5 of RFC 4648,
   * symbols computed directly, with no padding at all (section 3.2).
   */
  function Unpadded(b: seq<byte>): (s: string)
    ensures forall i :: 0 <= i < |s| ==> IsUrlChar(s[i])
    decreases |b|
  {
    if |b| >= 3 then
      var rest := Unpadded(b[3..]);
      var g := Group(b[0], b[1], b[2], true);
      assert forall i :: 0 <= i < 4 ==> IsUrlChar(g[i]);
      g + rest
    else if |b| == 2 then [Symbol(b[0] / 4, true), Symbol((b[0] % 4) * 16 + b[1] / 16, true), Symbol((b[1] % 16) * 4, true)]
    else if |b| == 1 then [Symbol(b[0] / 4, true), Symbol((b[0] % 4) * 16, true)]
    else []
  }

  /** ceil(8|b|/6) characters: four for every complete group, then two or three for a final partial one. */
  lemma {:induction false} UnpaddedLength(b: seq<byte>)
    ensures |Unpadded(b)| == (4 * |b| + 2) / 3
    decreases |b|
  {
    if |b| >= 3 {
      UnpaddedStep(b);
      UnpaddedLength(b[3..]);
    }
  }

  /** The '=' characters section 4 appends for a final group of |b| % 3 bytes. */
  function Padding(n: nat): string {
    if n % 3 == 1 then "==" else if n % 3 == 2 then "=" else ""
  }

  lemma {:induction false} UrlSafeConcat(a: string, b: string)
    ensures UrlSafe(a + b) == UrlSafe(a) + UrlSafe(b)
  {
    if a != [] {
      assert (a + b)[1..] == a[1..] + b;
      UrlSafeConcat(a[1..], b);
    } else {
      assert a + b == b;
    }
  }

  lemma {:induction false} UrlSafeAt(s: string)
    ensures forall i :: 0 <= i < |s| ==> UrlSafe(s)[i] == UrlSafeChar(s[i])
  {
    if s != [] {
      UrlSafeAt(s[1..]);
    }
  }

  lemma UrlSafeSymbol(i: nat)
    requires i < 64
    ensures UrlSafeChar(Symbol(i, false)) == Symbol(i, true)
  {
  }

  lemma UrlSafeFour(c0: char, c1: char, c2: char, c3: char)
    ensures UrlSafe([c0, c1, c2, c3]) == [UrlSafeChar(c0), UrlSafeChar(c1), UrlSafeChar(c2), UrlSafeChar(c3)]
  {
    UrlSafeAt([c0, c1, c2, c3]);
  }

  lemma UrlSafeGroup(b0: byte, b1: byte, b2: byte)
    ensures UrlSafe(Group(b0, b1, b2, false)) == Group(b0, b1, b2, true)
  {
    var x, y, z, w := b0 / 4, (b0 % 4) * 16 + b1 / 16, (b1 % 16) * 4 + b2 / 64, b2 % 64;
    UrlSafeFour(Symbol(x, false), Symbol(y, false), Symbol(z, false), Symbol(w, false));
    UrlSafeSymbol(x);
    UrlSafeSymbol(y);
    UrlSafeSymbol(z);
    UrlSafeSymbol(w);
  }

  /** A final group of two bytes: three symbols and one '='. */
  lemma UrlSafeTwo(b: seq<byte>)
    requires |b| == 2
    ensures UrlSafe(Base64(b)) == Unpadded(b) + "="
  {
    var x, y, z := b[0] / 4, (b[0] % 4) * 16 + b[1] / 16, (b[1] % 16) * 4;
    assert Base64(b) == [Symbol(x, false), Symbol(y, false), Symbol(z, false), '='];
    assert Unpadded(b) == [Symbol(x, true), Symbol(y, true), Symbol(z, true)];
    UrlSafeFour(Symbol(x, false), Symbol(y, false), Symbol(z, false), '=');
    UrlSafeSymbol(x);
    UrlSafeSymbol(y);
    UrlSafeSymbol(z);
  }

  /** A final group of one byte: two symbols and two '='. */
  lemma UrlSafeOne(b: seq<byte>)
    requires |b| == 1
    ensures UrlSafe(Base64(b)) == Unpadded(b) + "=="
  {
    var x, y := b[0] / 4, (b[0] % 4) * 16;
    assert Base64(b) == [Symbol(x, false), Symbol(y, false), '=', '='];
    assert Unpadded(b) == [Symbol(x, true), Symbol(y, true)];
    UrlSafeFour(Symbol(x, false), Symbol(y, false), '=', '=');
    UrlSafeSymbol(x);
    UrlSafeSymbol(y);
  }

  /** Both encodings peel off one complete group of three bytes at a time. */
  lemma Base64Step(b: seq<byte>)
    requires |b| >= 3
    ensures Base64(b) == Group(b[0], b[1], b[2], false) + Base64(b[3..])
  {
  }

  lemma UnpaddedStep(b: seq<byte>)
    requires |b| >= 3
    ensures Unpadded(b) == Group(b[0], b[1], b[2], true) + Unpadded(b[3..])
  {
  }

  /** One complete group: the translation commutes with peeling it off. */
  lemma UrlSafeBase64Step(b: seq<byte>, p: string)
    requires |b| >= 3
    requires UrlSafe(Base64(b[3..])) == Unpadded(b[3..]) + p
    ensures UrlSafe(Base64(b)) == Unpadded(b) + p
  {
    Base64Step(b);
    UnpaddedStep(b);
    UrlSafeGroup(b[0], b[1], b[2]);
    Reassemble(Group(b[0], b[1], b[2], false), Group(b[0], b[1], b[2], true),
               Base64(b[3..]), Unpadded(b[3..]), p);
  }

  /** A complete group does not change the padding. */
  lemma PaddingStep(n: nat)
    requires n >= 3
    ensures Padding(n - 3) == Padding(n)
  {
    assert (n - 3) % 3 == n % 3;
  }

  lemma Reassemble(g: string, g': string, x: string, u: string, p: string)
    requires UrlSafe(g) == g' && UrlSafe(x) == u + p
    ensures UrlSafe(g + x) == (g' + u) + p
  {
    UrlSafeConcat(g, x);
  }

  /** Translating the padded standard encoding gives the unpadded URL-safe one, followed by its padding. */
  lemma {:induction false} UrlSafeBase64(b: seq<byte>)
    ensures UrlSafe(Base64(b)) == Unpadded(b) + Padding(|b|)
    decreases |b|
  {
    if |b| >= 3 {
      UrlSafeBase64(b[3..]);
      PaddingStep(|b|);
      UrlSafeBase64Step(b, Padding(|b|));
    } else if |b| == 2 {
      UrlSafeTwo(b);
    } else if |b| == 1 {
      UrlSafeOne(b);
    }
  }

  /** rtrim strips exactly a run of the trimmed character from a text that does not end in it. */
  lemma {:induction false} TrimRightRun(x: string, pad: string, c: char)
    requires x == [] || x[|x| - 1] != c
    requires forall i :: 0 <= i < |pad| ==> pad[i] == c
    ensures TrimRight(x + pad, c) == x
    decreases |pad|
  {
    if pad != [] {
      assert (x + pad)[..|x + pad| - 1] == x + pad[..|pad| - 1];
      TrimRightRun(x, pad[..|pad| - 1], c);
    } else {
      assert x + pad == x;
    }
  }

  /**
   * The PHP pipeline computes the reference encoding: URL-safe symbols only,
   * no '=', and ceil(8|b|/6) characters.
   */
  lemma Base64UrlIsUnpadded(b: seq<byte>)
    ensures Base64Url(b) == Unpadded(b)
    ensures |Base64Url(b)| == (4 * |b| + 2) / 3
    ensures forall i :: 0 <= i < |Base64Url(b)| ==> IsUrlChar(Base64Url(b)[i])
  {
    UrlSafeBase64(b);
    UnpaddedLength(b);
    var u := Unpadded(b);
    assert u == [] || IsUrlChar(u[|u| - 1]);
    TrimRightRun(u, Padding(|b|), '=');
  }

  /** A base64url digest holds none of the key separators and no padding. */
  lemma Base64UrlLacksSeparators(b: seq<byte>)
    ensures ':' !in Base64Url(b) && '.' !in Base64Url(b) && '=' !in Base64Url(b)
  {
    Base64UrlIsUnpadded(b);
  }

  /** A 24-byte digest (tiger192) encodes to 32 characters; a 32-byte one (sha256) to 43. */
  lemma Base64UrlWidths(b: seq<byte>)
    ensures |b| == 24 ==> |Base64Url(b)| == 32
    ensures |b| == 32 ==> |Base64Url(b)| == 43
  {
    Base64UrlIsUnpadded(b);
  }
}
