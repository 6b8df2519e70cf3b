/** The PKCE helpers: `base64UrlEncode`, and the code verifier and code
    challenge it encodes (section 4 of RFC 7636). The random fill and the
    SHA-256 digest are foreign calls; their bytes are parameters here. */
module Pkce {
  import opened Basics

  type byte = x: int | 0 <= x < 256

  /** The character for a 6-bit value: the alphabet of section 4 of RFC 4648,
      or with `url` the alphabet of section 5, which has `-` and `_` for 62
      and 63. */
  function Symbol(v: int, url: bool): (c: char)
    requires 0 <= v < 64
  {
    if v < 26 then (('A' as int) + v) as char
    else if v < 52 then (('a' as int) + (v - 26)) as char
    else if v < 62 then (('0' as int) + (v - 52)) as char
    else if v == 62 then (if url then '-' else '+')
    else (if url then '_' else '/')
  }

  /** Base64 of a byte string: each group of three bytes becomes four
      characters; a final group of two becomes three characters and of one
      becomes two, each followed by `=` padding up to four when `pad` is set. */
  function Encode(b: seq<byte>, url: bool, pad: bool): string {
    if |b| >= 3 then
      [Symbol(b[0] / 4, url), Symbol((b[0] % 4) * 16 + b[1] / 16, url),
       Symbol((b[1] % 16) * 4 + b[2] / 64, url), Symbol(b[2] % 64, url)]
      + Encode(b[3..], url, pad)
    else if |b| == 2 then
      [Symbol(b[0] / 4, url), Symbol((b[0] % 4) * 16 + b[1] / 16, url), Symbol((b[1] % 16) * 4, url)]
      + (if pad then "=" else "")
    else if |b| == 1 then
      [Symbol(b[0] / 4, url), Symbol((b[0] % 4) * 16, url)] + (if pad then "==" else "")
    else []
  }

  /** `btoa(String.fromCharCode(...array))`: every byte is one Latin-1
      character, so `btoa` encodes exactly the bytes, with padding. */
  function Btoa(b: seq<byte>): string {
    Encode(b, false, true)
  }

  /** Unpadded base64url, section 5 of RFC 4648 with the padding of section
      3.2 left off. */
  function Base64Url(b: seq<byte>): string {
    Encode(b, true, false)
  }

  /** `s.replace(/from/g, to)`. */
  function ReplaceAll(s: string, from: char, to: char): (r: string)
    ensures |r| == |s|
  {
    if s == [] then [] else [if s[0] == from then to else s[0]] + ReplaceAll(s[1..], from, to)
  }

  /** `s.replace(/c/g, '')`. */
  function RemoveAll(s: string, c: char): (r: string)
    ensures |r| <= |s|
  {
    if s == [] then [] else (if s[0] == c then [] else [s[0]]) + RemoveAll(s[1..], c)
  }

  /** `base64UrlEncode`. */
  function Base64UrlEncode(b: seq<byte>): string {
    RemoveAll(ReplaceAll(ReplaceAll(Btoa(b), '+', '-'), '/', '_'), '=')
  }

  /** The three rewrites of `base64UrlEncode`, one character at a time. */
  function Rewrite(c: char): string {
    if c == '=' then [] else if c == '+' then ['-'] else if c == '/' then ['_'] else [c]
  }

  function RewriteAll(s: string): string {
    if s == [] then [] else Rewrite(s[0]) + RewriteAll(s[1..])
  }

  lemma {:induction false} RewriteAllConcat(a: string, b: string)
    ensures RewriteAll(a + b) == RewriteAll(a) + RewriteAll(b)
  {
    if a == [] {
      assert a + b == b;
    } else {
      assert (a + b)[0] == a[0] && (a + b)[1..] == a[1..] + b;
      RewriteAllConcat(a[1..], b);
    }
  }

  /** The chain of `replace` calls is the character-wise rewrite. */
  lemma {:induction false} ReplaceChainIsRewrite(s: string)
    ensures RemoveAll(ReplaceAll(ReplaceAll(s, '+', '-'), '/', '_'), '=') == RewriteAll(s)
  {
    if s != [] {
      ReplaceChainIsRewrite(s[1..]);
      var r1 := ReplaceAll(s, '+', '-');
      var r2 := ReplaceAll(r1, '/', '_');
      assert r1[1..] == ReplaceAll(s[1..], '+', '-');
      assert r2[1..] == ReplaceAll(r1[1..], '/', '_');
    }
  }

  /** Rewriting a standard symbol gives the URL symbol. */
  lemma RewriteSymbol(v: int)
    requires 0 <= v < 64
    ensures Rewrite(Symbol(v, false)) == [Symbol(v, true)]
  {
  }

  lemma RewriteSymbols(vs: seq<int>)
    requires forall i :: 0 <= i < |vs| ==> 0 <= vs[i] < 64
    ensures RewriteAll(seq(|vs|, i requires 0 <= i < |vs| => Symbol(vs[i], false)))
         == seq(|vs|, i requires 0 <= i < |vs| => Symbol(vs[i], true))
    decreases |vs|
  {
    if vs != [] {
      var std := seq(|vs|, i requires 0 <= i < |vs| => Symbol(vs[i], false));
      var url := seq(|vs|, i requires 0 <= i < |vs| => Symbol(vs[i], true));
      RewriteSymbol(vs[0]);
      RewriteSymbols(vs[1..]);
      assert std[1..] == seq(|vs[1..]|, i requires 0 <= i < |vs[1..]| => Symbol(vs[1..][i], false));
      assert url == [Symbol(vs[0], true)] + url[1..];
      assert url[1..] == seq(|vs[1..]|, i requires 0 <= i < |vs[1..]| => Symbol(vs[1..][i], true));
    }
  }

  /** The rewrite of a run of standard symbols is the run of URL symbols. */
  lemma RewriteRun(a: int, b: int, c: int, d: int, n: nat)
    requires 0 <= a < 64 && 0 <= b < 64 && 0 <= c < 64 && 0 <= d < 64 && 2 <= n <= 4
    ensures RewriteAll([Symbol(a, false), Symbol(b, false), Symbol(c, false), Symbol(d, false)][..n])
         == [Symbol(a, true), Symbol(b, true), Symbol(c, true), Symbol(d, true)][..n]
  {
    var vs := [a, b, c, d][..n];
    RewriteSymbols(vs);
    assert seq(|vs|, i requires 0 <= i < |vs| => Symbol(vs[i], false))
        == [Symbol(a, false), Symbol(b, false), Symbol(c, false), Symbol(d, false)][..n];
    assert seq(|vs|, i requires 0 <= i < |vs| => Symbol(vs[i], true))
        == [Symbol(a, true), Symbol(b, true), Symbol(c, true), Symbol(d, true)][..n];
  }

  /** Rewriting padded standard base64 gives unpadded base64url. */
  lemma {:induction false} RewriteEncode(b: seq<byte>)
    ensures RewriteAll(Encode(b, false, true)) == Encode(b, true, false)
  {
    if |b| >= 3 {
      var v0, v1, v2, v3 := b[0] / 4, (b[0] % 4) * 16 + b[1] / 16, (b[1] % 16) * 4 + b[2] / 64, b[2] % 64;
      var head := [Symbol(v0, false), Symbol(v1, false), Symbol(v2, false), Symbol(v3, false)];
      RewriteAllConcat(head, Encode(b[3..], false, true));
      RewriteRun(v0, v1, v2, v3, 4);
      assert head[..4] == head;
      RewriteEncode(b[3..]);
    } else if |b| == 2 {
      var v0, v1, v2 := b[0] / 4, (b[0] % 4) * 16 + b[1] / 16, (b[1] % 16) * 4;
      var all := [Symbol(v0, false), Symbol(v1, false), Symbol(v2, false), Symbol(0, false)];
      assert Encode(b, false, true) == all[..3] + "=";
      assert Encode(b, true, false) == [Symbol(v0, true), Symbol(v1, true), Symbol(v2, true), Symbol(0, true)][..3];
      RewriteAllConcat(all[..3], "=");
      RewriteRun(v0, v1, v2, 0, 3);
      assert RewriteAll("=") == [] by { assert "="[1..] == []; }
    } else if |b| == 1 {
      var v0, v1 := b[0] / 4, (b[0] % 4) * 16;
      var all := [Symbol(v0, false), Symbol(v1, false), Symbol(0, false), Symbol(0, false)];
      assert Encode(b, false, true) == all[..2] + "==";
      assert Encode(b, true, false) == [Symbol(v0, true), Symbol(v1, true), Symbol(0, true), Symbol(0, true)][..2];
      RewriteAllConcat(all[..2], "==");
      RewriteRun(v0, v1, 0, 0, 2);
      assert RewriteAll("==") == [] by { assert "=="[1..] == "="; assert "="[1..] == []; }
    }
  }

  /** `base64UrlEncode` is unpadded base64url (section 5 of RFC 4648). */
  lemma Base64UrlEncodeIsBase64Url(b: seq<byte>)
    ensures Base64UrlEncode(b) == Base64Url(b)
  {
    ReplaceChainIsRewrite(Btoa(b));
    RewriteEncode(b);
  }

  /** A character of the URL alphabet: letters, digits, `-` and `_`. */
  predicate IsUrlSymbol(c: char) {
    'A' <= c <= 'Z' || 'a' <= c <= 'z' || '0' <= c <= '9' || c == '-' || c == '_'
  }

  lemma {:induction false} Base64UrlSymbols(b: seq<byte>)
    ensures forall i :: 0 <= i < |Base64Url(b)| ==> IsUrlSymbol(Base64Url(b)[i])
  {
    if |b| >= 3 {
      Base64UrlSymbols(b[3..]);
      var r := Base64Url(b);
      forall i | 4 <= i < |r| ensures IsUrlSymbol(r[i]) {
        assert r[i] == Base64Url(b[3..])[i - 4];
      }
    }
  }

  /** For `n` bytes the output has `ceil(4n / 3)` characters. */
  lemma {:induction false} Base64UrlLength(b: seq<byte>)
    ensures |Base64Url(b)| == (4 * |b| + 2) / 3
  {
    if |b| >= 3 {
      Base64UrlLength(b[3..]);
    }
  }

  /** The 6-bit value of a URL-alphabet character. */
  function SymbolValue(c: char): Option<int> {
    if 'A' <= c <= 'Z' then Some(c as int - 'A' as int)
    else if 'a' <= c <= 'z' then Some(c as int - 'a' as int + 26)
    else if '0' <= c <= '9' then Some(c as int - '0' as int + 52)
    else if c == '-' then Some(62)
    else if c == '_' then Some(63)
    else None
  }

  lemma SymbolValueInverse(v: int)
    requires 0 <= v < 64
    ensures SymbolValue(Symbol(v, true)) == Some(v)
  {
  }

  /** Decoding of unpadded base64url: four characters give three bytes, a
      final three give two and a final two give one; one character left
      over, or a character outside the alphabet, is an error. */
  function Decode(s: string): Option<seq<byte>> {
    if |s| == 0 then Some([])
    else if |s| == 1 then None
    else
      var v0, v1 := SymbolValue(s[0]), SymbolValue(s[1]);
      var v2 := if |s| >= 3 then SymbolValue(s[2]) else Some(0);
      var v3 := if |s| >= 4 then SymbolValue(s[3]) else Some(0);
      if v0.None? || v1.None? || v2.None? || v3.None? then None
      else if !(0 <= v0.value < 64 && 0 <= v1.value < 64 && 0 <= v2.value < 64 && 0 <= v3.value < 64) then None
      else
        var b0 := v0.value * 4 + v1.value / 16;
        var b1 := (v1.value % 16) * 16 + v2.value / 4;
        var b2 := (v2.value % 4) * 64 + v3.value;
        if |s| == 2 then Some([b0])
        else if |s| == 3 then Some([b0, b1])
        else
          var rest := Decode(s[4..]);
          if rest.None? then None else Some([b0, b1, b2] + rest.value)
  }

  /** The bit arithmetic of one group: splitting three bytes into four 6-bit
      values and joining them again gives the bytes back. */
  lemma GroupRoundTrip(a: byte, b: byte, c: byte)
    ensures var v0, v1, v2, v3 := a / 4, (a % 4) * 16 + b / 16, (b % 16) * 4 + c / 64, c % 64;
      && 0 <= v0 < 64 && 0 <= v1 < 64 && 0 <= v2 < 64 && 0 <= v3 < 64
      && v0 * 4 + v1 / 16 == a
      && (v1 % 16) * 16 + v2 / 4 == b
      && (v2 % 4) * 64 + v3 == c
  {
    var v1, v2 := (a % 4) * 16 + b / 16, (b % 16) * 4 + c / 64;
    assert v1 / 16 == a % 4 && v1 % 16 == b / 16;
    assert v2 / 4 == b % 16 && v2 % 4 == c / 64;
  }

  /** One full group decodes to its three bytes, then the rest. */
  lemma DecodeGroup(a: byte, b: byte, c: byte, t: string, r: seq<byte>)
    requires Decode(t) == Some(r)
    ensures var v0, v1, v2, v3 := a / 4, (a % 4) * 16 + b / 16, (b % 16) * 4 + c / 64, c % 64;
      Decode([Symbol(v0, true), Symbol(v1, true), Symbol(v2, true), Symbol(v3, true)] + t) == Some([a, b, c] + r)
  {
    GroupRoundTrip(a, b, c);
    var v0, v1, v2, v3 := a / 4, (a % 4) * 16 + b / 16, (b % 16) * 4 + c / 64, c % 64;
    SymbolValueInverse(v0);
    SymbolValueInverse(v1);
    SymbolValueInverse(v2);
    SymbolValueInverse(v3);
    var s := [Symbol(v0, true), Symbol(v1, true), Symbol(v2, true), Symbol(v3, true)] + t;
    assert s[4..] == t;
  }

  /** A final group of two bytes or of one byte decodes back. */
  lemma DecodeTail(a: byte, b: byte)
    ensures var v0, v1 := a / 4, (a % 4) * 16 + b / 16;
      && Decode([Symbol(v0, true), Symbol(v1, true), Symbol((b % 16) * 4, true)]) == Some([a, b])
      && Decode([Symbol(v0, true), Symbol((a % 4) * 16, true)]) == Some([a])
  {
    GroupRoundTrip(a, b, 0);
    GroupRoundTrip(a, 0, 0);
    SymbolValueInverse(a / 4);
    SymbolValueInverse((a % 4) * 16 + b / 16);
    SymbolValueInverse((b % 16) * 4);
    SymbolValueInverse((a % 4) * 16);
  }

  /** Decoding undoes the encoding: base64url loses nothing. */
  lemma {:induction false} DecodeBase64Url(b: seq<byte>)
    ensures Decode(Base64Url(b)) == Some(b)
  {
    if |b| >= 3 {
      DecodeBase64Url(b[3..]);
      DecodeGroup(b[0], b[1], b[2], Base64Url(b[3..]), b[3..]);
      assert b == [b[0], b[1], b[2]] + b[3..];
    } else if |b| == 2 {
      DecodeTail(b[0], b[1]);
      assert Base64Url(b) == [Symbol(b[0] / 4, true), Symbol((b[0] % 4) * 16 + b[1] / 16, true), Symbol((b[1] % 16) * 4, true)];
      assert b == [b[0], b[1]];
    } else if |b| == 1 {
      DecodeTail(b[0], 0);
      assert Base64Url(b) == [Symbol(b[0] / 4, true), Symbol((b[0] % 4) * 16, true)];
      assert b == [b[0]];
    }
  }

  /** So two byte strings with the same encoding are equal. */
  lemma Base64UrlEncodeInjective(a: seq<byte>, b: seq<byte>)
    requires Base64UrlEncode(a) == Base64UrlEncode(b)
    ensures a == b
  {
    Base64UrlEncodeIsBase64Url(a);
    Base64UrlEncodeIsBase64Url(b);
    DecodeBase64Url(a);
    DecodeBase64Url(b);
  }

  /** The output holds no `+`, `/` or `=`: only letters, digits, `-` and `_`,
      all of them unreserved characters (section 2.3 of RFC 3986), and it has
      `ceil(4n / 3)` characters for `n` bytes. */
  lemma Base64UrlEncodeShape(b: seq<byte>)
    ensures forall i :: 0 <= i < |Base64UrlEncode(b)| ==> IsUrlSymbol(Base64UrlEncode(b)[i])
    ensures forall i :: 0 <= i < |Base64UrlEncode(b)| ==>
      Base64UrlEncode(b)[i] !in {'+', '/', '='}
    ensures |Base64UrlEncode(b)| == (4 * |b| + 2) / 3
  {
    Base64UrlEncodeIsBase64Url(b);
    Base64UrlSymbols(b);
    Base64UrlLength(b);
  }

  const VerifierBytes := 32
  const DigestBytes := 32
  const MinVerifierLength := 43
  const MaxVerifierLength := 128

  /** `generateCodeVerifier`, given the 32 bytes `getRandomValues` fills. */
  function CodeVerifier(random: seq<byte>): (r: string)
    requires |random| == VerifierBytes
    ensures |r| == 43 && MinVerifierLength <= |r| <= MaxVerifierLength
    ensures forall i :: 0 <= i < |r| ==> IsUrlSymbol(r[i])
  {
    Base64UrlEncodeShape(random);
    Base64UrlEncode(random)
  }

  /** `generateCodeChallenge`, given the SHA-256 digest of the verifier,
      which is 32 bytes: the `S256` challenge of section 4.2 of RFC 7636. */
  function CodeChallenge(digest: seq<byte>): (r: string)
    requires |digest| == DigestBytes
    ensures |r| == 43
    ensures forall i :: 0 <= i < |r| ==> IsUrlSymbol(r[i])
  {
    Base64UrlEncodeShape(digest);
    Base64UrlEncode(digest)
  }
}
