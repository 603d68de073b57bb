/** URL handling of main.go (`resolveURL`), together with the parts of Go's
    net/url that the client relies on: how `url.Parse` finds the scheme, when
    it fails, and `url.PathEscape` for search queries. */
module Urls {
  import opened Common

  const ZoroScheme := "zoro"
  const ZorosScheme := "zoros"

  // ---------------------------------------------------------------------------
  // Characters

  /** An ASCII control character, which url.Parse refuses. */
  predicate IsCtl(c: char)
  {
    c < ' ' || c as int == 127
  }

  predicate HasCtl(s: string)
  {
    exists i | 0 <= i < |s| :: IsCtl(s[i])
  }

  predicate IsLetter(c: char)
  {
    ('a' <= c <= 'z') || ('A' <= c <= 'Z')
  }

  predicate IsDigit(c: char)
  {
    '0' <= c <= '9'
  }

  /** A character allowed in a scheme after its first letter. */
  predicate IsSchemeChar(c: char)
  {
    IsLetter(c) || IsDigit(c) || c == '+' || c == '-' || c == '.'
  }

  function ToLower(c: char): char
  {
    if 'A' <= c <= 'Z' then (c as int + 32) as char else c
  }

  function Lower(s: string): (r: string)
    ensures |r| == |s|
    ensures forall i | 0 <= i < |s| :: r[i] == ToLower(s[i])
  {
    seq(|s|, i requires 0 <= i < |s| => ToLower(s[i]))
  }

  // ---------------------------------------------------------------------------
  // url.Parse, as far as the client depends on it

  /** The part of `s` before its first '#': url.Parse splits the fragment off
      before it inspects the rest. */
  function BeforeFragment(s: string): (r: string)
    ensures |r| <= |s| && r == s[..|r|]
    ensures forall i | 0 <= i < |r| :: r[i] != '#'
    ensures |r| < |s| ==> s[|r|] == '#'
  {
    if s == [] || s[0] == '#' then [] else [s[0]] + BeforeFragment(s[1..])
  }

  /** `s` starts with a scheme whose ':' is at index `k`: a letter, then
      letters, digits, '+', '-' or '.', then the ':'. */
  predicate SchemeAt(s: string, k: nat)
  {
    0 < k < |s| && s[k] == ':' && IsLetter(s[0]) && forall j | 0 <= j < k :: IsSchemeChar(s[j])
  }

  /** Go's getScheme, scanning `s` from index `i` (everything before `i` may
      belong to a scheme): `Ok(k)` with `k > 0` means the scheme is `s[..k]`;
      `Ok(0)` means there is no scheme; a ':' in the very first position is an
      error. */
  function SchemeScan(s: string, i: nat): (r: Result<nat>)
    requires i <= |s|
    requires forall j | 0 <= j < i :: IsSchemeChar(s[j])
    requires 0 < i ==> IsLetter(s[0])
    ensures r.Ok? && r.value > 0 ==> i <= r.value && SchemeAt(s, r.value)
    ensures r.Ok? && r.value == 0 ==> forall k | 0 < k < |s| :: !SchemeAt(s, k)
    ensures r.Err? <==> i == 0 && 0 < |s| && s[0] == ':'
    decreases |s| - i
  {
    if i == |s| then
      assert forall k | 0 < k < |s| :: !SchemeAt(s, k) by {
        forall k | 0 < k < |s| ensures !SchemeAt(s, k) {
          assert IsSchemeChar(s[k]);
        }
      }
      Ok(0)
    else if IsLetter(s[i]) then SchemeScan(s, i + 1)
    else if IsDigit(s[i]) || s[i] == '+' || s[i] == '-' || s[i] == '.' then
      if i == 0 then Ok(0) else SchemeScan(s, i + 1)
    else if s[i] == ':' then
      if i == 0 then Err(MissingScheme) else Ok(i)
    else
      assert forall k | 0 < k < |s| :: !SchemeAt(s, k) by {
        forall k | 0 < k < |s| ensures !SchemeAt(s, k) {
          if k < i {
            assert IsSchemeChar(s[k]);
          } else if k > i {
            assert !IsSchemeChar(s[i]);
          }
        }
      }
      Ok(0)
  }

  /** A parsed URL: its lower-cased scheme ("" when it has none) and the text
      after the scheme's ':' (the whole URL when there is no scheme). */
  datatype Url = Url(scheme: string, rest: string)

  /** `url.Parse`. Only the failures the client can run into through its own
      inputs are modelled: a control character before the fragment, and a
      URL that begins with ':'. */
  function Parse(raw: string): (r: Result<Url>)
    ensures r.Err? <==> HasCtl(BeforeFragment(raw)) || (|raw| > 0 && raw[0] == ':')
    ensures r.Ok? && r.value.scheme == "" ==>
      r.value.rest == raw && forall k | 0 < k < |BeforeFragment(raw)| :: !SchemeAt(BeforeFragment(raw), k)
    ensures r.Ok? && r.value.scheme != "" ==>
      var k := |r.value.scheme|;
      && SchemeAt(BeforeFragment(raw), k)
      && k < |raw| && raw[k] == ':'
      && r.value.scheme == Lower(raw[..k]) && r.value.rest == raw[k + 1..]
  {
    var head := BeforeFragment(raw);
    if HasCtl(head) then Err(InvalidControlChar)
    else
      match SchemeScan(head, 0)
      case Err(e) => Err(e)
      case Ok(k) =>
        if k == 0 then Ok(Url("", raw))
        else
          Ok(Url(Lower(raw[..k]), raw[k + 1..]))
  }

  /** `u.String()`: the scheme, its ':' and the rest, verbatim. */
  function Serialize(u: Url): string
  {
    if u.scheme == "" then u.rest else u.scheme + ":" + u.rest
  }

  // ---------------------------------------------------------------------------
  // resolveURL (main.go)

  /** Rewrites the custom schemes: `zoro:x` becomes `<zoro>http:x` and
      `zoros:x` becomes `<zoro>https:x`, where `zoro` is the configured base of
      the zoro service; every other URL is returned as it is. */
  function ResolveURL(zoro: string, raw: string): (r: Result<string>)
    ensures match Parse(raw)
      case Err(e) => r == Err(Wrapped("parse", e))
      case Ok(u) =>
        && (u.scheme == ZoroScheme ==> r == Ok(zoro + "http" + raw[|ZoroScheme|..]))
        && (u.scheme == ZorosScheme ==> r == Ok(zoro + "https" + raw[|ZorosScheme|..]))
        && (u.scheme != ZoroScheme && u.scheme != ZorosScheme ==> r == Ok(raw))
  {
    match Parse(raw)
    case Err(e) => Err(Wrapped("parse", e))
    case Ok(u) =>
      if u.scheme == ZoroScheme then
        SchemeTail(raw, u);
        assert zoro + Serialize(u.(scheme := "http")) == zoro + "http" + raw[|ZoroScheme|..];
        Ok(zoro + Serialize(u.(scheme := "http")))
      else if u.scheme == ZorosScheme then
        SchemeTail(raw, u);
        assert zoro + Serialize(u.(scheme := "https")) == zoro + "https" + raw[|ZorosScheme|..];
        Ok(zoro + Serialize(u.(scheme := "https")))
      else Ok(raw)
  }

  /** What follows a parsed scheme in the raw URL is its ':' and the rest. */
  lemma SchemeTail(raw: string, u: Url)
    requires Parse(raw) == Ok(u) && u.scheme != ""
    ensures raw[|u.scheme|..] == ":" + u.rest
  {
    var k := |u.scheme|;
    assert raw[k..] == [raw[k]] + raw[k + 1..];
  }

  /** A letters-only word followed by ':' is found as the scheme. */
  lemma {:induction false} SchemeScanFindsWord(s: string, k: nat, i: nat)
    requires 0 < k < |s| && i <= k && s[k] == ':'
    requires forall j | 0 <= j < k :: IsLetter(s[j])
    ensures SchemeScan(s, i) == Ok(k)
    decreases k - i
  {
    if i < k {
      SchemeScanFindsWord(s, k, i + 1);
    }
  }

  /** A URL written `zoro:<rest>` resolves to the zoro base followed by
      `http:<rest>`. */
  lemma ResolveZoro(zoro: string, rest: string)
    requires !HasCtl(rest)
    ensures ResolveURL(zoro, "zoro:" + rest) == Ok(zoro + "http:" + rest)
  {
    var raw := "zoro:" + rest;
    assert !HasCtl(raw) by {
      forall i | 0 <= i < |raw| ensures !IsCtl(raw[i]) {
        if i >= 5 { assert raw[i] == rest[i - 5]; }
      }
    }
    ParseScheme(raw, 4);
    assert Lower(raw[..4]) == ZoroScheme;
    assert raw[4..] == ":" + rest;
    assert zoro + "http" + raw[4..] == zoro + "http:" + rest;
  }

  /** A URL written `zoros:<rest>` resolves to the zoro base followed by
      `https:<rest>`. */
  lemma ResolveZoros(zoro: string, rest: string)
    requires !HasCtl(rest)
    ensures ResolveURL(zoro, "zoros:" + rest) == Ok(zoro + "https:" + rest)
  {
    var raw := "zoros:" + rest;
    assert !HasCtl(raw) by {
      forall i | 0 <= i < |raw| ensures !IsCtl(raw[i]) {
        if i >= 6 { assert raw[i] == rest[i - 6]; }
      }
    }
    ParseScheme(raw, 5);
    assert Lower(raw[..5]) == ZorosScheme;
    assert raw[5..] == ":" + rest;
    assert zoro + "https" + raw[5..] == zoro + "https:" + rest;
  }

  /** A URL without control characters that starts with a word of letters
      and a ':' has that word, lower-cased, as its scheme. */
  lemma ParseScheme(raw: string, k: nat)
    requires 0 < k < |raw| && raw[k] == ':'
    requires forall j | 0 <= j < k :: IsLetter(raw[j])
    requires !HasCtl(raw)
    ensures Parse(raw) == Ok(Url(Lower(raw[..k]), raw[k + 1..]))
  {
    NoCtlInPrefix(raw, k + 1);
    SchemeScanFindsWord(BeforeFragment(raw), k, 0);
  }

  /** A URL without control characters and without any ':' has no scheme. */
  lemma ParseNoScheme(raw: string)
    requires !HasCtl(raw)
    requires forall i | 0 <= i < |raw| :: raw[i] != ':'
    ensures Parse(raw) == Ok(Url("", raw))
  {
    NoCtlInPrefix(raw, 0);
  }

  /** A URL without control characters that starts with `http:` or `https:`
      has that scheme. */
  lemma ParseWebScheme(raw: string)
    requires !HasCtl(raw)
    requires HasPrefix(raw, "http:") || HasPrefix(raw, "https:")
    ensures Parse(raw).Ok? && Parse(raw).value.scheme in {"http", "https"}
  {
    if HasPrefix(raw, "http:") {
      assert raw[..5] == "http:";
      ParseScheme(raw, 4);
      assert Lower(raw[..4]) == "http";
    } else {
      assert raw[..6] == "https:";
      ParseScheme(raw, 5);
      assert Lower(raw[..5]) == "https";
    }
  }

  /** Whatever the zoro base, resolution leaves `http:` and `https:` URLs and
      URLs without any ':' unchanged. */
  lemma ResolveIdentity(zoro: string, raw: string)
    requires !HasCtl(raw)
    requires HasPrefix(raw, "http:") || HasPrefix(raw, "https:") || forall i | 0 <= i < |raw| :: raw[i] != ':'
    ensures ResolveURL(zoro, raw) == Ok(raw)
  {
    if HasPrefix(raw, "http:") || HasPrefix(raw, "https:") {
      ParseWebScheme(raw);
    } else {
      ParseNoScheme(raw);
    }
  }

  /** The first `n` characters of `s` (none of them a '#') are kept by
      BeforeFragment, and when `s` has no control character neither has
      BeforeFragment(s). */
  lemma NoCtlInPrefix(s: string, n: nat)
    requires n <= |s|
    requires forall i | 0 <= i < n :: s[i] != '#'
    requires !HasCtl(s)
    ensures |BeforeFragment(s)| >= n
    ensures !HasCtl(BeforeFragment(s))
  {
    var head := BeforeFragment(s);
    forall i | 0 <= i < |head| ensures !IsCtl(head[i]) {
      assert head[i] == s[i];
    }
  }

  // ---------------------------------------------------------------------------
  // url.PathEscape and its inverse url.PathUnescape

  const UpperHex := "0123456789ABCDEF"

  /** Bytes that url.PathEscape leaves as they are: letters, digits,
      '-', '_', '.', '~' and, inside a path segment, '$', '&', '+', ':', '=',
      '@'. Everything else, '/', ';', ',' and '?' included, is escaped. */
  predicate KeptInSegment(b: byte)
  {
    var c := b as char;
    IsLetter(c) || IsDigit(c) ||
    c == '-' || c == '_' || c == '.' || c == '~' ||
    c == '$' || c == '&' || c == '+' || c == ':' || c == '=' || c == '@'
  }

  function EscapeByte(b: byte): (r: string)
    ensures forall i | 0 <= i < |r| :: r[i] != '/' && r[i] != '?' && r[i] != '#' && r[i] != ' '
  {
    if KeptInSegment(b) then [b as char] else ['%', UpperHex[b / 16], UpperHex[b % 16]]
  }

  /** `url.PathEscape`: the text percent-encoded so that it stays inside one
      path segment. */
  function PathEscape(t: seq<byte>): (r: string)
    ensures |t| <= |r| <= 3 * |t|
    ensures forall i | 0 <= i < |r| :: r[i] != '/' && r[i] != '?' && r[i] != '#' && r[i] != ' '
  {
    if t == [] then "" else EscapeByte(t[0]) + PathEscape(t[1..])
  }

  function HexValue(c: char): Option<byte>
  {
    if '0' <= c <= '9' then Some(c as int - '0' as int)
    else if 'A' <= c <= 'F' then Some(c as int - 'A' as int + 10)
    else if 'a' <= c <= 'f' then Some(c as int - 'a' as int + 10)
    else None
  }

  /** `url.PathUnescape`: fails on a '%' not followed by two hex digits; a
      character above 255 cannot stand for a byte here either. */
  function PathUnescape(s: string): Option<seq<byte>>
    decreases |s|
  {
    if s == [] then Some([])
    else if s[0] == '%' then
      if |s| < 3 then None
      else
        match (HexValue(s[1]), HexValue(s[2]), PathUnescape(s[3..]))
        case (Some(hi), Some(lo), Some(t)) => Some([hi * 16 + lo] + t)
        case _ => None
    else if s[0] as int < 256 then
      match PathUnescape(s[1..])
      case Some(t) => Some([s[0] as int] + t)
      case None => None
    else None
  }

  lemma HexDigitRoundTrip(n: int)
    requires 0 <= n < 16
    ensures HexValue(UpperHex[n]) == Some(n)
  {
    if n < 10 {
      assert UpperHex[n] as int == '0' as int + n by {
        assert UpperHex[..10] == "0123456789";
      }
    } else {
      assert UpperHex[n] as int == 'A' as int + n - 10 by {
        assert UpperHex[10..] == "ABCDEF";
        assert UpperHex[n] == UpperHex[10..][n - 10];
      }
    }
  }

  lemma UnescapeAfterByte(b: byte, s: string)
    ensures PathUnescape(EscapeByte(b) + s) ==
      match PathUnescape(s) case Some(t) => Some([b] + t) case None => None
  {
    var e := EscapeByte(b) + s;
    if KeptInSegment(b) {
      assert e[0] == b as char && e[1..] == s;
    } else {
      HexDigitRoundTrip(b / 16);
      HexDigitRoundTrip(b % 16);
      assert e[0] == '%' && e[1] == UpperHex[b / 16] && e[2] == UpperHex[b % 16] && e[3..] == s;
    }
  }

  /** Unescaping an escaped query gives back exactly the text that was typed. */
  lemma {:induction false} PathEscapeRoundTrip(t: seq<byte>)
    ensures PathUnescape(PathEscape(t)) == Some(t)
  {
    if t != [] {
      PathEscapeRoundTrip(t[1..]);
      UnescapeAfterByte(t[0], PathEscape(t[1..]));
      assert [t[0]] + t[1..] == t;
    }
  }
}
