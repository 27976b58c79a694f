/**
 * The start-location token a client sends: "home", "last", or the custom form
 * `uri:<region>&<x>&<y>&<z>`, where a region of the form `name@host[:port]` names a
 * region on a foreign grid.
 */
module StartLocation {
  import opened Wrappers
  import opened Strings
  import opened Numerals
  import opened LoginTypes

  /** What the custom-location pattern captures: the region text and the position. */
  datatype UriMatch = UriMatch(region: string, position: Vec3)

  datatype StartToken = HomeToken | LastToken | Custom(uri: Option<UriMatch>)

  /** A foreign region reference: region name, gatekeeper host and port (0 = unspecified). */
  datatype ForeignRef = ForeignRef(region: string, host: string, port: nat)

  /** Classifies the token; anything but "home" and "last" is matched as a custom location. */
  function ParseStart(s: string): (t: StartToken)
    ensures t.HomeToken? <==> s == "home"
    ensures t.LastToken? <==> s == "last"
    ensures t.Custom? ==> t.uri == MatchUri(s)
  {
    if s == "home" then HomeToken
    else if s == "last" then LastToken
    else Custom(MatchUri(s))
  }

  /**
   * The pattern `^uri:(?<region>[^&]+)&(?<x>\d+)&(?<y>\d+)&(?<z>\d+)$`. As in .NET, `$`
   * also matches just before one final newline. The region cannot hold '&' and the
   * numbers are digits only, so the text after "uri:" must split on '&' into exactly four
   * non-empty fields, the last three numerals.
   */
  function MatchUri(s: string): (m: Option<UriMatch>)
    ensures m.Some? ==> |m.value.region| > 0 && '&' !in m.value.region
    ensures m.Some? ==> "uri:" <= s
  {
    MatchBody(if |s| > 0 && s[|s| - 1] == '\n' then s[..|s| - 1] else s)
  }

  /** The custom-location token of a region and three coordinate texts. */
  function Token(region: string, x: string, y: string, z: string): string
  {
    "uri:" + region + "&" + x + "&" + y + "&" + z
  }

  /** The match of a text with no final newline: "uri:" and then the captured fields. */
  function MatchBody(body: string): (m: Option<UriMatch>)
    ensures m.Some? ==> |m.value.region| > 0 && '&' !in m.value.region
    ensures m.Some? ==> "uri:" <= body
  {
    if |body| < 4 || body[..4] != "uri:" then None
    else Captures(Split(body[4..], '&'))
  }

  /** The four '&'-separated fields as the pattern's groups: a non-empty region, then three numerals. */
  function Captures(fields: seq<string>): (m: Option<UriMatch>)
    requires forall i :: 0 <= i < |fields| ==> '&' !in fields[i]
    ensures m.Some? ==> |m.value.region| > 0 && '&' !in m.value.region
    ensures m.Some? ==>
      && |fields| == 4 && m.value.region == fields[0]
      && IsNumeral(fields[1]) && IsNumeral(fields[2]) && IsNumeral(fields[3])
      && m.value.position == Vec3(DigitsValue(fields[1]), DigitsValue(fields[2]), DigitsValue(fields[3]))
  {
    if |fields| == 4 && |fields[0]| > 0
      && IsNumeral(fields[1]) && IsNumeral(fields[2]) && IsNumeral(fields[3])
    then
      Some(UriMatch(fields[0], Vec3(DigitsValue(fields[1]), DigitsValue(fields[2]), DigitsValue(fields[3]))))
    else None
  }

  /**
   * Every match has the pattern's form: the text is the token of the captured region and
   * three numerals, possibly followed by one newline, and the position is the numerals'
   * values. Together with `MatchFields` this pins down exactly which texts match.
   */
  lemma MatchUriForm(s: string)
    ensures var m := MatchUri(s);
      m.Some? ==> exists x, y, z ::
        && IsNumeral(x) && IsNumeral(y) && IsNumeral(z)
        && (s == Token(m.value.region, x, y, z) || s == Token(m.value.region, x, y, z) + "\n")
        && m.value.position == Vec3(DigitsValue(x), DigitsValue(y), DigitsValue(z))
  {
    var body := if |s| > 0 && s[|s| - 1] == '\n' then s[..|s| - 1] else s;
    assert body == s || s == body + "\n";
    BodyForm(body);
  }

  /** `MatchUriForm` for a text without its final newline. */
  lemma BodyForm(body: string)
    ensures var m := MatchBody(body);
      m.Some? ==> exists x, y, z ::
        && IsNumeral(x) && IsNumeral(y) && IsNumeral(z)
        && body == Token(m.value.region, x, y, z)
        && m.value.position == Vec3(DigitsValue(x), DigitsValue(y), DigitsValue(z))
  {
    if |body| >= 4 && body[..4] == "uri:" {
      var rest := body[4..];
      var fields := Split(rest, '&');
      FourFields(rest, '&');
      assert body == "uri:" + rest;
      if |fields| == 4 {
        PrefixFields("uri:", fields[0], "&", fields[1], fields[2], fields[3]);
        assert body == Token(fields[0], fields[1], fields[2], fields[3]);
      }
    }
  }

  /** A text that splits into four fields is those fields joined by the separator. */
  lemma FourFields(rest: string, d: char)
    ensures var f := Split(rest, d);
      |f| == 4 ==> rest == f[0] + [d] + f[1] + [d] + f[2] + [d] + f[3]
  {
    var f := Split(rest, d);
    JoinSplit(rest, d);
    if |f| == 4 {
      assert f == [f[0], f[1], f[2], f[3]];
      JoinFour(f[0], f[1], f[2], f[3], d);
    }
  }

  /** The join of four fields. */
  lemma JoinFour(a: string, b: string, c: string, e: string, d: char)
    ensures Join([a, b, c, e], d) == a + [d] + b + [d] + c + [d] + e
  {
    assert [c, e][1..] == [e];
    assert Join([c, e], d) == c + [d] + e;
    assert [b, c, e][1..] == [c, e];
    assert Join([b, c, e], d) == b + [d] + (c + [d] + e);
    assert [a, b, c, e][1..] == [b, c, e];
    Nest(a, b, c, e, d);
  }

  /**
   * Splits `name@host[:port]`: the region is the text before the first '@', the host the
   * text between it and the next '@' up to the first ':', and the port the UInt32.TryParse
   * of the text after that ':' (0 when absent or unparsable). No value when there is no '@'.
   */
  function SplitForeign(name: string): (f: Option<ForeignRef>)
    ensures f.Some? <==> '@' in name
    ensures f.Some? ==> '@' !in f.value.region && '@' !in f.value.host && ':' !in f.value.host
    ensures f.Some? ==> f.value.port <= UInt32Max
  {
    var parts := Split(name, '@');
    if |parts| < 2 then
      assert '@' !in name by {
        if '@' in name { SplitAtSeparator(name, '@'); }
      }
      None
    else
      assert '@' in name by {
        if '@' !in name { SplitWithoutSeparator(name, '@'); }
      }
      var locator := Split(parts[1], ':');
      var port := if |locator| > 1 then TryParseUInt32(locator[1]).GetOr(0) else 0;
      Some(ForeignRef(parts[0], locator[0], port))
  }

  /** The custom token for a region and a position. */
  function UriText(region: string, p: Vec3): string
  {
    Token(region, NatText(p.x), NatText(p.y), NatText(p.z))
  }

  lemma NumeralHasNoSeparator(s: string, d: char)
    requires IsNumeral(s) && !IsDigit(d)
    ensures d !in s
  {
  }

  /** Four fields joined by a separator none of them contains split back into those fields. */
  lemma SplitFour(a: string, b: string, c: string, e: string, d: char)
    requires d !in a && d !in b && d !in c && d !in e
    ensures Split(a + [d] + b + [d] + c + [d] + e, d) == [a, b, c, e]
  {
    var tail := c + [d] + e;
    SplitPair(c, e, d);
    var mid := b + [d] + tail;
    SplitAfterField(b, tail, d);
    Nest(a, b, c, e, d);
    SplitAfterField(a, mid, d);
  }

  /** Four fields joined by a separator, regrouped from the right. */
  lemma Nest(a: string, b: string, c: string, e: string, d: char)
    ensures a + [d] + b + [d] + c + [d] + e == a + [d] + (b + [d] + (c + [d] + e))
  {
  }

  /** A token whose text after "uri:" splits into a region and three numerals matches. */
  lemma MatchSplit(rest: string, region: string, x: string, y: string, z: string)
    requires Split(rest, '&') == [region, x, y, z]
    requires |region| > 0 && IsNumeral(x) && IsNumeral(y) && IsNumeral(z)
    requires |rest| > 0 && rest[|rest| - 1] != '\n'
    ensures MatchUri("uri:" + rest)
      == Some(UriMatch(region, Vec3(DigitsValue(x), DigitsValue(y), DigitsValue(z))))
  {
    TokenBody(rest);
    CapturesOf(region, x, y, z);
  }

  /** Four fields, a non-empty region and three numerals, are captured as they stand. */
  lemma CapturesOf(region: string, x: string, y: string, z: string)
    requires '&' !in region && '&' !in x && '&' !in y && '&' !in z
    requires |region| > 0 && IsNumeral(x) && IsNumeral(y) && IsNumeral(z)
    ensures Captures([region, x, y, z])
      == Some(UriMatch(region, Vec3(DigitsValue(x), DigitsValue(y), DigitsValue(z))))
  {
    var fields := [region, x, y, z];
    assert fields[0] == region && fields[1] == x && fields[2] == y && fields[3] == z;
  }

  /** A token "uri:" + rest without a final newline matches as the fields of rest do. */
  lemma TokenBody(rest: string)
    requires |rest| > 0 && rest[|rest| - 1] != '\n'
    ensures MatchUri("uri:" + rest) == Captures(Split(rest, '&'))
  {
    var s := "uri:" + rest;
    assert s[|s| - 1] == rest[|rest| - 1];
    NoFinalNewline(s);
    PrefixedBody(rest);
  }

  /** A text that does not end in a newline is matched as it stands. */
  lemma NoFinalNewline(s: string)
    requires |s| > 0 && s[|s| - 1] != '\n'
    ensures MatchUri(s) == MatchBody(s)
  {
  }

  /** A text after "uri:" is split into fields on '&'. */
  lemma PrefixedBody(rest: string)
    ensures MatchBody("uri:" + rest) == Captures(Split(rest, '&'))
  {
    var s := "uri:" + rest;
    assert s[..4] == "uri:" && s[4..] == rest;
  }

  /** A token of a region without '&' and three numerals matches, and gives back its parts. */
  lemma MatchFields(region: string, x: string, y: string, z: string)
    requires |region| > 0 && '&' !in region
    requires IsNumeral(x) && IsNumeral(y) && IsNumeral(z)
    ensures MatchUri(Token(region, x, y, z))
      == Some(UriMatch(region, Vec3(DigitsValue(x), DigitsValue(y), DigitsValue(z))))
  {
    var rest := region + "&" + x + "&" + y + "&" + z;
    NumeralHasNoSeparator(x, '&');
    NumeralHasNoSeparator(y, '&');
    NumeralHasNoSeparator(z, '&');
    SplitFour(region, x, y, z, '&');
    LastOfTail(region + "&" + x + "&" + y + "&", z);
    MatchSplit(rest, region, x, y, z);
    PrefixFields("uri:", region, "&", x, y, z);
  }

  /** The last element of a sequence ending in a non-empty tail is the tail's last. */
  lemma LastOfTail<T>(a: seq<T>, b: seq<T>)
    requires |b| > 0
    ensures |a + b| > 0 && (a + b)[|a + b| - 1] == b[|b| - 1]
  {
  }

  /** A prefix in front of four fields and their separators, regrouped. */
  lemma PrefixFields<T>(u: seq<T>, a: seq<T>, d: seq<T>, x: seq<T>, y: seq<T>, z: seq<T>)
    ensures u + a + d + x + d + y + d + z == u + (a + d + x + d + y + d + z)
  {
  }

  /** Every custom token built from a region without '&' matches, and gives back its parts. */
  lemma MatchUriText(region: string, p: Vec3)
    requires |region| > 0 && '&' !in region
    ensures MatchUri(UriText(region, p)) == Some(UriMatch(region, p))
    ensures ParseStart(UriText(region, p)) == Custom(Some(UriMatch(region, p)))
  {
    var s := UriText(region, p);
    NatTextValue(p.x);
    NatTextValue(p.y);
    NatTextValue(p.z);
    MatchFields(region, NatText(p.x), NatText(p.y), NatText(p.z));
    assert s != "home" && s != "last" by { assert s[0] == 'u'; }
  }

  /** A final newline after any token of a region and three numerals is tolerated, as .NET's `$` tolerates it. */
  lemma MatchFieldsNewline(region: string, x: string, y: string, z: string)
    requires |region| > 0 && '&' !in region
    requires IsNumeral(x) && IsNumeral(y) && IsNumeral(z)
    ensures MatchUri(Token(region, x, y, z) + "\n")
      == Some(UriMatch(region, Vec3(DigitsValue(x), DigitsValue(y), DigitsValue(z))))
  {
    var t := Token(region, x, y, z);
    var s := t + "\n";
    assert s[..|s| - 1] == t;
    MatchFields(region, x, y, z);
  }

  /** Zero-padded coordinates (`uri:R&0128&128&030`) give the position they denote. */
  lemma MatchPadded(region: string, zx: string, zy: string, zz: string, p: Vec3)
    requires |region| > 0 && '&' !in region
    requires AllZeros(zx) && AllZeros(zy) && AllZeros(zz)
    ensures MatchUri(Token(region, zx + NatText(p.x), zy + NatText(p.y), zz + NatText(p.z))) == Some(UriMatch(region, p))
  {
    PaddedNumeral(zx, p.x);
    PaddedNumeral(zy, p.y);
    PaddedNumeral(zz, p.z);
    MatchFields(region, zx + NatText(p.x), zy + NatText(p.y), zz + NatText(p.z));
  }

  /** A final newline after a custom token is tolerated, as .NET's `$` tolerates it. */
  lemma MatchUriTextNewline(region: string, p: Vec3)
    requires |region| > 0 && '&' !in region
    ensures MatchUri(UriText(region, p) + "\n") == Some(UriMatch(region, p))
  {
    var s := UriText(region, p) + "\n";
    assert s[..|s| - 1] == UriText(region, p);
    MatchUriText(region, p);
  }

  /** A text that does not start with "uri:" never matches. */
  lemma NoPrefixNoMatch(s: string)
    requires !("uri:" <= s)
    ensures MatchUri(s).None?
  {
  }

  /** Text around one separator that occurs nowhere else splits into exactly those two fields. */
  lemma SplitPair(a: string, b: string, d: char)
    requires d !in a && d !in b
    ensures Split(a + [d] + b, d) == [a, b]
  {
    SplitAfterField(a, b, d);
    SplitWithoutSeparator(b, d);
  }

  /**
   * `region@host:text` gives that region and host, and the port UInt32.TryParse reads from
   * the text, or 0 when the text is not a 32-bit unsigned number.
   */
  lemma SplitForeignPortText(region: string, host: string, text: string)
    requires '@' !in region && '@' !in host && ':' !in host
    requires '@' !in text && ':' !in text
    ensures SplitForeign(region + "@" + host + ":" + text)
      == Some(ForeignRef(region, host, TryParseUInt32(text).GetOr(0)))
  {
    var locator := host + [':'] + text;
    assert '@' !in locator;
    var name := region + "@" + host + ":" + text;
    assert name == region + ['@'] + locator;
    SplitPair(region, locator, '@');
    assert Split(name, '@') == [region, locator];
    SplitPair(host, text, ':');
    assert Split(locator, ':') == [host, text];
  }

  /** `region@host:port` splits into exactly its three parts. */
  lemma SplitForeignWithPort(region: string, host: string, port: nat)
    requires '@' !in region && '@' !in host && ':' !in host
    requires port <= UInt32Max
    ensures SplitForeign(region + "@" + host + ":" + NatText(port)) == Some(ForeignRef(region, host, port))
  {
    var digits := NatText(port);
    NumeralHasNoSeparator(digits, '@');
    NumeralHasNoSeparator(digits, ':');
    SplitForeignPortText(region, host, digits);
    UInt32TextRoundTrip(port);
  }

  /** A port text that is not a 32-bit unsigned number (letters, a sign alone, too large) gives port 0. */
  lemma SplitForeignBadPort(region: string, host: string, text: string)
    requires '@' !in region && '@' !in host && ':' !in host
    requires '@' !in text && ':' !in text
    requires TryParseUInt32(text).None?
    ensures SplitForeign(region + "@" + host + ":" + text) == Some(ForeignRef(region, host, 0))
  {
    SplitForeignPortText(region, host, text);
  }

  /** `region@host` without a port gives port 0. */
  lemma SplitForeignWithoutPort(region: string, host: string)
    requires '@' !in region && '@' !in host && ':' !in host
    ensures SplitForeign(region + "@" + host) == Some(ForeignRef(region, host, 0))
  {
    var name := region + "@" + host;
    assert name == region + ['@'] + host;
    SplitAfterField(region, host, '@');
    SplitWithoutSeparator(host, '@');
    SplitWithoutSeparator(host, ':');
  }
}
