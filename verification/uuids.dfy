/**
 * 128-bit identifiers and their canonical text: 32 lower-case hexadecimal digits in
 * groups of 8-4-4-4-12 separated by '-', the form UUID.ToString() produces.
 */
module Uuids {

  const UuidBound: nat := 0x1_0000_0000_0000_0000_0000_0000_0000_0000

  type Uuid = x: nat | x < UuidBound

  /** UUID.Zero, the "no id" value. */
  const Zero: Uuid := 0

  function Pow16(w: nat): nat
  {
    if w == 0 then 1 else 16 * Pow16(w - 1)
  }

  predicate IsHexChar(c: char) { '0' <= c <= '9' || 'a' <= c <= 'f' }

  predicate IsHex(s: string) { forall i :: 0 <= i < |s| ==> IsHexChar(s[i]) }

  function HexChar(d: nat): (c: char)
    requires d < 16
    ensures IsHexChar(c)
  {
    if d < 10 then ('0' as int + d) as char else ('a' as int + d - 10) as char
  }

  function HexCharValue(c: char): nat
    requires IsHexChar(c)
  {
    if c <= '9' then c as int - '0' as int else c as int - 'a' as int + 10
  }

  /** `n` written with exactly `w` hex digits, most significant first (high digits beyond `w` dropped). */
  function Hex(n: nat, w: nat): (s: string)
    ensures |s| == w && IsHex(s)
  {
    if w == 0 then "" else Hex(n / 16, w - 1) + [HexChar(n % 16)]
  }

  function HexValue(s: string): nat
    requires IsHex(s)
  {
    if |s| == 0 then 0 else HexValue(s[..|s| - 1]) * 16 + HexCharValue(s[|s| - 1])
  }

  /** A value below 16^w is recovered from its `w` hex digits. */
  lemma {:induction false} HexRoundTrip(n: nat, w: nat)
    requires n < Pow16(w)
    ensures HexValue(Hex(n, w)) == n
  {
    if w > 0 {
      HexRoundTrip(n / 16, w - 1);
      var s := Hex(n, w);
      assert s[..|s| - 1] == Hex(n / 16, w - 1);
      assert HexCharValue(HexChar(n % 16)) == n % 16;
    }
  }

  lemma Pow16Of32()
    ensures Pow16(32) == UuidBound
  {
    assert Pow16(4) == 0x1_0000;
    assert Pow16(8) == 0x1_0000 * Pow16(4);
    assert Pow16(16) == Pow16(8) * Pow16(8) by { Pow16Add(8, 8); }
    assert Pow16(32) == Pow16(16) * Pow16(16) by { Pow16Add(16, 16); }
  }

  lemma {:induction false} Pow16Add(a: nat, b: nat)
    ensures Pow16(a + b) == Pow16(a) * Pow16(b)
  {
    if a > 0 {
      Pow16Add(a - 1, b);
    }
  }

  /** The canonical 36-character text of an id. */
  function Text(u: Uuid): (t: string)
    ensures |t| == 36
  {
    var h := Hex(u, 32);
    h[..8] + "-" + h[8..12] + "-" + h[12..16] + "-" + h[16..20] + "-" + h[20..]
  }

  /** The id written by `Text`, read back from its hex groups. */
  function Parse(t: string): nat
    requires |t| == 36 && IsHex(t[..8] + t[9..13] + t[14..18] + t[19..23] + t[24..])
  {
    HexValue(t[..8] + t[9..13] + t[14..18] + t[19..23] + t[24..])
  }

  /** Reading back the text of an id gives the id. */
  lemma TextRoundTrip(u: Uuid)
    ensures var t := Text(u); IsHex(t[..8] + t[9..13] + t[14..18] + t[19..23] + t[24..]) && Parse(t) == u
  {
    var h := Hex(u, 32);
    var t := Text(u);
    assert t[..8] == h[..8];
    assert t[9..13] == h[8..12];
    assert t[14..18] == h[12..16];
    assert t[19..23] == h[16..20];
    assert t[24..] == h[20..];
    assert t[..8] + t[9..13] + t[14..18] + t[19..23] + t[24..] == h;
    Pow16Of32();
    HexRoundTrip(u, 32);
  }

  /** Distinct ids have distinct texts. */
  lemma TextInjective(u: Uuid, v: Uuid)
    requires u != v
    ensures Text(u) != Text(v)
  {
    TextRoundTrip(u);
    TextRoundTrip(v);
  }
}
