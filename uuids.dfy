/** The two operations of the `uuid` crate (1.x) that the code relies on:
    `Uuid::to_string`, the lower-case hyphenated form, and `Uuid::parse_str`,
    which accepts the simple, hyphenated, braced and URN forms with hex digits
    of either case. A UUID is its 128-bit value. */
module Uuids {
  import opened Wrappers

  /** A 128-bit value: below 16^32 = 2^128. */
  type Uuid = x: nat | x < Pow16(32)

  function Pow16(n: nat): (r: nat)
    ensures r > 0
  {
    if n == 0 then 1 else 16 * Pow16(n - 1)
  }

  /** The lower-case hex digit for `d`. */
  function HexChar(d: nat): char
    requires d < 16
  {
    if d < 10 then ('0' as int + d) as char else ('a' as int + d - 10) as char
  }

  /** The value of one hex digit, of either case. */
  function HexValue(c: char): (r: Option<nat>)
    ensures r.Some? ==> r.value < 16
  {
    if '0' <= c <= '9' then Some(c as int - '0' as int)
    else if 'a' <= c <= 'f' then Some(c as int - 'a' as int + 10)
    else if 'A' <= c <= 'F' then Some(c as int - 'A' as int + 10)
    else None
  }

  /** The `n` low hex digits of `x`, most significant first, in lower case. */
  function Hex(x: nat, n: nat): (r: string)
    ensures |r| == n
  {
    if n == 0 then [] else Hex(x / 16, n - 1) + [HexChar(x % 16)]
  }

  /** The value of a string of hex digits; `None` if any character is not one. */
  function ParseHex(s: string): (r: Option<nat>)
    ensures r.Some? ==> r.value < Pow16(|s|)
  {
    if s == [] then Some(0)
    else
      match ParseHex(s[..|s| - 1])
      case None => None
      case Some(high) =>
        match HexValue(s[|s| - 1])
        case None => None
        case Some(d) => Some(16 * high + d)
  }

  lemma DivBound(x: nat, p: nat)
    requires x < 16 * p
    ensures x / 16 < p
  {
  }

  lemma HexDigitRoundTrip(d: nat)
    requires d < 16
    ensures HexValue(HexChar(d)) == Some(d)
  {
  }

  /** Reading one more digit at the end. */
  lemma ParseHexSnoc(s: string, c: char, v: nat, d: nat)
    requires ParseHex(s) == Some(v) && HexValue(c) == Some(d)
    ensures ParseHex(s + [c]) == Some(16 * v + d)
  {
    assert (s + [c])[..|s|] == s;
  }

  /** Reading back `n` hex digits of a value below 16^n gives that value. */
  lemma {:induction false} ParseHexOfHex(x: nat, n: nat)
    requires x < Pow16(n)
    ensures ParseHex(Hex(x, n)) == Some(x)
  {
    if n > 0 {
      var high, d := x / 16, x % 16;
      DivBound(x, Pow16(n - 1));
      ParseHexOfHex(high, n - 1);
      HexDigitRoundTrip(d);
      ParseHexSnoc(Hex(high, n - 1), HexChar(d), high, d);
      assert Hex(x, n) == Hex(high, n - 1) + [HexChar(d)];
      assert x == 16 * high + d;
    }
  }

  /** `Uuid::to_string`: 8-4-4-4-12 lower-case hex digits joined by hyphens. */
  function ToString(u: Uuid): (r: string)
    ensures |r| == 36
  {
    var h := Hex(u, 32);
    h[..8] + "-" + h[8..12] + "-" + h[12..16] + "-" + h[16..20] + "-" + h[20..]
  }

  function ParseSimple(s: string): Option<Uuid>
    requires |s| == 32
  {
    match ParseHex(s)
    case None => None
    case Some(v) => Some(v)
  }

  function ParseHyphenated(s: string): Option<Uuid>
    requires |s| == 36
  {
    if s[8] == '-' && s[13] == '-' && s[18] == '-' && s[23] == '-' then
      ParseSimple(s[..8] + s[9..13] + s[14..18] + s[19..23] + s[24..])
    else None
  }

  /** `Uuid::parse_str`; `None` stands for its `Err`. */
  function ParseStr(s: string): Option<Uuid> {
    if |s| == 32 then ParseSimple(s)
    else if |s| == 36 then ParseHyphenated(s)
    else if |s| == 38 && s[0] == '{' && s[37] == '}' then ParseHyphenated(s[1..37])
    else if |s| == 45 && s[..9] == "urn:uuid:" then ParseHyphenated(s[9..])
    else None
  }

  /** Joining 32 hex digits with hyphens gives a string that the hyphenated
      form reads back as those digits. */
  lemma ParseHyphenatedOfJoin(h: string)
    requires |h| == 32
    ensures var s := h[..8] + "-" + h[8..12] + "-" + h[12..16] + "-" + h[16..20] + "-" + h[20..];
      |s| == 36 && ParseHyphenated(s) == ParseSimple(h)
  {
    var s := h[..8] + "-" + h[8..12] + "-" + h[12..16] + "-" + h[16..20] + "-" + h[20..];
    assert s[8] == '-' && s[13] == '-' && s[18] == '-' && s[23] == '-';
    assert s[..8] == h[..8];
    assert s[9..13] == h[8..12];
    assert s[14..18] == h[12..16];
    assert s[19..23] == h[16..20];
    assert s[24..] == h[20..];
    assert h == h[..8] + h[8..12] + h[12..16] + h[16..20] + h[20..];
  }

  /** The string form of every UUID parses back to that UUID. */
  lemma ParseToString(u: Uuid)
    ensures ParseStr(ToString(u)) == Some(u)
  {
    var h := Hex(u, 32);
    ParseHyphenatedOfJoin(h);
    ParseHexOfHex(u, 32);
  }

  /** Hence `to_string` is injective: distinct UUIDs have distinct strings. */
  lemma ToStringInjective(u: Uuid, v: Uuid)
    requires u != v
    ensures ToString(u) != ToString(v)
  {
    ParseToString(u);
    ParseToString(v);
  }
}
