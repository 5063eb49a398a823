/** The text forms of a UUID (section 3 of RFC 4122), as the `uuid` crate writes and reads them. */
module Uuid {
  import opened Wrappers
  import opened Text

  type Uuid = b: seq<Byte> | |b| == 16 witness seq(16, _ => 0)

  /** Lower-case hexadecimal in groups of 8, 4, 4, 4 and 12 digits. */
  function ToText(u: Uuid): (s: string)
    ensures |s| == 36
  {
    Grouped(HexEncode(u[..4]), HexEncode(u[4..6]), HexEncode(u[6..8]), HexEncode(u[8..10]), HexEncode(u[10..]))
  }

  function ParseSimple(s: string): Option<Uuid>
    requires |s| == 32
  {
    HexDecode(s)
  }

  function ParseHyphenated(s: string): Option<Uuid>
    requires |s| == 36
  {
    if s[8] == '-' && s[13] == '-' && s[18] == '-' && s[23] == '-' then
      ParseSimple(DigitsOf(s))
    else None
  }

  const URN_PREFIX: string := "urn:uuid:"

  /** `Uuid::parse_str`: 32 digits, the hyphenated form, and the latter in braces or as a URN. */
  function Parse(s: string): Option<Uuid> {
    if |s| == 32 then ParseSimple(s)
    else if |s| == 36 then ParseHyphenated(s)
    else if |s| == 38 && s[0] == '{' && s[37] == '}' then ParseHyphenated(s[1..37])
    else if |s| == 45 && s[..9] == URN_PREFIX then ParseHyphenated(s[9..])
    else None
  }

  lemma {:induction false} HexEncodeConcat(a: seq<Byte>, b: seq<Byte>)
    ensures HexEncode(a + b) == HexEncode(a) + HexEncode(b)
  {
    if a == [] {
      assert a + b == b;
    } else {
      assert (a + b)[1..] == a[1..] + b;
      HexEncodeConcat(a[1..], b);
    }
  }

  function Grouped(a: string, b: string, c: string, d: string, e: string): string {
    a + "-" + b + "-" + c + "-" + d + "-" + e
  }

  lemma Ungrouped(a: string, b: string, c: string, d: string, e: string)
    requires |a| == 8 && |b| == |c| == |d| == 4 && |e| == 12
    ensures var s := Grouped(a, b, c, d, e);
      && s[8] == '-' && s[13] == '-' && s[18] == '-' && s[23] == '-'
      && s[..8] == a && s[9..13] == b && s[14..18] == c && s[19..23] == d && s[24..] == e
  {
  }

  lemma HexGroups(u: Uuid)
    ensures HexEncode(u[..4]) + HexEncode(u[4..6]) + HexEncode(u[6..8]) + HexEncode(u[8..10]) + HexEncode(u[10..])
         == HexEncode(u)
  {
    HexEncodeConcat(u[..4], u[4..6]);
    assert u[..4] + u[4..6] == u[..6];
    HexEncodeConcat(u[..6], u[6..8]);
    assert u[..6] + u[6..8] == u[..8];
    HexEncodeConcat(u[..8], u[8..10]);
    assert u[..8] + u[8..10] == u[..10];
    HexEncodeConcat(u[..10], u[10..]);
    assert u[..10] + u[10..] == u;
  }

  lemma HyphenatedReads(u: Uuid)
    ensures ParseHyphenated(ToText(u)) == Some(u)
  {
    HexGroups(u);
    HexRoundTrip(u);
    Ungrouped(HexEncode(u[..4]), HexEncode(u[4..6]), HexEncode(u[6..8]), HexEncode(u[8..10]), HexEncode(u[10..]));
  }

  lemma Wrapped(s: string)
    requires |s| == 36
    ensures ("{" + s + "}")[1..37] == s && (URN_PREFIX + s)[9..] == s && (URN_PREFIX + s)[..9] == URN_PREFIX
  {
  }

  lemma LowerPieces(s: string, a: nat, b: nat)
    requires a <= b <= |s|
    ensures LowerText(s[a..b]) == LowerText(s)[a..b]
  {
  }

  /** The 32 digits of a hyphenated text. */
  function DigitsOf(s: string): string
    requires |s| == 36
  {
    s[..8] + s[9..13] + s[14..18] + s[19..23] + s[24..]
  }

  lemma LowerDigits(s: string)
    requires |s| == 36
    ensures LowerText(DigitsOf(s)) == DigitsOf(LowerText(s))
  {
  }

  /** A text is hyphenated as it must be exactly if, in lower case, it is some UUID's own text. */
  lemma HyphenatedIff(s: string, u: Uuid)
    requires |s| == 36
    ensures ParseHyphenated(s) == Some(u) <==> LowerText(s) == ToText(u)
  {
    var t := LowerText(s);
    HexDecodeIff(DigitsOf(s), u);
    LowerDigits(s);
    HexGroups(u);
    Ungrouped(HexEncode(u[..4]), HexEncode(u[4..6]), HexEncode(u[6..8]), HexEncode(u[8..10]), HexEncode(u[10..]));
    if ParseHyphenated(s) == Some(u) { SameGroups(t, ToText(u)); }
    if LowerText(s) == ToText(u) { assert t[8] == '-' && t[13] == '-' && t[18] == '-' && t[23] == '-'; }
  }

  lemma SameGroups(s: string, t: string)
    requires |s| == |t| == 36 && DigitsOf(s) == DigitsOf(t)
    requires s[8] == t[8] && s[13] == t[13] && s[18] == t[18] && s[23] == t[23]
    ensures s == t
  {
    var a, b := DigitsOf(s), DigitsOf(t);
    assert s[..8] == a[..8] == b[..8] == t[..8];
    assert s[9..13] == a[8..12] == b[8..12] == t[9..13];
    assert s[14..18] == a[12..16] == b[12..16] == t[14..18];
    assert s[19..23] == a[16..20] == b[16..20] == t[19..23];
    assert s[24..] == a[20..] == b[20..] == t[24..];
    assert s == s[..8] + [s[8]] + s[9..13] + [s[13]] + s[14..18] + [s[18]] + s[19..23] + [s[23]] + s[24..];
    assert t == t[..8] + [t[8]] + t[9..13] + [t[13]] + t[14..18] + [t[18]] + t[19..23] + [t[23]] + t[24..];
  }

  /** The texts that read as a UUID are its four forms, the digits in either case, and no others. */
  lemma ParseIff(s: string, u: Uuid)
    ensures Parse(s) == Some(u) <==>
      || LowerText(s) == HexEncode(u)
      || LowerText(s) == ToText(u)
      || (|s| == 38 && s[0] == '{' && s[37] == '}' && LowerText(s[1..37]) == ToText(u))
      || (|s| == 45 && s[..9] == "urn:uuid:" && LowerText(s[9..]) == ToText(u))
  {
    HexDecodeIff(s, u);
    if |s| == 36 { HyphenatedIff(s, u); }
    if |s| == 38 { HyphenatedIff(s[1..37], u); }
    if |s| == 45 { HyphenatedIff(s[9..], u); }
  }

  /** Every form of a UUID reads back as that UUID. */
  lemma RoundTrip(u: Uuid)
    ensures Parse(ToText(u)) == Some(u)
    ensures Parse(HexEncode(u)) == Some(u)
    ensures Parse("{" + ToText(u) + "}") == Some(u)
    ensures Parse("urn:uuid:" + ToText(u)) == Some(u)
  {
    HyphenatedReads(u);
    HexRoundTrip(u);
    Wrapped(ToText(u));
  }
}
