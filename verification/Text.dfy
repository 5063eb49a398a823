/**
 Text forms the system stores in Redis: signed 64-bit decimals, hexadecimal, and
 splitting on a separator. Integers are unbounded here, so the width of `i64` is written out.
 */
module Text {
  import opened Wrappers

  const I64_MIN: int := -0x8000_0000_0000_0000
  const I64_MAX: int := 0x7FFF_FFFF_FFFF_FFFF

  type I64 = x: int | I64_MIN <= x <= I64_MAX
  type Byte = x: int | 0 <= x < 256

  // ---- Decimal -------------------------------------------------------------

  predicate IsDigit(c: char) { '0' <= c <= '9' }

  predicate AllDigits(s: string) { forall i | 0 <= i < |s| :: IsDigit(s[i]) }

  function DigitChar(d: int): char
    requires 0 <= d < 10
  {
    '0' + d as char
  }

  function DigitValue(c: char): int
    requires IsDigit(c)
  {
    (c - '0') as int
  }

  function NatToString(n: nat): string {
    if n < 10 then [DigitChar(n)] else NatToString(n / 10) + [DigitChar(n % 10)]
  }

  function DigitsValue(s: string): nat
    requires AllDigits(s)
  {
    if s == "" then 0 else 10 * DigitsValue(s[..|s| - 1]) + DigitValue(s[|s| - 1])
  }

  /** `i64::to_string`. */
  function I64ToString(n: I64): string {
    if n < 0 then "-" + NatToString(-(n as int)) else NatToString(n)
  }

  /** Unsigned digits, at least one, with value at most `bound`. */
  function ParseDigits(s: string, bound: nat): (r: Option<nat>)
    ensures r.Some? ==> r.value <= bound
  {
    if s != "" && AllDigits(s) && DigitsValue(s) <= bound then Some(DigitsValue(s)) else None
  }

  /** `str::parse::<i64>`: an optional sign, then digits; out of range is an error. */
  function ParseI64(s: string): (r: Option<I64>)
  {
    if s == "" then None
    else if s[0] == '-' then
      match ParseDigits(s[1..], I64_MAX + 1)
      case Some(n) => Some(-(n as int))
      case None => None
    else if s[0] == '+' then ParseDigits(s[1..], I64_MAX)
    else ParseDigits(s, I64_MAX)
  }

  lemma {:induction false} DigitsOfNat(n: nat)
    ensures NatToString(n) != "" && AllDigits(NatToString(n)) && DigitsValue(NatToString(n)) == n
  {
    var s := NatToString(n);
    if n < 10 {
      assert s[..0] == "";
    } else {
      DigitsOfNat(n / 10);
      assert s[..|s| - 1] == NatToString(n / 10);
    }
  }

  lemma {:induction false} NoLeadingZero(n: nat)
    ensures NatToString(n) != "" && (NatToString(n)[0] == '0' ==> n == 0)
  {
    if n >= 10 { NoLeadingZero(n / 10); }
  }

  lemma DigitKept(c: char)
    requires IsDigit(c)
    ensures DigitChar(DigitValue(c)) == c
  {
  }

  lemma NextDigit(a: nat, d: nat)
    requires a > 0 && d < 10
    ensures NatToString(10 * a + d) == NatToString(a) + [DigitChar(d)]
  {
  }

  lemma AppendDigit(a: string, c: char)
    requires AllDigits(a) && IsDigit(c) && DigitsValue(a) > 0 && NatToString(DigitsValue(a)) == a
    ensures AllDigits(a + [c]) && NatToString(DigitsValue(a + [c])) == a + [c]
  {
    assert (a + [c])[..|a|] == a;
    DigitKept(c);
    NextDigit(DigitsValue(a), DigitValue(c));
  }

  lemma OneDigit(c: char)
    requires IsDigit(c)
    ensures NatToString(DigitsValue([c])) == [c]
  {
    assert [c][..0] == "";
    DigitKept(c);
  }

  lemma {:induction false} CanonicalIs(s: string)
    requires s != "" && AllDigits(s) && (s[0] == '0' ==> |s| == 1)
    ensures NatToString(DigitsValue(s)) == s
    decreases |s|
  {
    var k := |s| - 1;
    assert s == s[..k] + [s[k]];
    if k > 0 {
      CanonicalIs(s[..k]);
      NonZeroValue(s[..k]);
      AppendDigit(s[..k], s[k]);
    } else {
      OneDigit(s[0]);
    }
  }

  lemma NonZeroValue(s: string)
    requires s != "" && AllDigits(s) && s[0] != '0'
    ensures DigitsValue(s) > 0
  {
    if |s| > 1 { LeadingDigitCounts(s); } else { assert s[..0] == ""; }
  }

  /** The decimal text of a number is the one without leading zeros. */
  lemma DecimalIff(s: string, n: nat)
    ensures s == NatToString(n) <==>
      s != "" && AllDigits(s) && DigitsValue(s) == n && (s[0] == '0' ==> |s| == 1)
  {
    DigitsOfNat(n);
    NoLeadingZero(n);
    if s != "" && AllDigits(s) && (s[0] == '0' ==> |s| == 1) { CanonicalIs(s); }
  }

  lemma {:induction false} LeadingDigitCounts(s: string)
    requires |s| > 1 && AllDigits(s) && s[0] != '0'
    ensures DigitsValue(s) >= 10
  {
    var k := |s| - 1;
    if k > 1 {
      LeadingDigitCounts(s[..k]);
    } else {
      assert s[..1][..0] == "";
      assert DigitsValue(s[..1]) == DigitValue(s[0]) >= 1;
    }
  }

  /** An optional sign and at least one digit, leading zeros and all. */
  ghost predicate Spells(s: string, n: int) {
    && s != ""
    && var digits := if s[0] == '+' || s[0] == '-' then s[1..] else s;
       && digits != "" && AllDigits(digits)
       && n == if s[0] == '-' then -(DigitsValue(digits) as int) else DigitsValue(digits)
  }

  /** Exactly the texts that spell a 64-bit number are read, as that number. */
  lemma ParseI64Iff(s: string, n: I64)
    ensures ParseI64(s) == Some(n) <==> Spells(s, n)
  {
  }

  /** What is written is the one spelling without a plus sign, a leading zero or a negative zero. */
  lemma I64TextIff(s: string, n: I64)
    ensures s == I64ToString(n) <==>
      && Spells(s, n) && s[0] != '+'
      && ((if s[0] == '-' then s[1..] else s)[0] == '0' ==> s == "0")
  {
    var digits := if s != "" && s[0] == '-' then s[1..] else s;
    var magnitude: nat := if n < 0 then -(n as int) else n;
    DecimalIff(digits, magnitude);
    DecimalIff(NatToString(magnitude), magnitude);
    assert AllDigits(NatToString(magnitude)) && IsDigit(NatToString(magnitude)[0]);
    if s != "" && s[0] == '-' { assert s == "-" + digits; }
    assert NatToString(0) == "0";
  }

  lemma I64RoundTrip(n: I64)
    ensures ParseI64(I64ToString(n)) == Some(n)
  {
    I64TextIff(I64ToString(n), n);
    ParseI64Iff(I64ToString(n), n);
  }

  /** A text without a minus sign never denotes a negative number. */
  lemma NoMinusNoNegative(s: string)
    requires '-' !in s && ParseI64(s).Some?
    ensures ParseI64(s).value >= 0
  {
    assert s[0] in s;
  }

  // ---- Hexadecimal ---------------------------------------------------------

  function HexChar(d: int): char
    requires 0 <= d < 16
  {
    if d < 10 then '0' + d as char else 'a' + (d - 10) as char
  }

  /** Value of a hexadecimal digit in either case. */
  function HexValue(c: char): (r: Option<int>)
    ensures r.Some? ==> 0 <= r.value < 16
  {
    if '0' <= c <= '9' then Some((c - '0') as int)
    else if 'a' <= c <= 'f' then Some((c - 'a') as int + 10)
    else if 'A' <= c <= 'F' then Some((c - 'A') as int + 10)
    else None
  }

  /** `hex::encode`: two lower-case digits a byte. */
  function HexEncode(bytes: seq<Byte>): (s: string)
    ensures |s| == 2 * |bytes|
  {
    if bytes == [] then "" else [HexChar(bytes[0] / 16), HexChar(bytes[0] % 16)] + HexEncode(bytes[1..])
  }

  /** `hex::decode`: an odd length or a character that is no hexadecimal digit is an error. */
  function HexDecode(s: string): (r: Option<seq<Byte>>)
    ensures r.Some? ==> |s| == 2 * |r.value|
  {
    if s == "" then Some([])
    else if |s| == 1 then None
    else match (HexValue(s[0]), HexValue(s[1]), HexDecode(s[2..]))
      case (Some(hi), Some(lo), Some(rest)) => Some([16 * hi + lo] + rest)
      case _ => None
  }

  lemma {:induction false} HexRoundTrip(bytes: seq<Byte>)
    ensures HexDecode(HexEncode(bytes)) == Some(bytes)
  {
    if bytes != [] {
      HexRoundTrip(bytes[1..]);
      assert HexEncode(bytes)[2..] == HexEncode(bytes[1..]);
      assert [bytes[0]] + bytes[1..] == bytes;
    }
  }

  function Lower(c: char): char { if 'A' <= c <= 'Z' then c + 32 as char else c }

  function LowerText(s: string): (t: string)
    ensures |t| == |s| && forall i | 0 <= i < |s| :: t[i] == Lower(s[i])
  {
    seq(|s|, i requires 0 <= i < |s| => Lower(s[i]))
  }

  lemma HexDigitIff(c: char, v: int)
    requires 0 <= v < 16
    ensures HexValue(c) == Some(v) <==> Lower(c) == HexChar(v)
  {
  }

  lemma EncodeNext(hi: int, lo: int, rest: seq<Byte>)
    requires 0 <= hi < 16 && 0 <= lo < 16
    ensures HexEncode([16 * hi + lo] + rest) == [HexChar(hi), HexChar(lo)] + HexEncode(rest)
  {
    Nibbles(hi, lo);
    assert ([16 * hi + lo] + rest)[1..] == rest;
  }

  lemma LowerPair(s: string)
    requires |s| >= 2
    ensures LowerText(s) == [Lower(s[0]), Lower(s[1])] + LowerText(s[2..])
  {
  }

  lemma {:induction false} DecodedIsLower(s: string)
    requires HexDecode(s).Some?
    ensures LowerText(s) == HexEncode(HexDecode(s).value)
    decreases |s|
  {
    if |s| >= 2 {
      var hi, lo := HexValue(s[0]).value, HexValue(s[1]).value;
      HexDigitIff(s[0], hi);
      HexDigitIff(s[1], lo);
      DecodedIsLower(s[2..]);
      EncodeNext(hi, lo, HexDecode(s[2..]).value);
      LowerPair(s);
    }
  }

  lemma {:induction false} LowerIsDecoded(s: string, bytes: seq<Byte>)
    requires LowerText(s) == HexEncode(bytes)
    ensures HexDecode(s) == Some(bytes)
    decreases |s|
  {
    if bytes != [] {
      var t := LowerText(s);
      LowerPair(s);
      HexDigitIff(s[0], bytes[0] / 16);
      HexDigitIff(s[1], bytes[0] % 16);
      assert t[2..] == LowerText(s[2..]) && HexEncode(bytes)[2..] == HexEncode(bytes[1..]);
      LowerIsDecoded(s[2..], bytes[1..]);
      assert bytes == [bytes[0]] + bytes[1..];
    }
  }

  /** A text is decoded to some bytes exactly if, in lower case, it is their encoding. */
  lemma HexDecodeIff(s: string, bytes: seq<Byte>)
    ensures HexDecode(s) == Some(bytes) <==> LowerText(s) == HexEncode(bytes)
  {
    if HexDecode(s).Some? { DecodedIsLower(s); }
    if LowerText(s) == HexEncode(bytes) { LowerIsDecoded(s, bytes); }
  }

  lemma Nibbles(hi: int, lo: int)
    requires 0 <= hi < 16 && 0 <= lo < 16
    ensures (16 * hi + lo) / 16 == hi && (16 * hi + lo) % 16 == lo
  {
  }

  // ---- Splitting -----------------------------------------------------------

  function IndexOf(s: string, c: char): (i: nat)
    requires c in s
    ensures i < |s| && s[i] == c && (forall k | 0 <= k < i :: s[k] != c)
  {
    if s[0] == c then 0 else 1 + IndexOf(s[1..], c)
  }

  /** `str::split`: always at least one part, one more than there are separators. */
  function Split(s: string, c: char): (parts: seq<string>)
    ensures |parts| >= 1
    ensures forall k | 0 <= k < |parts| :: c !in parts[k]
    decreases |s|
  {
    if c !in s then [s]
    else var i := IndexOf(s, c); [s[..i]] + Split(s[i + 1..], c)
  }

  function Join(parts: seq<string>, c: char): string {
    if parts == [] then "" else if |parts| == 1 then parts[0] else parts[0] + [c] + Join(parts[1..], c)
  }

  /** Splitting loses nothing. */
  lemma {:induction false} SplitJoins(s: string, c: char)
    ensures Join(Split(s, c), c) == s
    decreases |s|
  {
    if c in s {
      var i := IndexOf(s, c);
      SplitJoins(s[i + 1..], c);
      assert Split(s, c)[1..] == Split(s[i + 1..], c);
      assert s == s[..i] + [c] + s[i + 1..];
    }
  }

  lemma SplitTwo(a: string, b: string, c: char)
    requires c !in a && c !in b
    ensures Split(a + [c] + b, c) == [a, b]
  {
    var s := a + [c] + b;
    assert s[|a|] == c;
    var i := IndexOf(s, c);
    assert i == |a|;
    assert s[..i] == a && s[i + 1..] == b;
  }
}
