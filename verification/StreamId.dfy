/**
 Redis stream ids: their text form, the gap detector's parser and comparison, and its estimate of
 how many events a client missed (axontask-shared/src/redis/gap_detection.rs).
 */
module StreamId {
  import opened Wrappers
  import opened Text

  const U64_MOD: int := 0x1_0000_0000_0000_0000

  /** Milliseconds and a counter, ordered lexicographically; Redis keeps both in 64 unsigned bits. */
  datatype Id = Id(ms: nat, seqNo: nat) {
    predicate Less(other: Id) { ms < other.ms || (ms == other.ms && seqNo < other.seqNo) }

    predicate AtMost(other: Id) { this == other || Less(other) }
  }

  const ZERO := Id(0, 0)

  function Format(id: Id): string { NatToString(id.ms) + ['-'] + NatToString(id.seqNo) }

  datatype GapError = InvalidStreamId(text: string) | NoSuchStream

  function ParseStreamId(text: string): (r: Result<(I64, I64), GapError>)
    ensures r.Err? ==> r == Err(InvalidStreamId(text))
  {
    var parts := Split(text, '-');
    if |parts| != 2 then Err(InvalidStreamId(text))
    else match (ParseI64(parts[0]), ParseI64(parts[1]))
      case (Some(ts), Some(n)) => Ok((ts, n))
      case _ => Err(InvalidStreamId(text))
  }

  /** Exactly the texts of two numbers with one dash between them are read, as those numbers. */
  lemma ParseStreamIdIff(text: string, ms: I64, n: I64)
    ensures ParseStreamId(text) == Ok((ms, n)) <==>
      exists a, b :: text == a + ['-'] + b && '-' !in a && '-' !in b && Spells(a, ms) && Spells(b, n)
  {
    var parts := Split(text, '-');
    SplitJoins(text, '-');
    if |parts| == 2 {
      assert parts[1..] == [parts[1]];
      assert text == parts[0] + ['-'] + parts[1];
      ParseI64Iff(parts[0], ms);
      ParseI64Iff(parts[1], n);
    }
    if a, b :| text == a + ['-'] + b && '-' !in a && '-' !in b && Spells(a, ms) && Spells(b, n) {
      SplitTwo(a, b, '-');
      ParseI64Iff(a, ms);
      ParseI64Iff(b, n);
    }
  }

  /** A minus sign anywhere breaks the two-part split, so no parsed component is negative. */
  lemma ParsedNonNegative(text: string)
    requires ParseStreamId(text).Ok?
    ensures ParseStreamId(text).value.0 >= 0 && ParseStreamId(text).value.1 >= 0
  {
    var parts := Split(text, '-');
    NoMinusNoNegative(parts[0]);
    NoMinusNoNegative(parts[1]);
  }

  /** `ts1 - ts2` and `seq1 - seq2` are 64-bit subtractions; the result type says they fit. */
  function CompareStreamIds(id1: string, id2: string): Result<I64, GapError> {
    match (ParseStreamId(id1), ParseStreamId(id2))
    case (Ok((ts1, n1)), Ok((ts2, n2))) =>
      ParsedNonNegative(id1);
      ParsedNonNegative(id2);
      if ts1 != ts2 then Ok(ts1 as int - ts2 as int) else Ok(n1 as int - n2 as int)
    case (Err(e), _) => Err(e)
    case (_, Err(e)) => Err(e)
  }

  lemma NatText(n: nat)
    ensures '-' !in NatToString(n)
    ensures ParseI64(NatToString(n)) == if n <= I64_MAX then Some(n) else None
  {
    DigitsOfNat(n);
    assert IsDigit(NatToString(n)[0]);
  }

  /** The text of an id parses back exactly when both parts fit 63 bits; Redis allows 64. */
  lemma ParseFormat(id: Id)
    ensures ParseStreamId(Format(id)) ==
      if id.ms <= I64_MAX && id.seqNo <= I64_MAX then Ok((id.ms, id.seqNo)) else Err(InvalidStreamId(Format(id)))
  {
    NatText(id.ms);
    NatText(id.seqNo);
    SplitTwo(NatToString(id.ms), NatToString(id.seqNo), '-');
  }

  /** An id's text is its two numbers in plain decimal with one dash between them. */
  lemma FormatParts(id: Id)
    ensures Split(Format(id), '-') == [NatToString(id.ms), NatToString(id.seqNo)]
  {
    NatText(id.ms);
    NatText(id.seqNo);
    SplitTwo(NatToString(id.ms), NatToString(id.seqNo), '-');
  }

  predicate Fits(id: Id) { id.ms <= I64_MAX && id.seqNo <= I64_MAX }

  /** Any text the parser takes, such as `5-0`, `05-0` or `+5-0`. */
  predicate Readable(text: string) { ParseStreamId(text).Ok? }

  /** The id such a text denotes. */
  function IdOf(text: string): (id: Id)
    requires Readable(text)
    ensures Fits(id)
  {
    ParsedNonNegative(text);
    Id(ParseStreamId(text).value.0, ParseStreamId(text).value.1)
  }

  lemma FormatReads(id: Id)
    ensures Readable(Format(id)) <==> Fits(id)
    ensures Fits(id) ==> IdOf(Format(id)) == id
  {
    ParseFormat(id);
  }

  /** The sign of a comparison is the order of the ids, however they are spelled. */
  lemma CompareIsOrder(x: string, y: string)
    requires Readable(x) && Readable(y)
    ensures var r := CompareStreamIds(x, y);
      && r.Ok?
      && (r.value < 0 <==> IdOf(x).Less(IdOf(y)))
      && (r.value == 0 <==> IdOf(x) == IdOf(y))
      && (r.value > 0 <==> IdOf(y).Less(IdOf(x)))
  {
    ParsedNonNegative(x);
    ParsedNonNegative(y);
  }

  // ---- The estimate --------------------------------------------------------

  function SaturatingSub(x: I64, y: I64): I64 {
    var d := x as int - y as int;
    if d < I64_MIN then I64_MIN else if d > I64_MAX then I64_MAX else d
  }

  /** `as u64`: two's complement reinterpretation. */
  function AsU64(x: I64): nat { if x < 0 then x as int + U64_MOD else x }

  function EstimateMissing(earliest: string, cursor: string): nat {
    match (ParseStreamId(earliest), ParseStreamId(cursor))
    case (Ok((ts1, _)), Ok((ts2, _))) =>
      var diff := AsU64(SaturatingSub(ts1, ts2));
      if diff / 100 >= 1 then diff / 100 else 1
    case _ => 0
  }

  lemma EstimateUnreadable(earliest: string, cursor: string)
    requires !Readable(earliest) || !Readable(cursor)
    ensures EstimateMissing(earliest, cursor) == 0
  {
  }

  /**
   Where the detector estimates, the cursor is behind: the cast loses nothing, the estimate is at
   least one, and a cursor further behind never gets a smaller one.
   */
  lemma EstimateSound(earliest: string, cursor: string, older: string)
    requires Readable(earliest) && Readable(cursor) && Readable(older)
    requires IdOf(cursor).Less(IdOf(earliest)) && IdOf(older).AtMost(IdOf(cursor))
    ensures var behind := (IdOf(earliest).ms - IdOf(cursor).ms) / 100;
      EstimateMissing(earliest, cursor) == if behind >= 1 then behind else 1
    ensures 1 <= EstimateMissing(earliest, cursor) <= EstimateMissing(earliest, older)
  {
    ParsedNonNegative(earliest);
    ParsedNonNegative(cursor);
    ParsedNonNegative(older);
  }
}
