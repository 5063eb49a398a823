/**
 Reading a stream by cursor while others append to it and trim it, the gap detector's answers
 (axontask-shared/src/redis/gap_detection.rs), and the consumer lag (metrics.rs).
 */
module GapDetection {
  import opened Wrappers
  import opened StreamId
  import opened EventStream

  // ---- The moving stream ---------------------------------------------------

  datatype StreamStep =
    | Append(entry: Entry)
    | Trim(count: nat)

  /** Redis appends only above every id it has issued; a trim drops entries at the front. */
  function Apply(s: Stream, step: StreamStep): (t: Stream)
    ensures s.trimmed <= |s.history| ==> t.trimmed <= |t.history|
  {
    match step
    case Append(e) =>
      var last := if s.history == [] then ZERO else s.history[|s.history| - 1].id;
      if last.Less(e.id) then s.(history := s.history + [e]) else s
    case Trim(n) =>
      if s.trimmed + n <= |s.history| then s.(trimmed := s.trimmed + n) else s
  }

  /** An append above every id issued adds its entry, another is refused; a trim takes as many entries as it says. */
  lemma StepEffect(s: Stream, e: Entry, n: nat)
    requires s.Ok()
    ensures var t := Apply(s, Append(e));
      && (t != s <==> ZERO.Less(e.id) && forall i | 0 <= i < |s.history| :: s.history[i].id.Less(e.id))
      && (t != s ==> t.Entries() == s.Entries() + [e])
    ensures n <= |s.Entries()| ==> Apply(s, Trim(n)).Entries() == s.Entries()[n..]
  {
    var last := |s.history| - 1;
    if s.history != [] {
      assert ZERO.Less(s.history[last].id);
      forall i | 0 <= i < last ensures s.history[i].id.Less(s.history[last].id) { assert Below(s.history, i, last); }
    }
  }

  function Run(s: Stream, steps: seq<StreamStep>): Stream
    decreases |steps|
  {
    if steps == [] then s else Run(Apply(s, steps[0]), steps[1..])
  }

  lemma StepKeeps(s: Stream, step: StreamStep)
    requires s.Ok()
    ensures Apply(s, step).Ok() && s.history <= Apply(s, step).history && s.trimmed <= Apply(s, step).trimmed
  {
    var t, n := Apply(s, step), |s.history|;
    if |t.history| > n {
      forall i, j | 0 <= i < j < |t.history| ensures Below(t.history, i, j) {
        if j < n { assert Below(s.history, i, j); }
        else if i < n - 1 { assert Below(s.history, i, n - 1); }
      }
    }
  }

  lemma {:induction false} RunKeeps(s: Stream, steps: seq<StreamStep>)
    requires s.Ok()
    ensures Run(s, steps).Ok() && s.history <= Run(s, steps).history && s.trimmed <= Run(s, steps).trimmed
    decreases |steps|
  {
    if steps != [] {
      StepKeeps(s, steps[0]);
      RunKeeps(Apply(s, steps[0]), steps[1..]);
    }
  }

  // ---- Loss ----------------------------------------------------------------

  /** Something above the cursor was appended and is gone. */
  ghost predicate Loss(s: Stream, cursor: Id)
    requires s.trimmed <= |s.history|
  {
    exists k | 0 <= k < s.trimmed :: cursor.Less(s.history[k].id)
  }

  lemma LossIffTrimmedAbove(s: Stream, cursor: Id)
    requires s.Ok()
    ensures Loss(s, cursor) <==> Position(s.history, cursor) < s.trimmed
    ensures Loss(s, cursor) <==> s.trimmed > 0 && cursor.Less(s.history[s.trimmed - 1].id)
  {
    var p := Position(s.history, cursor);
    if s.trimmed > 0 {
      PositionSplits(s.history, cursor, s.trimmed - 1);
      if k :| 0 <= k < s.trimmed && cursor.Less(s.history[k].id) {
        PositionSplits(s.history, cursor, k);
      }
    }
  }

  /** In the part that is left, a cursor stands where it stands in the whole history. */
  lemma {:induction false} PositionInSuffix(es: seq<Entry>, k: nat, cursor: Id)
    requires Increasing(es) && k <= |es|
    ensures Increasing(es[k..])
    ensures Position(es[k..], cursor) == if Position(es, cursor) < k then 0 else Position(es, cursor) - k
  {
    var rest := es[k..];
    forall i, j | 0 <= i < j < |rest| ensures Below(rest, i, j) { assert Below(es, k + i, k + j); }
    var p, q := Position(es, cursor), Position(rest, cursor);
    if q < |rest| { PositionSplits(es, cursor, k + q); }
    if q > 0 { PositionSplits(es, cursor, k + q - 1); }
    if k < |es| { PositionSplits(es, cursor, k); }
  }

  // ---- The detector --------------------------------------------------------

  datatype GapInfo = GapInfo(clientCursor: string, earliest: string, latest: string, estimate: nat, compacted: bool)

  /** `None` for a stream that does not exist, which the detector reports as an error. */
  function DetectGap(stream: Option<Stream>, cursor: string): Result<Option<GapInfo>, GapError>
    requires stream.Some? ==> stream.value.trimmed <= |stream.value.history|
  {
    match stream
    case None => Err(NoSuchStream)
    case Some(s) =>
      var es := s.Entries();
      if es == [] then Ok(None)
      else
        var earliest, latest := Format(es[0].id), Format(es[|es| - 1].id);
        match CompareStreamIds(cursor, earliest)
        case Err(e) => Err(e)
        case Ok(c) =>
          if c >= 0 then Ok(None)
          else Ok(Some(GapInfo(cursor, earliest, latest, EstimateMissing(earliest, cursor), true)))
  }

  ghost predicate IdsFit(s: Stream) { forall i | 0 <= i < |s.history| :: Fits(s.history[i].id) }

  function TenASecond(ms: int): int { if ms >= 200 then ms / 100 else 1 }

  /** A report names the cursor as given, the ids left first and last, and ten events a second, at least one. */
  ghost predicate Reports(s: Stream, cursor: string, info: GapInfo) {
    && s.trimmed < |s.history|
    && info.clientCursor == cursor
    && info.earliest == Format(s.history[s.trimmed].id)
    && info.latest == Format(s.history[|s.history| - 1].id)
    && info.compacted
    && Readable(cursor)
    && info.estimate == TenASecond(s.history[s.trimmed].id.ms - IdOf(cursor).ms)
  }

  /** The detector reports exactly when something is left and all of it is above the cursor. */
  lemma ReportedIff(s: Stream, cursor: string)
    requires s.Ok() && IdsFit(s) && Readable(cursor)
    ensures var r := DetectGap(Some(s), cursor);
      && r.Ok?
      && (r.value.Some? <==> s.trimmed < |s.history| && IdOf(cursor).Less(s.history[s.trimmed].id))
      && (r.value.Some? ==> Reports(s, cursor, r.value.value))
  {
    var es := s.Entries();
    if es != [] {
      assert es[0] == s.history[s.trimmed] && es[|es| - 1] == s.history[|s.history| - 1];
      ReportedByOrder(cursor, es[0].id);
    }
  }

  lemma ReportedByOrder(cursor: string, first: Id)
    requires Readable(cursor) && Fits(first)
    ensures var c := CompareStreamIds(cursor, Format(first)); c.Ok? && (c.value < 0 <==> IdOf(cursor).Less(first))
    ensures IdOf(cursor).Less(first) ==>
      EstimateMissing(Format(first), cursor) == TenASecond(first.ms - IdOf(cursor).ms)
  {
    FormatReads(first);
    CompareIsOrder(cursor, Format(first));
    if IdOf(cursor).Less(first) { EstimateSound(Format(first), cursor, cursor); }
  }

  /**
   Hence a loss goes unreported exactly when everything was trimmed, the newest entry above the
   cursor, and a report is a false alarm exactly when the cursor is not below the last trimmed entry.
   */
  lemma DetectGapExact(s: Stream, cursor: string)
    requires s.Ok() && IdsFit(s) && Readable(cursor)
    ensures var r := DetectGap(Some(s), cursor); var id := IdOf(cursor);
      && r.Ok?
      && (r.value.None? ==> (Loss(s, id) <==> s.trimmed == |s.history| > 0 && id.Less(s.history[|s.history| - 1].id)))
      && (r.value.Some? ==> (Loss(s, id) <==> s.trimmed > 0 && id.Less(s.history[s.trimmed - 1].id)))
  {
    ReportedIff(s, cursor);
    LossIffTrimmedAbove(s, IdOf(cursor));
    if 0 < s.trimmed < |s.history| { assert Below(s.history, s.trimmed - 1, s.trimmed); }
  }

  /** A stream whose only entry was trimmed: a reader from the beginning has lost it and is told of no gap. */
  lemma LossCanGoUnreported()
    ensures exists s: Stream, cursor ::
      && s.Ok() && IdsFit(s) && Readable(cursor)
      && DetectGap(Some(s), cursor) == Ok(None) && Loss(s, IdOf(cursor))
  {
    var s := Stream([Entry(Id(1, 0), map[])], 1);
    FormatReads(ZERO);
    assert s.Entries() == [];
    assert ZERO.Less(s.history[0].id);
    assert DetectGap(Some(s), Format(ZERO)) == Ok(None) && Loss(s, IdOf(Format(ZERO)));
  }

  /** It fails exactly without a stream, or on a cursor it cannot read while there is something to compare with. */
  lemma DetectGapErrors(stream: Option<Stream>, cursor: string)
    requires stream.Some? ==> stream.value.Ok() && IdsFit(stream.value)
    ensures DetectGap(stream, cursor).Err? <==>
      stream.None? || (stream.value.Entries() != [] && !Readable(cursor))
  {
    if stream.Some? && stream.value.Entries() != [] {
      assert stream.value.Entries()[0] == stream.value.history[stream.value.trimmed];
      ParseFormat(stream.value.Entries()[0].id);
    }
  }

  /** An answer of no gap on a stream with entries means nothing above the cursor is gone. */
  lemma NoGapNoLoss(s: Stream, cursor: string)
    requires s.Ok() && s.Entries() != [] && DetectGap(Some(s), cursor) == Ok(None)
    ensures Readable(cursor) && !Loss(s, IdOf(cursor))
  {
    assert s.Entries()[0] == s.history[s.trimmed];
    FormatReads(s.Entries()[0].id);
    ReportedByOrder(cursor, s.Entries()[0].id);
    LossIffTrimmedAbove(s, IdOf(cursor));
    if s.trimmed > 0 { assert Below(s.history, s.trimmed - 1, s.trimmed); }
  }

  /** The start-of-stream cursor is reported even when nothing was ever trimmed. */
  lemma StartCursorReported(s: Stream, cursor: string)
    requires s.Ok() && IdsFit(s) && s.Entries() != [] && Readable(cursor) && IdOf(cursor) == ZERO
    ensures var r := DetectGap(Some(s), cursor); r.Ok? && r.value.Some?
    ensures s.trimmed == 0 ==> !Loss(s, ZERO)
  {
    ReportedIff(s, cursor);
  }

  /** Such an answer, however much later, vouches for a read made at that cursor before it. */
  lemma LaterCheckVouches(s: Stream, steps: seq<StreamStep>, cursor: string)
    requires s.Ok() && Run(s, steps).trimmed < |Run(s, steps).history|
    requires DetectGap(Some(Run(s, steps)), cursor) == Ok(None)
    ensures Readable(cursor) && !Loss(s, IdOf(cursor)) && !Loss(Run(s, steps), IdOf(cursor))
  {
    RunKeeps(s, steps);
    NoGapNoLoss(Run(s, steps), cursor);
    assert forall k | 0 <= k < s.trimmed :: Run(s, steps).history[k] == s.history[k];
  }

  lemma TwoTrimmed(e1: Entry, e2: Entry)
    requires ZERO.Less(e1.id) && e1.id.Less(e2.id) && Fits(e1.id) && Fits(e2.id)
    ensures var s := Stream([e1, e2], 0);
      s.Ok() && IdsFit(s) && Run(s, [Trim(2)]) == Stream([e1, e2], 2)
  {
    assert Below([e1, e2], 0, 1);
    assert [Trim(2)][1..] == [];
  }

  /** An answer before the read does not: a trim in between loses an entry. */
  lemma EarlierCheckDoesNot()
    ensures exists s: Stream, steps, cursor ::
      && s.Ok() && s.Entries() != [] && Run(s, steps).Ok() && Readable(cursor)
      && DetectGap(Some(s), cursor) == Ok(None)
      && Loss(Run(s, steps), IdOf(cursor))
  {
    var e1, e2 := Entry(Id(1, 0), map[]), Entry(Id(2, 0), map[]);
    TwoTrimmed(e1, e2);
    AnsweredThenTrimmed(Stream([e1, e2], 0), Format(e1.id), [Trim(2)]);
  }

  lemma AnsweredThenTrimmed(s: Stream, cursor: string, steps: seq<StreamStep>)
    requires s.Ok() && IdsFit(s) && s.trimmed == 0 && |s.history| == 2 && cursor == Format(s.history[0].id)
    requires Run(s, steps) == s.(trimmed := 2)
    ensures Run(s, steps).Ok() && Readable(cursor) && DetectGap(Some(s), cursor) == Ok(None)
    ensures Loss(Run(s, steps), IdOf(cursor))
  {
    FormatReads(s.history[0].id);
    ReportedIff(s, cursor);
    assert Below(s.history, 0, 1);
    assert IdOf(cursor).Less(Run(s, steps).history[1].id);
  }

  // ---- A reader among appends and trims ------------------------------------

  /** `clean`: no read so far happened with an entry above the cursor already gone. */
  datatype Client<E> = Client(stream: Stream, cursor: Id, delivered: seq<(Id, E)>, clean: bool)

  datatype Step =
    | Env(step: StreamStep)
    | Read(count: nat)

  /** What one read of up to `n` entries delivers. */
  function Batch<E>(decode: Decoder<E>, s: Stream, cursor: Id, n: nat): seq<(Id, E)>
    requires s.trimmed <= |s.history|
  {
    Decoded(decode, s.Entries(), Position(s.Entries(), cursor), PageEnd(s.Entries(), cursor, n))
  }

  /** The cursor of a reader is the id of the last event it was handed. */
  function Advanced<E>(cursor: Id, batch: seq<(Id, E)>): Id {
    if batch == [] then cursor else batch[|batch| - 1].0
  }

  ghost function ClientStep<E>(decode: Decoder<E>, c: Client<E>, step: Step): (c': Client<E>)
    requires c.stream.trimmed <= |c.stream.history|
    ensures c'.stream.trimmed <= |c'.stream.history|
  {
    match step
    case Env(e) => c.(stream := Apply(c.stream, e))
    case Read(n) =>
      var batch := Batch(decode, c.stream, c.cursor, n);
      Client(c.stream, Advanced(c.cursor, batch), c.delivered + batch, c.clean && !Loss(c.stream, c.cursor))
  }

  ghost function ClientRun<E>(decode: Decoder<E>, c: Client<E>, steps: seq<Step>): Client<E>
    requires c.stream.trimmed <= |c.stream.history|
    decreases |steps|
  {
    if steps == [] then c else ClientRun(decode, ClientStep(decode, c, steps[0]), steps[1..])
  }

  // ---- Events and where they come from -------------------------------------

  /** The event is that of one of the entries `lo..hi-1`. */
  ghost predicate From<E>(decode: Decoder<E>, es: seq<Entry>, lo: nat, hi: nat, pair: (Id, E))
    requires hi <= |es|
  {
    exists k | lo <= k < hi :: es[k].id == pair.0 && decode(es[k].fields) == Some(pair.1)
  }

  ghost predicate AllFrom<E>(decode: Decoder<E>, es: seq<Entry>, lo: nat, hi: nat, pairs: seq<(Id, E)>)
    requires hi <= |es|
  {
    forall i | 0 <= i < |pairs| :: From(decode, es, lo, hi, pairs[i])
  }

  ghost predicate PairsIncrease<E>(pairs: seq<(Id, E)>) {
    forall i, j | 0 <= i < j < |pairs| :: PairBelow(pairs, i, j)
  }

  ghost predicate PairBelow<E>(pairs: seq<(Id, E)>, i: nat, j: nat)
    requires i < |pairs| && j < |pairs|
  {
    pairs[i].0.Less(pairs[j].0)
  }

  ghost predicate AllAtMost<E>(pairs: seq<(Id, E)>, id: Id) {
    forall i | 0 <= i < |pairs| :: pairs[i].0.AtMost(id)
  }

  ghost predicate AllAbove<E>(pairs: seq<(Id, E)>, id: Id) {
    forall i | 0 <= i < |pairs| :: id.Less(pairs[i].0)
  }

  lemma IncreaseConcat<E>(a: seq<(Id, E)>, b: seq<(Id, E)>, mid: Id)
    requires PairsIncrease(a) && PairsIncrease(b) && AllAtMost(a, mid) && AllAbove(b, mid)
    ensures PairsIncrease(a + b)
  {
    var c := a + b;
    forall i, j | 0 <= i < j < |c| ensures PairBelow(c, i, j) {
      if j < |a| { assert PairBelow(a, i, j); }
      else if i >= |a| { assert PairBelow(b, i - |a|, j - |a|); }
    }
  }

  lemma LastIsTop<E>(pairs: seq<(Id, E)>)
    requires PairsIncrease(pairs) && pairs != []
    ensures AllAtMost(pairs, pairs[|pairs| - 1].0)
  {
    forall i | 0 <= i < |pairs| ensures pairs[i].0.AtMost(pairs[|pairs| - 1].0) {
      if i < |pairs| - 1 { assert PairBelow(pairs, i, |pairs| - 1); }
    }
  }

  lemma {:induction false} DecodedFrom<E>(decode: Decoder<E>, es: seq<Entry>, lo: nat, hi: nat)
    requires lo <= hi <= |es|
    ensures AllFrom(decode, es, lo, hi, Decoded(decode, es, lo, hi))
    decreases hi
  {
    if lo < hi {
      DecodedFrom(decode, es, lo, hi - 1);
      var before, all := Decoded(decode, es, lo, hi - 1), Decoded(decode, es, lo, hi);
      forall i | 0 <= i < |all| ensures From(decode, es, lo, hi, all[i]) {
        if i < |before| {
          assert From(decode, es, lo, hi - 1, before[i]);
        }
      }
    }
  }

  lemma {:induction false} DecodedIncreases<E>(decode: Decoder<E>, es: seq<Entry>, lo: nat, hi: nat)
    requires Increasing(es) && lo <= hi <= |es|
    ensures PairsIncrease(Decoded(decode, es, lo, hi))
    ensures lo < hi ==> AllAtMost(Decoded(decode, es, lo, hi), es[hi - 1].id)
    decreases hi
  {
    if lo < hi {
      DecodedIncreases(decode, es, lo, hi - 1);
      if lo < hi - 1 {
        assert Below(es, hi - 2, hi - 1);
        IncreaseConcat(Decoded(decode, es, lo, hi - 1), EventOf(decode, es[hi - 1]), es[hi - 2].id);
      }
    }
  }

  lemma {:induction false} DecodedOfSuffix<E>(decode: Decoder<E>, es: seq<Entry>, k: nat, lo: nat, hi: nat)
    requires k <= lo <= hi <= |es|
    ensures Decoded(decode, es[k..], lo - k, hi - k) == Decoded(decode, es, lo, hi)
    decreases hi
  {
    if lo < hi {
      DecodedOfSuffix(decode, es, k, lo, hi - 1);
      assert es[k..][hi - 1 - k] == es[hi - 1];
    }
  }

  lemma {:induction false} DecodedOfPrefix<E>(decode: Decoder<E>, es: seq<Entry>, more: seq<Entry>, lo: nat, hi: nat)
    requires lo <= hi <= |es| && es <= more
    ensures Decoded(decode, es, lo, hi) == Decoded(decode, more, lo, hi)
    decreases hi
  {
    if lo < hi { DecodedOfPrefix(decode, es, more, lo, hi - 1); }
  }

  /** A read delivers a range of the history that begins at its cursor, or where the trimming ends. */
  lemma ReadRange<E>(decode: Decoder<E>, s: Stream, cursor: Id, n: nat) returns (lo: nat, hi: nat)
    requires s.Ok()
    ensures lo == if Position(s.history, cursor) < s.trimmed then s.trimmed else Position(s.history, cursor)
    ensures lo <= hi <= |s.history| && Batch(decode, s, cursor, n) == Decoded(decode, s.history, lo, hi)
  {
    PositionInSuffix(s.history, s.trimmed, cursor);
    lo := s.trimmed + Position(s.Entries(), cursor);
    hi := s.trimmed + PageEnd(s.Entries(), cursor, n);
    DecodedOfSuffix(decode, s.history, s.trimmed, lo, hi);
  }

  lemma BatchAboveCursor<E>(decode: Decoder<E>, s: Stream, cursor: Id, n: nat)
    requires s.Ok()
    ensures var batch := Batch(decode, s, cursor, n);
      AllAbove(batch, cursor) && PairsIncrease(batch) && AllFrom(decode, s.history, 0, |s.history|, batch)
  {
    var lo, hi := ReadRange(decode, s, cursor, n);
    var h, batch := s.history, Batch(decode, s, cursor, n);
    DecodedIncreases(decode, h, lo, hi);
    DecodedFrom(decode, h, lo, hi);
    forall i | 0 <= i < |batch| ensures cursor.Less(batch[i].0) && From(decode, h, 0, |h|, batch[i]) {
      assert From(decode, h, lo, hi, batch[i]);
      var k :| lo <= k < hi && h[k].id == batch[i].0 && decode(h[k].fields) == Some(batch[i].1);
      PositionSplits(h, cursor, k);
    }
  }

  // ---- What a reader is handed over a run ----------------------------------

  /** Delivered ids strictly increase, stay at or below the cursor, and every event was appended. */
  ghost predicate DeliveredOk<E>(decode: Decoder<E>, c: Client<E>) {
    && c.stream.Ok()
    && PairsIncrease(c.delivered)
    && AllAtMost(c.delivered, c.cursor)
    && AllFrom(decode, c.stream.history, 0, |c.stream.history|, c.delivered)
  }

  /** What was delivered is everything decodable above the start cursor and up to the current one. */
  ghost predicate DeliveredAll<E>(decode: Decoder<E>, c: Client<E>, start: Id) {
    DeliveredUpTo(decode, c.stream.history, start, c.cursor, c.delivered)
  }

  ghost predicate DeliveredUpTo<E>(decode: Decoder<E>, h: seq<Entry>, start: Id, cursor: Id, delivered: seq<(Id, E)>) {
    var lo, hi := Position(h, start), Position(h, cursor);
    lo <= hi && delivered == Decoded(decode, h, lo, hi) && (cursor == start || (lo < hi && h[hi - 1].id == cursor))
  }

  lemma ReadDelivers<E>(decode: Decoder<E>, c: Client<E>, n: nat)
    requires DeliveredOk(decode, c)
    ensures DeliveredOk(decode, ClientStep(decode, c, Read(n)))
  {
    var batch := Batch(decode, c.stream, c.cursor, n);
    BatchAboveCursor(decode, c.stream, c.cursor, n);
    IncreaseConcat(c.delivered, batch, c.cursor);
    if batch != [] { LastIsTop(c.delivered + batch); }
  }

  lemma StepDelivers<E>(decode: Decoder<E>, c: Client<E>, step: Step)
    requires DeliveredOk(decode, c)
    ensures DeliveredOk(decode, ClientStep(decode, c, step))
  {
    if step.Read? {
      ReadDelivers(decode, c, step.count);
    } else {
      StepKeeps(c.stream, step.step);
      var h, h' := c.stream.history, Apply(c.stream, step.step).history;
      forall i | 0 <= i < |c.delivered| ensures From(decode, h', 0, |h'|, c.delivered[i]) {
        assert From(decode, h, 0, |h|, c.delivered[i]);
        var k :| 0 <= k < |h| && h[k].id == c.delivered[i].0 && decode(h[k].fields) == Some(c.delivered[i].1);
        assert h'[k] == h[k];
      }
    }
  }

  /** Over any interleaving, a reader is handed appended events only, each once, in id order. */
  lemma {:induction false} NeverTwiceNeverOutOfOrder<E>(decode: Decoder<E>, c: Client<E>, steps: seq<Step>)
    requires DeliveredOk(decode, c)
    ensures DeliveredOk(decode, ClientRun(decode, c, steps))
    decreases |steps|
  {
    if steps != [] {
      StepDelivers(decode, c, steps[0]);
      NeverTwiceNeverOutOfOrder(decode, ClientStep(decode, c, steps[0]), steps[1..]);
    }
  }

  lemma PositionAfterAppend(es: seq<Entry>, more: seq<Entry>, cursor: Id)
    requires Increasing(more) && es <= more && Position(es, cursor) < |es|
    ensures Position(more, cursor) == Position(es, cursor)
  {
    var p := Position(es, cursor);
    PositionSplits(more, cursor, p);
    if p > 0 { PositionSplits(more, cursor, p - 1); }
  }

  /** A batch of entries from `lo` on moves the reader behind its last event: nothing it skips decodes. */
  lemma BatchEnd<E>(decode: Decoder<E>, h: seq<Entry>, lo: nat, hi: nat) returns (p: nat)
    requires Increasing(h) && lo <= hi <= |h| && Decoded(decode, h, lo, hi) != []
    ensures lo < p <= hi && Decoded(decode, h, lo, hi) == Decoded(decode, h, lo, p)
    ensures var batch := Decoded(decode, h, lo, hi);
      batch[|batch| - 1].0 == h[p - 1].id && Position(h, h[p - 1].id) == p
  {
    var q := LastAlive(decode, h, lo, hi);
    p := q + 1;
    PositionBehind(h, q);
    DecodedConcat(decode, h, lo, p, hi);
    DeadDecodesToNothing(decode, h, p, hi);
  }

  lemma ExtendsTo<E>(decode: Decoder<E>, h: seq<Entry>, start: Id, cursor: Id, delivered: seq<(Id, E)>,
                     batch: seq<(Id, E)>, next: Id, p: nat)
    requires DeliveredUpTo(decode, h, start, cursor, delivered)
    requires Position(h, cursor) < p <= |h| && h[p - 1].id == next && Position(h, next) == p
    requires batch == Decoded(decode, h, Position(h, cursor), p)
    ensures DeliveredUpTo(decode, h, start, next, delivered + batch)
  {
    DecodedConcat(decode, h, Position(h, start), Position(h, cursor), p);
  }

  lemma BatchExtends<E>(decode: Decoder<E>, h: seq<Entry>, start: Id, cursor: Id, delivered: seq<(Id, E)>,
                        batch: seq<(Id, E)>, hi: nat)
    requires Increasing(h) && DeliveredUpTo(decode, h, start, cursor, delivered)
    requires Position(h, cursor) <= hi <= |h| && batch == Decoded(decode, h, Position(h, cursor), hi)
    ensures DeliveredUpTo(decode, h, start, Advanced(cursor, batch), delivered + batch)
  {
    if batch == [] {
      assert delivered + batch == delivered;
    } else {
      var p := BatchEnd(decode, h, Position(h, cursor), hi);
      ExtendsTo(decode, h, start, cursor, delivered, batch, Advanced(cursor, batch), p);
    }
  }

  lemma ReadDeliversAll<E>(decode: Decoder<E>, c: Client<E>, n: nat, start: Id)
    requires c.stream.Ok() && DeliveredAll(decode, c, start) && !Loss(c.stream, c.cursor)
    ensures DeliveredAll(decode, ClientStep(decode, c, Read(n)), start)
  {
    LossIffTrimmedAbove(c.stream, c.cursor);
    var lo, hi := ReadRange(decode, c.stream, c.cursor, n);
    var batch := Batch(decode, c.stream, c.cursor, n);
    BatchExtends(decode, c.stream.history, start, c.cursor, c.delivered, batch, hi);
  }

  lemma EnvKeepsAll<E>(decode: Decoder<E>, c: Client<E>, e: StreamStep, start: Id)
    requires c.stream.Ok() && DeliveredAll(decode, c, start)
    ensures DeliveredAll(decode, ClientStep(decode, c, Env(e)), start)
  {
    var h, h' := c.stream.history, Apply(c.stream, e).history;
    StepKeeps(c.stream, e);
    if c.cursor != start {
      var hi := Position(h, c.cursor);
      PositionAfterAppend(h, h', start);
      PositionBehind(h', hi - 1);
      DecodedOfPrefix(decode, h, h', Position(h, start), hi);
    }
  }

  /**
   If no read happened with an entry above its cursor already trimmed - which a later answer of no
   gap at that cursor vouches for - the reader has exactly the decodable events between its start
   and its cursor, whatever appends and trims went on meanwhile.
   */
  lemma {:induction false} CleanReaderMissesNothing<E>(decode: Decoder<E>, c: Client<E>, steps: seq<Step>, start: Id)
    requires c.stream.Ok() && (c.clean ==> DeliveredAll(decode, c, start))
    ensures ClientRun(decode, c, steps).clean ==> DeliveredAll(decode, ClientRun(decode, c, steps), start)
    decreases |steps|
  {
    if steps != [] {
      var c' := ClientStep(decode, c, steps[0]);
      if steps[0].Env? {
        StepKeeps(c.stream, steps[0].step);
        if c.clean { EnvKeepsAll(decode, c, steps[0].step, start); }
      } else if c'.clean {
        ReadDeliversAll(decode, c, steps[0].count, start);
      }
      CleanReaderMissesNothing(decode, c', steps[1..], start);
    }
  }

  // ---- A reader that asks the detector -------------------------------------

  /** Traffic, a read, more traffic, and then the detector is asked about the cursor that was read from. */
  datatype Round = Round(before: seq<StreamStep>, count: nat, between: seq<StreamStep>, asked: string)

  datatype Reader<E> = Reader(stream: Stream, cursor: Id, delivered: seq<(Id, E)>)

  ghost predicate Vouched<E>(r: Reader<E>, round: Round)
    requires r.stream.Ok()
  {
    var end := Run(Run(r.stream, round.before), round.between);
    && end.trimmed < |end.history|
    && Readable(round.asked) && IdOf(round.asked) == r.cursor
    && DetectGap(Some(end), round.asked) == Ok(None)
  }

  function AfterRound<E>(decode: Decoder<E>, r: Reader<E>, round: Round): Reader<E>
    requires r.stream.trimmed <= |r.stream.history|
  {
    var mid := Run(r.stream, round.before);
    RunInBounds(r.stream, round.before);
    var batch := Batch(decode, mid, r.cursor, round.count);
    Reader(Run(mid, round.between), Advanced(r.cursor, batch), r.delivered + batch)
  }

  lemma {:induction false} RunInBounds(s: Stream, steps: seq<StreamStep>)
    requires s.trimmed <= |s.history|
    ensures Run(s, steps).trimmed <= |Run(s, steps).history|
    decreases |steps|
  {
    if steps != [] { RunInBounds(Apply(s, steps[0]), steps[1..]); }
  }

  /** Every round's answer was no gap, on a stream with entries. */
  ghost predicate AllVouched<E>(decode: Decoder<E>, r: Reader<E>, rounds: seq<Round>)
    requires r.stream.Ok()
    decreases |rounds|
  {
    rounds == [] ||
    (Vouched(r, rounds[0])
     && (RoundKeepsOk(decode, r, rounds[0]); AllVouched(decode, AfterRound(decode, r, rounds[0]), rounds[1..])))
  }

  ghost function AfterRounds<E>(decode: Decoder<E>, r: Reader<E>, rounds: seq<Round>): Reader<E>
    requires r.stream.Ok()
    decreases |rounds|
  {
    if rounds == [] then r
    else
      RoundKeepsOk(decode, r, rounds[0]);
      AfterRounds(decode, AfterRound(decode, r, rounds[0]), rounds[1..])
  }

  lemma RoundKeepsOk<E>(decode: Decoder<E>, r: Reader<E>, round: Round)
    requires r.stream.Ok()
    ensures AfterRound(decode, r, round).stream.Ok()
  {
    RunKeeps(r.stream, round.before);
    RunKeeps(Run(r.stream, round.before), round.between);
  }

  ghost predicate HasAll<E>(decode: Decoder<E>, r: Reader<E>, start: Id) {
    DeliveredUpTo(decode, r.stream.history, start, r.cursor, r.delivered)
  }

  lemma {:induction false} TrafficKeepsAll<E>(decode: Decoder<E>, r: Reader<E>, steps: seq<StreamStep>, start: Id)
    requires r.stream.Ok() && HasAll(decode, r, start)
    ensures HasAll(decode, r.(stream := Run(r.stream, steps)), start)
    decreases |steps|
  {
    if steps != [] {
      var c := Client(r.stream, r.cursor, r.delivered, true);
      EnvKeepsAll(decode, c, steps[0], start);
      StepKeeps(r.stream, steps[0]);
      TrafficKeepsAll(decode, r.(stream := Apply(r.stream, steps[0])), steps[1..], start);
    }
  }

  lemma RoundKeepsAll<E>(decode: Decoder<E>, r: Reader<E>, round: Round, start: Id)
    requires r.stream.Ok() && HasAll(decode, r, start) && Vouched(r, round)
    ensures HasAll(decode, AfterRound(decode, r, round), start)
  {
    var mid := Run(r.stream, round.before);
    RunKeeps(r.stream, round.before);
    TrafficKeepsAll(decode, r, round.before, start);
    LaterCheckVouches(mid, round.between, round.asked);
    var c := Client(mid, r.cursor, r.delivered, true);
    ReadDeliversAll(decode, c, round.count, start);
    var read := ClientStep(decode, c, Read(round.count));
    TrafficKeepsAll(decode, Reader(read.stream, read.cursor, read.delivered), round.between, start);
  }

  /**
   A reader that asks the detector after every read, about the cursor it read from, and is always
   answered no gap on a stream with entries, has exactly the decodable events between its start and
   its cursor - whatever was appended and trimmed before, between and after its reads. A round from
   cursor `0-0` is never vouched for, since that cursor is always reported: a first read from the
   beginning of the stream is not covered, only reads that continue from an event.
   */
  lemma {:induction false} CheckedReaderMissesNothing<E>(
    decode: Decoder<E>, r: Reader<E>, rounds: seq<Round>, start: Id)
    requires r.stream.Ok() && HasAll(decode, r, start) && AllVouched(decode, r, rounds)
    ensures HasAll(decode, AfterRounds(decode, r, rounds), start)
    decreases |rounds|
  {
    if rounds != [] {
      RoundKeepsOk(decode, r, rounds[0]);
      RoundKeepsAll(decode, r, rounds[0], start);
      CheckedReaderMissesNothing(decode, AfterRound(decode, r, rounds[0]), rounds[1..], start);
    }
  }

  // ---- Lag -----------------------------------------------------------------

  function SaturatingSubNat(x: nat, y: nat): nat { if x < y then 0 else x - y }

  /** The stream's length, and in a second command its entries up to the consumer's position. */
  method CalculateLag(atLength: Stream, atRange: Stream, position: Id) returns (lag: nat)
    requires atLength.Ok() && atRange.Ok()
    ensures lag == SaturatingSubNat(|atLength.Entries()|, Position(atRange.Entries(), position))
    ensures lag == 0 || lag + Position(atRange.Entries(), position) == |atLength.Entries()|
    ensures lag == 0 <==> |atLength.Entries()| <= Position(atRange.Entries(), position)
    ensures atRange == atLength ==>
      lag == CountAbove(atLength.Entries(), position) == |Page(atLength.Entries(), position, 0)|
  {
    var count := |atLength.Entries()|;
    var consumed := Position(atRange.Entries(), position);
    lag := SaturatingSubNat(count, consumed);
    if atRange == atLength {
      PositionInSuffix(atLength.history, atLength.trimmed, position);
      AboveCount(atLength.Entries(), position);
    }
  }

  /** How many of the first `n` entries are at or below the position. */
  function ConsumedAmong(s: Stream, position: Id, n: nat): nat {
    if n <= Position(s.history, position) then n else Position(s.history, position)
  }

  lemma PositionAfterRun(es: seq<Entry>, more: seq<Entry>, cursor: Id)
    requires Increasing(more) && es <= more && es != [] && cursor.AtMost(es[|es| - 1].id)
    ensures Position(more, cursor) == Position(es, cursor)
  {
    var n := |es|;
    if Position(es, cursor) < n {
      PositionAfterAppend(es, more, cursor);
    } else {
      PositionSplits(more, cursor, n - 1);
      if n < |more| {
        assert Below(more, n - 1, n);
        PositionSplits(more, cursor, n);
      }
    }
  }

  /**
   With traffic between the two commands, the lag is exact as of the first one but for consumed
   entries that were trimmed in between: it is too high by just those, and never too low.
   */
  lemma LagUnderTraffic(s: Stream, steps: seq<StreamStep>, position: Id)
    requires s.Ok() && s.history != [] && position.AtMost(s.history[|s.history| - 1].id)
    ensures var t := Run(s, steps);
      && t.Ok() && s.trimmed <= t.trimmed
      && SaturatingSubNat(|s.Entries()|, Position(t.Entries(), position))
         == CountAbove(s.Entries(), position)
            + ConsumedAmong(s, position, t.trimmed) - ConsumedAmong(s, position, s.trimmed)
  {
    var t := Run(s, steps);
    RunKeeps(s, steps);
    PositionAfterRun(s.history, t.history, position);
    PositionInSuffix(s.history, s.trimmed, position);
    PositionInSuffix(t.history, t.trimmed, position);
    AboveCount(s.Entries(), position);
  }

  /** How many entries are above the position. */
  function CountAbove(es: seq<Entry>, position: Id): nat {
    if es == [] then 0
    else CountAbove(es[..|es| - 1], position) + if position.Less(es[|es| - 1].id) then 1 else 0
  }

  lemma {:induction false} AboveCount(es: seq<Entry>, position: Id)
    requires Increasing(es)
    ensures CountAbove(es, position) == |es| - Position(es, position)
    decreases |es|
  {
    if es != [] {
      var n := |es| - 1;
      forall i, j | 0 <= i < j < n ensures Below(es[..n], i, j) { assert Below(es, i, j); }
      AboveCount(es[..n], position);
      PositionSplits(es, position, n);
      var p, q := Position(es, position), Position(es[..n], position);
      if p < n { PositionSplits(es[..n], position, p); }
      if q < n { PositionSplits(es, position, q); }
      if q > 0 { PositionSplits(es, position, q - 1); }
      if 0 < p <= n { PositionSplits(es[..n], position, p - 1); }
    }
  }
}
