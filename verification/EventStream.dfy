/**
 One task's Redis stream as its readers see it at one moment: cursor reads and paged reads
 (axontask-shared/src/redis/stream_reader.rs).

 The stream remembers everything ever appended and how much of its front has been trimmed away.
 Decoding an entry is an arbitrary partial function: a reader skips what does not decode.
 */
module EventStream {
  import opened Wrappers
  import opened StreamId

  type Fields = map<string, string>
  datatype Entry = Entry(id: Id, fields: Fields)
  type Decoder<E> = Fields -> Option<E>

  datatype Stream = Stream(history: seq<Entry>, trimmed: nat) {
    ghost predicate Ok() {
      && trimmed <= |history|
      && Increasing(history)
      && forall i | 0 <= i < |history| :: ZERO.Less(history[i].id)
    }

    function Entries(): seq<Entry>
      requires trimmed <= |history|
    {
      history[trimmed..]
    }
  }

  ghost predicate Increasing(es: seq<Entry>) {
    forall i, j | 0 <= i < j < |es| :: Below(es, i, j)
  }

  predicate Below(es: seq<Entry>, i: nat, j: nat)
    requires i < |es| && j < |es|
  {
    es[i].id.Less(es[j].id)
  }

  // ---- Reading after a cursor ----------------------------------------------

  /** How many entries are at or below the cursor. */
  function Position(es: seq<Entry>, cursor: Id): (p: nat)
    ensures p <= |es|
    ensures forall i | 0 <= i < p :: es[i].id.AtMost(cursor)
    ensures p < |es| ==> cursor.Less(es[p].id)
  {
    FirstAbove(es, cursor, 0)
  }

  function FirstAbove(es: seq<Entry>, cursor: Id, from: nat): (p: nat)
    requires from <= |es|
    ensures from <= p <= |es|
    ensures forall i | from <= i < p :: es[i].id.AtMost(cursor)
    ensures p < |es| ==> cursor.Less(es[p].id)
    decreases |es| - from
  {
    if from == |es| || cursor.Less(es[from].id) then from else FirstAbove(es, cursor, from + 1)
  }

  lemma PositionSplits(es: seq<Entry>, cursor: Id, i: nat)
    requires Increasing(es) && i < |es|
    ensures i < Position(es, cursor) <==> es[i].id.AtMost(cursor)
  {
    var p := Position(es, cursor);
    if p < i { assert Below(es, p, i); }
  }

  /** Just behind entry `q` a cursor at its id continues. */
  lemma PositionBehind(es: seq<Entry>, q: nat)
    requires Increasing(es) && q < |es|
    ensures Position(es, es[q].id) == q + 1
  {
    PositionSplits(es, es[q].id, q);
    if q + 1 < |es| {
      assert Below(es, q, q + 1);
      PositionSplits(es, es[q].id, q + 1);
    }
  }

  /** Where the page of at most `n` entries after a cursor ends; `n` of 0 is no limit. */
  function PageEnd(es: seq<Entry>, cursor: Id, n: nat): (end: nat)
    ensures Position(es, cursor) <= end <= |es|
  {
    var p := Position(es, cursor);
    if n == 0 || |es| - p <= n then |es| else p + n
  }

  /** `XREAD COUNT n` with a cursor. */
  function Page(es: seq<Entry>, cursor: Id, n: nat): seq<Entry> {
    es[Position(es, cursor)..PageEnd(es, cursor, n)]
  }

  /** The entries among `lo..hi-1` that decode, with their ids, in order. */
  function Decoded<E>(decode: Decoder<E>, es: seq<Entry>, lo: nat, hi: nat): seq<(Id, E)>
    requires lo <= hi <= |es|
  {
    if lo == hi then []
    else Decoded(decode, es, lo, hi - 1) + EventOf(decode, es[hi - 1])
  }

  function EventOf<E>(decode: Decoder<E>, entry: Entry): seq<(Id, E)> {
    match decode(entry.fields)
    case Some(e) => [(entry.id, e)]
    case None => []
  }

  function Events<E>(pairs: seq<(Id, E)>): seq<E> { seq(|pairs|, i requires 0 <= i < |pairs| => pairs[i].1) }

  lemma {:induction false} DecodedAtMost<E>(decode: Decoder<E>, es: seq<Entry>, lo: nat, hi: nat)
    requires lo <= hi <= |es|
    ensures |Decoded(decode, es, lo, hi)| <= hi - lo
    decreases hi
  {
    if lo < hi { DecodedAtMost(decode, es, lo, hi - 1); }
  }

  /** The entries below `p` are at or below the cursor, and what follows begins above it. */
  ghost predicate StandsAt(es: seq<Entry>, cursor: Id, p: nat) {
    && p <= |es|
    && (forall i | 0 <= i < p :: es[i].id.AtMost(cursor))
    && (p < |es| ==> cursor.Less(es[p].id))
  }

  /** The decodable ones of the first `n` entries above the cursor, or of all of them when fewer are left. */
  ghost predicate NextEvents<E>(decode: Decoder<E>, es: seq<Entry>, cursor: Id, n: nat, events: seq<(Id, E)>) {
    exists p: nat :: StandsAt(es, cursor, p) && events == Decoded(decode, es, p, if |es| <= p + n then |es| else p + n)
  }

  /** All decodable entries above the cursor. */
  ghost predicate AllEvents<E>(decode: Decoder<E>, es: seq<Entry>, cursor: Id, events: seq<(Id, E)>) {
    exists p: nat :: StandsAt(es, cursor, p) && events == Decoded(decode, es, p, |es|)
  }

  lemma PageIsNext<E>(decode: Decoder<E>, es: seq<Entry>, cursor: Id, n: nat, events: seq<(Id, E)>)
    requires events == Decoded(decode, es, Position(es, cursor), PageEnd(es, cursor, n))
    ensures n > 0 ==> NextEvents(decode, es, cursor, n, events) && |events| <= n
    ensures n == 0 ==> AllEvents(decode, es, cursor, events)
  {
    var p := Position(es, cursor);
    assert StandsAt(es, cursor, p);
    DecodedAtMost(decode, es, p, PageEnd(es, cursor, n));
  }

  datatype Config = Config(defaultBatchSize: nat, maxBatchSize: nat)

  function SafeCount(config: Config, n: nat): nat { if n <= config.maxBatchSize then n else config.maxBatchSize }

  class StreamReader {
    var entries: seq<Entry>
    const config: Config

    constructor (entries: seq<Entry>, config: Config)
      ensures this.entries == entries && this.config == config
    {
      this.entries := entries;
      this.config := config;
    }

    /** The next `count` entries, but no more than the configured maximum; Redis takes 0 as no limit. */
    method ReadBackfill<E>(decode: Decoder<E>, since: Id, count: nat) returns (events: seq<(Id, E)>)
      ensures 0 < count <= config.maxBatchSize ==> NextEvents(decode, entries, since, count, events)
      ensures 0 < config.maxBatchSize < count ==> NextEvents(decode, entries, since, config.maxBatchSize, events)
      ensures 0 < count && 0 < config.maxBatchSize ==> |events| <= count && |events| <= config.maxBatchSize
      ensures count == 0 || config.maxBatchSize == 0 ==> AllEvents(decode, entries, since, events)
      ensures var end := PageEnd(entries, since, SafeCount(config, count));
        events == Decoded(decode, entries, Position(entries, since), end)
    {
      ghost var p := Position(entries, since);
      var reply := Page(entries, since, SafeCount(config, count));
      events := [];
      for i := 0 to |reply|
        invariant events == Decoded(decode, entries, p, p + i)
      {
        match decode(reply[i].fields)
        case Some(event) => events := events + [(reply[i].id, event)];
        case None =>
      }
      PageIsNext(decode, entries, since, SafeCount(config, count), events);
    }

    /** The live read: the same, with the configured batch size and no cap. */
    method ReadLive<E>(decode: Decoder<E>, after: Id) returns (events: seq<(Id, E)>)
      ensures 0 < config.defaultBatchSize ==> NextEvents(decode, entries, after, config.defaultBatchSize, events)
      ensures 0 == config.defaultBatchSize ==> AllEvents(decode, entries, after, events)
      ensures var end := PageEnd(entries, after, config.defaultBatchSize);
        events == Decoded(decode, entries, Position(entries, after), end)
    {
      ghost var p := Position(entries, after);
      var reply := Page(entries, after, config.defaultBatchSize);
      events := [];
      for i := 0 to |reply|
        invariant events == Decoded(decode, entries, p, p + i)
      {
        match decode(reply[i].fields)
        case Some(event) => events := events + [(reply[i].id, event)];
        case None =>
      }
      PageIsNext(decode, entries, after, config.defaultBatchSize, events);
    }

    /** Pages from the beginning until a page yields no event. */
    method ReadAll<E>(decode: Decoder<E>) returns (all: seq<E>)
      requires Increasing(entries) && forall i | 0 <= i < |entries| :: ZERO.Less(entries[i].id)
      ensures var b := SafeCount(config, config.defaultBatchSize);
              all == Events(Decoded(decode, entries, 0, Stop(decode, entries, b, 0)))
    {
      all := [];
      var lastId := ZERO;
      ghost var b, p := SafeCount(config, config.defaultBatchSize), 0;
      StartsAtZero(decode, entries, b);
      while true
        invariant p == Position(entries, lastId)
        invariant ReadUpTo(decode, entries, b, p, all)
        decreases |entries| - p
      {
        var batch := ReadBackfill(decode, lastId, config.defaultBatchSize);
        ghost var end := PageEnd(entries, lastId, b);
        if batch == [] {
          EmptyPageStops(decode, entries, b, p, end, all);
          break;
        }
        lastId := batch[|batch| - 1].0;
        p := PageAdvances(decode, entries, b, p, end, all, batch, lastId);
        all := all + Events(batch);
      }
    }
  }

  /** A paged read that stands behind entry `p - 1` holds the events so far and has passed no dead run. */
  ghost predicate ReadUpTo<E>(decode: Decoder<E>, es: seq<Entry>, b: nat, p: nat, all: seq<E>)
    requires p <= |es|
  {
    all == Events(Decoded(decode, es, 0, p)) && Stop(decode, es, b, 0) == Stop(decode, es, b, p)
  }

  /** Every id is above the start cursor. */
  lemma StartsAtZero<E>(decode: Decoder<E>, es: seq<Entry>, b: nat)
    requires forall i | 0 <= i < |es| :: ZERO.Less(es[i].id)
    ensures Position(es, ZERO) == 0 && ReadUpTo(decode, es, b, 0, [])
  {
  }

  lemma EventsConcat<E>(a: seq<(Id, E)>, b: seq<(Id, E)>)
    ensures Events(a + b) == Events(a) + Events(b)
  {
  }

  // ---- What a paged read returns -------------------------------------------

  /** None of the entries `lo..hi-1` decodes. */
  ghost predicate AllDead<E>(decode: Decoder<E>, es: seq<Entry>, lo: nat, hi: nat)
    requires hi <= |es|
  {
    forall i | lo <= i < hi :: DeadAt(decode, es, i)
  }

  ghost predicate DeadAt<E>(decode: Decoder<E>, es: seq<Entry>, i: int) {
    0 <= i < |es| && EventOf(decode, es[i]) == []
  }

  /** `b` entries from `c` on exist and none of them decodes. */
  ghost predicate DeadRun<E>(decode: Decoder<E>, es: seq<Entry>, b: nat, c: nat) {
    0 < b && c + b <= |es| && AllDead(decode, es, c, c + b)
  }

  /** Start of the first run of `b` undecodable entries at or after `c`; the end if there is none. */
  ghost function Stop<E>(decode: Decoder<E>, es: seq<Entry>, b: nat, c: nat): (stop: nat)
    requires c <= |es|
    ensures c <= stop <= |es|
    ensures stop < |es| ==> DeadRun(decode, es, b, stop)
    ensures forall i | c <= i < stop :: !DeadRun(decode, es, b, i)
    decreases |es| - c
  {
    if c == |es| || DeadRun(decode, es, b, c) then c else Stop(decode, es, b, c + 1)
  }

  lemma {:induction false} StopSkips<E>(decode: Decoder<E>, es: seq<Entry>, b: nat, c: nat, d: nat)
    requires c <= d <= |es| && forall i | c <= i < d :: !DeadRun(decode, es, b, i)
    ensures Stop(decode, es, b, c) == Stop(decode, es, b, d)
    decreases d - c
  {
    if c < d { StopSkips(decode, es, b, c + 1, d); }
  }

  lemma {:induction false} DecodedConcat<E>(decode: Decoder<E>, es: seq<Entry>, lo: nat, mid: nat, hi: nat)
    requires lo <= mid <= hi <= |es|
    ensures Decoded(decode, es, lo, hi) == Decoded(decode, es, lo, mid) + Decoded(decode, es, mid, hi)
    decreases hi
  {
    if mid < hi { DecodedConcat(decode, es, lo, mid, hi - 1); }
  }

  lemma {:induction false} DeadGivesNothing<E>(decode: Decoder<E>, es: seq<Entry>, lo: nat, hi: nat)
    requires lo <= hi <= |es| && AllDead(decode, es, lo, hi)
    ensures |Decoded(decode, es, lo, hi)| == 0
    decreases hi
  {
    if lo < hi {
      DeadGivesNothing(decode, es, lo, hi - 1);
      assert DeadAt(decode, es, hi - 1);
    }
  }

  lemma DecodedLength<E>(decode: Decoder<E>, es: seq<Entry>, lo: nat, hi: nat)
    requires lo < hi <= |es|
    ensures |Decoded(decode, es, lo, hi)| ==
      |Decoded(decode, es, lo, hi - 1)| + if DeadAt(decode, es, hi - 1) then 0 else 1
  {
  }

  lemma {:induction false} AliveGivesSomething<E>(decode: Decoder<E>, es: seq<Entry>, lo: nat, q: nat, hi: nat)
    requires lo <= q < hi <= |es| && !DeadAt(decode, es, q)
    ensures |Decoded(decode, es, lo, hi)| > 0
    decreases hi
  {
    DecodedLength(decode, es, lo, hi);
    if q < hi - 1 { AliveGivesSomething(decode, es, lo, q, hi - 1); }
  }

  lemma DeadDecodesToNothing<E>(decode: Decoder<E>, es: seq<Entry>, lo: nat, hi: nat)
    requires lo <= hi <= |es|
    ensures Decoded(decode, es, lo, hi) == [] <==> AllDead(decode, es, lo, hi)
  {
    if AllDead(decode, es, lo, hi) {
      DeadGivesNothing(decode, es, lo, hi);
    } else {
      var q: nat :| lo <= q < hi && !DeadAt(decode, es, q);
      AliveGivesSomething(decode, es, lo, q, hi);
    }
  }

  /** A range with events has a last one: its id ends the decoded range, and only dead entries follow. */
  lemma {:induction false} LastAlive<E>(decode: Decoder<E>, es: seq<Entry>, lo: nat, hi: nat) returns (q: nat)
    requires lo <= hi <= |es| && Decoded(decode, es, lo, hi) != []
    ensures lo <= q < hi && !DeadAt(decode, es, q) && AllDead(decode, es, q + 1, hi)
    ensures var pairs := Decoded(decode, es, lo, hi); pairs[|pairs| - 1].0 == es[q].id
    decreases hi
  {
    if EventOf(decode, es[hi - 1]) == [] {
      assert DeadAt(decode, es, hi - 1);
      q := LastAlive(decode, es, lo, hi - 1);
    } else {
      q := hi - 1;
    }
  }

  /** A page `p..end` without events: the read stands at a dead run, or only dead entries remain. */
  lemma EmptyPageStops<E>(decode: Decoder<E>, es: seq<Entry>, b: nat, p: nat, end: nat, all: seq<E>)
    requires p <= end <= |es| && (end == |es| || (0 < b && end == p + b))
    requires Decoded(decode, es, p, end) == [] && ReadUpTo(decode, es, b, p, all)
    ensures all == Events(Decoded(decode, es, 0, Stop(decode, es, b, 0)))
  {
    DeadDecodesToNothing(decode, es, p, end);
    var stop := Stop(decode, es, b, p);
    if end == |es| {
      DeadDecodesToNothing(decode, es, p, stop);
      DecodedConcat(decode, es, 0, p, stop);
    }
  }

  /** A page `p..end` with events: the read moves behind the last of them and passes no dead run. */
  lemma PageAdvances<E>(decode: Decoder<E>, es: seq<Entry>, b: nat, p: nat, end: nat, all: seq<E>,
                        batch: seq<(Id, E)>, last: Id) returns (p': nat)
    requires Increasing(es) && p <= end <= |es| && (0 < b ==> end <= p + b) && ReadUpTo(decode, es, b, p, all)
    requires batch == Decoded(decode, es, p, end) && batch != [] && last == batch[|batch| - 1].0
    ensures p < p' <= |es| && p' == Position(es, last) && ReadUpTo(decode, es, b, p', all + Events(batch))
  {
    var q := LastAlive(decode, es, p, end);
    p' := q + 1;
    PositionBehind(es, q);
    DecodedConcat(decode, es, 0, p, p');
    DecodedConcat(decode, es, p, p', end);
    DeadDecodesToNothing(decode, es, p', end);
    EventsConcat(Decoded(decode, es, 0, p), Decoded(decode, es, p, p'));
    StopSkips(decode, es, b, p, p');
  }

  /** So `read_all` is complete if and only if nothing after the first dead run decodes. */
  lemma ReadAllCompleteIff<E>(decode: Decoder<E>, es: seq<Entry>, b: nat)
    ensures var stop := Stop(decode, es, b, 0);
      Decoded(decode, es, 0, stop) == Decoded(decode, es, 0, |es|) <==> AllDead(decode, es, stop, |es|)
  {
    var stop := Stop(decode, es, b, 0);
    DecodedConcat(decode, es, 0, stop, |es|);
    DeadDecodesToNothing(decode, es, stop, |es|);
  }

  /** It can miss events: with batches of one, an undecodable entry hides everything behind it. */
  lemma ReadAllCanMiss<E>(decode: Decoder<E>, dead: Fields, live: Fields, event: E)
    requires decode(dead) == None && decode(live) == Some(event)
    ensures var es := [Entry(Id(1, 0), dead), Entry(Id(2, 0), live)];
      && Decoded(decode, es, 0, Stop(decode, es, 1, 0)) == []
      && Decoded(decode, es, 0, |es|) == [(Id(2, 0), event)]
  {
    var es := [Entry(Id(1, 0), dead), Entry(Id(2, 0), live)];
    assert DeadAt(decode, es, 0);
    assert DeadRun(decode, es, 1, 0);
    assert Decoded(decode, es, 0, 1) == [] + EventOf(decode, es[0]) == [];
    assert Decoded(decode, es, 0, 2) == Decoded(decode, es, 0, 1) + EventOf(decode, es[1]);
  }
}
