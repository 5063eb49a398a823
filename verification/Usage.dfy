/**
 Usage counters per tenant and day (axontask-shared/src/models/usage.rs): what increments leave in
 the table, when they are refused, and what the aggregate over a range of days says about them.
 */
module Usage {
  import opened Wrappers
  import opened Tenancy

  type Day = int

  datatype Counter = TaskMinutes | Streams | Bytes | TasksCreated

  /** Three INTEGER columns and one BIGINT. */
  function MaxOf(c: Counter): int { if c.Bytes? then 0x7FFF_FFFF_FFFF_FFFF else 0x7FFF_FFFF }

  datatype Usage = Usage(taskMinutes: int, streams: int, bytes: int, tasksCreated: int) {
    function Get(c: Counter): int {
      match c
      case TaskMinutes => taskMinutes
      case Streams => streams
      case Bytes => bytes
      case TasksCreated => tasksCreated
    }

    function Add(c: Counter, amount: int): Usage {
      match c
      case TaskMinutes => this.(taskMinutes := taskMinutes + amount)
      case Streams => this.(streams := streams + amount)
      case Bytes => this.(bytes := bytes + amount)
      case TasksCreated => this.(tasksCreated := tasksCreated + amount)
    }
  }

  const ZERO := Usage(0, 0, 0, 0)

  datatype Key = Key(tenant: TenantId, period: Day)
  type Rows = map<Key, Usage>

  datatype Increment = Increment(key: Key, counter: Counter, amount: int)

  function RowAt(rows: Rows, key: Key): Usage { if key in rows then rows[key] else ZERO }

  /** The upsert. The row proposed is checked before it meets an existing one; a sum may not overflow. */
  function Upsert(rows: Rows, inc: Increment): Option<Rows> {
    var sum := RowAt(rows, inc.key).Get(inc.counter) + inc.amount;
    if inc.amount < 0 || sum > MaxOf(inc.counter) then None
    else Some(rows[inc.key := RowAt(rows, inc.key).Add(inc.counter, inc.amount)])
  }

  /** The amount is not negative, and the day's counter has room for it. */
  predicate Fitting(rows: Rows, inc: Increment) {
    0 <= inc.amount && RowAt(rows, inc.key).Get(inc.counter) + inc.amount <= MaxOf(inc.counter)
  }

  function Replay(log: seq<Increment>): Rows {
    if log == [] then map[]
    else
      var rows := Replay(log[..|log| - 1]);
      var next := Upsert(rows, log[|log| - 1]);
      if next.Some? then next.value else rows
  }

  /** The increments that were not refused. */
  function Accepted(log: seq<Increment>): seq<Increment> {
    if log == [] then []
    else
      var last := log[|log| - 1];
      Accepted(log[..|log| - 1]) + if Upsert(Replay(log[..|log| - 1]), last).Some? then [last] else []
  }

  // ---- Two sums ------------------------------------------------------------

  /** What the table holds for a tenant from day `a` to day `b`. */
  function TableSum(rows: Rows, t: TenantId, a: Day, b: Day, c: Counter): int
    decreases b - a
  {
    if b < a then 0 else TableSum(rows, t, a, b - 1, c) + RowAt(rows, Key(t, b)).Get(c)
  }

  predicate Counts(inc: Increment, t: TenantId, a: Day, b: Day, c: Counter) {
    inc.key.tenant == t && a <= inc.key.period <= b && inc.counter == c
  }

  function Share(inc: Increment, t: TenantId, a: Day, b: Day, c: Counter): int {
    if Counts(inc, t, a, b, c) then inc.amount else 0
  }

  /** What a log adds up to for a tenant from day `a` to day `b`. */
  function LogSum(log: seq<Increment>, t: TenantId, a: Day, b: Day, c: Counter): int {
    if log == [] then 0
    else LogSum(log[..|log| - 1], t, a, b, c) + Share(log[|log| - 1], t, a, b, c)
  }

  lemma {:induction false} RowChange(rows: Rows, key: Key, row: Usage, t: TenantId, a: Day, b: Day, c: Counter)
    ensures TableSum(rows[key := row], t, a, b, c) == TableSum(rows, t, a, b, c)
      + if key.tenant == t && a <= key.period <= b then row.Get(c) - RowAt(rows, key).Get(c) else 0
    decreases b - a
  {
    if a <= b { RowChange(rows, key, row, t, a, b - 1, c); }
  }

  lemma {:induction false} SumOfAppend(log: seq<Increment>, more: Increment, t: TenantId, a: Day, b: Day, c: Counter)
    ensures LogSum(log + [more], t, a, b, c) == LogSum(log, t, a, b, c) + Share(more, t, a, b, c)
  {
    assert (log + [more])[..|log|] == log;
  }

  lemma {:induction false} EmptyTable(t: TenantId, a: Day, b: Day, c: Counter)
    ensures TableSum(map[], t, a, b, c) == 0
    decreases b - a
  {
    if a <= b { EmptyTable(t, a, b - 1, c); }
  }

  /** Whatever came in, in whatever order: the table agrees with the log of accepted increments. */
  lemma {:induction false} TableAgreesWithLog(log: seq<Increment>, t: TenantId, a: Day, b: Day, c: Counter)
    ensures TableSum(Replay(log), t, a, b, c) == LogSum(Accepted(log), t, a, b, c)
  {
    if log == [] {
      EmptyTable(t, a, b, c);
    } else {
      var before, last := log[..|log| - 1], log[|log| - 1];
      TableAgreesWithLog(before, t, a, b, c);
      if Upsert(Replay(before), last).Some? {
        RowChange(Replay(before), last.key, RowAt(Replay(before), last.key).Add(last.counter, last.amount), t, a, b, c);
        SumOfAppend(Accepted(before), last, t, a, b, c);
      } else {
        assert Accepted(log) == Accepted(before);
      }
    }
  }

  /** The ranges `a..b` and `b+1..d` make up `a..d`. */
  lemma {:induction false} AdjacentRanges(rows: Rows, t: TenantId, a: Day, b: Day, d: Day, c: Counter)
    requires a <= b + 1 <= d + 1
    ensures TableSum(rows, t, a, d, c) == TableSum(rows, t, a, b, c) + TableSum(rows, t, b + 1, d, c)
    decreases d - b
  {
    if b < d { AdjacentRanges(rows, t, a, b, d - 1, c); }
  }

  // ---- When nothing is refused ---------------------------------------------

  ghost predicate NonNegative(log: seq<Increment>) { forall i | 0 <= i < |log| :: log[i].amount >= 0 }

  ghost predicate Fits(log: seq<Increment>) {
    forall t, d, c :: InRange(log, t, d, c)
  }

  ghost predicate InRange(log: seq<Increment>, t: TenantId, d: Day, c: Counter) {
    LogSum(log, t, d, d, c) <= MaxOf(c)
  }

  lemma OneDay(rows: Rows, t: TenantId, d: Day, c: Counter)
    ensures TableSum(rows, t, d, d, c) == RowAt(rows, Key(t, d)).Get(c)
  {
    assert TableSum(rows, t, d, d - 1, c) == 0;
  }

  lemma AcceptedAll(log: seq<Increment>)
    requires log != []
    ensures |Accepted(log)| <= |log|
    ensures Accepted(log) == log <==>
      && Accepted(log[..|log| - 1]) == log[..|log| - 1]
      && Upsert(Replay(log[..|log| - 1]), log[|log| - 1]).Some?
  {
    var before, last := log[..|log| - 1], log[|log| - 1];
    AcceptedShorter(before);
    assert log == before + [last];
    if Accepted(log) == log {
      assert |Accepted(log)| == |before| + 1;
      assert Accepted(log)[..|before|] == before;
    }
  }

  lemma {:induction false} AcceptedShorter(log: seq<Increment>)
    ensures |Accepted(log)| <= |log|
  {
    if log != [] { AcceptedShorter(log[..|log| - 1]); }
  }

  lemma {:induction false} SumGrows(log: seq<Increment>, n: nat, t: TenantId, a: Day, b: Day, c: Counter)
    requires NonNegative(log) && n <= |log|
    ensures LogSum(log[..n], t, a, b, c) <= LogSum(log, t, a, b, c)
    decreases |log|
  {
    if n < |log| {
      SumGrows(log[..|log| - 1], n, t, a, b, c);
      assert log[..|log| - 1][..n] == log[..n];
    } else {
      assert log[..n] == log;
    }
  }

  /** The last increment was let through, so its day still fits. */
  lemma LastInRange(before: seq<Increment>, last: Increment, t: TenantId, d: Day, c: Counter)
    requires Accepted(before) == before && InRange(before, t, d, c) && Upsert(Replay(before), last).Some?
    ensures InRange(before + [last], t, d, c)
  {
    TableAgreesWithLog(before, t, d, d, c);
    OneDay(Replay(before), t, d, c);
    SumOfAppend(before, last, t, d, d, c);
  }

  lemma {:induction false} AcceptedNeedsRange(log: seq<Increment>, t: TenantId, d: Day, c: Counter)
    requires Accepted(log) == log
    ensures NonNegative(log) && InRange(log, t, d, c)
  {
    if log != [] {
      var before, last := log[..|log| - 1], log[|log| - 1];
      assert log == before + [last];
      AcceptedAll(log);
      AcceptedNeedsRange(before, t, d, c);
      LastInRange(before, last, t, d, c);
    }
  }

  lemma {:induction false} RangeIsAccepted(log: seq<Increment>)
    requires NonNegative(log) && Fits(log)
    ensures Accepted(log) == log
  {
    if log != [] {
      var before, last := log[..|log| - 1], log[|log| - 1];
      forall t, d, c ensures InRange(before, t, d, c) {
        assert InRange(log, t, d, c);
        SumGrows(log, |log| - 1, t, d, d, c);
      }
      RangeIsAccepted(before);
      TableAgreesWithLog(before, last.key.tenant, last.key.period, last.key.period, last.counter);
      OneDay(Replay(before), last.key.tenant, last.key.period, last.counter);
      assert InRange(log, last.key.tenant, last.key.period, last.counter);
      AcceptedAll(log);
    }
  }

  /** A day's totals in columns of 32 bits, and of 64 for bytes, signed. */
  ghost predicate DayFits(log: seq<Increment>, t: TenantId, d: Day) {
    && LogSum(log, t, d, d, TaskMinutes) <= 0x7FFF_FFFF
    && LogSum(log, t, d, d, Streams) <= 0x7FFF_FFFF
    && LogSum(log, t, d, d, Bytes) <= 0x7FFF_FFFF_FFFF_FFFF
    && LogSum(log, t, d, d, TasksCreated) <= 0x7FFF_FFFF
  }

  lemma ColumnSizes(log: seq<Increment>)
    ensures Fits(log) <==> forall t, d :: DayFits(log, t, d)
  {
    if Fits(log) {
      forall t, d ensures DayFits(log, t, d) {
        assert InRange(log, t, d, TaskMinutes) && InRange(log, t, d, Streams);
        assert InRange(log, t, d, Bytes) && InRange(log, t, d, TasksCreated);
      }
    }
    if forall t, d :: DayFits(log, t, d) {
      forall t, d, c ensures InRange(log, t, d, c) { assert DayFits(log, t, d); }
    }
  }

  /** Nothing is refused if and only if no amount is negative and every day's total fits its column. */
  lemma NothingRefusedIff(log: seq<Increment>)
    ensures Accepted(log) == log <==> NonNegative(log) && Fits(log)
    ensures Fits(log) <==> forall t, d :: DayFits(log, t, d)
  {
    ColumnSizes(log);
    if NonNegative(log) && Fits(log) { RangeIsAccepted(log); }
    if Accepted(log) == log {
      forall t, d, c ensures NonNegative(log) && InRange(log, t, d, c) { AcceptedNeedsRange(log, t, d, c); }
      AcceptedNeedsRange(log, 0, 0, Streams);
    }
  }

  // ---- Order does not matter -----------------------------------------------

  lemma {:induction false} SumWithout(log: seq<Increment>, i: nat, t: TenantId, a: Day, b: Day, c: Counter)
    requires i < |log|
    ensures LogSum(log, t, a, b, c) == LogSum(log[..i] + log[i + 1..], t, a, b, c) + Share(log[i], t, a, b, c)
    decreases |log|
  {
    var n := |log| - 1;
    if i == n {
      assert log[..i] + log[i + 1..] == log[..n];
    } else {
      SumWithout(log[..n], i, t, a, b, c);
      var rest := log[..i] + log[i + 1..];
      assert rest[..|rest| - 1] == log[..n][..i] + log[..n][i + 1..];
    }
  }

  lemma RemoveOne(before: seq<Increment>, last: Increment, other: seq<Increment>, i: nat)
    requires i < |other| && other[i] == last && multiset(before + [last]) == multiset(other)
    ensures multiset(other[..i] + other[i + 1..]) == multiset(before)
  {
    assert other == other[..i] + [last] + other[i + 1..];
    var rest := other[..i] + other[i + 1..];
    assert multiset(other) == multiset(rest) + multiset{last};
    assert multiset(before + [last]) == multiset(before) + multiset{last};
    assert multiset(rest) == multiset(other) - multiset{last};
    assert multiset(before) == multiset(before + [last]) - multiset{last};
  }

  lemma {:induction false} SumIgnoresOrder(
    log: seq<Increment>, other: seq<Increment>, t: TenantId, a: Day, b: Day, c: Counter)
    requires multiset(log) == multiset(other)
    ensures LogSum(log, t, a, b, c) == LogSum(other, t, a, b, c)
    decreases |log|
  {
    assert |log| == |multiset(log)| && |other| == |multiset(other)|;
    if log != [] {
      var before, last := log[..|log| - 1], log[|log| - 1];
      assert log == before + [last];
      assert last in multiset(log);
      var i :| 0 <= i < |other| && other[i] == last;
      RemoveOne(before, last, other, i);
      SumIgnoresOrder(before, other[..i] + other[i + 1..], t, a, b, c);
      SumWithout(other, i, t, a, b, c);
    }
  }

  /** If one order of the increments is accepted whole, so is every other, with the same totals. */
  lemma OrderIrrelevant(log: seq<Increment>, other: seq<Increment>, t: TenantId, a: Day, b: Day, c: Counter)
    requires multiset(log) == multiset(other) && Accepted(log) == log
    ensures Accepted(other) == other
    ensures TableSum(Replay(log), t, a, b, c) == TableSum(Replay(other), t, a, b, c)
  {
    NothingRefusedIff(log);
    forall i | 0 <= i < |other| ensures other[i].amount >= 0 { assert other[i] in multiset(log); }
    forall u, d, x ensures InRange(other, u, d, x) {
      assert InRange(log, u, d, x);
      SumIgnoresOrder(log, other, u, d, d, x);
    }
    NothingRefusedIff(other);
    TableAgreesWithLog(log, t, a, b, c);
    TableAgreesWithLog(other, t, a, b, c);
    SumIgnoresOrder(log, other, t, a, b, c);
  }

  // ---- The table -----------------------------------------------------------

  datatype UsageError = Database
  datatype UsageAggregate = UsageAggregate(taskMinutes: int, streams: int, bytes: int, tasksCreated: int)

  class UsageCounters {
    var rows: Rows
    ghost var log: seq<Increment>

    /** The table is what its whole history of increments made it. */
    ghost predicate Valid() reads this { rows == Replay(log) }

    constructor ()
      ensures Valid() && log == []
    {
      rows, log := map[], [];
    }

    method Increase(key: Key, c: Counter, amount: int) returns (r: Result<Usage, UsageError>)
      requires Valid()
      modifies this
      ensures Valid() && log == old(log) + [Increment(key, c, amount)]
      ensures r.Ok? <==> Fitting(old(rows), Increment(key, c, amount))
      ensures r.Ok? ==> key in rows && r.value == rows[key] == RowAt(old(rows), key).Add(c, amount)
      ensures r.Err? ==> rows == old(rows)
      ensures forall other | other != key :: RowAt(rows, other) == RowAt(old(rows), other)
    {
      var inc := Increment(key, c, amount);
      assert (log + [inc])[..|log|] == log;
      log := log + [inc];
      var next := Upsert(rows, inc);
      if next.None? { return Err(Database); }
      rows := next.value;
      r := Ok(rows[key]);
    }

    method IncrementTaskMinutes(t: TenantId, today: Day, minutes: int) returns (r: Result<Usage, UsageError>)
      requires Valid()
      modifies this
      ensures Valid() && log == old(log) + [Increment(Key(t, today), TaskMinutes, minutes)]
      ensures r.Ok? <==> Fitting(old(rows), Increment(Key(t, today), TaskMinutes, minutes))
      ensures var before := RowAt(old(rows), Key(t, today)).taskMinutes;
        && (r.Ok? <==> 0 <= minutes && before + minutes <= 0x7FFF_FFFF)
        && (r.Ok? ==> r.value == RowAt(old(rows), Key(t, today)).(taskMinutes := before + minutes))
      ensures r.Err? ==> rows == old(rows)
      ensures r.Ok? ==>
        r.value == RowAt(rows, Key(t, today)) == RowAt(old(rows), Key(t, today)).Add(TaskMinutes, minutes)
    {
      r := Increase(Key(t, today), TaskMinutes, minutes);
    }

    method IncrementStreams(t: TenantId, today: Day) returns (r: Result<Usage, UsageError>)
      requires Valid()
      modifies this
      ensures Valid() && log == old(log) + [Increment(Key(t, today), Streams, 1)]
      ensures r.Ok? <==> Fitting(old(rows), Increment(Key(t, today), Streams, 1))
      ensures var before := RowAt(old(rows), Key(t, today)).streams;
        && (r.Ok? <==> before + 1 <= 0x7FFF_FFFF)
        && (r.Ok? ==> r.value == RowAt(old(rows), Key(t, today)).(streams := before + 1))
      ensures r.Err? ==> rows == old(rows)
      ensures r.Ok? ==> r.value == RowAt(rows, Key(t, today)) == RowAt(old(rows), Key(t, today)).Add(Streams, 1)
    {
      r := Increase(Key(t, today), Streams, 1);
    }

    method IncrementBytes(t: TenantId, today: Day, bytes: int) returns (r: Result<Usage, UsageError>)
      requires Valid()
      modifies this
      ensures Valid() && log == old(log) + [Increment(Key(t, today), Bytes, bytes)]
      ensures r.Ok? <==> Fitting(old(rows), Increment(Key(t, today), Bytes, bytes))
      ensures var before := RowAt(old(rows), Key(t, today)).bytes;
        && (r.Ok? <==> 0 <= bytes && before + bytes <= 0x7FFF_FFFF_FFFF_FFFF)
        && (r.Ok? ==> r.value == RowAt(old(rows), Key(t, today)).(bytes := before + bytes))
      ensures r.Err? ==> rows == old(rows)
      ensures r.Ok? ==> r.value == RowAt(rows, Key(t, today)) == RowAt(old(rows), Key(t, today)).Add(Bytes, bytes)
    {
      r := Increase(Key(t, today), Bytes, bytes);
    }

    method IncrementTasksCreated(t: TenantId, today: Day) returns (r: Result<Usage, UsageError>)
      requires Valid()
      modifies this
      ensures Valid() && log == old(log) + [Increment(Key(t, today), TasksCreated, 1)]
      ensures r.Ok? <==> Fitting(old(rows), Increment(Key(t, today), TasksCreated, 1))
      ensures var before := RowAt(old(rows), Key(t, today)).tasksCreated;
        && (r.Ok? <==> before + 1 <= 0x7FFF_FFFF)
        && (r.Ok? ==> r.value == RowAt(old(rows), Key(t, today)).(tasksCreated := before + 1))
      ensures r.Err? ==> rows == old(rows)
      ensures r.Ok? ==> r.value == RowAt(rows, Key(t, today)) == RowAt(old(rows), Key(t, today)).Add(TasksCreated, 1)
    {
      r := Increase(Key(t, today), TasksCreated, 1);
    }

    /** Today's row, or zeros: what was accepted for the tenant today. */
    method GetCurrent(t: TenantId, today: Day) returns (usage: Usage)
      requires Valid()
      ensures forall c :: usage.Get(c) == LogSum(Accepted(log), t, today, today, c)
    {
      usage := RowAt(rows, Key(t, today));
      forall c ensures usage.Get(c) == LogSum(Accepted(log), t, today, today, c) {
        TableAgreesWithLog(log, t, today, today, c);
        OneDay(rows, t, today, c);
      }
    }

    /** The sums over the rows of a range are the sums of the increments accepted for it. */
    method GetAggregate(t: TenantId, a: Day, b: Day) returns (r: UsageAggregate)
      requires Valid()
      ensures r == UsageAggregate(
        LogSum(Accepted(log), t, a, b, TaskMinutes), LogSum(Accepted(log), t, a, b, Streams),
        LogSum(Accepted(log), t, a, b, Bytes), LogSum(Accepted(log), t, a, b, TasksCreated))
    {
      var keys := rows.Keys;
      var sum := ZERO;
      ghost var seen: Rows := map[];
      NothingSummed(t, a, b);
      while keys != {}
        invariant SeenSoFar(rows, keys, seen)
        invariant Sums(sum, seen, t, a, b)
        decreases |keys|
      {
        var key :| key in keys;
        RowSummed(sum, seen, key, rows[key], t, a, b);
        SeenNext(rows, keys, seen, key);
        if key.tenant == t && a <= key.period <= b { sum := Plus(sum, rows[key]); }
        seen := seen[key := rows[key]];
        keys := keys - {key};
      }
      SumsOfLog(sum, rows, seen, log, t, a, b);
      r := UsageAggregate(sum.Get(TaskMinutes), sum.Get(Streams), sum.Get(Bytes), sum.Get(TasksCreated));
    }
  }

  lemma SeenNext(rows: Rows, keys: set<Key>, seen: Rows, key: Key)
    requires SeenSoFar(rows, keys, seen) && key in keys
    ensures key !in seen && SeenSoFar(rows, keys - {key}, seen[key := rows[key]])
  {
    assert seen[key := rows[key]].Keys == seen.Keys + {key};
  }

  lemma SumsOfLog(sum: Usage, rows: Rows, seen: Rows, log: seq<Increment>, t: TenantId, a: Day, b: Day)
    requires SeenSoFar(rows, {}, seen) && Sums(sum, seen, t, a, b) && rows == Replay(log)
    ensures forall c :: sum.Get(c) == LogSum(Accepted(log), t, a, b, c)
  {
    assert seen == rows;
    forall c ensures sum.Get(c) == LogSum(Accepted(log), t, a, b, c) { TableAgreesWithLog(log, t, a, b, c); }
  }

  /** The sums over the rows seen so far. */
  ghost predicate Sums(sum: Usage, seen: Rows, t: TenantId, a: Day, b: Day) {
    forall c :: sum.Get(c) == TableSum(seen, t, a, b, c)
  }

  lemma NothingSummed(t: TenantId, a: Day, b: Day)
    ensures Sums(ZERO, map[], t, a, b)
  {
    forall c ensures ZERO.Get(c) == TableSum(map[], t, a, b, c) { EmptyTable(t, a, b, c); }
  }

  lemma RowSummed(sum: Usage, seen: Rows, key: Key, row: Usage, t: TenantId, a: Day, b: Day)
    requires key !in seen && Sums(sum, seen, t, a, b)
    ensures var more := if key.tenant == t && a <= key.period <= b then Plus(sum, row) else sum;
      Sums(more, seen[key := row], t, a, b)
  {
    var more := if key.tenant == t && a <= key.period <= b then Plus(sum, row) else sum;
    forall c ensures more.Get(c) == TableSum(seen[key := row], t, a, b, c) {
      RowChange(seen, key, row, t, a, b, c);
    }
  }

  function Plus(u: Usage, v: Usage): (sum: Usage)
    ensures forall c :: sum.Get(c) == u.Get(c) + v.Get(c)
  {
    Usage(u.taskMinutes + v.taskMinutes, u.streams + v.streams, u.bytes + v.bytes, u.tasksCreated + v.tasksCreated)
  }

  /** `seen` holds the rows whose keys have been taken out of `keys`. */
  ghost predicate SeenSoFar(rows: Rows, keys: set<Key>, seen: Rows) {
    && keys + seen.Keys == rows.Keys && keys !! seen.Keys
    && forall key | key in seen :: seen[key] == rows[key]
  }
}
