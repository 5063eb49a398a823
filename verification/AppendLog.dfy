/**
 Concurrent appends to the event table (`TaskEvent::append`).

 An append reads the last event of a task and later inserts its successor; nothing is locked in
 between. The table's primary key and CHECK constraints reject what no longer fits. A run is any
 interleaving of the two halves of any number of appends.
 */
module AppendLog {
  import opened Wrappers
  import opened Text
  import opened HashChain

  type AppenderId = int
  type Rows = map<(TaskId, I64), TaskEvent>

  // ---- The table -----------------------------------------------------------

  ghost predicate IsLast(rows: Rows, task: TaskId, s: I64) {
    (task, s) in rows && forall x: I64 | (task, x) in rows :: x <= s
  }

  /** `ORDER BY seq DESC LIMIT 1`, executed over the rows in any order. */
  method ReadLast(rows: Rows, task: TaskId) returns (last: Option<TaskEvent>)
    requires KeysMatch(rows)
    ensures last.None? ==> forall s: I64 :: (task, s) !in rows
    ensures last.Some? ==> IsLast(rows, task, last.value.seqNo) && last.value == rows[(task, last.value.seqNo)]
  {
    last := None;
    var todo := rows.Keys;
    while todo != {}
      invariant todo <= rows.Keys
      invariant last.None? ==> forall s: I64 | (task, s) in rows :: (task, s) in todo
      invariant last.Some? ==> (task, last.value.seqNo) in rows && last.value == rows[(task, last.value.seqNo)]
      invariant last.Some? ==> forall s: I64 | (task, s) in rows && (task, s) !in todo :: s <= last.value.seqNo
    {
      var k :| k in todo;
      todo := todo - {k};
      if k.0 == task && (last.None? || last.value.seqNo < k.1) {
        last := Some(rows[k]);
      }
    }
  }

  /** The task's sequence numbers are exactly 0..n-1. */
  ghost predicate Contiguous(rows: Rows, task: TaskId, n: nat) {
    n <= I64_MAX + 1 && forall s: I64 :: (task, s) in rows <==> 0 <= s < n
  }

  ghost function LogOf(rows: Rows, task: TaskId, n: nat): Log
    requires Contiguous(rows, task, n)
  {
    seq(n, i requires 0 <= i < n => rows[(task, i)])
  }

  /** The table's constraints: primary key, `seq >= 0`, and no previous hash on the first event. */
  predicate Accepts(rows: Rows, e: TaskEvent) {
    (e.taskId, e.seqNo) !in rows && e.seqNo >= 0 && (e.seqNo == 0 ==> e.hashPrev.None?)
  }

  function InsertRow(rows: Rows, e: TaskEvent): Rows {
    if Accepts(rows, e) then rows[(e.taskId, e.seqNo) := e] else rows
  }

  function InsertAll(rows: Rows, es: seq<TaskEvent>): Rows {
    if es == [] then rows else InsertRow(InsertAll(rows, es[..|es| - 1]), es[|es| - 1])
  }

  /** What the constraints keep out, whoever inserts: negative numbers, a first event with a previous hash, changes. */
  lemma {:induction false} ConstraintsHold(es: seq<TaskEvent>, more: seq<TaskEvent>)
    ensures forall k | k in InsertAll(map[], es) ::
      && k.1 >= 0 && InsertAll(map[], es)[k].taskId == k.0 && InsertAll(map[], es)[k].seqNo == k.1
      && (k.1 == 0 ==> InsertAll(map[], es)[k].hashPrev == None)
    ensures forall k | k in InsertAll(map[], es) ::
      k in InsertAll(map[], es + more) && InsertAll(map[], es + more)[k] == InsertAll(map[], es)[k]
    decreases |es| + |more|
  {
    if more != [] {
      var n := |more| - 1;
      ConstraintsHold(es, more[..n]);
      assert (es + more)[..|es + more| - 1] == es + more[..n];
    } else {
      assert es + more == es;
      if es != [] { ConstraintsHold(es[..|es| - 1], []); }
    }
  }

  // ---- Interleaved appends -------------------------------------------------

  /** An append between its read and its insert. */
  datatype Pending = Pending(task: TaskId, seqNo: I64, hashPrev: Option<seq<Byte>>, kind: EventKind, payload: seq<Byte>)

  datatype State = State(rows: Rows, len: map<TaskId, nat>, pending: map<AppenderId, Pending>)

  datatype Step =
    | Read(who: AppenderId, task: TaskId, kind: EventKind, payload: seq<Byte>)
    | Insert(who: AppenderId, ts: int)

  /** Number of events of a task; kept with the state and tied to the rows by `TaskOk`. */
  function Len(s: State, task: TaskId): nat { if task in s.len then s.len[task] else 0 }

  /** `last_seq + 1` in 64-bit two's complement. */
  function WrappingSucc(x: I64): I64 { if x == I64_MAX then I64_MIN else x + 1 }

  function Prepare(last: Option<TaskEvent>, task: TaskId, kind: EventKind, payload: seq<Byte>): Pending {
    match last
    case Some(e) => Pending(task, WrappingSucc(e.seqNo), Some(e.hashCurr), kind, payload)
    case None => Pending(task, 0, None, kind, payload)
  }

  function EventOf(h: Hash, p: Pending, ts: int): TaskEvent {
    TaskEvent(p.task, p.seqNo, ts, p.kind, p.payload, p.hashPrev,
              h(Inputs(p.hashPrev, p.seqNo, p.kind, p.payload)))
  }

  function LastRow(s: State, task: TaskId): Option<TaskEvent> {
    var n := Len(s, task);
    if 0 < n <= I64_MAX + 1 && (task, n - 1) in s.rows then Some(s.rows[(task, n - 1)]) else None
  }

  function Apply(h: Hash, s: State, step: Step): State {
    match step
    case Read(who, task, kind, payload) =>
      if who in s.pending then s
      else s.(pending := s.pending[who := Prepare(LastRow(s, task), task, kind, payload)])
    case Insert(who, ts) =>
      if who !in s.pending then s
      else
        var e := EventOf(h, s.pending[who], ts);
        if Accepts(s.rows, e) then
          State(InsertRow(s.rows, e), s.len[e.taskId := Len(s, e.taskId) + 1], s.pending - {who})
        else s.(pending := s.pending - {who})
  }

  function Run(h: Hash, s: State, steps: seq<Step>): State
    decreases |steps|
  {
    if steps == [] then s else Run(h, Apply(h, s, steps[0]), steps[1..])
  }

  const EMPTY := State(map[], map[], map[])

  // ---- The invariant -------------------------------------------------------

  ghost predicate KeysMatch(rows: Rows) {
    forall k | k in rows :: rows[k].taskId == k.0 && rows[k].seqNo == k.1
  }

  ghost predicate TaskOk(h: Hash, s: State, task: TaskId) {
    && Contiguous(s.rows, task, Len(s, task))
    && ChainValid(h, LogOf(s.rows, task, Len(s, task)))
  }

  ghost predicate PendingOk(s: State, p: Pending) {
    p.seqNo < 0 ||
    (p.seqNo <= Len(s, p.task) &&
     p.hashPrev == if p.seqNo == 0 then None
                   else if (p.task, p.seqNo - 1) in s.rows then Some(s.rows[(p.task, p.seqNo - 1)].hashCurr) else None)
  }

  ghost predicate Inv(h: Hash, s: State) {
    && KeysMatch(s.rows)
    && (forall task :: TaskOk(h, s, task))
    && (forall who | who in s.pending :: PendingOk(s, s.pending[who]))
  }

  /** A row accepted under the invariant extends its task's log by the event `append` promises. */
  lemma AcceptedExtends(h: Hash, s: State, p: Pending, ts: int)
    requires TaskOk(h, s, p.task) && PendingOk(s, p) && Accepts(s.rows, EventOf(h, p, ts))
    ensures p.seqNo == Len(s, p.task)
    ensures Contiguous(InsertRow(s.rows, EventOf(h, p, ts)), p.task, Len(s, p.task) + 1)
    ensures LogOf(InsertRow(s.rows, EventOf(h, p, ts)), p.task, Len(s, p.task) + 1)
         == LogOf(s.rows, p.task, Len(s, p.task)) + [EventOf(h, p, ts)]
    ensures ChainValid(h, LogOf(s.rows, p.task, Len(s, p.task)) + [EventOf(h, p, ts)])
  {
    var n, e := Len(s, p.task), EventOf(h, p, ts);
    var log := LogOf(s.rows, p.task, n);
    assert p.seqNo == n;
    assert p.hashPrev == PrevHash(log, n);
    ExtendValid(h, log, e);
  }

  lemma StepKeepsTask(h: Hash, s: State, step: Step, task: TaskId)
    requires Inv(h, s)
    ensures TaskOk(h, Apply(h, s, step), task)
  {
    assert TaskOk(h, s, task);
    var s' := Apply(h, s, step);
    if s'.rows != s.rows {
      var p := s.pending[step.who];
      var e := EventOf(h, p, step.ts);
      assert TaskOk(h, s, p.task);
      AcceptedExtends(h, s, p, step.ts);
      if task != p.task {
        assert LogOf(s'.rows, task, Len(s', task)) == LogOf(s.rows, task, Len(s, task));
      }
    } else {
      assert LogOf(s'.rows, task, Len(s, task)) == LogOf(s.rows, task, Len(s, task));
    }
  }

  lemma StepKeepsInv(h: Hash, s: State, step: Step)
    requires Inv(h, s)
    ensures Inv(h, Apply(h, s, step))
  {
    var s' := Apply(h, s, step);
    forall task ensures TaskOk(h, s', task) { StepKeepsTask(h, s, step, task); }
    forall who | who in s'.pending ensures PendingOk(s', s'.pending[who]) {
      if who in s.pending {
        var p := s.pending[who];
        assert PendingOk(s, p) && TaskOk(h, s, p.task) && TaskOk(h, s', p.task);
      } else {
        assert TaskOk(h, s, step.task);
      }
    }
  }

  lemma {:induction false} RunKeepsInv(h: Hash, s: State, steps: seq<Step>)
    requires Inv(h, s)
    ensures Inv(h, Run(h, s, steps))
    decreases |steps|
  {
    if steps != [] {
      StepKeepsInv(h, s, steps[0]);
      RunKeepsInv(h, Apply(h, s, steps[0]), steps[1..]);
    }
  }

  lemma EmptyOk(h: Hash)
    ensures Inv(h, EMPTY)
  {
    forall task ensures TaskOk(h, EMPTY, task) {
      assert LogOf(EMPTY.rows, task, 0) == [];
    }
  }

  /**
   Whatever the interleaving, every task's log has sequence numbers exactly 0..n-1 and verifies.
   */
  lemma ConcurrentAppendsVerify(h: Hash, steps: seq<Step>, task: TaskId)
    ensures var s := Run(h, EMPTY, steps);
      && Contiguous(s.rows, task, Len(s, task))
      && ChainValid(h, LogOf(s.rows, task, Len(s, task)))
      && forall i | 0 <= i < Len(s, task) :: LogOf(s.rows, task, Len(s, task))[i].seqNo == i
  {
    EmptyOk(h);
    RunKeepsInv(h, EMPTY, steps);
    assert TaskOk(h, Run(h, EMPTY, steps), task);
  }

  // ---- Optimistic concurrency ----------------------------------------------

  /** Rows are never changed or removed. */
  lemma {:induction false} AppendOnly(h: Hash, s: State, steps: seq<Step>, task: TaskId)
    requires Inv(h, s)
    ensures forall k | k in s.rows :: k in Run(h, s, steps).rows && Run(h, s, steps).rows[k] == s.rows[k]
    ensures Len(s, task) <= Len(Run(h, s, steps), task)
    decreases |steps|
  {
    if steps != [] {
      StepKeepsInv(h, s, steps[0]);
      AppendOnly(h, Apply(h, s, steps[0]), steps[1..], task);
    }
  }

  /** A pending append stays as read while others move. */
  lemma {:induction false} PendingKept(h: Hash, s: State, steps: seq<Step>, who: AppenderId)
    requires who in s.pending
    requires forall i | 0 <= i < |steps| :: steps[i].who != who
    ensures who in Run(h, s, steps).pending && Run(h, s, steps).pending[who] == s.pending[who]
    decreases |steps|
  {
    if steps != [] {
      assert steps[0].who != who;
      PendingKept(h, Apply(h, s, steps[0]), steps[1..], who);
    }
  }

  /** What an append read is still what its task's log was then, however many steps later. */
  lemma ReadSurvives(h: Hash, s: State, read: Step, steps: seq<Step>)
    requires Inv(h, s) && read.Read? && read.who !in s.pending && Len(s, read.task) <= I64_MAX
    requires forall i | 0 <= i < |steps| :: steps[i].who != read.who
    ensures
      var t := Run(h, Apply(h, s, read), steps);
      var n := Len(s, read.task);
      && Inv(h, t) && Contiguous(s.rows, read.task, n) && n <= Len(t, read.task) && read.who in t.pending
      && t.pending[read.who] == Pending(read.task, n, PrevHash(LogOf(s.rows, read.task, n), n), read.kind, read.payload)
      && (forall k | k in s.rows :: k in t.rows && t.rows[k] == s.rows[k])
  {
    var s1 := Apply(h, s, read);
    StepKeepsInv(h, s, read);
    RunKeepsInv(h, s1, steps);
    PendingKept(h, s1, steps, read.who);
    AppendOnly(h, s1, steps, read.task);
    assert TaskOk(h, s, read.task);
    PreparedOnLog(h, s, read.task, read.kind, read.payload);
  }

  /**
   An append succeeds if and only if no other append to its task succeeded between its read and its
   insert; then its event lands on exactly the log it read. So of all appends that read one log
   exactly one wins, and a loser lost to a winner.
   */
  lemma AppendSucceedsIff(h: Hash, s: State, read: Step, steps: seq<Step>, ts: int)
    requires Inv(h, s) && read.Read? && read.who !in s.pending && Len(s, read.task) <= I64_MAX
    requires forall i | 0 <= i < |steps| :: steps[i].who != read.who
    ensures
      var t := Run(h, Apply(h, s, read), steps);
      var t' := Apply(h, t, Insert(read.who, ts));
      var n := Len(s, read.task);
      && Contiguous(s.rows, read.task, n)
      && var e := NextEvent(h, LogOf(s.rows, read.task, n), read.task, n, ts, read.kind, read.payload);
      && t'.rows == (if Len(t, read.task) == n then t.rows[(read.task, n) := e] else t.rows)
      && Contiguous(t.rows, read.task, Len(t, read.task))
      && (Len(t, read.task) == n ==> LogOf(t.rows, read.task, n) == LogOf(s.rows, read.task, n))
  {
    ReadSurvives(h, s, read, steps);
    var t, n := Run(h, Apply(h, s, read), steps), Len(s, read.task);
    assert TaskOk(h, t, read.task);
    assert Accepts(t.rows, EventOf(h, t.pending[read.who], ts)) <==> Len(t, read.task) == n;
  }

  // ---- The table as an object ----------------------------------------------

  /** `out` is the rows of `task` with `lo <= seq <= hi`, in sequence order. */
  ghost predicate IsRange(rows: Rows, task: TaskId, lo: int, hi: int, out: Log) {
    && (forall i | 0 <= i < |out| :: RowInRange(rows, task, lo, hi, out[i]))
    && (forall i, j | 0 <= i < j < |out| :: out[i].seqNo < out[j].seqNo)
    && (forall s: I64 | (task, s) in rows && lo <= s <= hi :: s in Numbers(out))
  }

  ghost function Numbers(out: Log): seq<int> {
    seq(|out|, i requires 0 <= i < |out| => out[i].seqNo)
  }

  ghost predicate RowInRange(rows: Rows, task: TaskId, lo: int, hi: int, e: TaskEvent) {
    lo <= e.seqNo <= hi && (task, e.seqNo) in rows && rows[(task, e.seqNo)] == e
  }

  lemma {:induction false} RangeDense(h: Hash, s: State, task: TaskId, out: Log, k: nat)
    requires TaskOk(h, s, task) && IsRange(s.rows, task, 0, I64_MAX, out) && k <= |out|
    ensures k <= Len(s, task) && forall i | 0 <= i < k :: out[i].seqNo == i
  {
    if k > 0 {
      RangeDense(h, s, task, out, k - 1);
      assert RowInRange(s.rows, task, 0, I64_MAX, out[k - 1]);
      assert k > 1 ==> out[k - 2].seqNo == k - 2;
      var x: I64 := k - 1;
      assert (task, x) in s.rows;
      var j :| 0 <= j < |out| && Numbers(out)[j] == x;
      assert out[j].seqNo == x;
    }
  }

  /** On a table kept by appends, the ordered rows of a task are its log. */
  lemma RangeIsLog(h: Hash, s: State, task: TaskId, out: Log)
    requires TaskOk(h, s, task) && IsRange(s.rows, task, 0, I64_MAX, out)
    ensures out == LogOf(s.rows, task, Len(s, task))
  {
    RangeDense(h, s, task, out, |out|);
    assert |out| < Len(s, task) ==> |out| in Numbers(out);
    forall i | 0 <= i < |out| ensures out[i] == s.rows[(task, i)] {
      assert RowInRange(s.rows, task, 0, I64_MAX, out[i]);
    }
  }

  /** One append with nobody in between. */
  function Appended(h: Hash, s: State, task: TaskId, kind: EventKind, payload: seq<Byte>, ts: int)
    : (State, Option<TaskEvent>)
  {
    var e := EventOf(h, Prepare(LastRow(s, task), task, kind, payload), ts);
    if Accepts(s.rows, e) then
      (State(s.rows[(task, e.seqNo) := e], s.len[task := Len(s, task) + 1], s.pending), Some(e))
    else (s, None)
  }

  /** It keeps the table valid and fails only when the 64-bit sequence numbers are used up. */
  lemma SequentialAppend(h: Hash, s: State, task: TaskId, kind: EventKind, payload: seq<Byte>, ts: int)
    requires Inv(h, s) && s.pending == map[]
    ensures
      var n := Len(s, task);
      var (s', r) := Appended(h, s, task, kind, payload, ts);
      && Inv(h, s')
      && Contiguous(s.rows, task, n)
      && r == if n <= I64_MAX
              then Some(NextEvent(h, LogOf(s.rows, task, n), task, n, ts, kind, payload)) else None
  {
    assert TaskOk(h, s, task);
    AppendedIsTwoSteps(h, s, task, kind, payload, ts);
    StepKeepsInv(h, s, Read(0, task, kind, payload));
    StepKeepsInv(h, Apply(h, s, Read(0, task, kind, payload)), Insert(0, ts));
    PreparedOnLog(h, s, task, kind, payload);
  }

  lemma AppendedIsTwoSteps(h: Hash, s: State, task: TaskId, kind: EventKind, payload: seq<Byte>, ts: int)
    requires s.pending == map[]
    ensures Appended(h, s, task, kind, payload, ts).0
         == Apply(h, Apply(h, s, Read(0, task, kind, payload)), Insert(0, ts))
  {
    var p := Prepare(LastRow(s, task), task, kind, payload);
    assert map[0 := p] - {0} == map[];
    assert Apply(h, s, Read(0, task, kind, payload)).pending == map[0 := p];
  }

  /** What an append reads: the next sequence number and the hash at the end of the log. */
  lemma PreparedOnLog(h: Hash, s: State, task: TaskId, kind: EventKind, payload: seq<Byte>)
    requires TaskOk(h, s, task) && KeysMatch(s.rows)
    ensures var n := Len(s, task);
            var p := Prepare(LastRow(s, task), task, kind, payload);
            if n <= I64_MAX then p == Pending(task, n, PrevHash(LogOf(s.rows, task, n), n), kind, payload)
            else p.seqNo < 0
  {
  }

  /** The query for the last event finds the end of the log. */
  lemma LastRowIs(h: Hash, s: State, task: TaskId, last: Option<TaskEvent>)
    requires TaskOk(h, s, task)
    requires last.None? ==> forall x: I64 :: (task, x) !in s.rows
    requires last.Some? ==> IsLast(s.rows, task, last.value.seqNo) && last.value == s.rows[(task, last.value.seqNo)]
    ensures last == LastRow(s, task)
  {
    var n := Len(s, task);
    if n > 0 {
      var x: I64 := n - 1;
      assert (task, x) in s.rows;
    }
  }

  /** The ordered scan has moved everything below `todo` into `out`. */
  ghost predicate Scanned(rows: Rows, task: TaskId, lo: int, hi: int, out: Log, todo: set<(TaskId, I64)>) {
    && (forall k | k in todo :: k in rows && k.0 == task && lo <= k.1 <= hi)
    && (forall i | 0 <= i < |out| :: RowInRange(rows, task, lo, hi, out[i]))
    && (forall i, j | 0 <= i < j < |out| :: out[i].seqNo < out[j].seqNo)
    && (forall i, k | 0 <= i < |out| && k in todo :: out[i].seqNo < k.1)
    && (forall s: I64 | (task, s) in rows && lo <= s <= hi :: (task, s) in todo || s in Numbers(out))
  }

  lemma ScanOne(rows: Rows, task: TaskId, lo: int, hi: int, out: Log, todo: set<(TaskId, I64)>, k: (TaskId, I64))
    requires KeysMatch(rows) && Scanned(rows, task, lo, hi, out, todo)
    requires k in todo && forall x | x in todo && x != k :: k.1 < x.1
    ensures Scanned(rows, task, lo, hi, out + [rows[k]], todo - {k})
  {
    assert Numbers(out + [rows[k]]) == Numbers(out) + [k.1];
    assert RowInRange(rows, task, lo, hi, rows[k]);
  }

  class EventTable {
    var rows: Rows
    ghost var len: map<TaskId, nat>

    ghost function Abs(): State reads this { State(rows, len, map[]) }

    ghost predicate Valid(h: Hash) reads this { Inv(h, Abs()) }

    constructor ()
      ensures Abs() == EMPTY
    {
      rows, len := map[], map[];
    }

    /** Reads, hashes and inserts with nobody in between. */
    method Append(h: Hash, task: TaskId, kind: EventKind, payload: seq<Byte>, ts: int) returns (r: Option<TaskEvent>)
      requires Valid(h)
      modifies this
      ensures Valid(h)
      ensures (Abs(), r) == Appended(h, old(Abs()), task, kind, payload, ts)
    {
      ghost var s := Abs();
      ghost var s' := Appended(h, s, task, kind, payload, ts).0;
      var last := ReadLast(rows, task);
      LastRowIs(h, s, task, last);
      var p := Prepare(last, task, kind, payload);
      var e := TaskEvent(task, p.seqNo, ts, kind, payload, p.hashPrev, h(Inputs(p.hashPrev, p.seqNo, kind, payload)));
      assert e == EventOf(h, p, ts);
      if Accepts(rows, e) {
        rows, len := rows[(task, e.seqNo) := e], len[task := Len(s, task) + 1];
        r := Some(e);
      } else {
        r := None;
      }
      assert Abs() == s';
      SequentialAppend(h, s, task, kind, payload, ts);
    }

    method QueryRange(task: TaskId, lo: I64, hi: I64) returns (out: Log)
      requires KeysMatch(rows)
      ensures IsRange(rows, task, lo, hi, out)
    {
      out := [];
      var todo := set k | k in rows && k.0 == task && lo <= k.1 <= hi;
      while todo != {}
        invariant Scanned(rows, task, lo, hi, out, todo)
      {
        var k := Least(todo, task);
        ScanOne(rows, task, lo, hi, out, todo, k);
        todo := todo - {k};
        out := out + [rows[k]];
      }
    }

    static method Least(keys: set<(TaskId, I64)>, task: TaskId) returns (k: (TaskId, I64))
      requires keys != {} && forall x | x in keys :: x.0 == task
      ensures k in keys && forall x | x in keys && x != k :: k.1 < x.1
    {
      k :| k in keys;
      var todo := keys - {k};
      while todo != {}
        invariant todo <= keys && k in keys && k !in todo
        invariant forall x | x in keys && x !in todo && x != k :: k.1 < x.1
      {
        var y :| y in todo;
        todo := todo - {y};
        if y.1 < k.1 {
          k := y;
        }
      }
    }

    /** `verify_chain`: on any table it accepts exactly the valid chains, so always one kept by appends. */
    method Verify(h: Hash, task: TaskId) returns (ok: bool, ghost events: Log)
      requires KeysMatch(rows)
      ensures IsRange(rows, task, 0, I64_MAX, events)
      ensures ok <==> ChainValid(h, events)
      ensures Valid(h) ==> ok
    {
      var queried := QueryRange(task, 0, I64_MAX);
      events := queried;
      ok := VerifyChain(h, queried);
      if Valid(h) {
        assert TaskOk(h, Abs(), task);
        RangeIsLog(h, Abs(), task, events);
      }
    }
  }
}
