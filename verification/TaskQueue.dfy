/**
 Workers claim pending tasks with `FOR UPDATE SKIP LOCKED` while others finish, cancel and create
 tasks (axontask-worker/src/queue.rs). A claim sees the pending tasks of one moment, locks them one
 by one, oldest first, and commits or aborts at the end; an update of a locked row waits.
 */
module TaskQueue {
  import opened Wrappers
  import opened TaskLifecycle

  type TaskId = nat
  type Session = nat
  type Rows = map<TaskId, Row>

  /** A claim's batch, its limit, and the tasks it saw but did not get to, being full. */
  datatype Claim = Claim(batch: seq<TaskId>, limit: nat, passed: set<TaskId>)

  /** A claim has locked `batch` and has yet to try `rest` of what it saw. */
  datatype Txn =
    | Claiming(batch: seq<TaskId>, limit: nat, rest: seq<TaskId>, now: Time)
    | Updating(id: TaskId, stmt: Stmt, now: Time)
  {
    function Ids(): seq<TaskId> { if Claiming? then batch else [id] }

    function Statement(): Stmt { if Claiming? then ClaimTasks else stmt }

    /** Every row was tried, or the limit is reached. */
    predicate Done() { Claiming? ==> rest == [] || |batch| == limit }

    function Closed(): Claim
      requires Claiming?
    {
      Claim(batch, limit, set t | t in rest)
    }
  }

  datatype State = State(
    rows: Rows,
    open: map<Session, Txn>,
    trails: map<TaskId, seq<TaskState>>,
    claims: seq<Claim>)

  const EMPTY := State(map[], map[], map[], [])

  datatype Step =
    | Create(id: TaskId, now: Time)
    | BeginClaim(session: Session, limit: nat, order: seq<TaskId>, now: Time)
    | LockNext(session: Session)
    | LockUpdate(session: Session, id: TaskId, stmt: Stmt, now: Time)
    | Commit(session: Session)
    | Abort(session: Session)

  // ---- The claim query -----------------------------------------------------

  ghost function Locked(s: State): set<TaskId> {
    set id | id in s.rows && exists w :: w in s.open && id in s.open[w].Ids()
  }

  function Available(rows: Rows, locked: set<TaskId>): set<TaskId> {
    set id | id in rows && rows[id].state == Pending && id !in locked
  }

  predicate Distinct(ids: seq<TaskId>) { forall i, j | 0 <= i < j < |ids| :: ids[i] != ids[j] }

  predicate NoLater(rows: Rows, a: TaskId, b: TaskId) {
    a in rows && b in rows && rows[a].createdAt <= rows[b].createdAt
  }

  /** Each before the next by creation time, ties either way, and none twice. */
  ghost predicate Sorted(rows: Rows, ids: seq<TaskId>) {
    && Distinct(ids)
    && forall i, j | 0 <= i <= j < |ids| :: NoLater(rows, ids[i], ids[j])
  }

  /** `WHERE state = 'pending' ORDER BY created_at` at the moment the claim's statement starts. */
  ghost predicate Snapshot(rows: Rows, order: seq<TaskId>) {
    Sorted(rows, order) && forall id :: id in order <==> id in rows && rows[id].state.Pending?
  }

  /** The first `limit` of the tasks available, in order: what a claim amounts to when nothing else moves. */
  ghost predicate Picked(rows: Rows, available: set<TaskId>, limit: nat, batch: seq<TaskId>) {
    && Sorted(rows, batch)
    && |batch| <= limit
    && (forall i | 0 <= i < |batch| :: batch[i] in available)
    && (forall t | t in available && t !in batch :: LeftBehind(rows, limit, batch, t))
  }

  /** The batch is full, and of tasks no younger than `t`. */
  ghost predicate LeftBehind(rows: Rows, limit: nat, batch: seq<TaskId>, t: TaskId) {
    |batch| == limit && forall i | 0 <= i < |batch| :: NoLater(rows, batch[i], t)
  }

  // ---- Steps ---------------------------------------------------------------

  function Written(rows: Rows, stmt: Stmt, now: Time, ids: seq<TaskId>): Rows {
    map id | id in rows ::
      if id in ids && Execute(stmt, rows[id], now).Updated? then Execute(stmt, rows[id], now).row else rows[id]
  }

  function Logged(trails: map<TaskId, seq<TaskState>>, next: TaskState, ids: seq<TaskId>): map<TaskId, seq<TaskState>> {
    map id | id in trails :: if id in ids then trails[id] + [next] else trails[id]
  }

  ghost predicate Enabled(s: State, step: Step) {
    match step
    case Create(id, _) => id !in s.rows
    case BeginClaim(w, _, order, _) => w !in s.open && Snapshot(s.rows, order)
    case LockNext(w) => w in s.open && !s.open[w].Done()
    case LockUpdate(w, id, stmt, now) =>
      w !in s.open && id in s.rows && id !in Locked(s) && Execute(stmt, s.rows[id], now).Updated?
    case Commit(w) => w in s.open && s.open[w].Done()
    case Abort(w) => w in s.open
  }

  ghost function Apply(s: State, step: Step): State {
    if !Enabled(s, step) then s
    else
      match step
      case Create(id, now) => s.(rows := s.rows[id := NewRow(now)], trails := s.trails[id := [Pending]])
      case BeginClaim(w, limit, order, now) => s.(open := s.open[w := Claiming([], limit, order, now)])
      case LockNext(w) => s.(open := s.open[w := TryNext(s, s.open[w])])
      case LockUpdate(w, id, stmt, now) => s.(open := s.open[w := Updating(id, stmt, now)])
      case Abort(w) => s.(open := s.open - {w})
      case Commit(w) =>
        var txn := s.open[w];
        State(Written(s.rows, txn.Statement(), txn.now, txn.Ids()), s.open - {w},
              Logged(s.trails, Target(txn.Statement()), txn.Ids()),
              if txn.Claiming? then s.claims + [txn.Closed()] else s.claims)
  }

  /** The next row is locked unless somebody holds it or it is no longer pending; either way it was tried. */
  ghost function TryNext(s: State, txn: Txn): Txn
    requires txn.Claiming? && txn.rest != []
  {
    var id := txn.rest[0];
    if id in Available(s.rows, Locked(s)) then txn.(batch := txn.batch + [id], rest := txn.rest[1..])
    else txn.(rest := txn.rest[1..])
  }

  ghost function Run(s: State, steps: seq<Step>): State
    decreases |steps|
  {
    if steps == [] then s else Run(Apply(s, steps[0]), steps[1..])
  }

  // ---- Invariants ----------------------------------------------------------

  /** Every row is in a state its timestamps allow, at the end of a path of the lifecycle. */
  ghost predicate RowsOk(rows: Rows, trails: map<TaskId, seq<TaskState>>) {
    && rows.Keys == trails.Keys
    && forall id | id in rows && id in trails :: TaskOk(rows[id], trails[id])
  }

  ghost predicate TaskOk(row: Row, trail: seq<TaskState>) {
    RowOk(row) && Path(trail) && trail[|trail| - 1] == row.state
  }

  /** The update of each locked row will go through, and nothing overtaken by a claim was older. */
  ghost predicate TxnOk(rows: Rows, txn: Txn) {
    && (forall i | 0 <= i < |txn.Ids()| :: Ready(rows, txn, txn.Ids()[i]))
    && (txn.Claiming? ==> ScanOk(rows, txn))
  }

  ghost predicate ScanOk(rows: Rows, txn: Txn)
    requires txn.Claiming?
  {
    |txn.batch| <= txn.limit && Sorted(rows, txn.batch + txn.rest)
  }

  ghost predicate Ready(rows: Rows, txn: Txn, id: TaskId) {
    id in rows && Execute(txn.Statement(), rows[id], txn.now).Updated?
  }

  ghost predicate ClaimOk(rows: Rows, c: Claim) {
    && Distinct(c.batch)
    && forall t | t in c.passed :: t !in c.batch && LeftBehind(rows, c.limit, c.batch, t)
  }

  ghost predicate Disjoint(a: seq<TaskId>, b: seq<TaskId>) { forall id | id in a :: id !in b }

  ghost predicate OpenOk(rows: Rows, open: map<Session, Txn>) {
    && (forall w | w in open :: TxnOk(rows, open[w]))
    && (forall v, w | v in open && w in open && v != w :: Disjoint(open[v].Ids(), open[w].Ids()))
  }

  /** Committed claims are disjoint, and what they took is no longer pending. */
  ghost predicate ClaimsOk(rows: Rows, claims: seq<Claim>) {
    && (forall i | 0 <= i < |claims| :: ClaimOk(rows, claims[i]) && AllStarted(rows, claims[i].batch))
    && (forall i, j | 0 <= i < j < |claims| :: Disjoint(claims[i].batch, claims[j].batch))
  }

  ghost predicate AllStarted(rows: Rows, ids: seq<TaskId>) {
    forall id | id in ids :: id in rows && rows[id].state != Pending
  }

  ghost predicate Inv(s: State) {
    RowsOk(s.rows, s.trails) && OpenOk(s.rows, s.open) && ClaimsOk(s.rows, s.claims)
  }

  /** Rows are not dropped, not created anew and never pending again. */
  ghost predicate Grows(rows: Rows, later: Rows) {
    forall id | id in rows :: id in later && SameTask(rows[id], later[id])
  }

  ghost predicate SameTask(row: Row, later: Row) {
    row.createdAt == later.createdAt && (later.state.Pending? ==> row.state.Pending?)
  }

  // ---- Rows only move forward ----------------------------------------------

  lemma WrittenGrows(rows: Rows, stmt: Stmt, now: Time, ids: seq<TaskId>)
    ensures Grows(rows, Written(rows, stmt, now, ids))
  {
  }

  lemma LeftBehindGrows(rows: Rows, later: Rows, limit: nat, batch: seq<TaskId>, t: TaskId)
    requires Grows(rows, later) && LeftBehind(rows, limit, batch, t)
    ensures LeftBehind(later, limit, batch, t)
  {
    forall i | 0 <= i < |batch| ensures NoLater(later, batch[i], t) {
      assert NoLater(rows, batch[i], t);
    }
  }

  lemma ClaimGrows(rows: Rows, later: Rows, c: Claim)
    requires Grows(rows, later) && ClaimOk(rows, c)
    ensures ClaimOk(later, c)
  {
    forall t | t in c.passed ensures LeftBehind(later, c.limit, c.batch, t) {
      LeftBehindGrows(rows, later, c.limit, c.batch, t);
    }
  }

  lemma ClaimsGrow(rows: Rows, later: Rows, claims: seq<Claim>)
    requires Grows(rows, later) && ClaimsOk(rows, claims)
    ensures ClaimsOk(later, claims)
  {
    forall i | 0 <= i < |claims| ensures ClaimOk(later, claims[i]) && AllStarted(later, claims[i].batch) {
      ClaimGrows(rows, later, claims[i]);
    }
  }

  lemma TxnGrows(rows: Rows, later: Rows, txn: Txn)
    requires Grows(rows, later) && TxnOk(rows, txn)
    requires forall id | id in txn.Ids() && id in rows :: id in later && later[id] == rows[id]
    ensures TxnOk(later, txn)
  {
    forall i | 0 <= i < |txn.Ids()| ensures Ready(later, txn, txn.Ids()[i]) {
      assert Ready(rows, txn, txn.Ids()[i]);
    }
    if txn.Claiming? { SortedGrows(rows, later, txn.batch + txn.rest); }
  }

  lemma SortedGrows(rows: Rows, later: Rows, ids: seq<TaskId>)
    requires Grows(rows, later) && Sorted(rows, ids)
    ensures Sorted(later, ids)
  {
    forall i, j | 0 <= i <= j < |ids| ensures NoLater(later, ids[i], ids[j]) {
      assert NoLater(rows, ids[i], ids[j]);
    }
  }

  // ---- Each step keeps the invariant ---------------------------------------

  lemma CreateKeeps(s: State, id: TaskId, now: Time)
    requires Inv(s) && id !in s.rows
    ensures Inv(Apply(s, Create(id, now))) && Grows(s.rows, Apply(s, Create(id, now)).rows)
  {
    var s' := Apply(s, Create(id, now));
    forall w | w in s.open ensures TxnOk(s'.rows, s.open[w]) { TxnGrows(s.rows, s'.rows, s.open[w]); }
    ClaimsGrow(s.rows, s'.rows, s.claims);
    assert Path([Pending]);
  }

  /** A new holder of unlocked rows, all of them ready for its statement. */
  lemma LockKeeps(s: State, w: Session, txn: Txn)
    requires Inv(s) && w !in s.open && TxnOk(s.rows, txn)
    requires forall id | id in txn.Ids() :: id !in Locked(s)
    ensures OpenOk(s.rows, s.open[w := txn])
  {
    forall v | v in s.open ensures Disjoint(s.open[v].Ids(), txn.Ids()) && Disjoint(txn.Ids(), s.open[v].Ids()) {
      forall id | id in txn.Ids() ensures id !in s.open[v].Ids() {
        var i :| 0 <= i < |txn.Ids()| && txn.Ids()[i] == id;
        assert Ready(s.rows, txn, txn.Ids()[i]);
      }
    }
  }

  lemma BeginClaimKeeps(s: State, w: Session, limit: nat, order: seq<TaskId>, now: Time)
    requires Inv(s) && Enabled(s, BeginClaim(w, limit, order, now))
    ensures Inv(Apply(s, BeginClaim(w, limit, order, now)))
  {
    assert [] + order == order;
    LockKeeps(s, w, Claiming([], limit, order, now));
  }

  /** A row taken stays between those before and those behind it; a row skipped drops out. */
  lemma TriedIsSorted(rows: Rows, batch: seq<TaskId>, rest: seq<TaskId>)
    requires rest != [] && Sorted(rows, batch + rest)
    ensures (batch + [rest[0]]) + rest[1..] == batch + rest
    ensures Sorted(rows, batch + rest[1..])
  {
    var all, fewer := batch + rest, batch + rest[1..];
    forall i | 0 <= i < |fewer| ensures fewer[i] == all[if i < |batch| then i else i + 1] { }
    forall i, j | 0 <= i <= j < |fewer| ensures NoLater(rows, fewer[i], fewer[j]) {
      assert NoLater(rows, all[if i < |batch| then i else i + 1], all[if j < |batch| then j else j + 1]);
    }
  }

  lemma TryNextOk(s: State, w: Session)
    requires Inv(s) && Enabled(s, LockNext(w))
    ensures TxnOk(s.rows, TryNext(s, s.open[w]))
    ensures forall id | id in TryNext(s, s.open[w]).Ids() && id !in s.open[w].Ids() :: id !in Locked(s)
  {
    var txn := s.open[w];
    var next, id := TryNext(s, txn), txn.rest[0];
    assert TxnOk(s.rows, txn);
    TriedIsSorted(s.rows, txn.batch, txn.rest);
    forall i | 0 <= i < |next.Ids()| ensures Ready(s.rows, next, next.Ids()[i]) {
      if i < |txn.batch| {
        assert Ready(s.rows, txn, txn.Ids()[i]);
      } else {
        assert TaskOk(s.rows[id], s.trails[id]);
      }
    }
  }

  lemma LockNextKeeps(s: State, w: Session)
    requires Inv(s) && Enabled(s, LockNext(w))
    ensures Inv(Apply(s, LockNext(w)))
  {
    var next := TryNext(s, s.open[w]);
    TryNextOk(s, w);
    forall v | v in s.open && v != w
      ensures Disjoint(s.open[v].Ids(), next.Ids()) && Disjoint(next.Ids(), s.open[v].Ids())
    {
      assert Disjoint(s.open[v].Ids(), s.open[w].Ids());
      forall id | id in next.Ids() ensures id !in s.open[v].Ids() {
        if id !in s.open[w].Ids() {
          assert id !in Locked(s);
          var i :| 0 <= i < |next.Ids()| && next.Ids()[i] == id;
          assert Ready(s.rows, next, next.Ids()[i]);
        }
      }
    }
  }

  /** A claim that is done left behind only what it did not get to, being full. */
  lemma ClosedOk(rows: Rows, txn: Txn)
    requires txn.Claiming? && txn.Done() && ScanOk(rows, txn)
    ensures ClaimOk(rows, txn.Closed())
  {
    var batch, rest := txn.batch, txn.rest;
    var all := batch + rest;
    assert forall i | 0 <= i < |batch| :: batch[i] == all[i];
    assert forall j | 0 <= j < |rest| :: rest[j] == all[|batch| + j];
    forall t | t in txn.Closed().passed ensures t !in batch && LeftBehind(rows, txn.limit, batch, t) {
      var j :| 0 <= j < |rest| && rest[j] == t;
      assert forall i | 0 <= i < |batch| :: NoLater(rows, all[i], all[|batch| + j]);
    }
  }

  lemma LockUpdateKeeps(s: State, w: Session, id: TaskId, stmt: Stmt, now: Time)
    requires Inv(s) && Enabled(s, LockUpdate(w, id, stmt, now))
    ensures Inv(Apply(s, LockUpdate(w, id, stmt, now)))
  {
    LockKeeps(s, w, Updating(id, stmt, now));
  }

  /** The update of a locked row is allowed where the row stands. */
  lemma HeldIsReady(s: State, w: Session, id: TaskId)
    requires Inv(s) && w in s.open && id in s.open[w].Ids()
    ensures Ready(s.rows, s.open[w], id) && (s.open[w].Claiming? ==> s.rows[id].state.Pending?)
  {
    var txn := s.open[w];
    var i :| 0 <= i < |txn.Ids()| && txn.Ids()[i] == id;
    assert Ready(s.rows, txn, txn.Ids()[i]);
  }

  lemma CommitKeepsRows(s: State, w: Session)
    requires Inv(s) && Enabled(s, Commit(w))
    ensures RowsOk(Apply(s, Commit(w)).rows, Apply(s, Commit(w)).trails)
  {
    var txn, s' := s.open[w], Apply(s, Commit(w));
    forall id | id in s'.rows && id in s'.trails ensures TaskOk(s'.rows[id], s'.trails[id]) {
      assert TaskOk(s.rows[id], s.trails[id]);
      if id in txn.Ids() {
        HeldIsReady(s, w, id);
        ExecuteKeeps(txn.Statement(), s.rows[id], txn.now);
        PathExtends(s.trails[id], Target(txn.Statement()));
      }
    }
  }

  lemma CommitKeepsOpen(s: State, w: Session)
    requires Inv(s) && Enabled(s, Commit(w))
    ensures OpenOk(Apply(s, Commit(w)).rows, Apply(s, Commit(w)).open)
  {
    var txn, s' := s.open[w], Apply(s, Commit(w));
    WrittenGrows(s.rows, txn.Statement(), txn.now, txn.Ids());
    forall v | v in s'.open ensures TxnOk(s'.rows, s'.open[v]) {
      assert Disjoint(s.open[v].Ids(), txn.Ids());
      TxnGrows(s.rows, s'.rows, s.open[v]);
    }
  }

  /** What a claim is about to take is pending before, and started after. */
  lemma CommitStarts(s: State, w: Session)
    requires Inv(s) && Enabled(s, Commit(w)) && s.open[w].Claiming?
    ensures var later := Written(s.rows, TaskLifecycle.ClaimTasks, s.open[w].now, s.open[w].batch);
      && AllStarted(later, s.open[w].batch)
      && forall id | id in s.open[w].batch :: id in s.rows && s.rows[id].state.Pending?
  {
    forall id | id in s.open[w].batch ensures Ready(s.rows, s.open[w], id) && s.rows[id].state.Pending? {
      HeldIsReady(s, w, id);
    }
  }

  /** So no committed claim has it. */
  lemma ClaimsOneMore(rows: Rows, later: Rows, claims: seq<Claim>, c: Claim)
    requires ClaimsOk(rows, claims) && Grows(rows, later) && ClaimOk(rows, c) && AllStarted(later, c.batch)
    requires forall id | id in c.batch :: id in rows && rows[id].state.Pending?
    ensures ClaimsOk(later, claims + [c])
  {
    ClaimsGrow(rows, later, claims);
    ClaimGrows(rows, later, c);
    forall i | 0 <= i < |claims| ensures Disjoint(claims[i].batch, c.batch) {
      assert AllStarted(rows, claims[i].batch);
    }
  }

  lemma CommitKeepsClaims(s: State, w: Session)
    requires Inv(s) && Enabled(s, Commit(w))
    ensures ClaimsOk(Apply(s, Commit(w)).rows, Apply(s, Commit(w)).claims)
  {
    var txn := s.open[w];
    var later := Written(s.rows, txn.Statement(), txn.now, txn.Ids());
    WrittenGrows(s.rows, txn.Statement(), txn.now, txn.Ids());
    if txn.Claiming? {
      assert TxnOk(s.rows, txn);
      ClosedOk(s.rows, txn);
      CommitStarts(s, w);
      ClaimsOneMore(s.rows, later, s.claims, txn.Closed());
    } else {
      ClaimsGrow(s.rows, later, s.claims);
    }
  }

  lemma StepKeepsInv(s: State, step: Step)
    requires Inv(s)
    ensures Inv(Apply(s, step)) && Grows(s.rows, Apply(s, step).rows)
  {
    if Enabled(s, step) {
      match step
      case Create(id, now) => CreateKeeps(s, id, now);
      case BeginClaim(w, limit, order, now) => BeginClaimKeeps(s, w, limit, order, now);
      case LockNext(w) => LockNextKeeps(s, w);
      case LockUpdate(w, id, stmt, now) => LockUpdateKeeps(s, w, id, stmt, now);
      case Abort(w) =>
      case Commit(w) =>
        CommitKeepsRows(s, w);
        CommitKeepsOpen(s, w);
        CommitKeepsClaims(s, w);
        WrittenGrows(s.rows, s.open[w].Statement(), s.open[w].now, s.open[w].Ids());
    }
  }

  /** Over every interleaving: exclusive locks, exclusive claims, lifecycle paths, ordered timestamps. */
  lemma {:induction false} RunKeepsInv(s: State, steps: seq<Step>)
    requires Inv(s)
    ensures Inv(Run(s, steps)) && Grows(s.rows, Run(s, steps).rows)
    decreases |steps|
  {
    if steps != [] {
      StepKeepsInv(s, steps[0]);
      RunKeepsInv(Apply(s, steps[0]), steps[1..]);
    }
  }

  /** No task is locked twice at once, and no task is handed out by two committed claims of a run. */
  lemma ExclusiveClaims(steps: seq<Step>, v: Session, w: Session, i: nat, j: nat, id: TaskId)
    ensures var s := Run(EMPTY, steps);
      && (v in s.open && w in s.open && v != w && id in s.open[v].Ids() ==> id !in s.open[w].Ids())
      && (i < j < |s.claims| && id in s.claims[i].batch ==> id !in s.claims[j].batch)
      && (i < |s.claims| ==> Distinct(s.claims[i].batch))
      && (i < |s.claims| && w in s.open && s.open[w].Claiming? && id in s.claims[i].batch ==> id !in s.open[w].Ids())
  {
    RunKeepsInv(EMPTY, steps);
    var s := Run(EMPTY, steps);
    if w in s.open && id in s.open[w].Ids() { HeldIsReady(s, w, id); }
  }

  /** Whatever races it was in, a task was started and ended at most once, and its row shows it. */
  lemma OneTerminalWrite(steps: seq<Step>, id: TaskId)
    requires id in Run(EMPTY, steps).rows
    ensures var s := Run(EMPTY, steps);
      && id in s.trails && RowOk(s.rows[id]) && Path(s.trails[id])
      && s.trails[id][|s.trails[id]| - 1] == s.rows[id].state
      && forall i | 0 <= i < |s.trails[id]| ::
           && (s.trails[id][i].IsTerminal() ==> i == |s.trails[id]| - 1)
           && (s.trails[id][i] == Running ==> i == 1)
  {
    RunKeepsInv(EMPTY, steps);
    PathEndsOnce(Run(EMPTY, steps).trails[id]);
  }

  // ---- First come, first served --------------------------------------------

  predicate Ends(step: Step, w: Session) { step == Commit(w) || step == Abort(w) }

  predicate NeverEnds(steps: seq<Step>, w: Session) { forall i | 0 <= i < |steps| :: !Ends(steps[i], w) }

  /** At step `n` the claim of `w` comes to task `t`. */
  ghost predicate ComesTo(s: State, steps: seq<Step>, n: nat, w: Session, t: TaskId) {
    && n < |steps| && steps[n] == LockNext(w)
    && var mid := Run(s, steps[..n]);
       Enabled(mid, LockNext(w)) && mid.open[w].rest[0] == t
  }

  ghost predicate FreeAt(s: State, steps: seq<Step>, n: nat, t: TaskId) {
    n <= |steps| && var mid := Run(s, steps[..n]); t in Available(mid.rows, Locked(mid))
  }

  ghost predicate Claims(s: State, w: Session) { w in s.open && s.open[w].Claiming? }

  /** What a step that does not end it does to a claim: nothing, or it tries the next task. */
  lemma ClaimSteps(s: State, step: Step, w: Session)
    requires Inv(s) && Claims(s, w) && !Ends(step, w)
    ensures Claims(Apply(s, step), w)
    ensures Apply(s, step).open[w] ==
      if step == LockNext(w) && Enabled(s, step) then TryNext(s, s.open[w]) else s.open[w]
  {
  }

  /** Once tried, a task is in the batch to stay or never. */
  lemma {:induction false} TriedStays(s: State, steps: seq<Step>, w: Session, t: TaskId)
    requires Inv(s) && Claims(s, w) && NeverEnds(steps, w) && t !in s.open[w].rest
    ensures var end := Run(s, steps);
      Claims(end, w) && t !in end.open[w].rest && (t in end.open[w].batch <==> t in s.open[w].batch)
    decreases |steps|
  {
    if steps != [] {
      assert !Ends(steps[0], w);
      ClaimSteps(s, steps[0], w);
      StepKeepsInv(s, steps[0]);
      TriedStays(Apply(s, steps[0]), steps[1..], w, t);
    }
  }

  /** The claim comes to the first of the rest, which is then tried and not seen again. */
  lemma ComesToFirst(s: State, w: Session)
    requires Inv(s) && Claims(s, w) && Enabled(s, LockNext(w))
    ensures var t, s' := s.open[w].rest[0], Apply(s, LockNext(w));
      && Claims(s', w) && t !in s'.open[w].rest
      && (t in s'.open[w].batch <==> t in Available(s.rows, Locked(s)))
  {
    var txn := s.open[w];
    var all, n := txn.batch + txn.rest, |txn.batch|;
    assert TxnOk(s.rows, txn);
    assert forall i | 0 <= i < n :: txn.batch[i] == all[i] && all[i] != all[n];
    assert forall i | 0 < i < |txn.rest| :: txn.rest[i] == all[n + i] && all[n] != all[n + i];
  }

  lemma LaterStep(s: State, steps: seq<Step>, n: nat, w: Session, t: TaskId)
    requires steps != [] && ComesTo(Apply(s, steps[0]), steps[1..], n, w, t)
    ensures ComesTo(s, steps, n + 1, w, t)
    ensures FreeAt(s, steps, n + 1, t) <==> FreeAt(Apply(s, steps[0]), steps[1..], n, t)
  {
    var upTo := steps[..n + 1];
    assert upTo[0] == steps[0] && upTo[1..] == steps[1..][..n];
  }

  /**
   Over every interleaving, a task a claim saw is still to be tried, or the claim came to it at some
   step, and took it if and only if it was pending and unlocked at that step.
   */
  lemma {:induction false} TakenIffFree(s: State, steps: seq<Step>, w: Session, t: TaskId)
    requires Inv(s) && Claims(s, w) && NeverEnds(steps, w) && t in s.open[w].rest
    ensures var end := Run(s, steps);
      && Claims(end, w)
      && (t in end.open[w].rest ||
          exists n :: ComesTo(s, steps, n, w, t) && (t in end.open[w].batch <==> FreeAt(s, steps, n, t)))
    decreases |steps|
  {
    if steps != [] {
      var step, s' := steps[0], Apply(s, steps[0]);
      assert !Ends(step, w);
      ClaimSteps(s, step, w);
      StepKeepsInv(s, step);
      assert steps[..0] == [];
      if step == LockNext(w) && Enabled(s, step) && s.open[w].rest[0] == t {
        ComesToFirst(s, w);
        TriedStays(s', steps[1..], w, t);
        assert ComesTo(s, steps, 0, w, t);
      } else {
        assert s.open[w].rest == [s.open[w].rest[0]] + s.open[w].rest[1..];
        TakenIffFree(s', steps[1..], w, t);
        if t !in Run(s, steps).open[w].rest {
          var n: nat :| ComesTo(s', steps[1..], n, w, t) &&
                        (t in Run(s, steps).open[w].batch <==> FreeAt(s', steps[1..], n, t));
          LaterStep(s, steps, n, w, t);
        }
      }
    }
  }

  /**
   Hence no claim leaves an older task behind that it could have had: if it has taken `a`, a task
   older than `a` that was pending when the claim began was taken too, or was locked or no longer
   pending when the claim came to it.
   */
  lemma OlderWasUnavailable(s: State, w: Session, limit: nat, order: seq<TaskId>, now: Time, steps: seq<Step>,
                            a: TaskId, t: TaskId)
    requires Inv(s) && Enabled(s, BeginClaim(w, limit, order, now)) && NeverEnds(steps, w)
    requires t in s.rows && s.rows[t].state.Pending?
    ensures var begun := Apply(s, BeginClaim(w, limit, order, now));
      var end := Run(begun, steps);
      && Claims(end, w)
      && (a in end.open[w].batch && a in end.rows && t in end.rows
          && end.rows[t].createdAt < end.rows[a].createdAt && t !in end.open[w].batch ==>
            exists n :: ComesTo(begun, steps, n, w, t) && !FreeAt(begun, steps, n, t))
  {
    var begun := Apply(s, BeginClaim(w, limit, order, now));
    BeginClaimKeeps(s, w, limit, order, now);
    RunKeepsInv(begun, steps);
    TakenIffFree(begun, steps, w, t);
    var end := Run(begun, steps);
    if a in end.open[w].batch && t in end.open[w].rest { UnreachedInOpen(end, w, a, t); }
  }

  lemma UnreachedInOpen(s: State, w: Session, a: TaskId, t: TaskId)
    requires Inv(s) && Claims(s, w) && a in s.open[w].batch && t in s.open[w].rest
    ensures NoLater(s.rows, a, t)
  {
    var txn := s.open[w];
    var all := txn.batch + txn.rest;
    assert TxnOk(s.rows, txn);
    var i :| 0 <= i < |txn.batch| && txn.batch[i] == a;
    var j :| 0 <= j < |txn.rest| && txn.rest[j] == t;
    assert NoLater(s.rows, all[i], all[|txn.batch| + j]);
  }

  /** In every run, what a claim did not get to is no older than anything it took, and a committed one was full. */
  lemma UnreachedIsNoOlder(steps: seq<Step>, w: Session, i: nat, a: TaskId, t: TaskId)
    ensures var s := Run(EMPTY, steps);
      && (Claims(s, w) && a in s.open[w].batch && t in s.open[w].rest ==> NoLater(s.rows, a, t))
      && (i < |s.claims| && a in s.claims[i].batch && t in s.claims[i].passed ==>
            NoLater(s.rows, a, t) && |s.claims[i].batch| == s.claims[i].limit)
  {
    RunKeepsInv(EMPTY, steps);
    var s := Run(EMPTY, steps);
    if Claims(s, w) && a in s.open[w].batch && t in s.open[w].rest { UnreachedInOpen(s, w, a, t); }
    if i < |s.claims| && a in s.claims[i].batch && t in s.claims[i].passed {
      var c := s.claims[i];
      assert ClaimOk(s.rows, c) && LeftBehind(s.rows, c.limit, c.batch, t);
      var k :| 0 <= k < |c.batch| && c.batch[k] == a;
      assert NoLater(s.rows, c.batch[k], t);
    }
  }

  // ---- A skipped task may be free again ------------------------------------

  ghost predicate Reachable(s: State) { exists steps :: Run(EMPTY, steps) == s }

  lemma ReachNext(s: State, step: Step) returns (s': State)
    requires Reachable(s)
    ensures s' == Apply(s, step) && Reachable(s')
  {
    var steps :| Run(EMPTY, steps) == s;
    RunThen(EMPTY, steps, step);
    s' := Apply(s, step);
  }

  function TwoRows(): Rows { map[0 := NewRow(0), 1 := NewRow(1)] }

  function TwoTrails(): map<TaskId, seq<TaskState>> { map[0 := [Pending], 1 := [Pending]] }

  lemma TwoPending()
    ensures Reachable(State(TwoRows(), map[], TwoTrails(), [])) && Snapshot(TwoRows(), [0, 1])
  {
    assert Run(EMPTY, []) == EMPTY;
    var s := ReachNext(EMPTY, Create(0, 0));
    s := ReachNext(s, Create(1, 1));
    assert s == State(TwoRows(), map[], TwoTrails(), []);
    var order := [0, 1];
    assert order[0] == 0 && order[1] == 1;
  }

  /** Session 5 holds task 0. */
  lemma OneHolds()
    ensures Reachable(State(TwoRows(), map[5 := Claiming([0], 1, [1], 0)], TwoTrails(), []))
    ensures Snapshot(TwoRows(), [0, 1])
  {
    TwoPending();
    var s := ReachNext(State(TwoRows(), map[], TwoTrails(), []), BeginClaim(5, 1, [0, 1], 0));
    assert s.open == map[5 := Claiming([], 1, [0, 1], 0)];
    assert Locked(s) == {};
    s := ReachNext(s, LockNext(5));
    assert [0, 1][1..] == [1] && [] + [0] == [0];
    assert s.open == map[5 := Claiming([0], 1, [1], 0)];
  }

  /** Session 6 therefore skips it. */
  lemma OneSkips()
    ensures Reachable(State(TwoRows(), map[5 := Claiming([0], 1, [1], 0), 6 := Claiming([], 1, [1], 0)],
                            TwoTrails(), []))
  {
    OneHolds();
    var held := State(TwoRows(), map[5 := Claiming([0], 1, [1], 0)], TwoTrails(), []);
    var s := ReachNext(held, BeginClaim(6, 1, [0, 1], 0));
    assert s.open == map[5 := Claiming([0], 1, [1], 0), 6 := Claiming([], 1, [0, 1], 0)];
    assert 0 in Locked(s) by { assert 0 in s.open[5].Ids(); }
    s := ReachNext(s, LockNext(6));
    assert [0, 1][1..] == [1];
    assert s.open == map[5 := Claiming([0], 1, [1], 0), 6 := Claiming([], 1, [1], 0)];
  }

  /**
   So a claim can take a task while an older one is free at that very moment: session 6 passed task 0
   while session 5 held it, session 5 gives up, and session 6 goes on to take the younger task 1.
   */
  lemma SkippedCanBeFree()
    ensures exists s, w, older, younger ::
      && Reachable(s) && Enabled(s, LockNext(w)) && younger in Apply(s, LockNext(w)).open[w].Ids()
      && younger !in s.open[w].Ids() && older in Available(s.rows, Locked(s)) && younger in s.rows
      && s.rows[older].createdAt < s.rows[younger].createdAt && older !in s.open[w].rest
  {
    OneSkips();
    var before := State(TwoRows(), map[5 := Claiming([0], 1, [1], 0), 6 := Claiming([], 1, [1], 0)], TwoTrails(), []);
    var s := ReachNext(before, Abort(5));
    assert s.open == map[6 := Claiming([], 1, [1], 0)];
    assert Locked(s) == {};
    SkippedWitness(s);
  }

  lemma SkippedWitness(s: State)
    requires s == State(TwoRows(), map[6 := Claiming([], 1, [1], 0)], TwoTrails(), []) && Locked(s) == {}
    ensures && Enabled(s, LockNext(6)) && 1 in Apply(s, LockNext(6)).open[6].Ids() && 1 !in s.open[6].Ids()
            && 0 in Available(s.rows, Locked(s)) && s.rows[0].createdAt < s.rows[1].createdAt && 0 !in s.open[6].rest
  {
    assert [] + [1] == [1];
  }

  // ---- Bounded overtaking --------------------------------------------------

  /** The tasks other than `t`, no younger, that were pending at `start` or created since. */
  ghost function Ahead(start: Rows, rows: Rows, t: TaskId): set<TaskId> {
    set id | id in rows && id != t && NoLater(rows, id, t) && (id in start ==> start[id].state.Pending?)
  }

  /** How many of the claims `lo..hi-1`, with a limit of at least `n`, took `t` or were full before they got to it. */
  ghost function Found(claims: seq<Claim>, lo: nat, hi: nat, n: nat, t: TaskId): nat
    requires lo <= hi <= |claims|
    decreases hi
  {
    if lo == hi then 0 else Found(claims, lo, hi - 1, n, t) + if FoundBy(claims[hi - 1], n, t) then 1 else 0
  }

  ghost predicate FoundBy(c: Claim, n: nat, t: TaskId) { c.limit >= n && (t in c.passed || t in c.batch) }

  ghost predicate NotTaken(claims: seq<Claim>, lo: nat, hi: nat, t: TaskId)
    requires hi <= |claims|
  {
    forall i | lo <= i < hi :: t !in claims[i].batch
  }

  ghost predicate TakenBy(claims: seq<Claim>, lo: nat, hi: nat, id: TaskId)
    requires hi <= |claims|
  {
    exists i | lo <= i < hi :: id in claims[i].batch
  }

  ghost function Elements(ids: seq<TaskId>): set<TaskId> { set id | id in ids }

  lemma {:induction false} DistinctElements(ids: seq<TaskId>)
    requires Distinct(ids)
    ensures |Elements(ids)| == |ids|
  {
    if ids != [] {
      var n := |ids| - 1;
      DistinctElements(ids[..n]);
      assert Elements(ids) == Elements(ids[..n]) + {ids[n]};
    }
  }

  lemma OvertakerTakes(rows: Rows, c: Claim, t: TaskId)
    requires ClaimOk(rows, c) && t in c.passed
    ensures |Elements(c.batch)| == c.limit
    ensures forall id | id in Elements(c.batch) :: id != t && NoLater(rows, id, t)
  {
    DistinctElements(c.batch);
    assert LeftBehind(rows, c.limit, c.batch, t);
  }

  ghost predicate AllAhead(rows: Rows, claims: seq<Claim>, lo: nat, hi: nat, t: TaskId, took: set<TaskId>)
    requires hi <= |claims|
  {
    forall id | id in took :: id != t && NoLater(rows, id, t) && TakenBy(claims, lo, hi, id)
  }

  ghost predicate Enough(took: set<TaskId>, n: nat, count: nat) { |took| >= n * count }

  lemma EnoughMore(a: set<TaskId>, b: set<TaskId>, n: nat, count: nat)
    requires a !! b && |b| >= n && Enough(a, n, count)
    ensures Enough(a + b, n, count + 1)
  {
    assert n * (count + 1) == n * count + n;
  }

  lemma NextOvertaker(rows: Rows, claims: seq<Claim>, lo: nat, k: nat, n: nat, t: TaskId,
                      count: nat, before: set<TaskId>)
    requires ClaimsOk(rows, claims) && lo <= k < |claims| && t in claims[k].passed && claims[k].limit >= n
    requires AllAhead(rows, claims, lo, k, t, before) && Enough(before, n, count)
    ensures var took := before + Elements(claims[k].batch);
      AllAhead(rows, claims, lo, k + 1, t, took) && Enough(took, n, count + 1)
  {
    OvertakerTakes(rows, claims[k], t);
    TakenApart(rows, claims, lo, k, before);
    TakenEarlier(rows, claims, lo, k, t, before);
    EnoughMore(before, Elements(claims[k].batch), n, count);
    assert forall id | id in Elements(claims[k].batch) :: TakenBy(claims, lo, k + 1, id);
  }

  /** Each claim that leaves `t` behind takes `n` tasks of its own that are no younger. */
  lemma {:induction false} Overtakers(rows: Rows, claims: seq<Claim>, lo: nat, hi: nat, n: nat, t: TaskId)
    returns (took: set<TaskId>)
    requires ClaimsOk(rows, claims) && lo <= hi <= |claims| && NotTaken(claims, lo, hi, t)
    ensures Enough(took, n, Found(claims, lo, hi, n, t)) && AllAhead(rows, claims, lo, hi, t, took)
    decreases hi
  {
    if lo == hi {
      took := {};
    } else {
      var before := Overtakers(rows, claims, lo, hi - 1, n, t);
      if FoundBy(claims[hi - 1], n, t) {
        NextOvertaker(rows, claims, lo, hi - 1, n, t, Found(claims, lo, hi - 1, n, t), before);
        took := before + Elements(claims[hi - 1].batch);
      } else {
        TakenEarlier(rows, claims, lo, hi - 1, t, before);
        took := before;
      }
    }
  }

  lemma TakenEarlier(rows: Rows, claims: seq<Claim>, lo: nat, k: nat, t: TaskId, took: set<TaskId>)
    requires k < |claims| && AllAhead(rows, claims, lo, k, t, took)
    ensures AllAhead(rows, claims, lo, k + 1, t, took)
  {
    forall id | id in took ensures TakenBy(claims, lo, k + 1, id) {
      assert TakenBy(claims, lo, k, id);
    }
  }

  lemma TakenApart(rows: Rows, claims: seq<Claim>, lo: nat, k: nat, took: set<TaskId>)
    requires ClaimsOk(rows, claims) && lo <= k < |claims|
    requires forall id | id in took :: TakenBy(claims, lo, k, id)
    ensures took !! Elements(claims[k].batch)
  {
    forall id | id in took ensures id !in claims[k].batch {
      assert TakenBy(claims, lo, k, id);
      var i :| lo <= i < k && id in claims[i].batch;
      assert Disjoint(claims[i].batch, claims[k].batch);
    }
  }

  /** Claims committed since `start` took what was pending then, or was created since. */
  ghost predicate Since(start: State, s: State) {
    && start.claims <= s.claims
    && Grows(start.rows, s.rows)
    && AllWerePending(start, s.claims)
  }

  ghost predicate WerePending(start: Rows, ids: seq<TaskId>) {
    forall id | id in ids && id in start :: start[id].state.Pending?
  }

  lemma CommitSince(start: State, s: State, w: Session)
    requires Inv(s) && Since(start, s) && w in s.open && s.open[w].Claiming?
    ensures WerePending(start.rows, s.open[w].batch)
  {
    forall id | id in s.open[w].batch && id in start.rows ensures start.rows[id].state.Pending? {
      HeldIsReady(s, w, id);
      assert SameTask(start.rows[id], s.rows[id]);
    }
  }

  lemma GrowsTransitive(a: Rows, b: Rows, c: Rows)
    requires Grows(a, b) && Grows(b, c)
    ensures Grows(a, c)
  {
  }

  lemma StepGrows(s: State, step: Step)
    requires Inv(s)
    ensures Grows(s.rows, Apply(s, step).rows)
  {
    StepKeepsInv(s, step);
  }

  lemma StepSince(start: State, s: State, step: Step)
    requires Inv(s) && Since(start, s)
    ensures Since(start, Apply(s, step))
  {
    var s' := Apply(s, step);
    StepGrows(s, step);
    GrowsTransitive(start.rows, s.rows, s'.rows);
    if step.Commit? && Enabled(s, step) && s.open[step.session].Claiming? {
      CommitSince(start, s, step.session);
      SinceOneMore(start, s.claims, s.open[step.session].Closed());
    }
  }

  ghost predicate AllWerePending(start: State, claims: seq<Claim>) {
    forall i | |start.claims| <= i < |claims| :: WerePending(start.rows, claims[i].batch)
  }

  lemma SinceOneMore(start: State, claims: seq<Claim>, c: Claim)
    requires AllWerePending(start, claims) && WerePending(start.rows, c.batch)
    ensures AllWerePending(start, claims + [c])
  {
  }

  lemma {:induction false} RunSince(start: State, s: State, steps: seq<Step>)
    requires Inv(s) && Since(start, s)
    ensures Since(start, Run(s, steps)) && Inv(Run(s, steps))
    decreases |steps|
  {
    if steps != [] {
      StepSince(start, s, steps[0]);
      StepKeepsInv(s, steps[0]);
      RunSince(start, Apply(s, steps[0]), steps[1..]);
    }
  }

  /**
   With `m` tasks ahead of `t`, at most `m / n` committed claims of limit `n` or more that saw `t`
   pending fill up before they get to it: after one more, `t` has been claimed. However many workers
   there are; a claim that comes to `t` while somebody else holds its lock is not counted.
   */
  lemma BoundedWait(start: State, steps: seq<Step>, n: nat, t: TaskId)
    requires Inv(start) && n > 0
    ensures var s := Run(start, steps); var k := |start.claims|;
      && k <= |s.claims|
      && (Found(s.claims, k, |s.claims|, n, t) > |Ahead(start.rows, s.rows, t)| / n ==>
            TakenBy(s.claims, k, |s.claims|, t))
  {
    RunSince(start, start, steps);
    var s, k := Run(start, steps), |start.claims|;
    if !TakenBy(s.claims, k, |s.claims|, t) {
      var took := Overtakers(s.rows, s.claims, k, |s.claims|, n, t);
      var ahead := Ahead(start.rows, s.rows, t);
      forall id | id in took ensures id in ahead {
        assert TakenBy(s.claims, k, |s.claims|, id);
        var i :| k <= i < |s.claims| && id in s.claims[i].batch;
        assert WerePending(start.rows, s.claims[i].batch);
      }
      SubsetSize(took, ahead);
      QuotientBound(n, Found(s.claims, k, |s.claims|, n, t), |ahead|);
    }
  }

  lemma {:induction false} SubsetSize(a: set<TaskId>, b: set<TaskId>)
    requires a <= b
    ensures |a| <= |b|
  {
    if a != {} {
      var x :| x in a;
      SubsetSize(a - {x}, b - {x});
    }
  }

  lemma QuotientBound(n: nat, count: nat, m: nat)
    requires n > 0 && n * count <= m
    ensures count <= m / n
  {
    var q := m / n;
    assert m == n * q + m % n;
    assert count > q ==> n * count >= n * (q + 1);
  }

  /** When nothing as old as `t` is created meanwhile, what is ahead is what was pending and no younger. */
  lemma AheadAtStart(start: Rows, rows: Rows, t: TaskId)
    requires Grows(start, rows) && t in start
    requires forall id | id in rows && id !in start :: rows[id].createdAt > start[t].createdAt
    ensures Ahead(start, rows, t)
         == set id | id in start && id != t && NoLater(start, id, t) && start[id].state.Pending?
  {
  }

  // ---- One worker, one transaction at a time -------------------------------

  /** The steps left of a claim that nothing disturbs. */
  ghost function Scan(s: State, w: Session): State
    decreases if w in s.open && s.open[w].Claiming? then |s.open[w].rest| else 0
  {
    if Enabled(s, LockNext(w)) then Scan(Apply(s, LockNext(w)), w) else s
  }

  /** Everything available was seen, and what was tried was locked if it was available. */
  ghost predicate ScanSoFar(rows: Rows, available: set<TaskId>, txn: Txn) {
    && txn.Claiming? && ScanOk(rows, txn)
    && (forall i | 0 <= i < |txn.batch| :: txn.batch[i] in available)
    && (forall t | t in available :: t in txn.batch || t in txn.rest)
  }

  lemma ScanStep(s: State, w: Session, locked: set<TaskId>)
    requires Inv(s) && Enabled(s, LockNext(w)) && ScanSoFar(s.rows, Available(s.rows, locked), s.open[w])
    requires Locked(s) == locked + Elements(s.open[w].batch)
    ensures var s' := Apply(s, LockNext(w));
      && s'.open[w].Claiming? && s'.open[w].limit == s.open[w].limit
      && ScanSoFar(s'.rows, Available(s.rows, locked), s'.open[w])
      && Locked(s') == locked + Elements(s'.open[w].batch)
  {
    var txn, s' := s.open[w], Apply(s, LockNext(w));
    var id := txn.rest[0];
    TriedIsSorted(s.rows, txn.batch, txn.rest);
    var all := txn.batch + txn.rest;
    assert id == all[|txn.batch|] && id !in txn.batch by {
      assert forall i | 0 <= i < |txn.batch| :: txn.batch[i] == all[i] && all[i] != all[|txn.batch|];
    }
    LockedAfterTry(s, w);
    assert txn.rest == [id] + txn.rest[1..];
    if id in Available(s.rows, Locked(s)) {
      assert Elements(s'.open[w].batch) == Elements(txn.batch) + {id};
    }
  }

  lemma LockedAfterTry(s: State, w: Session)
    requires Inv(s) && Enabled(s, LockNext(w))
    ensures var id := s.open[w].rest[0];
      Locked(Apply(s, LockNext(w))) == if id in Available(s.rows, Locked(s)) then Locked(s) + {id} else Locked(s)
  {
    var s', id := Apply(s, LockNext(w)), s.open[w].rest[0];
    var free := id in Available(s.rows, Locked(s));
    forall x | x in Locked(s) ensures x in Locked(s') { LockStays(s, w, x); }
    if free { assert id in s'.open[w].Ids(); }
    forall x | x in Locked(s') ensures x in Locked(s) || (free && x == id) {
      var v :| v in s'.open && x in s'.open[v].Ids();
      assert v in s.open;
      if v != w { assert s'.open[v] == s.open[v]; }
    }
  }

  lemma LockStays(s: State, w: Session, x: TaskId)
    requires Enabled(s, LockNext(w)) && x in Locked(s)
    ensures x in Locked(Apply(s, LockNext(w)))
  {
    var s' := Apply(s, LockNext(w));
    var v :| v in s.open && x in s.open[v].Ids();
    assert v in s'.open && x in s'.open[v].Ids();
  }

  /** Undisturbed, the scan takes the first `limit` of what is available when it begins. */
  lemma {:induction false} QuietScan(s: State, w: Session, locked: set<TaskId>)
    requires Inv(s) && w in s.open && ScanSoFar(s.rows, Available(s.rows, locked), s.open[w])
    requires Locked(s) == locked + Elements(s.open[w].batch)
    ensures var end := Scan(s, w);
      && Inv(end) && end == s.(open := end.open) && end.open.Keys == s.open.Keys
      && end.open[w].Claiming? && end.open[w].Done() && end.open[w].limit == s.open[w].limit
      && ScanSoFar(s.rows, Available(s.rows, locked), end.open[w])
    decreases |s.open[w].rest|
  {
    if Enabled(s, LockNext(w)) {
      ScanStep(s, w, locked);
      LockNextKeeps(s, w);
      QuietScan(Apply(s, LockNext(w)), w, locked);
    }
  }

  lemma SoFarIsPicked(rows: Rows, available: set<TaskId>, txn: Txn)
    requires ScanSoFar(rows, available, txn) && txn.Done()
    ensures Picked(rows, available, txn.limit, txn.batch)
  {
    var all := txn.batch + txn.rest;
    assert forall i | 0 <= i < |txn.batch| :: txn.batch[i] == all[i];
    ClosedOk(rows, txn);
  }

  lemma NothingLockedYet(s: State, w: Session, limit: nat, order: seq<TaskId>, now: Time)
    requires Inv(s) && Enabled(s, BeginClaim(w, limit, order, now))
    ensures var begun := Apply(s, BeginClaim(w, limit, order, now));
      && Locked(begun) == Locked(s) + Elements(begun.open[w].batch)
      && ScanSoFar(s.rows, Available(s.rows, Locked(s)), begun.open[w])
  {
    var begun := Apply(s, BeginClaim(w, limit, order, now));
    assert [] + order == order;
    forall x ensures x in Locked(begun) <==> x in Locked(s) {
      if x in Locked(s) {
        var v :| v in s.open && x in s.open[v].Ids();
        assert x in begun.open[v].Ids();
      }
    }
  }

  /** A claim among held locks that do not move takes exactly the oldest free pending tasks. */
  lemma UndisturbedClaim(s: State, w: Session, limit: nat, order: seq<TaskId>, now: Time)
    requires Inv(s) && Enabled(s, BeginClaim(w, limit, order, now))
    ensures var end := Scan(Apply(s, BeginClaim(w, limit, order, now)), w);
      && Inv(end) && end.rows == s.rows && end.claims == s.claims && end.trails == s.trails
      && end.open.Keys == s.open.Keys + {w} && end.open[w].Claiming? && end.open[w].Done()
      && end.open[w].limit == limit
      && ScanSoFar(s.rows, Available(s.rows, Locked(s)), end.open[w])
      && Picked(s.rows, Available(s.rows, Locked(s)), limit, end.open[w].batch)
  {
    var begun := Apply(s, BeginClaim(w, limit, order, now));
    BeginClaimKeeps(s, w, limit, order, now);
    NothingLockedYet(s, w, limit, order, now);
    QuietScan(begun, w, Locked(s));
    SoFarIsPicked(s.rows, Available(s.rows, Locked(s)), Scan(begun, w).open[w]);
  }

  datatype SerialOp =
    | Add(id: TaskId, now: Time)
    | TakeBatch(limit: nat, order: seq<TaskId>, now: Time)
    | Update(id: TaskId, stmt: Stmt, now: Time)

  ghost function SerialApply(s: State, op: SerialOp): State {
    match op
    case Add(id, now) => Apply(s, Create(id, now))
    case TakeBatch(limit, order, now) => Apply(Scan(Apply(s, BeginClaim(0, limit, order, now)), 0), Commit(0))
    case Update(id, stmt, now) => Apply(Apply(s, LockUpdate(0, id, stmt, now)), Commit(0))
  }

  ghost function SerialRun(s: State, ops: seq<SerialOp>): State
    decreases |ops|
  {
    if ops == [] then s else SerialRun(SerialApply(s, ops[0]), ops[1..])
  }

  /** Tasks are created no earlier than those already there. */
  ghost predicate InOrder(s: State, ops: seq<SerialOp>)
    decreases |ops|
  {
    ops == [] ||
    ((ops[0].Add? ==> forall id | id in s.rows :: s.rows[id].createdAt <= ops[0].now)
     && InOrder(SerialApply(s, ops[0]), ops[1..]))
  }

  ghost predicate AllNoLater(rows: Rows, a: seq<TaskId>, b: seq<TaskId>) {
    forall x, y | x in a && y in b :: NoLater(rows, x, y)
  }

  ghost predicate BeforePending(rows: Rows, batch: seq<TaskId>) {
    forall x, y | x in batch && y in rows && rows[y].state.Pending? :: NoLater(rows, x, y)
  }

  ghost predicate Ordered(rows: Rows, claims: seq<Claim>) {
    && (forall i, j | 0 <= i < j < |claims| :: AllNoLater(rows, claims[i].batch, claims[j].batch))
    && (forall i | 0 <= i < |claims| :: BeforePending(rows, claims[i].batch))
  }

  ghost predicate Serial(s: State) {
    Inv(s) && s.open == map[] && Ordered(s.rows, s.claims)
  }

  lemma NoLaterGrows(rows: Rows, later: Rows, a: TaskId, b: TaskId)
    requires Grows(rows, later) && NoLater(rows, a, b)
    ensures NoLater(later, a, b)
  {
  }

  /** What was ordered stays so, and so does what comes before all that is pending, if the new pending rows agree. */
  lemma OrderGrows(rows: Rows, later: Rows, claims: seq<Claim>)
    requires Grows(rows, later) && Ordered(rows, claims)
    requires forall i, x, y | 0 <= i < |claims| && x in claims[i].batch && y in later && y !in rows ::
      NoLater(later, x, y)
    ensures Ordered(later, claims)
  {
    forall i, j | 0 <= i < j < |claims| ensures AllNoLater(later, claims[i].batch, claims[j].batch) {
      assert AllNoLater(rows, claims[i].batch, claims[j].batch);
    }
    forall i | 0 <= i < |claims| ensures BeforePending(later, claims[i].batch) {
      assert BeforePending(rows, claims[i].batch);
      forall x, y | x in claims[i].batch && y in later && later[y].state.Pending? ensures NoLater(later, x, y) {
        if y in rows { NoLaterGrows(rows, later, x, y); }
      }
    }
  }

  /** A claim takes the oldest of what is pending: it comes after the earlier claims and before the rest. */
  lemma ClaimIsNext(rows: Rows, later: Rows, claims: seq<Claim>, c: Claim)
    requires Ordered(rows, claims) && Ordered(later, claims) && Grows(rows, later)
    requires forall id | id in c.batch :: id in rows && rows[id].state.Pending? && !later[id].state.Pending?
    requires later.Keys == rows.Keys && ClaimOk(rows, c)
    requires forall id | id in rows && rows[id].state.Pending? && id !in c.batch :: id in c.passed
    ensures Ordered(later, claims + [c])
  {
    forall i | 0 <= i < |claims| ensures AllNoLater(later, claims[i].batch, c.batch) {
      assert BeforePending(rows, claims[i].batch);
      forall x, y | x in claims[i].batch && y in c.batch ensures NoLater(later, x, y) {
        NoLaterGrows(rows, later, x, y);
      }
    }
    forall x, y | x in c.batch && y in later && later[y].state.Pending? ensures NoLater(later, x, y) {
      assert LeftBehind(rows, c.limit, c.batch, y);
      var k :| 0 <= k < |c.batch| && c.batch[k] == x;
      assert NoLater(rows, c.batch[k], y);
      NoLaterGrows(rows, later, x, y);
    }
    forall i, j | 0 <= i < j < |claims + [c]|
      ensures AllNoLater(later, (claims + [c])[i].batch, (claims + [c])[j].batch)
    {
      if j < |claims| { assert AllNoLater(later, claims[i].batch, claims[j].batch); }
    }
  }

  /** The last step of a serial operation leaves no transaction open. */
  lemma SerialEnds(s: State, mid: State)
    requires Inv(mid) && s.open == map[] && mid.open.Keys <= {0} && (0 in mid.open ==> mid.open[0].Done())
    ensures Apply(mid, Commit(0)).open == map[] && Inv(Apply(mid, Commit(0)))
  {
    StepKeepsInv(mid, Commit(0));
  }

  /** With nothing open, a claim either cannot begin or has scanned all that is pending. */
  lemma SerialScan(s: State, limit: nat, order: seq<TaskId>, now: Time)
    requires Inv(s) && s.open == map[]
    ensures var mid := Scan(Apply(s, BeginClaim(0, limit, order, now)), 0);
      && Inv(mid) && mid.rows == s.rows && mid.claims == s.claims
      && mid.open.Keys == (if Snapshot(s.rows, order) then {0} else {})
      && (0 in mid.open ==>
            mid.open[0].Claiming? && mid.open[0].Done() && ScanSoFar(s.rows, Available(s.rows, {}), mid.open[0]))
  {
    if Snapshot(s.rows, order) {
      UndisturbedClaim(s, 0, limit, order, now);
      assert Locked(s) == {};
    }
  }

  lemma SerialClaim(s: State, limit: nat, order: seq<TaskId>, now: Time)
    requires Serial(s)
    ensures Serial(SerialApply(s, TakeBatch(limit, order, now)))
  {
    var mid := Scan(Apply(s, BeginClaim(0, limit, order, now)), 0);
    SerialScan(s, limit, order, now);
    SerialEnds(s, mid);
    if 0 in mid.open { SerialClaimOrdered(s, mid); }
  }

  lemma PendingSeen(rows: Rows, txn: Txn)
    requires ScanSoFar(rows, Available(rows, {}), txn)
    ensures forall id | id in rows && rows[id].state.Pending? && id !in txn.batch :: id in txn.Closed().passed
  {
    forall id | id in rows && rows[id].state.Pending? && id !in txn.batch ensures id in txn.Closed().passed {
      assert id in Available(rows, {});
    }
  }

  /** What a claim writes to the rows it holds. */
  lemma ClaimWritten(mid: State)
    requires Inv(mid) && 0 in mid.open && mid.open[0].Claiming?
    ensures var batch := mid.open[0].batch;
      var later := Written(mid.rows, TaskLifecycle.ClaimTasks, mid.open[0].now, batch);
      && later.Keys == mid.rows.Keys && Grows(mid.rows, later)
      && forall id | id in batch :: id in mid.rows && mid.rows[id].state.Pending? && !later[id].state.Pending?
  {
    var batch := mid.open[0].batch;
    WrittenGrows(mid.rows, TaskLifecycle.ClaimTasks, mid.open[0].now, batch);
    forall id | id in batch ensures Ready(mid.rows, mid.open[0], id) && mid.rows[id].state.Pending? {
      HeldIsReady(mid, 0, id);
    }
  }

  lemma OrderedWithClaim(rows: Rows, later: Rows, claims: seq<Claim>, c: Claim)
    requires Ordered(rows, claims) && Grows(rows, later) && later.Keys == rows.Keys && ClaimOk(rows, c)
    requires forall id | id in c.batch :: id in rows && rows[id].state.Pending? && !later[id].state.Pending?
    requires forall id | id in rows && rows[id].state.Pending? && id !in c.batch :: id in c.passed
    ensures Ordered(later, claims + [c])
  {
    OrderGrows(rows, later, claims);
    ClaimIsNext(rows, later, claims, c);
  }

  lemma SerialClaimOrdered(s: State, mid: State)
    requires Serial(s) && Inv(mid) && mid.rows == s.rows && mid.claims == s.claims
    requires 0 in mid.open && mid.open[0].Claiming? && mid.open[0].Done()
    requires ScanSoFar(s.rows, Available(s.rows, {}), mid.open[0])
    ensures Ordered(Apply(mid, Commit(0)).rows, Apply(mid, Commit(0)).claims)
  {
    var txn := mid.open[0];
    var later := Written(mid.rows, TaskLifecycle.ClaimTasks, txn.now, txn.batch);
    ClosedOk(s.rows, txn);
    ClaimWritten(mid);
    PendingSeen(s.rows, txn);
    OrderedWithClaim(s.rows, later, s.claims, txn.Closed());
  }

  lemma SerialUpdate(s: State, id: TaskId, stmt: Stmt, now: Time)
    requires Serial(s)
    ensures Serial(SerialApply(s, Update(id, stmt, now)))
  {
    var lock := LockUpdate(0, id, stmt, now);
    var mid := Apply(s, lock);
    StepKeepsInv(s, lock);
    SerialEnds(s, mid);
    if Enabled(s, lock) {
      WrittenGrows(s.rows, stmt, now, [id]);
      OrderGrows(s.rows, Written(s.rows, stmt, now, [id]), s.claims);
    }
  }

  lemma SerialAdd(s: State, id: TaskId, now: Time)
    requires Serial(s) && forall id | id in s.rows :: s.rows[id].createdAt <= now
    ensures Serial(SerialApply(s, Add(id, now)))
  {
    StepKeepsInv(s, Create(id, now));
    var later := Apply(s, Create(id, now)).rows;
    forall i, x, y | 0 <= i < |s.claims| && x in s.claims[i].batch && y in later && y !in s.rows
      ensures NoLater(later, x, y)
    {
      assert AllStarted(s.rows, s.claims[i].batch);
    }
    OrderGrows(s.rows, later, s.claims);
  }

  lemma SerialKeeps(s: State, op: SerialOp)
    requires Serial(s)
    requires op.Add? ==> forall id | id in s.rows :: s.rows[id].createdAt <= op.now
    ensures Serial(SerialApply(s, op))
  {
    match op
    case TakeBatch(limit, order, now) => SerialClaim(s, limit, order, now);
    case Update(id, stmt, now) => SerialUpdate(s, id, stmt, now);
    case Add(id, now) => SerialAdd(s, id, now);
  }

  /** One worker hands out tasks in the order they were created, across all its claims. */
  lemma {:induction false} OneWorkerInOrder(s: State, ops: seq<SerialOp>)
    requires Serial(s) && InOrder(s, ops)
    ensures Serial(SerialRun(s, ops))
    decreases |ops|
  {
    if ops != [] {
      SerialKeeps(s, ops[0]);
      OneWorkerInOrder(SerialApply(s, ops[0]), ops[1..]);
    }
  }

  lemma {:induction false} RunConcat(s: State, a: seq<Step>, b: seq<Step>)
    ensures Run(s, a + b) == Run(Run(s, a), b)
    decreases |a|
  {
    if a == [] {
      assert a + b == b;
    } else {
      assert (a + b)[1..] == a[1..] + b;
      RunConcat(Apply(s, a[0]), a[1..], b);
    }
  }

  lemma RunThen(s: State, steps: seq<Step>, last: Step)
    ensures Run(s, steps + [last]) == Apply(Run(s, steps), last)
  {
    RunConcat(s, steps, [last]);
    assert [last][1..] == [];
    assert Run(Run(s, steps), [last]) == Run(Apply(Run(s, steps), last), []);
  }

  lemma {:induction false} ScanIsRun(s: State, w: Session) returns (steps: seq<Step>)
    ensures Scan(s, w) == Run(s, steps)
    decreases if w in s.open && s.open[w].Claiming? then |s.open[w].rest| else 0
  {
    if Enabled(s, LockNext(w)) {
      var rest := ScanIsRun(Apply(s, LockNext(w)), w);
      steps := [LockNext(w)] + rest;
      assert steps[1..] == rest;
    } else {
      steps := [];
    }
  }

  /** A serial operation is a run, and so is a sequence of them. */
  lemma OperationIsRun(s: State, op: SerialOp) returns (steps: seq<Step>)
    ensures SerialApply(s, op) == Run(s, steps)
  {
    match op
    case Add(id, now) =>
      steps := [] + [Create(id, now)];
      RunThen(s, [], Create(id, now));
    case Update(id, stmt, now) =>
      RunThen(s, [], LockUpdate(0, id, stmt, now));
      RunThen(s, [] + [LockUpdate(0, id, stmt, now)], Commit(0));
      steps := [] + [LockUpdate(0, id, stmt, now)] + [Commit(0)];
    case TakeBatch(limit, order, now) =>
      var begin := [] + [BeginClaim(0, limit, order, now)];
      RunThen(s, [], BeginClaim(0, limit, order, now));
      var scan := ScanIsRun(Apply(s, BeginClaim(0, limit, order, now)), 0);
      RunConcat(s, begin, scan);
      RunThen(s, begin + scan, Commit(0));
      steps := begin + scan + [Commit(0)];
  }

  lemma {:induction false} SerialIsRun(s: State, ops: seq<SerialOp>) returns (steps: seq<Step>)
    ensures SerialRun(s, ops) == Run(s, steps)
    decreases |ops|
  {
    if ops == [] {
      steps := [];
    } else {
      var first := OperationIsRun(s, ops[0]);
      var rest := SerialIsRun(SerialApply(s, ops[0]), ops[1..]);
      steps := first + rest;
      RunConcat(s, first, rest);
    }
  }

  /** How many of the claims `lo..hi-1` had a limit of at least `n`. */
  ghost function Large(claims: seq<Claim>, lo: nat, hi: nat, n: nat): nat
    requires lo <= hi <= |claims|
    decreases hi
  {
    if lo == hi then 0 else Large(claims, lo, hi - 1, n) + if claims[hi - 1].limit >= n then 1 else 0
  }

  ghost predicate AllSaw(claims: seq<Claim>, lo: nat, t: TaskId) {
    forall i | lo <= i < |claims| :: t in claims[i].passed || t in claims[i].batch
  }

  /** Nothing else is open, so a serial claim sees every pending task. */
  lemma SerialClaimSees(s: State, op: SerialOp, lo: nat, t: TaskId)
    requires Inv(s) && s.open == map[] && lo <= |s.claims| && AllSaw(s.claims, lo, t)
    requires t in s.rows && s.rows[t].state.Pending?
    ensures var s' := SerialApply(s, op); s.claims <= s'.claims && s'.open == map[] && AllSaw(s'.claims, lo, t)
  {
    match op
    case Add(id, now) =>
    case Update(id, stmt, now) => assert Apply(s, LockUpdate(0, id, stmt, now)).open - {0} == map[];
    case TakeBatch(limit, order, now) =>
      var mid := Scan(Apply(s, BeginClaim(0, limit, order, now)), 0);
      SerialScan(s, limit, order, now);
      assert mid.open - {0} == map[];
      if 0 in mid.open {
        assert t in Available(s.rows, {});
        AllSawOneMore(s.claims, mid.open[0].Closed(), lo, t);
      }
  }

  lemma AllSawOneMore(claims: seq<Claim>, c: Claim, lo: nat, t: TaskId)
    requires AllSaw(claims, lo, t) && (t in c.passed || t in c.batch)
    ensures AllSaw(claims + [c], lo, t)
  {
  }

  lemma {:induction false} SerialSees(s: State, ops: seq<SerialOp>, lo: nat, t: TaskId)
    requires Inv(s) && s.open == map[] && lo <= |s.claims| && AllSaw(s.claims, lo, t) && t in s.rows
    ensures var end := SerialRun(s, ops);
      Inv(end) && Grows(s.rows, end.rows) && (end.rows[t].state.Pending? ==> AllSaw(end.claims, lo, t))
    decreases |ops|
  {
    var steps := SerialIsRun(s, ops);
    RunKeepsInv(s, steps);
    if ops != [] && SerialRun(s, ops).rows[t].state.Pending? {
      assert SameTask(s.rows[t], SerialRun(s, ops).rows[t]);
      var next := SerialApply(s, ops[0]);
      SerialClaimSees(s, ops[0], lo, t);
      var first := OperationIsRun(s, ops[0]);
      RunKeepsInv(s, first);
      SerialSees(next, ops[1..], lo, t);
    }
  }

  lemma {:induction false} SeenIsFound(claims: seq<Claim>, lo: nat, hi: nat, n: nat, t: TaskId)
    requires lo <= hi <= |claims| && AllSaw(claims, lo, t)
    ensures Found(claims, lo, hi, n, t) == Large(claims, lo, hi, n)
    decreases hi
  {
    if lo < hi { SeenIsFound(claims, lo, hi - 1, n, t); }
  }

  /**
   With one worker, and with cancels and completions in between: after more than `m / n` claims of
   limit `n`, with `m` tasks ahead of it, a task is no longer pending.
   */
  lemma OneWorkerBoundedWait(start: State, ops: seq<SerialOp>, n: nat, t: TaskId)
    requires Inv(start) && start.open == map[] && n > 0 && t in start.rows
    ensures var s := SerialRun(start, ops); var k := |start.claims|;
      && t in s.rows && k <= |s.claims|
      && (Large(s.claims, k, |s.claims|, n) > |Ahead(start.rows, s.rows, t)| / n ==> !s.rows[t].state.Pending?)
  {
    var s, k := SerialRun(start, ops), |start.claims|;
    var steps := SerialIsRun(start, ops);
    BoundedWait(start, steps, n, t);
    SerialSees(start, ops, k, t);
    if s.rows[t].state.Pending? {
      SeenIsFound(s.claims, k, |s.claims|, n, t);
      PendingNotTaken(s, k, t);
    }
  }

  lemma PendingNotTaken(s: State, k: nat, t: TaskId)
    requires Inv(s) && t in s.rows && s.rows[t].state.Pending? && k <= |s.claims|
    ensures !TakenBy(s.claims, k, |s.claims|, t)
  {
    forall i | k <= i < |s.claims| ensures t !in s.claims[i].batch { assert AllStarted(s.rows, s.claims[i].batch); }
  }

  // ---- The table as the queue's methods see it -----------------------------

  datatype QueueError = TaskNotFound(id: TaskId) | Database

  /** Rows locked by other transactions are skipped by a claim; an update of one runs when it is free. */
  class TaskTable {
    var rows: Rows
    const batchSize: nat

    ghost predicate Valid() reads this { forall id | id in rows :: RowOk(rows[id]) }

    constructor (batchSize: nat)
      ensures Valid() && rows == map[] && this.batchSize == batchSize
    {
      rows := map[];
      this.batchSize := batchSize;
    }

    method Create(id: TaskId, now: Time) returns (row: Result<Row, QueueError>)
      requires Valid()
      modifies this
      ensures Valid()
      ensures id in old(rows) ==> row == Err(Database) && rows == old(rows)
      ensures id !in old(rows) ==> row == Ok(NewRow(now)) && rows == old(rows)[id := NewRow(now)]
      ensures id !in old(rows) ==>
        && id in rows && rows[id].state.Pending? && rows[id].createdAt == rows[id].updatedAt == now
        && rows[id].startedAt == rows[id].endedAt == None && rows[id].errorMessage == None && rows[id].exitCode == None
    {
      if id in rows { return Err(Database); }
      rows := rows[id := NewRow(now)];
      row := Ok(NewRow(now));
    }

    /** A guarded update of one row: the row after it, or nothing when no row matched. */
    method Transition(id: TaskId, stmt: Stmt, now: Time) returns (r: Result<Option<Row>, QueueError>)
      requires Valid()
      modifies this
      ensures Valid()
      ensures rows == Written(old(rows), stmt, now, [id])
      ensures r == Ok(None) <==> id !in old(rows) || !old(rows)[id].state.CanTransitionTo(Target(stmt))
      ensures r.Ok? && r.value.Some? ==>
        && id in rows && r.value.value == rows[id]
        && rows[id].state == Target(stmt) && rows[id].createdAt == old(rows)[id].createdAt
      ensures r.Err? <==>
        && id in old(rows) && old(rows)[id].state.Running? && Target(stmt).IsTerminal()
        && now < old(rows)[id].startedAt.value
      ensures r.Err? ==> r.error == Database && rows == old(rows)
    {
      WrittenOne(rows, stmt, now, id);
      if id !in rows { return Ok(None); }
      match Execute(stmt, rows[id], now)
      case NoRowMatched => r := Ok(None);
      case ConstraintViolated => r := Err(Database);
      case Updated(row) =>
        rows := rows[id := row];
        r := Ok(Some(row));
    }

    method Mark(id: TaskId, stmt: Stmt, now: Time) returns (r: Result<(), QueueError>)
      requires Valid()
      modifies this
      ensures Valid()
      ensures rows == Written(old(rows), stmt, now, [id])
      ensures r == Err(TaskNotFound(id)) <==> id !in old(rows) || !old(rows)[id].state.CanTransitionTo(Target(stmt))
      ensures r.Ok? <==>
        && id in old(rows) && old(rows)[id].state.CanTransitionTo(Target(stmt))
        && (old(rows)[id].state.Running? ==> now >= old(rows)[id].startedAt.value)
      ensures r.Ok? ==> id in rows && rows[id].state == Target(stmt)
      ensures r.Err? ==> rows == old(rows)
    {
      var updated := Transition(id, stmt, now);
      match updated
      case Err(e) => r := Err(e);
      case Ok(None) => r := Err(TaskNotFound(id));
      case Ok(Some(_)) => r := Ok(());
    }

    method MarkSucceeded(id: TaskId, exitCode: Option<int>, now: Time) returns (r: Result<(), QueueError>)
      requires Valid()
      modifies this
      ensures Valid()
      ensures rows == Written(old(rows), TaskLifecycle.MarkSucceeded(exitCode), now, [id])
      ensures r == Err(TaskNotFound(id)) <==> id !in old(rows) || !old(rows)[id].state.Running?
      ensures r.Ok? <==> id in old(rows) && old(rows)[id].state.Running? && now >= old(rows)[id].startedAt.value
      ensures r.Err? ==> rows == old(rows)
      ensures r.Ok? ==> id in rows && id in old(rows)
      ensures r.Ok? ==>
        rows[id] == old(rows)[id].(state := Succeeded, endedAt := Some(now), updatedAt := now, exitCode := exitCode)
    {
      r := Mark(id, TaskLifecycle.MarkSucceeded(exitCode), now);
    }

    method MarkFailed(id: TaskId, error: string, now: Time) returns (r: Result<(), QueueError>)
      requires Valid()
      modifies this
      ensures Valid()
      ensures rows == Written(old(rows), TaskLifecycle.MarkFailed(error), now, [id])
      ensures r == Err(TaskNotFound(id)) <==> id !in old(rows) || !old(rows)[id].state.Running?
      ensures r.Ok? <==> id in old(rows) && old(rows)[id].state.Running? && now >= old(rows)[id].startedAt.value
      ensures r.Err? ==> rows == old(rows)
      ensures r.Ok? ==> id in rows && id in old(rows)
      ensures r.Ok? ==>
        rows[id] == old(rows)[id].(state := Failed, endedAt := Some(now), updatedAt := now, errorMessage := Some(error))
    {
      r := Mark(id, TaskLifecycle.MarkFailed(error), now);
    }

    method MarkTimeout(id: TaskId, now: Time) returns (r: Result<(), QueueError>)
      requires Valid()
      modifies this
      ensures Valid()
      ensures rows == Written(old(rows), TaskLifecycle.MarkTimeout, now, [id])
      ensures r == Err(TaskNotFound(id)) <==> id !in old(rows) || !old(rows)[id].state.Running?
      ensures r.Ok? <==> id in old(rows) && old(rows)[id].state.Running? && now >= old(rows)[id].startedAt.value
      ensures r.Err? ==> rows == old(rows)
      ensures r.Ok? ==> id in rows && id in old(rows)
      ensures r.Ok? ==>
        rows[id] == old(rows)[id].(state := Timeout, endedAt := Some(now), updatedAt := now,
                                   errorMessage := Some("Task timed out"))
    {
      r := Mark(id, TaskLifecycle.MarkTimeout, now);
    }

    /** The oldest of the tasks given. */
    method Oldest(tasks: set<TaskId>) returns (oldest: TaskId)
      requires tasks != {} && tasks <= rows.Keys
      ensures oldest in tasks && forall id | id in tasks :: NoLater(rows, oldest, id)
    {
      var rest := tasks;
      oldest :| oldest in rest;
      while rest != {}
        invariant rest <= tasks && oldest in tasks
        invariant forall id | id in tasks && id !in rest :: NoLater(rows, oldest, id)
        decreases |rest|
      {
        var id :| id in rest;
        rest := rest - {id};
        if rows[id].createdAt < rows[oldest].createdAt { oldest := id; }
      }
    }

    /** The claim as one transaction. The limit is sent as a signed 64-bit number. */
    method ClaimTasks(limit: Option<nat>, locked: set<TaskId>, now: Time)
      returns (r: Result<seq<TaskId>, QueueError>)
      requires Valid()
      modifies this
      ensures Valid()
      ensures var n := if limit.Some? then limit.value else batchSize;
        if n >= 0x8000_0000_0000_0000 then r == Err(Database) && rows == old(rows)
        else
          && r.Ok?
          && Picked(old(rows), Available(old(rows), locked), n, r.value)
          && rows == Written(old(rows), TaskLifecycle.ClaimTasks, now, r.value)
          && forall id | id in r.value ::
               id in rows && rows[id] == old(rows)[id].(state := Running, startedAt := Some(now), updatedAt := now)
    {
      var n := if limit.Some? then limit.value else batchSize;
      if n >= 0x8000_0000_0000_0000 { return Err(Database); }
      var rest := Available(rows, locked);
      var batch := [];
      while |batch| < n && rest != {}
        invariant rows == old(rows)
        invariant Picking(rows, Available(rows, locked), batch, rest) && |batch| <= n
        decreases n - |batch|
      {
        var id := Oldest(rest);
        PickNext(rows, Available(rows, locked), batch, rest, id);
        batch := batch + [id];
        rest := rest - {id};
      }
      PickEnds(rows, Available(rows, locked), n, batch, rest);
      WrittenValid(rows, TaskLifecycle.ClaimTasks, now, batch);
      ClaimedStart(rows, Available(rows, locked), n, batch, now);
      rows := Written(rows, TaskLifecycle.ClaimTasks, now, batch);
      r := Ok(batch);
    }
  }

  /** Writing one row changes that row, if its update goes through, and leaves rows in accord with their states. */
  lemma WrittenOne(rows: Rows, stmt: Stmt, now: Time, id: TaskId)
    requires forall x | x in rows :: RowOk(rows[x])
    ensures Written(rows, stmt, now, [id]) ==
      if id in rows && Execute(stmt, rows[id], now).Updated? then rows[id := Execute(stmt, rows[id], now).row] else rows
    ensures forall x | x in rows :: RowOk(Written(rows, stmt, now, [id])[x])
  {
    WrittenValid(rows, stmt, now, [id]);
    if id in rows { ExecuteKeeps(stmt, rows[id], now); }
  }

  lemma WrittenValid(rows: Rows, stmt: Stmt, now: Time, ids: seq<TaskId>)
    requires forall id | id in rows :: RowOk(rows[id])
    ensures forall id | id in rows :: RowOk(Written(rows, stmt, now, ids)[id])
  {
    forall id | id in rows ensures RowOk(Written(rows, stmt, now, ids)[id]) {
      ExecuteKeeps(stmt, rows[id], now);
    }
  }

  lemma ClaimedStart(rows: Rows, available: set<TaskId>, limit: nat, batch: seq<TaskId>, now: Time)
    requires Picked(rows, available, limit, batch) && forall id | id in rows :: RowOk(rows[id])
    requires forall id | id in available :: id in rows && rows[id].state.Pending?
    ensures var later := Written(rows, TaskLifecycle.ClaimTasks, now, batch);
      forall id | id in batch ::
        id in rows && later[id] == rows[id].(state := Running, startedAt := Some(now), updatedAt := now)
  {
  }

  /** The batch so far is the oldest of what is available, in order; the rest is what is left. */
  ghost predicate Picking(rows: Rows, available: set<TaskId>, batch: seq<TaskId>, rest: set<TaskId>) {
    && available <= rows.Keys
    && Distinct(batch)
    && Elements(batch) + rest == available && Elements(batch) !! rest
    && (forall i, j | 0 <= i <= j < |batch| :: NoLater(rows, batch[i], batch[j]))
    && (forall i, t | 0 <= i < |batch| && t in rest :: NoLater(rows, batch[i], t))
  }

  lemma PickNext(rows: Rows, available: set<TaskId>, batch: seq<TaskId>, rest: set<TaskId>, id: TaskId)
    requires Picking(rows, available, batch, rest)
    requires id in rest && forall t | t in rest :: NoLater(rows, id, t)
    ensures Picking(rows, available, batch + [id], rest - {id})
  {
    assert Elements(batch + [id]) == Elements(batch) + {id};
  }

  lemma PickEnds(rows: Rows, available: set<TaskId>, limit: nat, batch: seq<TaskId>, rest: set<TaskId>)
    requires Picking(rows, available, batch, rest) && |batch| <= limit && (|batch| == limit || rest == {})
    ensures Picked(rows, available, limit, batch)
  {
    forall i | 0 <= i < |batch| ensures batch[i] in available { assert batch[i] in Elements(batch); }
    forall t | t in available && t !in batch ensures LeftBehind(rows, limit, batch, t) {
      assert t !in Elements(batch);
    }
  }
}
