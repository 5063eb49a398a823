/**
 The lifecycle of one task row (axontask-shared/src/models/task.rs) and the guarded updates that
 move it, those of the model and those of the worker's queue (axontask-worker/src/queue.rs).
 */
module TaskLifecycle {
  import opened Wrappers

  datatype TaskState = Pending | Running | Succeeded | Failed | Canceled | Timeout {
    predicate CanTransitionTo(target: TaskState) {
      match (this, target)
      case (Pending, Running) => true
      case (Pending, Canceled) => true
      case (Running, Succeeded) => true
      case (Running, Failed) => true
      case (Running, Timeout) => true
      case (Running, Canceled) => true
      case _ => false
    }

    predicate IsTerminal() { Succeeded? || Failed? || Canceled? || Timeout? }

    predicate IsActive() { Pending? || Running? }
  }

  type Time = int

  datatype Row = Row(
    state: TaskState, createdAt: Time, startedAt: Option<Time>, endedAt: Option<Time>,
    errorMessage: Option<string>, exitCode: Option<int>, updatedAt: Time)

  function NewRow(now: Time): Row { Row(Pending, now, None, None, None, None, now) }

  /** The statements that write a task's state. */
  datatype Stmt =
    | ClaimTasks
    | MarkSucceeded(exitCode: Option<int>)
    | MarkFailed(error: string)
    | MarkTimeout
    | ToRunning
    | ToSucceeded(exitCode: Option<int>)
    | ToFailed(error: string, exitCode: Option<int>)
    | ToCanceled
    | ToTimeout

  function Target(stmt: Stmt): TaskState {
    match stmt
    case ClaimTasks => Running
    case ToRunning => Running
    case MarkSucceeded(_) => Succeeded
    case ToSucceeded(_) => Succeeded
    case MarkFailed(_) => Failed
    case ToFailed(_, _) => Failed
    case MarkTimeout => Timeout
    case ToTimeout => Timeout
    case ToCanceled => Canceled
  }

  /** The statement's `WHERE` clause on the state. */
  predicate Guard(stmt: Stmt, state: TaskState) {
    match stmt
    case ClaimTasks => state == Pending
    case ToRunning => state == Pending
    case ToCanceled => state == Pending || state == Running
    case _ => state == Running
  }

  /** The statement's `SET` clause. */
  function Assigned(stmt: Stmt, row: Row, now: Time): Row {
    match stmt
    case ClaimTasks => row.(state := Running, startedAt := Some(now), updatedAt := now)
    case ToRunning => row.(state := Running, startedAt := Some(now), updatedAt := now)
    case MarkSucceeded(code) => row.(state := Succeeded, endedAt := Some(now), updatedAt := now, exitCode := code)
    case ToSucceeded(code) => row.(state := Succeeded, endedAt := Some(now), updatedAt := now, exitCode := code)
    case MarkFailed(error) => row.(state := Failed, endedAt := Some(now), updatedAt := now, errorMessage := Some(error))
    case ToFailed(error, code) =>
      row.(state := Failed, endedAt := Some(now), updatedAt := now, errorMessage := Some(error), exitCode := code)
    case MarkTimeout =>
      row.(state := Timeout, endedAt := Some(now), updatedAt := now, errorMessage := Some("Task timed out"))
    case ToTimeout =>
      row.(state := Timeout, endedAt := Some(now), updatedAt := now,
           errorMessage := Some("Task exceeded timeout limit"))
    case ToCanceled => row.(state := Canceled, endedAt := Some(now), updatedAt := now)
  }

  /** The table's constraint on the two timestamps. */
  predicate EndedAfterStarted(row: Row) {
    row.endedAt.None? || row.startedAt.None? || row.endedAt.value >= row.startedAt.value
  }

  datatype Outcome = Updated(row: Row) | NoRowMatched | ConstraintViolated

  function Execute(stmt: Stmt, row: Row, now: Time): Outcome {
    if !Guard(stmt, row.state) then NoRowMatched
    else if !EndedAfterStarted(Assigned(stmt, row, now)) then ConstraintViolated
    else Updated(Assigned(stmt, row, now))
  }

  /** The timestamps a row in each state has. */
  ghost predicate RowOk(row: Row) {
    match row.state
    case Pending => row.startedAt == None && row.endedAt == None
    case Running => row.startedAt.Some? && row.endedAt == None
    case Canceled => row.endedAt.Some? && (row.startedAt.Some? ==> row.startedAt.value <= row.endedAt.value)
    case _ => row.startedAt.Some? && row.endedAt.Some? && row.startedAt.value <= row.endedAt.value
  }

  /** Every guard in the code is exactly the lifecycle's relation, for that statement's target. */
  lemma GuardIsLifecycle(stmt: Stmt, state: TaskState)
    ensures Guard(stmt, state) <==> state.CanTransitionTo(Target(stmt))
  {
  }

  /** A state is terminal exactly if no step leaves it, and active otherwise. */
  lemma TerminalIff(state: TaskState)
    ensures state.IsTerminal() <==> forall target: TaskState :: !state.CanTransitionTo(target)
    ensures state.IsActive() <==> !state.IsTerminal()
  {
    assert !state.IsTerminal() ==> state.CanTransitionTo(Canceled);
  }

  /** And each step of the lifecycle has a statement for it. */
  lemma LifecycleIsServed(a: TaskState, b: TaskState)
    ensures a.CanTransitionTo(b) <==> exists stmt :: Target(stmt) == b && Guard(stmt, a)
  {
    var stmt :=
      match b
      case Pending => ToRunning
      case Running => ToRunning
      case Succeeded => ToSucceeded(None)
      case Failed => ToFailed("", None)
      case Canceled => ToCanceled
      case Timeout => ToTimeout;
    GuardIsLifecycle(stmt, a);
    if a.CanTransitionTo(b) { assert Target(stmt) == b && Guard(stmt, a); }
  }

  /** What an update that goes through leaves behind, and when exactly it goes through. */
  lemma ExecuteKeeps(stmt: Stmt, row: Row, now: Time)
    requires RowOk(row)
    ensures Execute(stmt, row, now).Updated? ==>
      var row' := Execute(stmt, row, now).row;
      && RowOk(row') && row'.createdAt == row.createdAt
      && row.state.CanTransitionTo(row'.state) && row'.state == Target(stmt)
    ensures Execute(stmt, row, now).Updated? <==>
      && row.state.CanTransitionTo(Target(stmt))
      && (row.state.Running? ==> now >= row.startedAt.value)
  {
  }

  /** Every column after an update that goes through: times, and the outcome it was given. */
  lemma ExecuteWrites(stmt: Stmt, row: Row, now: Time)
    requires Execute(stmt, row, now).Updated?
    ensures var row' := Execute(stmt, row, now).row;
      && row'.updatedAt == now && row'.createdAt == row.createdAt
      && row'.startedAt == (if row'.state.Running? then Some(now) else row.startedAt)
      && row'.endedAt == (if row'.state.IsTerminal() then Some(now) else row.endedAt)
      && (row'.exitCode != row.exitCode ==> row'.state.Succeeded? || row'.state.Failed?)
      && (row'.errorMessage != row.errorMessage ==>
            row'.errorMessage.Some? && (row'.state.Failed? || row'.state.Timeout?))
      && (stmt.MarkSucceeded? || stmt.ToSucceeded? ==> row'.exitCode == stmt.exitCode)
      && (stmt.MarkFailed? || stmt.ToFailed? ==> row'.errorMessage == Some(stmt.error))
      && (stmt.ToFailed? ==> row'.exitCode == stmt.exitCode)
      && (!(stmt.MarkSucceeded? || stmt.ToSucceeded? || stmt.ToFailed?) ==> row'.exitCode == row.exitCode)
      && (stmt.MarkTimeout? ==> row'.errorMessage == Some("Task timed out"))
      && (stmt.ToTimeout? ==> row'.errorMessage == Some("Task exceeded timeout limit"))
      && (!(row'.state.Failed? || row'.state.Timeout?) ==> row'.errorMessage == row.errorMessage)
  {
  }

  // ---- Paths ---------------------------------------------------------------

  /** The states a task went through. */
  ghost predicate Path(trail: seq<TaskState>) {
    && trail != [] && trail[0] == Pending
    && forall i | 0 < i < |trail| :: Moves(trail, i)
  }

  ghost predicate Moves(trail: seq<TaskState>, i: int) {
    0 < i < |trail| ==> trail[i - 1].CanTransitionTo(trail[i])
  }

  /** A task is started at most once and finished at most once, after which nothing is written. */
  lemma PathEndsOnce(trail: seq<TaskState>)
    requires Path(trail)
    ensures |trail| <= 3
    ensures forall i | 0 <= i < |trail| && trail[i].IsTerminal() :: i == |trail| - 1
    ensures forall i | 0 <= i < |trail| && trail[i] == Running :: i == 1
  {
    assert Moves(trail, 1) && Moves(trail, 2) && Moves(trail, 3);
  }

  lemma PathExtends(trail: seq<TaskState>, next: TaskState)
    requires Path(trail) && trail[|trail| - 1].CanTransitionTo(next)
    ensures Path(trail + [next])
  {
    var longer := trail + [next];
    forall i | 0 < i < |longer| ensures Moves(longer, i) {
      if i < |trail| { assert Moves(trail, i); }
    }
  }
}
