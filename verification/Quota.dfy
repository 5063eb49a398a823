/**
 Plan quotas (axontask-shared/src/quota.rs) and the handler that checks them and then creates a
 task (axontask-api/src/routes/mcp/start_task.rs), many handlers at once. Times are microseconds.
 */
module Quota {
  import opened Wrappers
  import opened Tenancy
  import opened TaskLifecycle
  import TaskQueue

  type HandlerId = nat

  const DAY: int := 24 * 60 * 60 * 1_000_000
  const U32_RANGE: nat := 0x1_0000_0000

  datatype QuotaType = ConcurrentTasks | DailyTasks | StreamConnections

  datatype QuotaLimits = QuotaLimits(concurrentTasks: nat, dailyTasks: nat, streamConnections: nat) {
    function Get(quotaType: QuotaType): nat {
      match quotaType
      case ConcurrentTasks => concurrentTasks
      case DailyTasks => dailyTasks
      case StreamConnections => streamConnections
    }
  }

  function ForPlan(plan: TenantPlan): QuotaLimits {
    match plan
    case Trial => QuotaLimits(5, 100, 2)
    case Entry => QuotaLimits(25, 1_000, 5)
    case Pro => QuotaLimits(100, 10_000, 20)
    case Enterprise => QuotaLimits(500, 100_000, 100)
  }

  /** A tenant's plan column may not name a plan; it then counts as a trial. */
  type Tenants = map<TenantId, Option<TenantPlan>>

  function LimitsOf(tenants: Tenants, t: TenantId): QuotaLimits
    requires t in tenants
  {
    ForPlan(if tenants[t].Some? then tenants[t].value else Trial)
  }

  // ---- Counting tasks ------------------------------------------------------

  datatype Task = Task(tenant: TenantId, createdAt: Time, state: TaskState)

  datatype Filter =
    | RunningOf(tenant: TenantId)
    | ActiveOf(tenant: TenantId)
    | Recent(tenant: TenantId, since: Time)
    | Window(tenant: TenantId, start: Time)

  predicate Matches(f: Filter, task: Task) {
    match f
    case RunningOf(t) => task.tenant == t && task.state.Running?
    case ActiveOf(t) => task.tenant == t && task.state.IsActive()
    case Recent(t, since) => task.tenant == t && task.createdAt >= since
    case Window(t, start) => task.tenant == t && start <= task.createdAt <= start + DAY
  }

  function Count(tasks: seq<Task>, f: Filter): nat {
    if tasks == [] then 0
    else Count(tasks[..|tasks| - 1], f) + One(f, tasks[|tasks| - 1])
  }

  function One(f: Filter, task: Task): nat { if Matches(f, task) then 1 else 0 }

  function AsU32(count: nat): nat { count % U32_RANGE }

  // ---- Check and create, interleaved ---------------------------------------

  /** A handler past the concurrency check, and then past the daily check, with the moment of that. */
  datatype Handler =
    | Half(tenant: TenantId)
    | Cleared(tenant: TenantId, at: Time)

  datatype State = State(tenants: Tenants, clock: Time, tasks: seq<Task>, handlers: map<HandlerId, Handler>)

  /** A task moves along its lifecycle whenever workers and cancellations make it. */
  datatype Step =
    | Tick(clock: Time)
    | CheckConcurrent(h: HandlerId, tenant: TenantId)
    | CheckDaily(h: HandlerId)
    | Insert(h: HandlerId, createdAt: Time)
    | GiveUp(h: HandlerId)
    | Move(index: nat, target: TaskState)

  predicate PassesConcurrent(s: State, t: TenantId) {
    t in s.tenants && AsU32(Count(s.tasks, RunningOf(t))) < LimitsOf(s.tenants, t).concurrentTasks
  }

  predicate PassesDaily(s: State, t: TenantId) {
    t in s.tenants && AsU32(Count(s.tasks, Recent(t, s.clock - DAY))) < LimitsOf(s.tenants, t).dailyTasks
  }

  function InFlight(s: State, t: TenantId): set<HandlerId> { set h | h in s.handlers && s.handlers[h].tenant == t }

  /** At most `k` handlers of a tenant are between their first check and their insert at once. */
  function Apply(s: State, step: Step, k: nat): State {
    match step
    case Tick(clock) => if s.clock <= clock then s.(clock := clock) else s
    case CheckConcurrent(h, t) =>
      if h !in s.handlers && |InFlight(s, t)| < k && PassesConcurrent(s, t) then
        s.(handlers := s.handlers[h := Half(t)])
      else s
    case CheckDaily(h) =>
      if h in s.handlers && s.handlers[h].Half? then
        var t := s.handlers[h].tenant;
        s.(handlers := if PassesDaily(s, t) then s.handlers[h := Cleared(t, s.clock)] else s.handlers - {h})
      else s
    case Insert(h, at) =>
      if h in s.handlers && s.handlers[h].Cleared? && s.handlers[h].at <= at <= s.clock then
        s.(tasks := s.tasks + [Task(s.handlers[h].tenant, at, Pending)], handlers := s.handlers - {h})
      else s
    case GiveUp(h) => s.(handlers := s.handlers - {h})
    case Move(i, target) =>
      if i < |s.tasks| && s.tasks[i].state.CanTransitionTo(target) then
        s.(tasks := s.tasks[i := s.tasks[i].(state := target)])
      else s
  }

  function Run(s: State, steps: seq<Step>, k: nat): State
    decreases |steps|
  {
    if steps == [] then s else Run(Apply(s, steps[0], k), steps[1..], k)
  }

  function Start(tenants: Tenants, clock: Time): State { State(tenants, clock, [], map[]) }

  // ---- The overshoot bound -------------------------------------------------

  /** Handlers whose task may still be created in the window that begins at `x`. */
  ghost function Landing(s: State, t: TenantId, x: Time): set<HandlerId> {
    set h | h in s.handlers && s.handlers[h].Cleared? && s.handlers[h].tenant == t && s.handlers[h].at <= x + DAY
  }

  ghost predicate Bounded(s: State, k: nat, t: TenantId, x: Time) {
    t in s.tenants ==>
      |Landing(s, t, x)| + Count(s.tasks, Window(t, x)) <= LimitsOf(s.tenants, t).dailyTasks + k - 1
  }

  /** Nothing is dated in the future. */
  ghost predicate Dated(s: State) {
    && (forall i | 0 <= i < |s.tasks| :: s.tasks[i].createdAt <= s.clock)
    && (forall h | h in s.handlers && s.handlers[h].Cleared? :: s.handlers[h].at <= s.clock)
  }

  ghost predicate Inv(s: State, k: nat) {
    && Dated(s)
    && (forall t :: |InFlight(s, t)| <= k)
    && (forall t, x :: Bounded(s, k, t, x))
  }

  lemma {:induction false} CountImplies(tasks: seq<Task>, f: Filter, g: Filter)
    requires forall i | 0 <= i < |tasks| :: Matches(f, tasks[i]) ==> Matches(g, tasks[i])
    ensures Count(tasks, f) <= Count(tasks, g)
  {
    if tasks != [] { CountImplies(tasks[..|tasks| - 1], f, g); }
  }

  lemma {:induction false} CountUpdate(tasks: seq<Task>, f: Filter, i: nat, task: Task)
    requires i < |tasks|
    ensures Count(tasks[i := task], f) + One(f, tasks[i]) == Count(tasks, f) + One(f, task)
  {
    var n := |tasks| - 1;
    if i < n {
      CountUpdate(tasks[..n], f, i, task);
      assert tasks[i := task][..n] == tasks[..n][i := task];
    } else {
      assert tasks[i := task][..n] == tasks[..n];
    }
  }

  lemma CountAppend(tasks: seq<Task>, f: Filter, task: Task)
    ensures Count(tasks + [task], f) == Count(tasks, f) + One(f, task)
  {
    assert (tasks + [task])[..|tasks|] == tasks;
  }

  /** A daily check at the clock sees every task of any window that is not over: fewer than the limit. */
  lemma CheckSeesWindow(s: State, k: nat, t: TenantId, x: Time)
    requires Inv(s, k) && PassesDaily(s, t) && s.clock <= x + DAY
    requires LimitsOf(s.tenants, t).dailyTasks + k <= U32_RANGE
    ensures Count(s.tasks, Window(t, x)) < LimitsOf(s.tenants, t).dailyTasks
  {
    var since := s.clock - DAY;
    CountImplies(s.tasks, Recent(t, since), Window(t, since));
    assert Bounded(s, k, t, since);
    CountImplies(s.tasks, Window(t, x), Recent(t, since));
  }

  lemma FewerHandlers(s: State, s': State, t: TenantId, x: Time)
    requires s'.handlers.Keys <= s.handlers.Keys && forall h | h in s'.handlers :: s'.handlers[h] == s.handlers[h]
    ensures |InFlight(s', t)| <= |InFlight(s, t)| && |Landing(s', t, x)| <= |Landing(s, t, x)|
  {
    TaskQueue.SubsetSize(InFlight(s', t), InFlight(s, t));
    TaskQueue.SubsetSize(Landing(s', t, x), Landing(s, t, x));
  }

  lemma CheckConcurrentKeeps(s: State, k: nat, h: HandlerId, t: TenantId)
    requires Inv(s, k)
    ensures Inv(Apply(s, CheckConcurrent(h, t), k), k)
  {
    var s' := Apply(s, CheckConcurrent(h, t), k);
    if s' != s {
      assert InFlight(s', t) == InFlight(s, t) + {h};
      forall u | u != t ensures InFlight(s', u) == InFlight(s, u) { }
      forall u, x ensures Bounded(s', k, u, x) {
        assert Bounded(s, k, u, x);
        assert Landing(s', u, x) == Landing(s, u, x);
      }
    }
  }

  /** The handler may now create a task in every window not yet over, of which it saw fewer than the limit. */
  lemma ClearedBounded(s: State, k: nat, h: HandlerId, x: Time)
    requires Inv(s, k) && h in s.handlers && s.handlers[h].Half? && PassesDaily(s, s.handlers[h].tenant)
    requires LimitsOf(s.tenants, s.handlers[h].tenant).dailyTasks + k <= U32_RANGE
    ensures Bounded(Apply(s, CheckDaily(h), k), k, s.handlers[h].tenant, x)
  {
    var t, s' := s.handlers[h].tenant, Apply(s, CheckDaily(h), k);
    if s.clock <= x + DAY {
      CheckSeesWindow(s, k, t, x);
      assert InFlight(s', t) == InFlight(s, t);
      TaskQueue.SubsetSize(Landing(s', t, x), InFlight(s', t));
    } else {
      assert Bounded(s, k, t, x);
      assert Landing(s', t, x) == Landing(s, t, x);
    }
  }

  lemma CheckDailyKeeps(s: State, k: nat, h: HandlerId)
    requires Inv(s, k) && forall t | t in s.tenants :: LimitsOf(s.tenants, t).dailyTasks + k <= U32_RANGE
    ensures Inv(Apply(s, CheckDaily(h), k), k)
  {
    var s' := Apply(s, CheckDaily(h), k);
    if h in s.handlers && s.handlers[h].Half? {
      if PassesDaily(s, s.handlers[h].tenant) {
        forall u ensures InFlight(s', u) == InFlight(s, u) { }
        forall u, x ensures Bounded(s', k, u, x) {
          if u == s.handlers[h].tenant {
            ClearedBounded(s, k, h, x);
          } else {
            assert Bounded(s, k, u, x);
            assert Landing(s', u, x) == Landing(s, u, x);
          }
        }
      } else {
        DropKeeps(s, s', k);
      }
    }
  }

  /** Losing handlers keeps every bound. */
  lemma DropKeeps(s: State, s': State, k: nat)
    requires Inv(s, k) && s' == s.(handlers := s'.handlers)
    requires s'.handlers.Keys <= s.handlers.Keys && forall h | h in s'.handlers :: s'.handlers[h] == s.handlers[h]
    ensures Inv(s', k)
  {
    forall u ensures |InFlight(s', u)| <= k { FewerHandlers(s, s', u, 0); }
    forall u, x ensures Bounded(s', k, u, x) {
      assert Bounded(s, k, u, x);
      FewerHandlers(s, s', u, x);
    }
  }

  lemma InsertBounded(s: State, k: nat, h: HandlerId, at: Time, u: TenantId, x: Time)
    requires Bounded(s, k, u, x) && h in s.handlers && s.handlers[h].Cleared? && s.handlers[h].at <= at <= s.clock
    ensures Bounded(Apply(s, Insert(h, at), k), k, u, x)
  {
    var s', task := Apply(s, Insert(h, at), k), Task(s.handlers[h].tenant, at, Pending);
    CountAppend(s.tasks, Window(u, x), task);
    FewerHandlers(s, s', u, x);
    if Matches(Window(u, x), task) { assert Landing(s, u, x) == Landing(s', u, x) + {h}; }
  }

  lemma InsertKeeps(s: State, k: nat, h: HandlerId, at: Time)
    requires Inv(s, k)
    ensures Inv(Apply(s, Insert(h, at), k), k)
  {
    var s' := Apply(s, Insert(h, at), k);
    if h in s.handlers && s.handlers[h].Cleared? && s.handlers[h].at <= at <= s.clock {
      forall u ensures |InFlight(s', u)| <= k { FewerHandlers(s, s', u, 0); }
      forall u, x ensures Bounded(s', k, u, x) {
        assert Bounded(s, k, u, x);
        InsertBounded(s, k, h, at, u, x);
      }
    }
  }

  lemma MoveKeeps(s: State, k: nat, i: nat, target: TaskState)
    requires Inv(s, k)
    ensures Inv(Apply(s, Move(i, target), k), k)
  {
    var s' := Apply(s, Move(i, target), k);
    if s' != s {
      forall u ensures InFlight(s', u) == InFlight(s, u) { }
      forall u, x ensures Bounded(s', k, u, x) {
        assert Bounded(s, k, u, x) && Landing(s', u, x) == Landing(s, u, x);
        CountUpdate(s.tasks, Window(u, x), i, s.tasks[i].(state := target));
      }
    }
  }

  lemma TickKeeps(s: State, k: nat, clock: Time)
    requires Inv(s, k)
    ensures Inv(Apply(s, Tick(clock), k), k)
  {
    var s' := Apply(s, Tick(clock), k);
    forall u ensures InFlight(s', u) == InFlight(s, u) { }
    forall u, x ensures Bounded(s', k, u, x) {
      assert Bounded(s, k, u, x) && Landing(s', u, x) == Landing(s, u, x);
    }
  }

  lemma StepKeeps(s: State, step: Step, k: nat)
    requires Inv(s, k) && forall t | t in s.tenants :: LimitsOf(s.tenants, t).dailyTasks + k <= U32_RANGE
    ensures Inv(Apply(s, step, k), k) && Apply(s, step, k).tenants == s.tenants
  {
    match step
    case Tick(clock) => TickKeeps(s, k, clock);
    case CheckConcurrent(h, t) => CheckConcurrentKeeps(s, k, h, t);
    case CheckDaily(h) => CheckDailyKeeps(s, k, h);
    case Insert(h, at) => InsertKeeps(s, k, h, at);
    case GiveUp(h) => DropKeeps(s, Apply(s, step, k), k);
    case Move(i, target) => MoveKeeps(s, k, i, target);
  }

  lemma {:induction false} RunKeeps(s: State, steps: seq<Step>, k: nat)
    requires Inv(s, k) && forall t | t in s.tenants :: LimitsOf(s.tenants, t).dailyTasks + k <= U32_RANGE
    ensures Inv(Run(s, steps, k), k) && Run(s, steps, k).tenants == s.tenants
    decreases |steps|
  {
    if steps != [] {
      StepKeeps(s, steps[0], k);
      RunKeeps(Apply(s, steps[0], k), steps[1..], k);
    }
  }

  /** In figures: for no plan more than this many tasks in any 24 hours; a plan that cannot be read is a trial. */
  lemma DailyOvershootByPlan(tenants: Tenants, clock: Time, steps: seq<Step>, k: nat, t: TenantId, x: Time)
    requires t in tenants && 1 <= k <= U32_RANGE - 100_000
    ensures CreatedBetween(Run(Start(tenants, clock), steps, k).tasks, t, x, x + 86_400_000_000) <
      k + match tenants[t]
          case Some(Entry) => 1_000
          case Some(Pro) => 10_000
          case Some(Enterprise) => 100_000
          case _ => 100
  {
    var tasks := Run(Start(tenants, clock), steps, k).tasks;
    DailyOvershoot(tenants, clock, steps, k, t, x);
    CreatedInWindow(tasks, t, x);
  }

  /** How many of a tenant's tasks were created from one moment to another, both included. */
  function CreatedBetween(tasks: seq<Task>, t: TenantId, from: Time, to: Time): nat {
    |set i | 0 <= i < |tasks| && tasks[i].tenant == t && from <= tasks[i].createdAt <= to|
  }

  lemma {:induction false} CreatedInWindow(tasks: seq<Task>, t: TenantId, x: Time)
    ensures CreatedBetween(tasks, t, x, x + 86_400_000_000) == Count(tasks, Window(t, x))
  {
    var to := x + 86_400_000_000;
    var those := set i | 0 <= i < |tasks| && tasks[i].tenant == t && x <= tasks[i].createdAt <= to;
    if tasks == [] {
      assert those == {};
    } else {
      var n := |tasks| - 1;
      var fewer := tasks[..n];
      CreatedInWindow(fewer, t, x);
      var before := set i | 0 <= i < |fewer| && fewer[i].tenant == t && x <= fewer[i].createdAt <= to;
      assert those == if Matches(Window(t, x), tasks[n]) then before + {n} else before;
    }
  }

  /**
   With at most `k` of a tenant's handlers between check and insert, no sliding 24-hour window ever
   holds more than `limit + k - 1` of its tasks - the limit itself when handlers do not overlap.
   */
  lemma DailyOvershoot(tenants: Tenants, clock: Time, steps: seq<Step>, k: nat, t: TenantId, x: Time)
    requires t in tenants && 1 <= k <= U32_RANGE - 100_000
    ensures Count(Run(Start(tenants, clock), steps, k).tasks, Window(t, x)) <= LimitsOf(tenants, t).dailyTasks + k - 1
  {
    var s := Start(tenants, clock);
    assert forall u :: InFlight(s, u) == {};
    forall u, y ensures Bounded(s, k, u, y) { assert Landing(s, u, y) == {}; }
    RunKeeps(s, steps, k);
    assert Bounded(Run(s, steps, k), k, t, x);
  }

  // ---- What the concurrency quota bounds -----------------------------------

  /** The handlers that need no further check. */
  function ClearedOf(s: State, t: TenantId): set<HandlerId> { set h | h in InFlight(s, t) && s.handlers[h].Cleared? }

  /** All that can run without another check: pending, running, and still to be created. */
  function CanRun(s: State, t: TenantId): nat { Count(s.tasks, ActiveOf(t)) + |ClearedOf(s, t)| }

  predicate IsCheck(step: Step) { step.CheckConcurrent? || step.CheckDaily? }

  predicate NoChecks(steps: seq<Step>) { forall i | 0 <= i < |steps| :: !IsCheck(steps[i]) }

  lemma MoveActive(s: State, t: TenantId, i: nat, target: TaskState, k: nat)
    ensures Count(Apply(s, Move(i, target), k).tasks, ActiveOf(t)) <= Count(s.tasks, ActiveOf(t))
  {
    if i < |s.tasks| && s.tasks[i].state.CanTransitionTo(target) {
      CountUpdate(s.tasks, ActiveOf(t), i, s.tasks[i].(state := target));
    }
  }

  /** A handler that leaves is missing from its tenant's sets and from no other's. */
  lemma HandlerLeaves(s: State, s': State, t: TenantId, h: HandlerId)
    requires h in s.handlers && s.handlers[h].Cleared? && s'.handlers == s.handlers - {h}
    ensures ClearedOf(s', t) == ClearedOf(s, t) - {h} && InFlight(s', t) == InFlight(s, t) - {h}
    ensures |ClearedOf(s', t)| + (if s.handlers[h].tenant == t then 1 else 0) == |ClearedOf(s, t)|
    ensures |InFlight(s', t)| + (if s.handlers[h].tenant == t then 1 else 0) == |InFlight(s, t)|
  {
    assert InFlight(s', t) == InFlight(s, t) - {h};
    assert ClearedOf(s', t) == ClearedOf(s, t) - {h};
    assert h in ClearedOf(s, t) <==> s.handlers[h].tenant == t;
    assert h in InFlight(s, t) <==> s.handlers[h].tenant == t;
  }

  lemma InsertTakesPlace(s: State, s': State, t: TenantId, h: HandlerId, task: Task)
    requires h in s.handlers && s.handlers[h].Cleared? && task.tenant == s.handlers[h].tenant && task.state.Pending?
    requires s'.handlers == s.handlers - {h} && s'.tasks == s.tasks + [task]
    ensures CanRun(s', t) == CanRun(s, t) && Total(s', t) == Total(s, t)
  {
    HandlerLeaves(s, s', t, h);
    CountAppend(s.tasks, ActiveOf(t), task);
  }

  /** A task takes the place of its handler. */
  lemma InsertActive(s: State, t: TenantId, h: HandlerId, at: Time, k: nat)
    requires h in s.handlers && s.handlers[h].Cleared? && s.handlers[h].at <= at <= s.clock
    ensures var s' := Apply(s, Insert(h, at), k);
      && CanRun(s', t) == CanRun(s, t) && Total(s', t) == Total(s, t)
      && ClearedOf(s', t) == ClearedOf(s, t) - {h}
  {
    var s', task := Apply(s, Insert(h, at), k), Task(s.handlers[h].tenant, at, Pending);
    InsertTakesPlace(s, s', t, h, task);
    HandlerLeaves(s, s', t, h);
  }

  /** Without a check, no more can run than could before. */
  lemma StepCanRun(s: State, t: TenantId, step: Step, k: nat)
    requires !IsCheck(step)
    ensures CanRun(Apply(s, step, k), t) <= CanRun(s, t)
  {
    var s' := Apply(s, step, k);
    match step
    case Tick(_) => assert ClearedOf(s', t) == ClearedOf(s, t);
    case GiveUp(h) => TaskQueue.SubsetSize(ClearedOf(s', t), ClearedOf(s, t));
    case Move(i, target) =>
      assert ClearedOf(s', t) == ClearedOf(s, t);
      MoveActive(s, t, i, target, k);
    case Insert(h, at) => if s' != s { InsertActive(s, t, h, at, k); }
  }

  lemma {:induction false} RunCanRun(s: State, t: TenantId, steps: seq<Step>, k: nat)
    requires NoChecks(steps)
    ensures Count(Run(s, steps, k).tasks, RunningOf(t)) <= CanRun(s, t)
    decreases |steps|
  {
    if steps == [] {
      CountImplies(s.tasks, RunningOf(t), ActiveOf(t));
    } else {
      assert !IsCheck(steps[0]);
      StepCanRun(s, t, steps[0], k);
      RunCanRun(Apply(s, steps[0], k), t, steps[1..], k);
    }
  }

  /** Tasks that are active but not running are pending, and can be started one after the other. */
  lemma {:induction false} StartPending(s: State, t: TenantId, k: nat) returns (steps: seq<Step>)
    ensures NoChecks(steps) && Count(Run(s, steps, k).tasks, RunningOf(t)) == Count(s.tasks, ActiveOf(t))
    decreases Count(s.tasks, ActiveOf(t)) - Count(s.tasks, RunningOf(t))
  {
    CountImplies(s.tasks, RunningOf(t), ActiveOf(t));
    if forall i | 0 <= i < |s.tasks| :: Matches(ActiveOf(t), s.tasks[i]) ==> Matches(RunningOf(t), s.tasks[i]) {
      CountImplies(s.tasks, ActiveOf(t), RunningOf(t));
      steps := [];
    } else {
      var i :| 0 <= i < |s.tasks| && Matches(ActiveOf(t), s.tasks[i]) && !Matches(RunningOf(t), s.tasks[i]);
      var step := Move(i, Running);
      CountUpdate(s.tasks, ActiveOf(t), i, s.tasks[i].(state := Running));
      CountUpdate(s.tasks, RunningOf(t), i, s.tasks[i].(state := Running));
      CountImplies(Apply(s, step, k).tasks, RunningOf(t), ActiveOf(t));
      var rest := StartPending(Apply(s, step, k), t, k);
      steps := [step] + rest;
      assert steps[1..] == rest;
    }
  }

  /** Handlers that are cleared can all create their tasks, and then all of those can be started. */
  lemma {:induction false} StartAll(s: State, t: TenantId, k: nat) returns (steps: seq<Step>)
    requires Dated(s)
    ensures NoChecks(steps) && Count(Run(s, steps, k).tasks, RunningOf(t)) == CanRun(s, t)
    decreases |ClearedOf(s, t)|
  {
    if ClearedOf(s, t) == {} {
      steps := StartPending(s, t, k);
    } else {
      var h :| h in ClearedOf(s, t);
      var step := Insert(h, s.clock);
      InsertActive(s, t, h, s.clock, k);
      var rest := StartAll(Apply(s, step, k), t, k);
      steps := [step] + rest;
      assert steps[1..] == rest;
    }
  }

  /**
   In any state, a tenant's running tasks can come to exceed a number with no further check if and
   only if its pending and running tasks and its cleared handlers together exceed it.
   */
  lemma RunningExceedsIff(s: State, t: TenantId, limit: nat, k: nat)
    requires Dated(s)
    ensures (exists steps :: NoChecks(steps) && Count(Run(s, steps, k).tasks, RunningOf(t)) > limit)
       <==> CanRun(s, t) > limit
  {
    var all := StartAll(s, t, k);
    if steps :| NoChecks(steps) && Count(Run(s, steps, k).tasks, RunningOf(t)) > limit {
      RunCanRun(s, t, steps, k);
    }
  }

  lemma ClearedOneMore(s: State, s': State, t: TenantId, h: HandlerId)
    requires h !in s.handlers && s' == s.(handlers := s.handlers[h := Cleared(t, s.clock)])
    ensures CanRun(s', t) == CanRun(s, t) + 1
  {
    assert ClearedOf(s', t) == ClearedOf(s, t) + {h};
  }

  /**
   So a handler that passes both checks makes an excess possible exactly if, before it, the tenant's
   pending and running tasks and cleared handlers had reached the limit. That count, and not the
   count of running tasks, is what a check before creating would have to look at.
   */
  lemma PassingIsSafeIff(s: State, t: TenantId, h: HandlerId, k: nat)
    requires Dated(s) && t in s.tenants && h !in s.handlers
    requires var s' := Apply(Apply(s, CheckConcurrent(h, t), k), CheckDaily(h), k); h in s'.handlers
    ensures var s' := Apply(Apply(s, CheckConcurrent(h, t), k), CheckDaily(h), k);
      var limit := LimitsOf(s.tenants, t).concurrentTasks;
      (exists steps :: NoChecks(steps) && Count(Run(s', steps, k).tasks, RunningOf(t)) > limit)
        <==> CanRun(s, t) >= limit
  {
    var s' := Apply(Apply(s, CheckConcurrent(h, t), k), CheckDaily(h), k);
    assert s' == s.(handlers := s.handlers[h := Cleared(t, s.clock)]);
    ClearedOneMore(s, s', t, h);
    RunningExceedsIff(s', t, LimitsOf(s.tenants, t).concurrentTasks, k);
  }

  lemma FewerInFlight(s: State, step: Step, t: TenantId, k: nat)
    requires step.Tick? || step.CheckDaily? || step.GiveUp? || step.Move?
    ensures |InFlight(Apply(s, step, k), t)| <= |InFlight(s, t)|
  {
    TaskQueue.SubsetSize(InFlight(Apply(s, step, k), t), InFlight(s, t));
  }

  /** Active tasks and handlers on their way, together. */
  function Total(s: State, t: TenantId): nat { Count(s.tasks, ActiveOf(t)) + |InFlight(s, t)| }

  lemma InsertTotal(s: State, t: TenantId, h: HandlerId, at: Time, k: nat)
    ensures Total(Apply(s, Insert(h, at), k), t) <= Total(s, t)
  {
    if h in s.handlers && s.handlers[h].Cleared? && s.handlers[h].at <= at <= s.clock { InsertActive(s, t, h, at, k); }
  }

  /** Only a concurrency check that passes adds to the total, and adds one. */
  lemma StepTotal(s: State, step: Step, t: TenantId, k: nat)
    requires !step.CheckConcurrent?
    ensures Total(Apply(s, step, k), t) <= Total(s, t)
  {
    match step
    case Insert(h, at) => InsertTotal(s, t, h, at, k);
    case Move(i, target) =>
      FewerInFlight(s, step, t, k);
      MoveActive(s, t, i, target, k);
    case _ => FewerInFlight(s, step, t, k);
  }

  lemma CheckTotal(s: State, h: HandlerId, u: TenantId, t: TenantId, k: nat)
    ensures Total(Apply(s, CheckConcurrent(h, u), k), t) <= Total(s, t) + if u == t then 1 else 0
  {
    var s' := Apply(s, CheckConcurrent(h, u), k);
    assert InFlight(s', t) == if s' != s && u == t then InFlight(s, t) + {h} else InFlight(s, t);
  }

  /** Every concurrency check of the tenant also found room for what is active and on its way. */
  ghost predicate Guarded(s: State, steps: seq<Step>, t: TenantId, limit: nat, k: nat)
    decreases |steps|
  {
    steps == [] ||
    ((steps[0].CheckConcurrent? && steps[0].tenant == t ==> Total(s, t) < limit)
     && Guarded(Apply(s, steps[0], k), steps[1..], t, limit, k))
  }

  /** With that guard, which for handlers one at a time counts pending and running tasks, running is bounded. */
  lemma {:induction false} ActiveQuotaSuffices(s: State, steps: seq<Step>, t: TenantId, limit: nat, k: nat)
    requires Total(s, t) <= limit && Guarded(s, steps, t, limit, k)
    ensures Count(Run(s, steps, k).tasks, RunningOf(t)) <= limit
    decreases |steps|
  {
    if steps == [] {
      CountImplies(s.tasks, RunningOf(t), ActiveOf(t));
    } else {
      if steps[0].CheckConcurrent? {
        CheckTotal(s, steps[0].h, steps[0].tenant, t, k);
      } else {
        StepTotal(s, steps[0], t, k);
      }
      ActiveQuotaSuffices(Apply(s, steps[0], k), steps[1..], t, limit, k);
    }
  }

  // ---- The bound is reached, and running tasks are not bounded -------------

  ghost predicate Reaches(a: State, b: State, k: nat) { exists steps :: Run(a, steps, k) == b }

  lemma {:induction false} RunOneMore(s: State, steps: seq<Step>, step: Step, k: nat)
    ensures Run(s, steps + [step], k) == Apply(Run(s, steps, k), step, k)
    decreases |steps|
  {
    if steps == [] {
      assert [step][1..] == [];
    } else {
      assert (steps + [step])[1..] == steps[1..] + [step];
      RunOneMore(Apply(s, steps[0], k), steps[1..], step, k);
    }
  }

  lemma RunThree(s: State, a: Step, b: Step, c: Step, k: nat)
    ensures Run(s, [a, b, c], k) == Apply(Apply(Apply(s, a, k), b, k), c, k)
  {
    assert [a, b, c][1..] == [b, c] && [b, c][1..] == [c] && [c][1..] == [];
    var s1 := Apply(s, a, k);
    var s2 := Apply(s1, b, k);
    assert Run(s2, [c], k) == Apply(s2, c, k);
    assert Run(s1, [b, c], k) == Run(s2, [c], k);
  }

  lemma ReachesNext(a: State, b: State, step: Step, k: nat)
    requires Reaches(a, b, k)
    ensures Reaches(a, Apply(b, step, k), k)
  {
    var steps :| Run(a, steps, k) == b;
    RunOneMore(a, steps, step, k);
  }

  /** `n` tasks of a tenant created at the same moment, the first `r` of them running. */
  function Alike(t: TenantId, at: Time, n: nat, r: nat): seq<Task> {
    seq(n, i => Task(t, at, if i < r then Running else Pending))
  }

  lemma {:induction false} CountAlike(t: TenantId, at: Time, n: nat, r: nat)
    ensures Count(Alike(t, at, n, r), Window(t, at)) == n
    ensures Count(Alike(t, at, n, r), Recent(t, at - DAY)) == n
    ensures Count(Alike(t, at, n, r), RunningOf(t)) == if n < r then n else r
  {
    if n > 0 {
      CountAlike(t, at, n - 1, r);
      assert Alike(t, at, n, r)[..n - 1] == Alike(t, at, n - 1, r);
    }
  }

  /** The first `m` handlers have passed their checks. */
  function FirstCleared(t: TenantId, at: Time, m: nat): (handlers: map<HandlerId, Handler>)
    ensures forall h: HandlerId :: h in handlers <==> h < m
  {
    if m == 0 then map[] else FirstCleared(t, at, m - 1)[m - 1 := Cleared(t, at)]
  }

  function Mid(tenants: Tenants, t: TenantId, at: Time, n: nat, r: nat, m: nat): State {
    State(tenants, at, Alike(t, at, n, r), FirstCleared(t, at, m))
  }

  lemma {:induction false} FirstClearedInFlight(s: State, t: TenantId, at: Time, m: nat)
    requires s.handlers == FirstCleared(t, at, m)
    ensures |InFlight(s, t)| == m
    decreases m
  {
    if m > 0 {
      var fewer := s.(handlers := FirstCleared(t, at, m - 1));
      FirstClearedInFlight(fewer, t, at, m - 1);
      assert InFlight(s, t) == InFlight(fewer, t) + {m - 1};
    }
  }

  lemma CheckOneMore(tenants: Tenants, t: TenantId, at: Time, n: nat, m: nat, k: nat)
    requires t in tenants && n < LimitsOf(tenants, t).dailyTasks && m < k
    ensures var s := Mid(tenants, t, at, n, 0, m);
      Apply(Apply(s, CheckConcurrent(m, t), k), CheckDaily(m), k) == Mid(tenants, t, at, n, 0, m + 1)
  {
    CountAlike(t, at, n, 0);
    FirstClearedInFlight(Mid(tenants, t, at, n, 0, m), t, at, m);
    assert FirstCleared(t, at, m + 1) == FirstCleared(t, at, m)[m := Half(t)][m := Cleared(t, at)];
  }

  lemma InsertOneMore(tenants: Tenants, t: TenantId, at: Time, n: nat, m: nat, k: nat)
    ensures Apply(Mid(tenants, t, at, n, 0, m + 1), Insert(m, at), k) == Mid(tenants, t, at, n + 1, 0, m)
  {
    assert FirstCleared(t, at, m) == FirstCleared(t, at, m + 1) - {m};
    assert Alike(t, at, n + 1, 0) == Alike(t, at, n, 0) + [Task(t, at, Pending)];
  }

  lemma RunOneTask(tenants: Tenants, t: TenantId, at: Time, n: nat, r: nat, k: nat)
    requires r < n
    ensures Apply(Mid(tenants, t, at, n, r, 0), Move(r, Running), k) == Mid(tenants, t, at, n, r + 1, 0)
  {
    assert Alike(t, at, n, r + 1) == Alike(t, at, n, r)[r := Task(t, at, Running)];
  }

  lemma ReachesChecked(tenants: Tenants, t: TenantId, at: Time, n: nat, m: nat, k: nat)
    requires t in tenants && n < LimitsOf(tenants, t).dailyTasks && m < k
    requires Reaches(Start(tenants, at), Mid(tenants, t, at, n, 0, m), k)
    ensures Reaches(Start(tenants, at), Mid(tenants, t, at, n, 0, m + 1), k)
  {
    var s := Mid(tenants, t, at, n, 0, m);
    CheckOneMore(tenants, t, at, n, m, k);
    ReachesNext(Start(tenants, at), s, CheckConcurrent(m, t), k);
    ReachesNext(Start(tenants, at), Apply(s, CheckConcurrent(m, t), k), CheckDaily(m), k);
  }

  lemma {:induction false} ReachAlternating(tenants: Tenants, t: TenantId, at: Time, n: nat, k: nat)
    requires t in tenants && n < LimitsOf(tenants, t).dailyTasks && k >= 1
    ensures Reaches(Start(tenants, at), Mid(tenants, t, at, n, 0, 0), k)
  {
    if n == 0 {
      assert Run(Start(tenants, at), [], k) == Mid(tenants, t, at, 0, 0, 0);
    } else {
      ReachAlternating(tenants, t, at, n - 1, k);
      InsertOneMore(tenants, t, at, n - 1, 0, k);
      ReachesChecked(tenants, t, at, n - 1, 0, k);
      ReachesNext(Start(tenants, at), Mid(tenants, t, at, n - 1, 0, 1), Insert(0, at), k);
    }
  }

  lemma {:induction false} ReachAllChecked(tenants: Tenants, t: TenantId, at: Time, n: nat, m: nat, k: nat)
    requires t in tenants && n < LimitsOf(tenants, t).dailyTasks && m <= k && k >= 1
    ensures Reaches(Start(tenants, at), Mid(tenants, t, at, n, 0, m), k)
    decreases m
  {
    if m == 0 {
      ReachAlternating(tenants, t, at, n, k);
    } else {
      ReachAllChecked(tenants, t, at, n, m - 1, k);
      ReachesChecked(tenants, t, at, n, m - 1, k);
    }
  }

  lemma {:induction false} ReachInserted(tenants: Tenants, t: TenantId, at: Time, n: nat, j: nat, k: nat)
    requires t in tenants && n < LimitsOf(tenants, t).dailyTasks && j <= k && k >= 1
    ensures Reaches(Start(tenants, at), Mid(tenants, t, at, n + j, 0, k - j), k)
    decreases j
  {
    if j == 0 {
      ReachAllChecked(tenants, t, at, n, k, k);
    } else {
      ReachInserted(tenants, t, at, n, j - 1, k);
      InsertOneMore(tenants, t, at, n + j - 1, k - j, k);
      ReachesNext(Start(tenants, at), Mid(tenants, t, at, n + j - 1, 0, k - j + 1), Insert(k - j, at), k);
    }
  }

  lemma {:induction false} ReachRunning(tenants: Tenants, t: TenantId, at: Time, n: nat, r: nat, k: nat)
    requires Reaches(Start(tenants, at), Mid(tenants, t, at, n, 0, 0), k) && r <= n
    ensures Reaches(Start(tenants, at), Mid(tenants, t, at, n, r, 0), k)
    decreases r
  {
    if r > 0 {
      ReachRunning(tenants, t, at, n, r - 1, k);
      RunOneTask(tenants, t, at, n, r - 1, k);
      ReachesNext(Start(tenants, at), Mid(tenants, t, at, n, r - 1, 0), Move(r - 1, Running), k);
    }
  }

  /** For every plan and every `k` the bound is met exactly, and all of those tasks may then run at once. */
  lemma OvershootIsTight(tenants: Tenants, at: Time, t: TenantId, k: nat)
    requires t in tenants && k >= 1
    ensures exists s ::
      && Reaches(Start(tenants, at), s, k)
      && Count(s.tasks, Window(t, at)) == LimitsOf(tenants, t).dailyTasks + k - 1
      && Count(s.tasks, RunningOf(t)) == LimitsOf(tenants, t).dailyTasks + k - 1 > LimitsOf(tenants, t).concurrentTasks
  {
    var n := LimitsOf(tenants, t).dailyTasks - 1;
    ReachInserted(tenants, t, at, n, k, k);
    ReachRunning(tenants, t, at, n + k, n + k, k);
    CountAlike(t, at, n + k, n + k);
    assert Count(Mid(tenants, t, at, n + k, n + k, 0).tasks, Window(t, at)) == n + k;
  }

  // ---- The service ---------------------------------------------------------

  datatype CheckResult = CheckResult(allowed: bool, current: nat, limit: nat, remaining: nat)

  datatype QuotaError =
    | LimitExceeded(quotaType: QuotaType, limit: nat, current: nat)
    | TenantNotFound(tenant: TenantId)

  function Current(tasks: seq<Task>, t: TenantId, quotaType: QuotaType, now: Time): nat {
    match quotaType
    case ConcurrentTasks => AsU32(Count(tasks, RunningOf(t)))
    case DailyTasks => AsU32(Count(tasks, Recent(t, now - DAY)))
    case StreamConnections => 0
  }

  class QuotaService {
    const tenants: Tenants
    var tasks: seq<Task>

    ghost function At(now: Time): State reads this { State(tenants, now, tasks, map[]) }

    constructor (tenants: Tenants)
      ensures this.tenants == tenants && tasks == []
    {
      this.tenants := tenants;
      tasks := [];
    }

    method CountMatching(f: Filter) returns (count: nat)
      ensures count == Count(tasks, f)
    {
      count := 0;
      for i := 0 to |tasks|
        invariant count == Count(tasks[..i], f)
      {
        assert tasks[..i + 1][..i] == tasks[..i];
        if Matches(f, tasks[i]) { count := count + 1; }
      }
      assert tasks[..|tasks|] == tasks;
    }

    method Check(t: TenantId, quotaType: QuotaType, now: Time) returns (r: Result<CheckResult, QuotaError>)
      ensures r.Err? <==> t !in tenants
      ensures r.Err? ==> r.error == TenantNotFound(t)
      ensures r.Ok? ==>
        && r.value.limit == LimitsOf(tenants, t).Get(quotaType)
        && r.value.current == Current(tasks, t, quotaType, now)
        && (r.value.allowed <==> r.value.current < r.value.limit)
        && (r.value.allowed ==> r.value.current + r.value.remaining == r.value.limit)
        && (!r.value.allowed ==> r.value.remaining == 0)
      ensures r.Ok? && quotaType.ConcurrentTasks? ==>
        && r.value.current == Count(tasks, RunningOf(t)) % 0x1_0000_0000
        && r.value.limit == match tenants[t]
                            case Some(Entry) => 25
                            case Some(Pro) => 100
                            case Some(Enterprise) => 500
                            case _ => 5
      ensures r.Ok? && quotaType.DailyTasks? ==>
        && r.value.current == Count(tasks, Recent(t, now - 86_400_000_000)) % 0x1_0000_0000
        && r.value.limit == match tenants[t]
                            case Some(Entry) => 1_000
                            case Some(Pro) => 10_000
                            case Some(Enterprise) => 100_000
                            case _ => 100
      ensures r.Ok? && quotaType.StreamConnections? ==>
        && r.value.current == 0
        && r.value.limit == match tenants[t]
                            case Some(Entry) => 5
                            case Some(Pro) => 20
                            case Some(Enterprise) => 100
                            case _ => 2
    {
      if t !in tenants { return Err(TenantNotFound(t)); }
      var limit := LimitsOf(tenants, t).Get(quotaType);
      var current := 0;
      match quotaType {
        case ConcurrentTasks =>
          var count := CountMatching(RunningOf(t));
          current := AsU32(count);
        case DailyTasks =>
          var count := CountMatching(Recent(t, now - DAY));
          current := AsU32(count);
        case StreamConnections =>
      }
      r := Ok(CheckResult(current < limit, current, limit, if current >= limit then 0 else limit - current));
    }

    method Enforce(t: TenantId, quotaType: QuotaType, now: Time) returns (r: Result<(), QuotaError>)
      ensures r == if t !in tenants then Err(TenantNotFound(t))
                   else if Current(tasks, t, quotaType, now) < LimitsOf(tenants, t).Get(quotaType) then Ok(())
                   else Err(LimitExceeded(quotaType, LimitsOf(tenants, t).Get(quotaType),
                                          Current(tasks, t, quotaType, now)))
    {
      var result := Check(t, quotaType, now);
      if result.Err? { return Err(result.error); }
      if !result.value.allowed { return Err(LimitExceeded(quotaType, result.value.limit, result.value.current)); }
      r := Ok(());
    }

    /** The handler, undisturbed: both checks, then the insert. */
    method StartTask(t: TenantId, now: Time) returns (r: Result<Task, QuotaError>)
      modifies this
      ensures At(now) == Run(old(At(now)), [CheckConcurrent(0, t), CheckDaily(0), Insert(0, now)], 1)
      ensures r.Ok? <==> PassesConcurrent(old(At(now)), t) && PassesDaily(old(At(now)), t)
      ensures t in tenants ==>
        var (running, daily) := match tenants[t]
                                case Some(Entry) => (25, 1_000)
                                case Some(Pro) => (100, 10_000)
                                case Some(Enterprise) => (500, 100_000)
                                case _ => (5, 100);
        r.Ok? <==>
          && Count(old(tasks), RunningOf(t)) % 0x1_0000_0000 < running
          && Count(old(tasks), Recent(t, now - 86_400_000_000)) % 0x1_0000_0000 < daily
      ensures t !in tenants ==> r == Err(TenantNotFound(t))
      ensures r.Ok? ==> r.value == Task(t, now, Pending) && tasks == old(tasks) + [r.value]
      ensures r.Err? ==> tasks == old(tasks)
      ensures t in tenants && Current(old(tasks), t, ConcurrentTasks, now) >= LimitsOf(tenants, t).concurrentTasks ==>
        r.Err? && r.error.LimitExceeded? && r.error.quotaType == ConcurrentTasks
    {
      ghost var before := At(now);
      assert InFlight(before, t) == {};
      RunThree(before, CheckConcurrent(0, t), CheckDaily(0), Insert(0, now), 1);
      var one := before.handlers[0 := Half(t)];
      assert one - {0} == map[] && one[0 := Cleared(t, now)] - {0} == map[];
      var concurrent := Enforce(t, ConcurrentTasks, now);
      if concurrent.Err? { return Err(concurrent.error); }
      var daily := Enforce(t, DailyTasks, now);
      if daily.Err? { return Err(daily.error); }
      var task := Task(t, now, Pending);
      tasks := tasks + [task];
      r := Ok(task);
    }
  }
}
