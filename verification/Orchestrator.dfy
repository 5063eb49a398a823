/**
 The worker's loop (axontask-worker/src/orchestrator.rs): which executions it tracks, and how many
 there can be while their tokens are cancelled at any moment.
 */
module Orchestrator {
  import opened Wrappers
  import TaskQueue

  type TaskId = TaskQueue.TaskId
  type Token = nat

  /** A claimed batch is dispatched one task at a time, and others run in between. */
  datatype Phase = Polling | Dispatching(rest: seq<TaskId>)

  datatype State = State(
    max: nat,
    active: map<TaskId, Token>,
    cancelled: set<Token>,
    issued: Token,
    phase: Phase,
    dispatched: map<TaskId, Token>)
  {
    function Rest(): seq<TaskId> { if phase.Dispatching? then phase.rest else [] }
  }

  function Start(max: nat): State { State(max, map[], {}, 0, Polling, map[]) }

  datatype Step =
    | Claimed(batch: seq<TaskId>)
    | Dispatch
    | Retain
    | Cancel(tokens: set<Token>)

  /** The tasks whose token nobody cancelled. */
  function Live(tasks: map<TaskId, Token>, cancelled: set<Token>): map<TaskId, Token> {
    map id | id in tasks && tasks[id] !in cancelled :: tasks[id]
  }

  function Slots(s: State): nat { if |s.active| < s.max then s.max - |s.active| else 0 }

  /** A claim grants at most its limit, and nothing that was handed out before. */
  predicate Grants(s: State, batch: seq<TaskId>) {
    TaskQueue.Distinct(batch) && |batch| <= Slots(s) && forall i | 0 <= i < |batch| :: batch[i] !in s.dispatched
  }

  /** At capacity the loop goes back to waiting at once: neither a claim nor the clean-up follows. */
  function Apply(s: State, step: Step): State {
    match step
    case Claimed(batch) =>
      if s.phase.Polling? && Slots(s) > 0 && batch != [] && Grants(s, batch) then s.(phase := Dispatching(batch)) else s
    case Dispatch =>
      if s.Rest() == [] then s
      else
        var id := s.Rest()[0];
        s.(active := s.active[id := s.issued], dispatched := s.dispatched[id := s.issued],
           issued := s.issued + 1, phase := Dispatching(s.Rest()[1..]))
    case Retain =>
      if s.phase == Dispatching([]) then s.(active := Live(s.active, s.cancelled), phase := Polling) else s
    case Cancel(tokens) => s.(cancelled := s.cancelled + set t | t in tokens && t < s.issued)
  }

  function Run(s: State, steps: seq<Step>): State
    decreases |steps|
  {
    if steps == [] then s else Run(Apply(s, steps[0]), steps[1..])
  }

  // ---- What every state of the loop satisfies ------------------------------

  ghost predicate Inv(s: State) {
    && |s.active| + |s.Rest()| <= s.max
    && Waiting(s.Rest(), s.dispatched)
    && Tracked(s.active, s.dispatched, s.cancelled)
    && OneTokenEach(s.dispatched, s.issued)
  }

  ghost predicate Waiting(rest: seq<TaskId>, dispatched: map<TaskId, Token>) {
    TaskQueue.Distinct(rest) && forall i | 0 <= i < |rest| :: rest[i] !in dispatched
  }

  ghost predicate Tracked(active: map<TaskId, Token>, dispatched: map<TaskId, Token>, cancelled: set<Token>) {
    && (forall id | id in active :: id in dispatched && active[id] == dispatched[id])
    && (forall id | id in dispatched :: id in active || dispatched[id] in cancelled)
  }

  ghost predicate OneTokenEach(dispatched: map<TaskId, Token>, issued: Token) {
    && (forall id | id in dispatched :: dispatched[id] < issued)
    && (forall a, b | a in dispatched && b in dispatched && a != b :: dispatched[a] != dispatched[b])
  }

  lemma {:induction false} FewerEntries(a: map<TaskId, Token>, b: map<TaskId, Token>)
    requires forall id | id in a :: id in b
    ensures |a| <= |b|
  {
    TaskQueue.SubsetSize(a.Keys, b.Keys);
  }

  lemma WaitingTail(rest: seq<TaskId>, dispatched: map<TaskId, Token>, token: Token)
    requires rest != [] && Waiting(rest, dispatched)
    ensures Waiting(rest[1..], dispatched[rest[0] := token])
  {
    forall i | 0 <= i < |rest[1..]| ensures rest[1..][i] !in dispatched[rest[0] := token] {
      assert rest[0] != rest[i + 1];
    }
  }

  lemma DispatchKeepsInv(s: State)
    requires Inv(s) && s.Rest() != []
    ensures Inv(Apply(s, Dispatch))
  {
    WaitingTail(s.Rest(), s.dispatched, s.issued);
    assert Apply(s, Dispatch).active.Keys == s.active.Keys + {s.Rest()[0]};
  }

  lemma StepKeepsInv(s: State, step: Step)
    requires Inv(s)
    ensures Inv(Apply(s, step)) && Apply(s, step).max == s.max
  {
    match step
    case Claimed(batch) =>
    case Cancel(tokens) =>
    case Retain => FewerEntries(Apply(s, step).active, s.active);
    case Dispatch => if s.Rest() != [] { DispatchKeepsInv(s); }
  }

  lemma {:induction false} RunKeepsInv(s: State, steps: seq<Step>)
    requires Inv(s)
    ensures Inv(Run(s, steps)) && Run(s, steps).max == s.max
    decreases |steps|
  {
    if steps != [] {
      StepKeepsInv(s, steps[0]);
      RunKeepsInv(Apply(s, steps[0]), steps[1..]);
    }
  }

  /** At any moment of any run: every uncancelled execution is tracked, and there are at most `max`. */
  lemma BoundedExecutions(max: nat, steps: seq<Step>)
    ensures var s := Run(Start(max), steps);
      && |Live(s.dispatched, s.cancelled)| <= |s.active| <= max
      && forall id | id in Live(s.dispatched, s.cancelled) :: id in s.active && s.active[id] == s.dispatched[id]
  {
    RunKeepsInv(Start(max), steps);
    var s := Run(Start(max), steps);
    FewerEntries(Live(s.dispatched, s.cancelled), s.active);
  }

  /** A loop that polls with all its slots taken dispatches nothing ever again, whatever is cancelled. */
  lemma {:induction false} FullIsFinal(s: State, steps: seq<Step>)
    requires s.phase == Polling && |s.active| >= s.max
    ensures var t := Run(s, steps); t.phase == Polling && t.active == s.active && t.dispatched == s.dispatched
    decreases |steps|
  {
    if steps != [] { FullIsFinal(Apply(s, steps[0]), steps[1..]); }
  }

  lemma FreshTask(taken: set<TaskId>) returns (id: TaskId)
    ensures id !in taken
  {
    id := AboveAll(taken);
  }

  lemma {:induction false} AboveAll(taken: set<TaskId>) returns (bound: TaskId)
    ensures forall x: TaskId | x in taken :: x < bound
  {
    if taken == {} {
      bound := 0;
    } else {
      var y :| y in taken;
      var above := AboveAll(taken - {y});
      bound := if y < above then above else y + 1;
      forall x: TaskId | x in taken ensures x < bound {
        if x != y { assert x in taken - {y}; }
      }
    }
  }

  ghost predicate Dispatches(s: State, steps: seq<Step>) { Run(s, steps).dispatched != s.dispatched }

  /** A loop that polls can still dispatch something if and only if a slot is free: cancelling frees none. */
  lemma CanDispatchIff(s: State)
    requires s.phase == Polling
    ensures (exists steps :: Dispatches(s, steps)) <==> |s.active| < s.max
  {
    if |s.active| < s.max {
      var id := FreshTask(s.dispatched.Keys);
      var batch: seq<TaskId> := [id];
      var steps: seq<Step> := [Claimed(batch), Dispatch];
      var claimed := Apply(s, Claimed(batch));
      assert claimed.Rest() == [id];
      assert steps[1..] == [Dispatch] && [Dispatch][1..] == [];
      assert Run(claimed, [Dispatch]) == Apply(claimed, Dispatch);
      assert id in Run(s, steps).dispatched && id !in s.dispatched;
      assert Dispatches(s, steps);
    } else if steps :| Dispatches(s, steps) {
      FullIsFinal(s, steps);
    }
  }

  /** Such a state is reached with one slot and one task, and cancelling its token does not leave it. */
  lemma FullIsReachable(id: TaskId, more: seq<Step>)
    ensures var steps := [Claimed([id]), Dispatch, Retain, Cancel({0})];
      var s := Run(Start(1), steps);
      Live(s.dispatched, s.cancelled) == map[] && Run(s, more).dispatched == map[id := 0]
  {
    var s1 := Apply(Start(1), Claimed([id]));
    assert Grants(Start(1), [id]) && s1.Rest() == [id];
    var s2 := Apply(s1, Dispatch);
    var s3 := Apply(s2, Retain);
    var s4 := Apply(s3, Cancel({0}));
    assert s3.active == map[id := 0];
    var steps := [Claimed([id]), Dispatch, Retain, Cancel({0})];
    assert Run(Start(1), steps) == Run(s1, [Dispatch, Retain, Cancel({0})])
        == Run(s2, [Retain, Cancel({0})]) == Run(s3, [Cancel({0})]) == s4;
    FullIsFinal(s4, more);
  }

  // ---- The loop itself -----------------------------------------------------

  function Times(n: nat, step: Step): seq<Step> { seq(n, _ => step) }

  lemma {:induction false} RunOneMore(s: State, steps: seq<Step>, step: Step)
    ensures Run(s, steps + [step]) == Apply(Run(s, steps), step)
    decreases |steps|
  {
    if steps == [] {
      assert ([step])[1..] == [];
    } else {
      assert (steps + [step])[1..] == steps[1..] + [step];
      RunOneMore(Apply(s, steps[0]), steps[1..], step);
    }
  }

  lemma DispatchOneMore(s: State, mid: State, n: nat)
    requires mid == Run(s, Times(n, Dispatch))
    ensures Apply(mid, Dispatch) == Run(s, Times(n + 1, Dispatch))
  {
    RunOneMore(s, Times(n, Dispatch), Dispatch);
    assert Times(n + 1, Dispatch) == Times(n, Dispatch) + [Dispatch];
  }

  lemma {:induction false} RunDispatches(s: State, n: nat)
    requires s.phase.Dispatching? && n <= |s.phase.rest|
    ensures Run(s, Times(n, Dispatch)).phase == Dispatching(s.phase.rest[n..])
  {
    if n > 0 {
      RunDispatches(s, n - 1);
      assert Times(n, Dispatch) == Times(n - 1, Dispatch) + [Dispatch];
      RunOneMore(s, Times(n - 1, Dispatch), Dispatch);
    }
  }

  /** One pass of the loop: a claim, its dispatches, what others cancel meanwhile, the clean-up. */
  ghost function PassSteps(batch: seq<TaskId>, meanwhile: set<Token>): seq<Step> {
    [Claimed(batch)] + Times(|batch|, Dispatch) + [Cancel(meanwhile)] + [Retain]
  }

  class WorkerLoop {
    const max: nat
    var active: map<TaskId, Token>
    var cancelled: set<Token>
    var issued: Token
    ghost var dispatched: map<TaskId, Token>

    ghost function Now(): State reads this { State(max, active, cancelled, issued, Polling, dispatched) }

    constructor (max: nat)
      ensures Now() == Start(max)
    {
      this.max := max;
      active, cancelled, issued, dispatched := map[], {}, 0, map[];
    }

    method CancelTokens(tokens: set<Token>)
      modifies this`cancelled
      ensures Now() == Apply(old(Now()), Cancel(tokens))
    {
      cancelled := cancelled + set t | t in tokens && t < issued;
    }

    /** One pass with the claim's answer, an error or the tasks, and the tokens cancelled while dispatching. */
    method Pass(claim: Result<seq<TaskId>, TaskQueue.QueueError>, meanwhile: set<Token>) returns (polled: bool)
      requires Inv(Now()) && (claim.Ok? ==> Grants(Now(), claim.value))
      modifies this
      ensures Inv(Now())
      ensures polled <==> |old(active)| < max
      ensures !polled || claim.Err? || claim.value == [] ==> Now() == old(Now())
      ensures polled && claim.Ok? && claim.value != [] ==>
        && Now() == Run(old(Now()), PassSteps(claim.value, meanwhile))
        && active == Live(dispatched, cancelled)
    {
      ghost var before := Now();
      polled := |active| < max;
      if !polled || claim.Err? || claim.value == [] { return; }
      var tasks := claim.value;
      ghost var claimed := Apply(before, Claimed(tasks));
      var i := 0;
      while i < |tasks|
        invariant 0 <= i <= |tasks|
        invariant State(max, active, cancelled, issued, Dispatching(tasks[i..]), dispatched)
               == Run(claimed, Times(i, Dispatch))
      {
        ghost var mid := State(max, active, cancelled, issued, Dispatching(tasks[i..]), dispatched);
        active := active[tasks[i] := issued];
        dispatched := dispatched[tasks[i] := issued];
        issued := issued + 1;
        i := i + 1;
        assert mid.Rest()[1..] == tasks[i..];
        DispatchOneMore(claimed, mid, i - 1);
      }
      CancelTokens(meanwhile);
      active := Live(active, cancelled);
      PassIsRun(before, tasks, meanwhile);
    }

    /** At shutdown every tracked token is cancelled, so one round of waiting empties the table. */
    method Shutdown() returns (waited: nat)
      modifies this
      ensures active == map[] && cancelled == old(cancelled) + old(active).Values
      ensures waited == if old(active) == map[] then 0 else 1
      ensures dispatched == old(dispatched)
    {
      cancelled := cancelled + active.Values;
      var remaining := 30;
      waited := 0;
      while active != map[] && remaining > 0
        invariant dispatched == old(dispatched) && cancelled == old(cancelled) + old(active).Values
        invariant remaining == 30 - waited
        invariant if waited == 0 then active == old(active) else active == map[] && waited == 1 && old(active) != map[]
        decreases remaining
      {
        remaining := remaining - 1;
        waited := waited + 1;
        active := Live(active, cancelled);
      }
    }
  }

  lemma RetainIsExact(s: State)
    requires Inv(s) && s.phase == Dispatching([])
    ensures var t := Apply(s, Retain); Inv(t) && t.active == Live(t.dispatched, t.cancelled)
  {
    StepKeepsInv(s, Retain);
  }

  /** After a pass the loop can go on if and only if uncancelled executions leave a slot; else it is stuck for good. */
  lemma GoesOnAfterPassIff(s: State, batch: seq<TaskId>, meanwhile: set<Token>)
    requires Inv(s) && s.phase.Polling? && |s.active| < s.max && batch != [] && Grants(s, batch)
    ensures var t := Run(s, PassSteps(batch, meanwhile));
      (exists more :: Dispatches(t, more)) <==> |Live(t.dispatched, t.cancelled)| < t.max
  {
    var t := Run(s, PassSteps(batch, meanwhile));
    PassIsRun(s, batch, meanwhile);
    PassEndsPolling(s, batch, meanwhile);
    CanDispatchIff(t);
  }

  lemma PassEndsPolling(s: State, batch: seq<TaskId>, meanwhile: set<Token>)
    requires Inv(s) && s.phase.Polling? && |s.active| < s.max && batch != [] && Grants(s, batch)
    ensures Run(s, PassSteps(batch, meanwhile)).phase == Polling
  {
    PassIsRun(s, batch, meanwhile);
    RunDispatches(Apply(s, Claimed(batch)), |batch|);
  }

  lemma PassIsRun(s: State, batch: seq<TaskId>, meanwhile: set<Token>)
    requires Inv(s) && s.phase.Polling? && |s.active| < s.max && batch != [] && Grants(s, batch)
    ensures var end := Run(Apply(s, Claimed(batch)), Times(|batch|, Dispatch));
      Run(s, PassSteps(batch, meanwhile)) == Apply(Apply(end, Cancel(meanwhile)), Retain)
    ensures var t := Run(s, PassSteps(batch, meanwhile)); Inv(t) && t.active == Live(t.dispatched, t.cancelled)
  {
    var steps := [Claimed(batch)] + Times(|batch|, Dispatch);
    assert steps[1..] == Times(|batch|, Dispatch);
    RunOneMore(s, steps, Cancel(meanwhile));
    RunOneMore(s, steps + [Cancel(meanwhile)], Retain);
    RunKeepsInv(s, steps + [Cancel(meanwhile)]);
    RunDispatches(Apply(s, Claimed(batch)), |batch|);
    RetainIsExact(Run(s, steps + [Cancel(meanwhile)]));
  }
}
