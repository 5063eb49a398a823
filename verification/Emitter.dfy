/**
 The worker's event emitter (axontask-worker/src/events.rs). One emitter serves every task of a
 worker; it counts and chains events before it knows whether Redis will take them.
 */
module Emitter {
  import opened Wrappers
  import opened Text
  import HashChain

  type Digest = HashChain.Digest
  type Sha256 = HashChain.Sha256
  type Message = HashChain.Message
  type TaskId = HashChain.TaskId

  /** An adapter's event: kind and payload as bytes, and the RFC 3339 text of the time it is emitted. */
  datatype Draft = Draft(kind: seq<Byte>, payload: seq<Byte>, ts: seq<Byte>)

  datatype Emitted = Emitted(task: TaskId, seqNo: I64, draft: Draft, hashPrev: Option<Digest>, hashCurr: Digest)

  /** Sequence number, kind, payload, time, and only then the previous hash. */
  function Layout(seqNo: I64, draft: Draft, prev: Option<Digest>): Message {
    HashChain.Message(
      HashChain.LeBytes(seqNo) + draft.kind + draft.payload + draft.ts + (if prev.Some? then prev.value else []))
  }

  datatype Inputs = Inputs(seqNo: I64, draft: Draft, prev: Option<Digest>)

  /** What the emitter puts in as an event's hash. */
  type Hash = Inputs -> Digest

  function EmitterHash(sha: Sha256): Hash { (x: Inputs) => sha(Layout(x.seqNo, x.draft, x.prev)) }

  /** `fetch_add` on a signed 64-bit counter wraps around. */
  function Wrap(n: int): I64 { (n + 0x8000_0000_0000_0000) % 0x1_0000_0000_0000_0000 - 0x8000_0000_0000_0000 }

  /** The hasher is fed number, kind, payload, time and previous hash, one after the other. */
  method ComputeHash(sha: Sha256, x: Inputs) returns (digest: Digest)
    ensures digest == EmitterHash(sha)(x)
  {
    var hasher: seq<Byte> := [];
    hasher := hasher + HashChain.LeBytes(x.seqNo);
    hasher := hasher + x.draft.kind;
    hasher := hasher + x.draft.payload;
    hasher := hasher + x.draft.ts;
    if x.prev.Some? {
      hasher := hasher + x.prev.value;
    }
    assert hasher == Layout(x.seqNo, x.draft, x.prev).bytes;
    digest := sha(HashChain.Message(hasher));
  }

  /** The message is what the event log hashes for a first event, then the time and the previous hash. */
  lemma LayoutExtendsLog(seqNo: I64, draft: Draft, prev: Option<Digest>)
    ensures Layout(seqNo, draft, prev).bytes
         == HashChain.Layout(None, seqNo, draft.kind, draft.payload).bytes + draft.ts + HashChain.PrevBytes(prev)
  {
    var number, kind, payload := HashChain.LeBytes(seqNo), draft.kind, draft.payload;
    assert number + kind + payload == [] + (number + (kind + payload));
  }

  /** A wrapped number is the number modulo 2^64. */
  lemma WrapIsModular(n: int)
    ensures (n - Wrap(n)) % 0x1_0000_0000_0000_0000 == 0
    ensures I64_MIN <= n <= I64_MAX ==> Wrap(n) == n
  {
  }

  lemma WrapNext(n: int)
    ensures Wrap(Wrap(n) + 1) == Wrap(n + 1)
  {
  }

  // ---- One emit after the other --------------------------------------------

  /** Every event built so far, and those of them that reached a stream. */
  datatype State = State(attempts: seq<Emitted>, stored: seq<Emitted>)

  datatype Call = Call(task: TaskId, draft: Draft, delivered: bool)

  function LastHash(attempts: seq<Emitted>): Option<Digest> {
    if attempts == [] then None else Some(attempts[|attempts| - 1].hashCurr)
  }

  function Next(h: Hash, attempts: seq<Emitted>, task: TaskId, draft: Draft): Emitted {
    var seqNo, prev := Wrap(|attempts|), LastHash(attempts);
    Emitted(task, seqNo, draft, prev, h(Inputs(seqNo, draft, prev)))
  }

  function Apply(h: Hash, s: State, call: Call): State {
    var e := Next(h, s.attempts, call.task, call.draft);
    State(s.attempts + [e], if call.delivered then s.stored + [e] else s.stored)
  }

  function Run(h: Hash, s: State, calls: seq<Call>): State
    decreases |calls|
  {
    if calls == [] then s else Run(h, Apply(h, s, calls[0]), calls[1..])
  }

  /** Attempt `i` carries number `i`, the hash of attempt `i - 1`, and its own. */
  ghost predicate Chained(h: Hash, attempts: seq<Emitted>, i: nat)
    requires i < |attempts|
  {
    && attempts[i].seqNo == Wrap(i)
    && attempts[i].hashPrev == LastHash(attempts[..i])
    && attempts[i].hashCurr == h(Inputs(attempts[i].seqNo, attempts[i].draft, attempts[i].hashPrev))
  }

  /** The stored events are some of the attempts, in order: `at[j]` is where the `j`-th stands. */
  ghost predicate StoredAt(s: State, at: seq<nat>) {
    && |at| == |s.stored|
    && (forall j | 0 <= j < |at| :: StandsAt(s, j, at[j]))
    && (forall i, j | 0 <= i < j < |at| :: at[i] < at[j])
  }

  ghost predicate StandsAt(s: State, j: nat, a: nat) {
    j < |s.stored| && a < |s.attempts| && s.stored[j] == s.attempts[a]
  }

  ghost predicate Inv(h: Hash, s: State) {
    && (forall i | 0 <= i < |s.attempts| :: Chained(h, s.attempts, i))
    && exists at: seq<nat> :: StoredAt(s, at)
  }

  lemma StoredKeeps(h: Hash, s: State, call: Call)
    requires exists at: seq<nat> :: StoredAt(s, at)
    ensures exists at: seq<nat> :: StoredAt(Apply(h, s, call), at)
  {
    var at: seq<nat> :| StoredAt(s, at);
    var at' := if call.delivered then at + [|s.attempts|] else at;
    StoredExtends(s, Apply(h, s, call), at, at');
  }

  lemma StoredExtends(s: State, s': State, at: seq<nat>, at': seq<nat>)
    requires StoredAt(s, at) && |s'.attempts| == |s.attempts| + 1 && s.attempts <= s'.attempts
    requires || (s'.stored == s.stored && at' == at)
             || (s'.stored == s.stored + [s'.attempts[|s.attempts|]] && at' == at + [|s.attempts|])
    ensures StoredAt(s', at')
  {
    forall j | 0 <= j < |at'| ensures StandsAt(s', j, at'[j]) {
      if j < |at| { assert StandsAt(s, j, at[j]); }
    }
    assert forall i | 0 <= i < |at| :: StandsAt(s, i, at[i]);
  }

  lemma StepKeepsInv(h: Hash, s: State, call: Call)
    requires Inv(h, s)
    ensures Inv(h, Apply(h, s, call))
  {
    var s' := Apply(h, s, call);
    forall i | 0 <= i < |s'.attempts| ensures Chained(h, s'.attempts, i) {
      if i < |s.attempts| {
        assert Chained(h, s.attempts, i);
        assert s'.attempts[..i] == s.attempts[..i];
      } else {
        assert s'.attempts[..i] == s.attempts;
      }
    }
    StoredKeeps(h, s, call);
  }

  lemma {:induction false} RunKeepsInv(h: Hash, s: State, calls: seq<Call>)
    requires Inv(h, s)
    ensures Inv(h, Run(h, s, calls))
    ensures |Run(h, s, calls).attempts| == |s.attempts| + |calls|
    decreases |calls|
  {
    if calls != [] {
      StepKeepsInv(h, s, calls[0]);
      RunKeepsInv(h, Apply(h, s, calls[0]), calls[1..]);
    }
  }

  ghost predicate FollowsOn(e: Emitted, f: Emitted) { f.hashPrev == Some(e.hashCurr) }

  /**
   Whatever writes fail, numbers in the streams strictly increase, and a stored event follows on
   from every stored event numbered just before it - until 2^63 emits have wrapped the counter.
   */
  lemma LinksSurviveFailures(h: Hash, calls: seq<Call>, i: nat, j: nat)
    requires |calls| <= 0x8000_0000_0000_0000
    requires i < j < |Run(h, State([], []), calls).stored|
    ensures var stored := Run(h, State([], []), calls).stored;
      && stored[i].seqNo < stored[j].seqNo
      && (stored[i].seqNo + 1 == stored[j].seqNo ==> FollowsOn(stored[i], stored[j]))
  {
    assert StoredAt(State([], []), []);
    RunKeepsInv(h, State([], []), calls);
    var s := Run(h, State([], []), calls);
    var at: seq<nat> :| StoredAt(s, at);
    assert StandsAt(s, i, at[i]) && StandsAt(s, j, at[j]);
    NumberedLinks(h, s.attempts, at[i], at[j]);
  }

  lemma NumberedLinks(h: Hash, attempts: seq<Emitted>, a: nat, b: nat)
    requires a < b < |attempts| <= 0x8000_0000_0000_0000
    requires forall i | 0 <= i < |attempts| :: Chained(h, attempts, i)
    ensures attempts[a].seqNo < attempts[b].seqNo
    ensures attempts[a].seqNo + 1 == attempts[b].seqNo ==> FollowsOn(attempts[a], attempts[b])
  {
    assert Chained(h, attempts, a) && Chained(h, attempts, b);
    assert attempts[..b][b - 1] == attempts[b - 1];
  }

  function MessageOf(e: Emitted): Message { Layout(e.seqNo, e.draft, e.hashPrev) }

  /**
   The converse: where numbers are missing between two stored events - a failed write, or another
   task's event - the later follows on from the earlier only if the message of the earlier and that
   of the attempt numbered just before the later, which differ, collide.
   */
  lemma GapsBreakLinks(sha: Sha256, calls: seq<Call>, i: nat, j: nat)
    requires |calls| <= 0x8000_0000_0000_0000
    requires i < j < |Run(EmitterHash(sha), State([], []), calls).stored|
    ensures var s := Run(EmitterHash(sha), State([], []), calls);
      var e, f := s.stored[i], s.stored[j];
      FollowsOn(e, f) && e.seqNo + 1 != f.seqNo ==>
        && 0 < f.seqNo <= |s.attempts|
        && HashChain.Collision(sha, MessageOf(e), MessageOf(s.attempts[f.seqNo - 1]))
  {
    assert StoredAt(State([], []), []);
    RunKeepsInv(EmitterHash(sha), State([], []), calls);
    var s := Run(EmitterHash(sha), State([], []), calls);
    var at: seq<nat> :| StoredAt(s, at);
    assert StandsAt(s, i, at[i]) && StandsAt(s, j, at[j]);
    SkippedAttempt(sha, s.attempts, at[i], at[j]);
  }

  lemma SkippedAttempt(sha: Sha256, attempts: seq<Emitted>, a: nat, b: nat)
    requires a < b < |attempts| <= 0x8000_0000_0000_0000
    requires forall i | 0 <= i < |attempts| :: Chained(EmitterHash(sha), attempts, i)
    ensures attempts[b].seqNo == b
    ensures FollowsOn(attempts[a], attempts[b]) && attempts[a].seqNo + 1 != attempts[b].seqNo ==>
      HashChain.Collision(sha, MessageOf(attempts[a]), MessageOf(attempts[b - 1]))
  {
    var e, missed := attempts[a], attempts[b - 1];
    assert Chained(EmitterHash(sha), attempts, a) && Chained(EmitterHash(sha), attempts, b);
    assert Chained(EmitterHash(sha), attempts, b - 1);
    assert attempts[..b][b - 1] == missed;
    if e.seqNo != missed.seqNo { DifferentNumbers(e, missed); }
  }

  /** The number comes first in the layout, so events with different numbers are hashed differently. */
  lemma DifferentNumbers(e: Emitted, f: Emitted)
    requires e.seqNo != f.seqNo
    ensures Layout(e.seqNo, e.draft, e.hashPrev) != Layout(f.seqNo, f.draft, f.hashPrev)
  {
    var x, y := Layout(e.seqNo, e.draft, e.hashPrev).bytes, Layout(f.seqNo, f.draft, f.hashPrev).bytes;
    assert x[..8] == HashChain.LeBytes(e.seqNo) && y[..8] == HashChain.LeBytes(f.seqNo);
    if x == y { HashChain.LeBytesInjective(e.seqNo, f.seqNo); }
  }

  /** The emitter's layout is not the event log's: `verify_chain` accepts one of these only by a collision. */
  lemma VerifierDisagrees(sha: Sha256, e: Emitted)
    requires e.draft.ts != [] && e.hashCurr == sha(Layout(e.seqNo, e.draft, e.hashPrev))
    ensures var checked := HashChain.Layout(e.hashPrev, e.seqNo, e.draft.kind, e.draft.payload);
      sha(checked) == e.hashCurr ==> HashChain.Collision(sha, checked, Layout(e.seqNo, e.draft, e.hashPrev))
  {
    var checked := HashChain.Layout(e.hashPrev, e.seqNo, e.draft.kind, e.draft.payload);
    assert |checked.bytes| < |Layout(e.seqNo, e.draft, e.hashPrev).bytes|;
  }

  // ---- The emitter ---------------------------------------------------------

  datatype EmitError = RedisError

  class EventEmitter {
    const h: Hash
    var seqNo: I64
    var prevHash: Option<Digest>
    var streams: seq<Emitted>
    ghost var attempts: seq<Emitted>

    ghost predicate Valid() reads this {
      seqNo == Wrap(|attempts|) && prevHash == LastHash(attempts)
    }

    ghost function Now(): State reads this { State(attempts, streams) }

    constructor (h: Hash)
      ensures Valid() && Now() == State([], []) && this.h == h
    {
      this.h := h;
      seqNo, prevHash, streams, attempts := 0, None, [], [];
    }

    /** `delivered` says whether Redis takes the event; the state has advanced either way. */
    method Emit(task: TaskId, draft: Draft, delivered: bool) returns (r: Result<nat, EmitError>)
      requires Valid()
      modifies this
      ensures Valid() && Now() == Apply(h, old(Now()), Call(task, draft, delivered))
      ensures r == if delivered then Ok(|old(streams)|) else Err(RedisError)
      ensures delivered ==> |streams| == |old(streams)| + 1
    {
      var number := seqNo;
      WrapNext(|attempts|);
      seqNo := Wrap(seqNo + 1);
      var hashPrev := prevHash;
      var hashCurr := h(Inputs(number, draft, hashPrev));
      var event := Emitted(task, number, draft, hashPrev, hashCurr);
      prevHash := Some(hashCurr);
      attempts := attempts + [event];
      if !delivered { return Err(RedisError); }
      streams := streams + [event];
      r := Ok(|streams| - 1);
    }

    /** Stops at the first write that fails; what went before stays in the stream. */
    method EmitBatch(task: TaskId, drafts: seq<Draft>, delivered: seq<bool>)
      returns (r: Result<seq<nat>, EmitError>, ghost tried: nat)
      requires Valid() && |delivered| == |drafts|
      modifies this
      ensures Valid() && Tried(delivered, tried)
      ensures Now() == Run(h, old(Now()), Calls(task, drafts, delivered, tried))
      ensures r.Ok? <==> AllDelivered(delivered, |delivered|)
      ensures r.Ok? ==> Consecutive(r.value, |old(streams)|, |drafts|)
    {
      var ids: seq<nat> := [];
      for i := 0 to |drafts|
        invariant Valid()
        invariant Now() == Run(h, old(Now()), Calls(task, drafts, delivered, i))
        invariant AllDelivered(delivered, i)
        invariant |streams| == |old(streams)| + i && Consecutive(ids, |old(streams)|, i)
      {
        ghost var mid := Now();
        var id := Emit(task, drafts[i], delivered[i]);
        CallsOneMore(h, old(Now()), mid, Now(), task, drafts, delivered, i);
        if id.Err? { return Err(id.error), i + 1; }
        assert AllDelivered(delivered, i + 1);
        ids := ids + [id.value];
      }
      return Ok(ids), |drafts|;
    }
  }

  /** One stream id for each event, in order. */
  ghost predicate Consecutive(ids: seq<nat>, from: nat, n: nat) {
    |ids| == n && forall k | 0 <= k < n :: ids[k] == from + k
  }

  ghost predicate AllDelivered(delivered: seq<bool>, n: nat)
    requires n <= |delivered|
  {
    forall i | 0 <= i < n :: delivered[i]
  }

  /** The writes tried: all of them, or up to and with the first that failed. */
  ghost predicate Tried(delivered: seq<bool>, n: nat) {
    && n <= |delivered|
    && (n > 0 ==> AllDelivered(delivered, n - 1))
    && (n < |delivered| ==> n > 0 && !delivered[n - 1])
  }

  function Calls(task: TaskId, drafts: seq<Draft>, delivered: seq<bool>, n: nat): seq<Call>
    requires n <= |drafts| && n <= |delivered|
  {
    seq(n, i requires 0 <= i < n => Call(task, drafts[i], delivered[i]))
  }

  lemma {:induction false} RunOneMore(h: Hash, s: State, calls: seq<Call>, call: Call)
    ensures Run(h, s, calls + [call]) == Apply(h, Run(h, s, calls), call)
    decreases |calls|
  {
    if calls == [] {
      assert [call][1..] == [];
    } else {
      assert (calls + [call])[1..] == calls[1..] + [call];
      RunOneMore(h, Apply(h, s, calls[0]), calls[1..], call);
    }
  }

  lemma CallsOneMore(h: Hash, s: State, mid: State, next: State,
                     task: TaskId, drafts: seq<Draft>, delivered: seq<bool>, i: nat)
    requires i < |drafts| == |delivered|
    requires mid == Run(h, s, Calls(task, drafts, delivered, i))
    requires next == Apply(h, mid, Call(task, drafts[i], delivered[i]))
    ensures next == Run(h, s, Calls(task, drafts, delivered, i + 1))
  {
    var calls := Calls(task, drafts, delivered, i);
    RunOneMore(h, s, calls, Call(task, drafts[i], delivered[i]));
    assert Calls(task, drafts, delivered, i + 1) == calls + [Call(task, drafts[i], delivered[i])];
  }

  // ---- Emits of different tasks at the same time ---------------------------

  /** An event with its hash, and the event whose hash it read, that is, the last to write its own. */
  datatype Emission = Emission(event: Emitted, source: Option<Emitted>)

  /** An emit that has its number, that has read the previous hash, that has written its own. */
  datatype Progress =
    | Numbered(draft: Draft, seqNo: I64)
    | Built(seqNo: I64)
    | Written(seqNo: I64)

  /** A worker emits one task's events one after the other, so a task has at most one emit on its way. */
  datatype Shared = Shared(
    issued: nat,
    prevHash: Option<Digest>,
    writer: Option<Emitted>,
    built: map<I64, Emission>,
    emits: map<TaskId, Progress>,
    stored: seq<Emitted>)

  datatype Step =
    | TakeNumber(task: TaskId, draft: Draft)
    | ReadHash(task: TaskId)
    | WriteHash(task: TaskId)
    | Deliver(task: TaskId)
    | Fail(task: TaskId)

  function HashOf(e: Option<Emitted>): Option<Digest> { if e.Some? then Some(e.value.hashCurr) else None }

  /** The event an emit builds when it reads the state. */
  function BuiltFrom(h: Hash, task: TaskId, draft: Draft, seqNo: I64, prev: Option<Digest>): Emitted {
    Emitted(task, seqNo, draft, prev, h(Inputs(seqNo, draft, prev)))
  }

  function SharedStep(h: Hash, s: Shared, step: Step): Shared {
    var t := step.task;
    match step
    case TakeNumber(_, draft) =>
      if t in s.emits then s
      else s.(issued := s.issued + 1, emits := s.emits[t := Numbered(draft, Wrap(s.issued))])
    case ReadHash(_) =>
      if t in s.emits && s.emits[t].Numbered? then
        var p := s.emits[t];
        var e := BuiltFrom(h, t, p.draft, p.seqNo, s.prevHash);
        s.(built := s.built[p.seqNo := Emission(e, s.writer)], emits := s.emits[t := Built(p.seqNo)])
      else s
    case WriteHash(_) =>
      if t in s.emits && s.emits[t].Built? && s.emits[t].seqNo in s.built then
        var e := s.built[s.emits[t].seqNo].event;
        s.(prevHash := Some(e.hashCurr), writer := Some(e), emits := s.emits[t := Written(e.seqNo)])
      else s
    case Deliver(_) =>
      if t in s.emits && s.emits[t].Written? && s.emits[t].seqNo in s.built then
        s.(stored := s.stored + [s.built[s.emits[t].seqNo].event], emits := s.emits - {t})
      else s
    case Fail(_) => s.(emits := s.emits - {t})
  }

  function SharedRun(h: Hash, s: Shared, steps: seq<Step>): Shared
    decreases |steps|
  {
    if steps == [] then s else SharedRun(h, SharedStep(h, s, steps[0]), steps[1..])
  }

  const IDLE := Shared(0, None, None, map[], map[], [])

  // ---- What every interleaving keeps ---------------------------------------

  ghost predicate IsBuilt(built: map<I64, Emission>, e: Emitted) { e.seqNo in built && built[e.seqNo].event == e }

  /** The event carries its number, the hash of its source and its own. */
  ghost predicate EmissionOk(h: Hash, s: Shared, n: I64)
    requires n in s.built
  {
    var e, source := s.built[n].event, s.built[n].source;
    && 0 <= n < s.issued && e.seqNo == n
    && e == BuiltFrom(h, e.task, e.draft, n, HashOf(source))
    && (source.Some? ==> IsBuilt(s.built, source.value))
  }

  ghost predicate EmissionsOk(h: Hash, s: Shared) {
    && (forall n | n in s.built :: EmissionOk(h, s, n))
    && s.prevHash == HashOf(s.writer)
    && (s.writer.Some? ==> IsBuilt(s.built, s.writer.value))
  }

  ghost predicate EmitOk(s: Shared, t: TaskId)
    requires t in s.emits
  {
    && 0 <= s.emits[t].seqNo < s.issued
    && (s.emits[t].Numbered? <==> s.emits[t].seqNo !in s.built)
    && (!s.emits[t].Numbered? ==> s.built[s.emits[t].seqNo].event.task == t)
  }

  /** Numbers are nobody else's, and above those already in the task's stream. */
  ghost predicate EmitsOk(s: Shared) {
    && (forall t | t in s.emits :: EmitOk(s, t))
    && (forall t, u | t in s.emits && u in s.emits && t != u :: s.emits[t].seqNo != s.emits[u].seqNo)
    && (forall i, t | 0 <= i < |s.stored| && t in s.emits && s.stored[i].task == t ::
          s.stored[i].seqNo < s.emits[t].seqNo)
  }

  ghost predicate StreamsOk(s: Shared) {
    && (forall i | 0 <= i < |s.stored| :: IsBuilt(s.built, s.stored[i]))
    && (forall i, j | 0 <= i < j < |s.stored| && s.stored[i].task == s.stored[j].task ::
          s.stored[i].seqNo < s.stored[j].seqNo)
  }

  ghost predicate SharedOk(h: Hash, s: Shared) { EmissionsOk(h, s) && EmitsOk(s) && StreamsOk(s) }

  lemma StoredBelowIssued(h: Hash, s: Shared, i: nat)
    requires SharedOk(h, s) && i < |s.stored|
    ensures s.stored[i].seqNo < s.issued
  {
    assert IsBuilt(s.built, s.stored[i]) && EmissionOk(h, s, s.stored[i].seqNo);
  }

  lemma TakeKeepsEmits(h: Hash, s: Shared, t: TaskId, draft: Draft)
    requires SharedOk(h, s) && t !in s.emits && s.issued < 0x8000_0000_0000_0000
    ensures EmitsOk(SharedStep(h, s, TakeNumber(t, draft)))
  {
    var s' := SharedStep(h, s, TakeNumber(t, draft));
    forall n | n in s.built ensures n < s.issued { assert EmissionOk(h, s, n); }
    forall u | u in s'.emits ensures EmitOk(s', u) && (u != t ==> s'.emits[u].seqNo < s.issued) {
      if u != t { assert EmitOk(s, u); }
    }
    forall i | 0 <= i < |s.stored| ensures s.stored[i].seqNo < s.issued { StoredBelowIssued(h, s, i); }
  }

  lemma TakeKeeps(h: Hash, s: Shared, t: TaskId, draft: Draft)
    requires SharedOk(h, s) && t !in s.emits && s.issued < 0x8000_0000_0000_0000
    ensures SharedOk(h, SharedStep(h, s, TakeNumber(t, draft)))
  {
    TakeKeepsEmits(h, s, t, draft);
    var s' := SharedStep(h, s, TakeNumber(t, draft));
    forall n | n in s'.built ensures EmissionOk(h, s', n) { assert EmissionOk(h, s, n); }
  }

  /** A new emission leaves the others as they are. */
  lemma ReadKeepsEmissions(h: Hash, s: Shared, t: TaskId)
    requires SharedOk(h, s) && t in s.emits && s.emits[t].Numbered?
    ensures EmissionsOk(h, SharedStep(h, s, ReadHash(t)))
  {
    var s' := SharedStep(h, s, ReadHash(t));
    assert EmitOk(s, t);
    forall n | n in s'.built ensures EmissionOk(h, s', n) {
      if n in s.built { assert EmissionOk(h, s, n); }
    }
  }

  lemma ReadKeeps(h: Hash, s: Shared, t: TaskId)
    requires SharedOk(h, s) && t in s.emits && s.emits[t].Numbered?
    ensures SharedOk(h, SharedStep(h, s, ReadHash(t)))
  {
    var s' := SharedStep(h, s, ReadHash(t));
    ReadKeepsEmissions(h, s, t);
    assert EmitOk(s, t);
    forall u | u in s'.emits ensures EmitOk(s', u) { assert EmitOk(s, u); }
    forall i | 0 <= i < |s.stored| ensures IsBuilt(s'.built, s.stored[i]) { assert IsBuilt(s.built, s.stored[i]); }
  }

  lemma WriteKeeps(h: Hash, s: Shared, t: TaskId)
    requires SharedOk(h, s) && t in s.emits && s.emits[t].Built?
    ensures SharedOk(h, SharedStep(h, s, WriteHash(t)))
  {
    var s' := SharedStep(h, s, WriteHash(t));
    assert EmitOk(s, t) && EmissionOk(h, s, s.emits[t].seqNo);
    forall n | n in s'.built ensures EmissionOk(h, s', n) { assert EmissionOk(h, s, n); }
    forall u | u in s'.emits ensures EmitOk(s', u) { assert EmitOk(s, u); }
  }

  /** An emit that ends takes its number with it; what it delivers is the newest of its task. */
  lemma EndKeeps(h: Hash, s: Shared, t: TaskId, step: Step)
    requires SharedOk(h, s) && (step == Fail(t) || (step == Deliver(t) && t in s.emits && s.emits[t].Written?))
    ensures SharedOk(h, SharedStep(h, s, step))
  {
    var s' := SharedStep(h, s, step);
    forall n | n in s'.built ensures EmissionOk(h, s', n) { assert EmissionOk(h, s, n); }
    forall u | u in s'.emits ensures EmitOk(s', u) { assert EmitOk(s, u); }
    if step.Deliver? {
      assert EmitOk(s, t) && EmissionOk(h, s, s.emits[t].seqNo);
    }
  }

  lemma SharedStepKeeps(h: Hash, s: Shared, step: Step)
    requires SharedOk(h, s) && s.issued < 0x8000_0000_0000_0000
    ensures SharedOk(h, SharedStep(h, s, step)) && SharedStep(h, s, step).issued <= s.issued + 1
  {
    var t := step.task;
    match step
    case TakeNumber(_, draft) => if t !in s.emits { TakeKeeps(h, s, t, draft); }
    case ReadHash(_) => if t in s.emits && s.emits[t].Numbered? { ReadKeeps(h, s, t); }
    case WriteHash(_) => if t in s.emits && s.emits[t].Built? { WriteKeeps(h, s, t); }
    case Deliver(_) => if t in s.emits && s.emits[t].Written? { EndKeeps(h, s, t, step); }
    case Fail(_) => EndKeeps(h, s, t, step);
  }

  lemma {:induction false} SharedRunKeeps(h: Hash, s: Shared, steps: seq<Step>)
    requires SharedOk(h, s) && s.issued + |steps| <= 0x8000_0000_0000_0000
    ensures SharedOk(h, SharedRun(h, s, steps))
    decreases |steps|
  {
    if steps != [] {
      SharedStepKeeps(h, s, steps[0]);
      SharedRunKeeps(h, SharedStep(h, s, steps[0]), steps[1..]);
    }
  }

  /**
   Over every interleaving with other tasks, each task's stream has strictly increasing numbers, and
   no two events of the worker share one - until 2^63 steps have been able to wrap the counter.
   */
  lemma StreamsStayInOrder(h: Hash, steps: seq<Step>, i: nat, j: nat)
    requires |steps| <= 0x8000_0000_0000_0000 && i < j < |SharedRun(h, IDLE, steps).stored|
    ensures var stored := SharedRun(h, IDLE, steps).stored;
      && stored[i].seqNo != stored[j].seqNo
      && (stored[i].task == stored[j].task ==> stored[i].seqNo < stored[j].seqNo)
  {
    SharedRunKeeps(h, IDLE, steps);
    var s := SharedRun(h, IDLE, steps);
    assert IsBuilt(s.built, s.stored[i]) && IsBuilt(s.built, s.stored[j]);
  }

  // ---- When a link survives ------------------------------------------------

  /** The event whose emit was the last to write its hash before this one read the state. */
  function SourceOf(s: Shared, e: Emitted): Option<Emitted> {
    if e.seqNo in s.built then s.built[e.seqNo].source else None
  }

  lemma SourceIsKnown(h: Hash, s: Shared, f: Emitted)
    requires SharedOk(h, s) && IsBuilt(s.built, f)
    ensures f.hashPrev == HashOf(SourceOf(s, f)) && f.hashCurr == h(Inputs(f.seqNo, f.draft, f.hashPrev))
    ensures SourceOf(s, f).Some? ==> IsBuilt(s.built, SourceOf(s, f).value)
  {
    assert EmissionOk(h, s, f.seqNo);
  }

  /**
   A stored event follows on from a stored event if and only if that one was the last to write its
   hash before the other read it - or else its message and that of the one that did write collide.
   */
  lemma FollowsOnIff(sha: Sha256, steps: seq<Step>, i: nat, j: nat)
    requires |steps| <= 0x8000_0000_0000_0000
    requires i < |SharedRun(EmitterHash(sha), IDLE, steps).stored|
    requires j < |SharedRun(EmitterHash(sha), IDLE, steps).stored|
    ensures var s := SharedRun(EmitterHash(sha), IDLE, steps);
      var e, f := s.stored[i], s.stored[j];
      var source := SourceOf(s, f);
      && (source == Some(e) ==> FollowsOn(e, f))
      && (FollowsOn(e, f) && source != Some(e) ==>
            source.Some? && HashChain.Collision(sha, MessageOf(e), MessageOf(source.value)))
  {
    var h := EmitterHash(sha);
    SharedRunKeeps(h, IDLE, steps);
    LinkedIff(sha, SharedRun(h, IDLE, steps), i, j);
  }

  lemma LinkedIff(sha: Sha256, s: Shared, i: nat, j: nat)
    requires SharedOk(EmitterHash(sha), s) && i < |s.stored| && j < |s.stored|
    ensures var e, f := s.stored[i], s.stored[j];
      var source := SourceOf(s, f);
      && (source == Some(e) ==> FollowsOn(e, f))
      && (FollowsOn(e, f) && source != Some(e) ==>
            source.Some? && HashChain.Collision(sha, MessageOf(e), MessageOf(source.value)))
  {
    var h, e, f := EmitterHash(sha), s.stored[i], s.stored[j];
    assert IsBuilt(s.built, e) && IsBuilt(s.built, f);
    SourceIsKnown(h, s, e);
    SourceIsKnown(h, s, f);
    var source := SourceOf(s, f);
    if source.Some? && source != Some(e) {
      SourceIsKnown(h, s, source.value);
      DifferentNumbers(e, source.value);
    }
  }

  /** What an event read is never changed afterwards. */
  lemma {:induction false} SourcesStay(h: Hash, s: Shared, steps: seq<Step>, n: I64)
    requires SharedOk(h, s) && s.issued + |steps| <= 0x8000_0000_0000_0000 && n in s.built
    ensures n in SharedRun(h, s, steps).built && SharedRun(h, s, steps).built[n] == s.built[n]
    decreases |steps|
  {
    if steps != [] {
      if steps[0].ReadHash? && steps[0].task in s.emits { assert EmitOk(s, steps[0].task); }
      SharedStepKeeps(h, s, steps[0]);
      SourcesStay(h, SharedStep(h, s, steps[0]), steps[1..], n);
    }
  }

  lemma {:induction false} WriterStays(h: Hash, s: Shared, quiet: seq<Step>)
    requires forall i | 0 <= i < |quiet| :: !quiet[i].WriteHash?
    ensures SharedRun(h, s, quiet).writer == s.writer
    decreases |quiet|
  {
    if quiet != [] {
      assert !quiet[0].WriteHash?;
      WriterStays(h, SharedStep(h, s, quiet[0]), quiet[1..]);
    }
  }

  /**
   In terms of steps: an event that reads the state with no hash written since `e`'s follows on from
   `e`, whatever else is going on, and wherever it is stored later.
   */
  lemma QuietLink(h: Hash, s: Shared, e: Emitted, quiet: seq<Step>, t: TaskId, more: seq<Step>, j: nat)
    requires SharedOk(h, s) && s.writer == Some(e)
    requires s.issued + |quiet| + 1 + |more| <= 0x8000_0000_0000_0000
    requires forall i | 0 <= i < |quiet| :: !quiet[i].WriteHash?
    requires var mid := SharedRun(h, s, quiet); t in mid.emits && mid.emits[t].Numbered?
    requires j < |SharedRun(h, SharedStep(h, SharedRun(h, s, quiet), ReadHash(t)), more).stored|
    ensures var mid := SharedRun(h, s, quiet);
      var stored := SharedRun(h, SharedStep(h, mid, ReadHash(t)), more).stored;
      stored[j].seqNo == mid.emits[t].seqNo ==> FollowsOn(e, stored[j])
  {
    var mid := SharedRun(h, s, quiet);
    WriterStays(h, s, quiet);
    IssuedGrows(h, s, quiet);
    SharedRunKeeps(h, s, quiet);
    ReadKeeps(h, mid, t);
    var read := SharedStep(h, mid, ReadHash(t));
    SourcesStay(h, read, more, mid.emits[t].seqNo);
    SharedRunKeeps(h, read, more);
    var end := SharedRun(h, read, more);
    assert IsBuilt(end.built, end.stored[j]);
    SourceIsKnown(h, end, end.stored[j]);
  }

  lemma {:induction false} IssuedGrows(h: Hash, s: Shared, steps: seq<Step>)
    ensures SharedRun(h, s, steps).issued <= s.issued + |steps|
    decreases |steps|
  {
    if steps != [] { IssuedGrows(h, SharedStep(h, s, steps[0]), steps[1..]); }
  }

  // ---- One at a time is a special case -------------------------------------

  /** The steps of one emit that nothing comes between. */
  function Undisturbed(call: Call): seq<Step> {
    [TakeNumber(call.task, call.draft), ReadHash(call.task), WriteHash(call.task),
     if call.delivered then Deliver(call.task) else Fail(call.task)]
  }

  /** The shared state that a sequence of whole emits left. */
  ghost predicate Matches(s: State, w: Shared) {
    && w.issued == |s.attempts| && w.emits == map[] && w.stored == s.stored
    && w.prevHash == HashOf(w.writer) == LastHash(s.attempts)
    && w.writer == if s.attempts == [] then None else Some(s.attempts[|s.attempts| - 1])
  }

  lemma RunFour(h: Hash, w: Shared, a: Step, b: Step, c: Step, d: Step)
    ensures SharedRun(h, w, [a, b, c, d]) == SharedStep(h, SharedStep(h, SharedStep(h, SharedStep(h, w, a), b), c), d)
  {
    assert [a, b, c, d][1..] == [b, c, d] && [b, c, d][1..] == [c, d] && [c, d][1..] == [d] && [d][1..] == [];
    var w1 := SharedStep(h, w, a);
    var w2 := SharedStep(h, w1, b);
    var w3 := SharedStep(h, w2, c);
    assert SharedRun(h, w3, [d]) == SharedStep(h, w3, d);
    assert SharedRun(h, w2, [c, d]) == SharedRun(h, w3, [d]);
    assert SharedRun(h, w1, [b, c, d]) == SharedRun(h, w2, [c, d]);
  }

  /** Undisturbed, the interleaved steps of an emit are the whole emit; its source is the attempt before it. */
  lemma WholeEmit(h: Hash, s: State, w: Shared, call: Call)
    requires Matches(s, w)
    ensures var w' := SharedRun(h, w, Undisturbed(call)); var s' := Apply(h, s, call);
      Matches(s', w') && SourceOf(w', s'.attempts[|s.attempts|]) == w.writer
  {
    var t, e := call.task, Next(h, s.attempts, call.task, call.draft);
    var last := if call.delivered then Deliver(t) else Fail(t);
    RunFour(h, w, TakeNumber(t, call.draft), ReadHash(t), WriteHash(t), last);
    var w3 := Shared(w.issued + 1, Some(e.hashCurr), Some(e), w.built[e.seqNo := Emission(e, w.writer)],
                     map[t := Written(e.seqNo)], w.stored);
    ThreeSteps(h, w, t, call.draft, e);
    assert SharedStep(h, w3, last).emits == map[];
  }

  lemma ThreeSteps(h: Hash, w: Shared, t: TaskId, draft: Draft, e: Emitted)
    requires w.emits == map[] && e == BuiltFrom(h, t, draft, Wrap(w.issued), w.prevHash)
    ensures SharedStep(h, SharedStep(h, SharedStep(h, w, TakeNumber(t, draft)), ReadHash(t)), WriteHash(t))
         == Shared(w.issued + 1, Some(e.hashCurr), Some(e), w.built[e.seqNo := Emission(e, w.writer)],
                   map[t := Written(e.seqNo)], w.stored)
  {
    var w1 := SharedStep(h, w, TakeNumber(t, draft));
    assert w1 == w.(issued := w.issued + 1, emits := map[t := Numbered(draft, e.seqNo)]);
    var w2 := SharedStep(h, w1, ReadHash(t));
    assert w2 == w1.(built := w.built[e.seqNo := Emission(e, w.writer)], emits := map[t := Built(e.seqNo)]);
    assert SharedStep(h, w2, WriteHash(t)).emits == map[t := Written(e.seqNo)];
  }

  function AllUndisturbed(calls: seq<Call>): seq<Step> {
    if calls == [] then [] else Undisturbed(calls[0]) + AllUndisturbed(calls[1..])
  }

  lemma {:induction false} SharedRunConcat(h: Hash, w: Shared, a: seq<Step>, b: seq<Step>)
    ensures SharedRun(h, w, a + b) == SharedRun(h, SharedRun(h, w, a), b)
    decreases |a|
  {
    if a == [] {
      assert a + b == b;
    } else {
      assert (a + b)[1..] == a[1..] + b;
      SharedRunConcat(h, SharedStep(h, w, a[0]), a[1..], b);
    }
  }

  /** The emitter that runs one emit after the other is the shared one under that schedule. */
  lemma {:induction false} OneAtATime(h: Hash, s: State, w: Shared, calls: seq<Call>)
    requires Matches(s, w)
    ensures Matches(Run(h, s, calls), SharedRun(h, w, AllUndisturbed(calls)))
    decreases |calls|
  {
    if calls != [] {
      WholeEmit(h, s, w, calls[0]);
      SharedRunConcat(h, w, Undisturbed(calls[0]), AllUndisturbed(calls[1..]));
      OneAtATime(h, Apply(h, s, calls[0]), SharedRun(h, w, Undisturbed(calls[0])), calls[1..]);
    }
  }

  // ---- A run that breaks a link inside one stream --------------------------

  ghost predicate Reachable(h: Hash, s: Shared) { exists steps :: SharedRun(h, IDLE, steps) == s }

  lemma {:induction false} SharedRunOneMore(h: Hash, s: Shared, steps: seq<Step>, step: Step)
    ensures SharedRun(h, s, steps + [step]) == SharedStep(h, SharedRun(h, s, steps), step)
    decreases |steps|
  {
    if steps == [] {
      assert [step][1..] == [];
    } else {
      assert (steps + [step])[1..] == steps[1..] + [step];
      SharedRunOneMore(h, SharedStep(h, s, steps[0]), steps[1..], step);
    }
  }

  lemma ReachNext(h: Hash, s: Shared, step: Step) returns (s': Shared)
    requires Reachable(h, s)
    ensures s' == SharedStep(h, s, step) && Reachable(h, s')
  {
    var steps :| SharedRun(h, IDLE, steps) == s;
    SharedRunOneMore(h, IDLE, steps, step);
    s' := SharedStep(h, s, step);
  }

  /** Task 2 has read the state, and so has task 1, with the next number. */
  lemma BothHaveRead(h: Hash, d0: Draft, d1: Draft)
    ensures var e0, e1 := BuiltFrom(h, 2, d0, 0, None), BuiltFrom(h, 1, d1, 1, None);
      Reachable(h, Shared(2, None, None, map[0 := Emission(e0, None), 1 := Emission(e1, None)],
                          map[2 := Built(0), 1 := Built(1)], []))
  {
    var e0, e1 := BuiltFrom(h, 2, d0, 0, None), BuiltFrom(h, 1, d1, 1, None);
    assert SharedRun(h, IDLE, []) == IDLE;
    var s := ReachNext(h, IDLE, TakeNumber(2, d0));
    assert s == Shared(1, None, None, map[], map[2 := Numbered(d0, 0)], []);
    s := ReachNext(h, s, ReadHash(2));
    assert s == Shared(1, None, None, map[0 := Emission(e0, None)], map[2 := Built(0)], []);
    s := ReachNext(h, s, TakeNumber(1, d1));
    assert s == Shared(2, None, None, map[0 := Emission(e0, None)], map[2 := Built(0), 1 := Numbered(d1, 1)], []);
    s := ReachNext(h, s, ReadHash(1));
    assert s.built == map[0 := Emission(e0, None), 1 := Emission(e1, None)];
    assert s.emits == map[2 := Built(0), 1 := Built(1)];
  }

  /** Then task 1 writes its hash and delivers. */
  lemma OneDelivered(h: Hash, s0: Shared, e0: Emitted, e1: Emitted)
    requires e0.seqNo == 0 && e1.seqNo == 1
    requires s0 == Shared(2, None, None, map[0 := Emission(e0, None), 1 := Emission(e1, None)],
                          map[2 := Built(0), 1 := Built(1)], [])
    requires Reachable(h, s0)
    ensures Reachable(h, Shared(2, Some(e1.hashCurr), Some(e1), s0.built, map[2 := Built(0)], [e1]))
  {
    var s := ReachNext(h, s0, WriteHash(1));
    assert s == Shared(2, Some(e1.hashCurr), Some(e1), s0.built, map[2 := Built(0), 1 := Written(1)], []);
    s := ReachNext(h, s, Deliver(1));
    assert s == Shared(2, Some(e1.hashCurr), Some(e1), s0.built, map[2 := Built(0)], [e1]);
  }

  /** Task 2 writes its hash before task 1's next event reads the state. */
  lemma OtherWrites(h: Hash, s0: Shared, e0: Emitted, e1: Emitted, d2: Draft)
    requires s0 == Shared(2, Some(e1.hashCurr), Some(e1), map[0 := Emission(e0, None), 1 := Emission(e1, None)],
                          map[2 := Built(0)], [e1])
    requires e0.seqNo == 0 && Reachable(h, s0)
    ensures Reachable(h, Shared(3, Some(e0.hashCurr), Some(e0), s0.built,
                                map[2 := Written(0), 1 := Numbered(d2, 2)], [e1]))
  {
    var s := ReachNext(h, s0, WriteHash(2));
    assert s == Shared(2, Some(e0.hashCurr), Some(e0), s0.built, map[2 := Written(0)], [e1]);
    s := ReachNext(h, s, TakeNumber(1, d2));
    assert s == Shared(3, Some(e0.hashCurr), Some(e0), s0.built, map[2 := Written(0), 1 := Numbered(d2, 2)], [e1]);
  }

  /**
   So consecutive numbers in one task's stream are not enough under overlap. Task 1's next event has
   number 2, but task 2 writes its hash before that event reads the state: it follows on from task
   2's event number 0, which is in another stream.
   */
  lemma OverlapBreaksLinks(h: Hash, d0: Draft, d1: Draft, d2: Draft)
    ensures exists s: Shared ::
      && Reachable(h, s) && |s.stored| == 2
      && s.stored[0].task == 1 && s.stored[0].seqNo == 1
      && s.stored[1].task == 1 && s.stored[1].seqNo == 2
      && SourceOf(s, s.stored[1]) == Some(BuiltFrom(h, 2, d0, 0, None))
  {
    BothHaveRead(h, d0, d1);
    var e0, e1 := BuiltFrom(h, 2, d0, 0, None), BuiltFrom(h, 1, d1, 1, None);
    var built := map[0 := Emission(e0, None), 1 := Emission(e1, None)];
    OneDelivered(h, Shared(2, None, None, built, map[2 := Built(0), 1 := Built(1)], []), e0, e1);
    OtherWrites(h, Shared(2, Some(e1.hashCurr), Some(e1), built, map[2 := Built(0)], [e1]), e0, e1, d2);
    ThenStored(h, Shared(3, Some(e0.hashCurr), Some(e0), built, map[2 := Written(0), 1 := Numbered(d2, 2)], [e1]), d2);
  }

  lemma ThenStored(h: Hash, s0: Shared, d2: Draft)
    requires Reachable(h, s0) && 1 in s0.emits && s0.emits[1] == Numbered(d2, 2)
    ensures exists s: Shared ::
      && Reachable(h, s) && |s.stored| == |s0.stored| + 1 && s0.stored <= s.stored
      && s.stored[|s0.stored|].task == 1 && s.stored[|s0.stored|].seqNo == 2
      && SourceOf(s, s.stored[|s0.stored|]) == s0.writer
  {
    var e2 := BuiltFrom(h, 1, d2, 2, s0.prevHash);
    var s := ReachNext(h, s0, ReadHash(1));
    assert s.built[2] == Emission(e2, s0.writer) && s.emits[1] == Built(2);
    s := ReachNext(h, s, WriteHash(1));
    assert s.built[2] == Emission(e2, s0.writer) && s.emits[1] == Written(2);
    s := ReachNext(h, s, Deliver(1));
    assert s.stored == s0.stored + [e2];
  }
}
