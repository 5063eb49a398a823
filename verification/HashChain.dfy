/**
 The hash-chained task event log (axontask-shared/src/models/task_event.rs).

 SHA-256 is an arbitrary function from byte strings to 32-byte digests. Nothing is assumed
 about it: the tamper-evidence results end in "the logs agree, or these two byte strings collide".
 */
module HashChain {
  import opened Wrappers
  import opened Text

  type Digest = d: seq<Byte> | |d| == 32 witness seq(32, _ => 0)

  /** A byte string handed to SHA-256. */
  datatype Message = Message(bytes: seq<Byte>)

  type Sha256 = Message -> Digest

  /** The arguments of `compute_hash`; a `Hash` maps them to the digest it returns. */
  datatype Inputs = Inputs(prev: Option<seq<Byte>>, seqNo: I64, kind: EventKind, payload: seq<Byte>)

  type Hash = Inputs -> Digest
  type TaskId = int

  datatype EventKind =
    Started | Progress | Stdout | Stderr | Success | Error | Canceled | Timeout | Digest

  /**
   A row of `task_events`. The table's CHECK constraint makes `kind` one of the nine words;
   `payload` is the bytes handed to the hasher.
   */
  datatype TaskEvent = TaskEvent(
    taskId: TaskId,
    seqNo: I64,
    ts: int,
    kind: EventKind,
    payload: seq<Byte>,
    hashPrev: Option<seq<Byte>>,
    hashCurr: seq<Byte>)

  function KindWord(k: EventKind): string {
    match k
    case Started => "started"
    case Progress => "progress"
    case Stdout => "stdout"
    case Stderr => "stderr"
    case Success => "success"
    case Error => "error"
    case Canceled => "canceled"
    case Timeout => "timeout"
    case Digest => "digest"
  }

  /** `EventKind::from_str`. */
  function KindOf(word: string): Option<EventKind> {
    if word == "started" then Some(Started)
    else if word == "progress" then Some(Progress)
    else if word == "stdout" then Some(Stdout)
    else if word == "stderr" then Some(Stderr)
    else if word == "success" then Some(Success)
    else if word == "error" then Some(Error)
    else if word == "canceled" then Some(Canceled)
    else if word == "timeout" then Some(Timeout)
    else if word == "digest" then Some(EventKind.Digest)
    else None
  }

  /** The words the table's constraint admits. */
  const ALLOWED_KINDS: set<string> :=
    {"started", "progress", "stdout", "stderr", "success", "error", "canceled", "timeout", "digest"}

  /** A word stands for a kind exactly if it is that kind's own, and the table admits exactly those words. */
  lemma KindWords(word: string, k: EventKind)
    ensures KindOf(word) == Some(k) <==> word == KindWord(k)
    ensures word in ALLOWED_KINDS <==> KindOf(word).Some?
  {
  }

  function Ascii(s: string): seq<Byte>
    requires forall i | 0 <= i < |s| :: s[i] < 128 as char
  {
    seq(|s|, i requires 0 <= i < |s| => s[i] as int)
  }

  function TextOf(bytes: seq<Byte>): string { seq(|bytes|, i requires 0 <= i < |bytes| => bytes[i] as char) }

  lemma AsciiReads(s: string)
    requires forall i | 0 <= i < |s| :: s[i] < 128 as char
    ensures TextOf(Ascii(s)) == s
  {
  }

  function KindBytes(k: EventKind): seq<Byte> { Ascii(KindWord(k)) }

  // ---- Byte layout ---------------------------------------------------------

  function ByteAt(u: nat, i: nat): Byte {
    if i == 0 then u % 256 else ByteAt(u / 256, i - 1)
  }

  /** `i64::to_le_bytes`: two's complement, least significant byte first. */
  function LeBytes(x: I64): seq<Byte> {
    seq(8, i requires 0 <= i => ByteAt(x % 0x1_0000_0000_0000_0000, i))
  }

  function PrevBytes(prev: Option<seq<Byte>>): seq<Byte> {
    if prev.Some? then prev.value else []
  }

  /** What the hasher is fed: previous hash if any, sequence number, kind word, payload. */
  function Layout(prev: Option<seq<Byte>>, seqNo: I64, kind: seq<Byte>, payload: seq<Byte>): Message {
    Message(PrevBytes(prev) + (LeBytes(seqNo) + (kind + payload)))
  }

  function Encode(x: Inputs): Message { Layout(x.prev, x.seqNo, KindBytes(x.kind), x.payload) }

  function EventHash(sha: Sha256): Hash { (x: Inputs) => sha(Encode(x)) }

  method ComputeHash(sha: Sha256, x: Inputs) returns (digest: Digest)
    ensures digest == EventHash(sha)(x)
  {
    var hasher: seq<Byte> := [];
    if x.prev.Some? {
      hasher := hasher + x.prev.value;
    }
    hasher := hasher + LeBytes(x.seqNo);
    hasher := hasher + KindBytes(x.kind);
    hasher := hasher + x.payload;
    assert hasher == Encode(x).bytes;
    digest := sha(Message(hasher));
  }

  function Pow256(k: nat): nat { if k == 0 then 1 else 256 * Pow256(k - 1) }

  lemma {:induction false} BytesDetermine(u: nat, v: nat, width: nat)
    requires u < Pow256(width) && v < Pow256(width)
    requires forall i | 0 <= i < width :: ByteAt(u, i) == ByteAt(v, i)
    ensures u == v
  {
    if width > 0 {
      assert ByteAt(u, 0) == ByteAt(v, 0);
      assert forall i | 0 <= i < width - 1 ::
        ByteAt(u / 256, i) == ByteAt(u, i + 1) == ByteAt(v, i + 1) == ByteAt(v / 256, i);
      BytesDetermine(u / 256, v / 256, width - 1);
    }
  }

  /** The number some bytes denote, the first of them the least significant. */
  function ValueOf(bytes: seq<Byte>): nat { if bytes == [] then 0 else bytes[0] + 256 * ValueOf(bytes[1..]) }

  lemma {:induction false} BytesValue(u: nat, bytes: seq<Byte>)
    requires u < Pow256(|bytes|) && forall i | 0 <= i < |bytes| :: bytes[i] == ByteAt(u, i)
    ensures ValueOf(bytes) == u
    decreases |bytes|
  {
    if bytes != [] {
      var rest := bytes[1..];
      assert forall i | 0 <= i < |rest| :: rest[i] == bytes[i + 1] == ByteAt(u, i + 1) == ByteAt(u / 256, i);
      BytesValue(u / 256, rest);
    }
  }

  /** Eight bytes, least significant first, that denote the number modulo 2^64. */
  lemma LeBytesValue(x: I64)
    ensures |LeBytes(x)| == 8 && ValueOf(LeBytes(x)) == x % 0x1_0000_0000_0000_0000
  {
    assert Pow256(8) == 0x1_0000_0000_0000_0000;
    BytesValue(x % 0x1_0000_0000_0000_0000, LeBytes(x));
  }

  lemma LeBytesInjective(x: I64, y: I64)
    requires LeBytes(x) == LeBytes(y)
    ensures x == y
  {
    var u, v := x % 0x1_0000_0000_0000_0000, y % 0x1_0000_0000_0000_0000;
    assert forall i | 0 <= i < 8 :: ByteAt(u, i) == LeBytes(x)[i] == LeBytes(y)[i] == ByteAt(v, i);
    assert Pow256(8) == 0x1_0000_0000_0000_0000;
    BytesDetermine(u, v, 8);
  }

  lemma SplitEqual<T>(a: seq<T>, b: seq<T>, c: seq<T>, d: seq<T>)
    requires |a| == |c| && a + b == c + d
    ensures a == c && b == d
  {
    assert a == (a + b)[..|a|] == (c + d)[..|c|] == c;
    assert b == (a + b)[|a|..] == (c + d)[|c|..] == d;
  }

  /** No kind word is a prefix of another, so kind and payload can be told apart. */
  lemma KindsPrefixFree(a: EventKind, p: seq<Byte>, b: EventKind, q: seq<Byte>)
    requires KindBytes(a) + p == KindBytes(b) + q
    ensures a == b && p == q
  {
    var x := KindBytes(a) + p;
    assert forall i | 0 <= i < 4 ::
      KindWord(a)[i] as int == KindBytes(a)[i] == x[i] == KindBytes(b)[i] == KindWord(b)[i] as int;
    assert KindWord(a)[0] == KindWord(b)[0] && KindWord(a)[1] == KindWord(b)[1] &&
           KindWord(a)[2] == KindWord(b)[2] && KindWord(a)[3] == KindWord(b)[3];
    assert a == b;
    SplitEqual(KindBytes(a), p, KindBytes(b), q);
  }

  /** With the presence of a 32-byte previous hash known, the layout determines every field. */
  lemma EncodeInjective(x: Inputs, y: Inputs)
    requires x.prev.Some? <==> y.prev.Some?
    requires |PrevBytes(x.prev)| == |PrevBytes(y.prev)|
    requires Encode(x) == Encode(y)
    ensures x == y
  {
    var k, k' := KindBytes(x.kind) + x.payload, KindBytes(y.kind) + y.payload;
    SplitEqual(PrevBytes(x.prev), LeBytes(x.seqNo) + k, PrevBytes(y.prev), LeBytes(y.seqNo) + k');
    SplitEqual(LeBytes(x.seqNo), k, LeBytes(y.seqNo), k');
    LeBytesInjective(x.seqNo, y.seqNo);
    KindsPrefixFree(x.kind, x.payload, y.kind, y.payload);
  }

  /** Without the CHECK constraint on `kind` the layout is ambiguous. */
  lemma UncheckedKindAmbiguous(prev: Option<seq<Byte>>, seqNo: I64)
    ensures Layout(prev, seqNo, Ascii("x"), Ascii("12")) == Layout(prev, seqNo, Ascii("x1"), Ascii("2"))
  {
    assert Ascii("x") + Ascii("12") == Ascii("x1") + Ascii("2");
  }

  // ---- Verification --------------------------------------------------------

  type Log = seq<TaskEvent>

  function PrevHash(log: Log, i: nat): Option<seq<Byte>>
    requires i <= |log|
  {
    if i == 0 then None else Some(log[i - 1].hashCurr)
  }

  function InputsAt(log: Log, i: nat): Inputs
    requires i < |log|
  {
    Inputs(PrevHash(log, i), log[i].seqNo, log[i].kind, log[i].payload)
  }

  /** Event `i` stores its predecessor's hash and the hash of its own content. */
  predicate Linked(h: Hash, log: Log, i: nat)
    requires i < |log|
  {
    log[i].hashPrev == PrevHash(log, i) && log[i].hashCurr == h(InputsAt(log, i))
  }

  ghost predicate ChainValid(h: Hash, log: Log) {
    forall i | 0 <= i < |log| :: Linked(h, log, i)
  }

  method VerifyChain(h: Hash, events: Log) returns (ok: bool)
    ensures ok <==> ChainValid(h, events)
  {
    if events == [] {
      return true;
    }
    var prevHash: Option<seq<Byte>> := None;
    for i := 0 to |events|
      invariant prevHash == PrevHash(events, i)
      invariant forall k | 0 <= k < i :: Linked(h, events, k)
    {
      var computed := h(Inputs(prevHash, events[i].seqNo, events[i].kind, events[i].payload));
      if computed != events[i].hashCurr || events[i].hashPrev != prevHash {
        assert !Linked(h, events, i);
        return false;
      }
      prevHash := Some(events[i].hashCurr);
    }
    return true;
  }

  // ---- Tamper evidence -----------------------------------------------------

  predicate SameExceptTime(e: TaskEvent, f: TaskEvent) {
    e.seqNo == f.seqNo && e.kind == f.kind && e.payload == f.payload &&
    e.hashPrev == f.hashPrev && e.hashCurr == f.hashCurr
  }

  ghost predicate Agree(a: Log, b: Log) {
    |a| == |b| && forall i | 0 <= i < |a| :: SameExceptTime(a[i], b[i])
  }

  ghost predicate Collision(sha: Sha256, x: Message, y: Message) { x != y && sha(x) == sha(y) }

  /** The `k`-th events before the ends of two logs feed the hasher the same. */
  predicate SameInputs(a: Log, b: Log, k: nat)
    requires k < |a| && k < |b|
  {
    InputsAt(a, |a| - 1 - k) == InputsAt(b, |b| - 1 - k)
  }

  /** They feed it differently and the hashes are equal all the same. */
  ghost predicate ClashAt(h: Hash, a: Log, b: Log, k: nat)
    requires k < |a| && k < |b|
  {
    var x, y := InputsAt(a, |a| - 1 - k), InputsAt(b, |b| - 1 - k);
    x != y && h(x) == h(y)
  }

  /** Walking back from equal final hashes, hashes stay equal as long as the inputs do. */
  lemma {:induction false} EqualHashesBack(h: Hash, a: Log, b: Log, k: nat)
    requires ChainValid(h, a) && ChainValid(h, b) && k < |a| && k < |b|
    requires a[|a| - 1].hashCurr == b[|b| - 1].hashCurr
    requires forall j | 0 <= j < k :: SameInputs(a, b, j)
    ensures a[|a| - 1 - k].hashCurr == b[|b| - 1 - k].hashCurr
    ensures SameInputs(a, b, k) || ClashAt(h, a, b, k)
  {
    if k > 0 {
      EqualHashesBack(h, a, b, k - 1);
      assert SameInputs(a, b, k - 1);
    }
    assert Linked(h, a, |a| - 1 - k) && Linked(h, b, |b| - 1 - k);
  }

  /** The first clash found walking back from the end over the first `k` positions. */
  lemma {:induction false} AgreeBackwards(h: Hash, a: Log, b: Log, k: nat)
    requires ChainValid(h, a) && ChainValid(h, b) && k <= |a| && k <= |b| && a != [] && b != []
    requires a[|a| - 1].hashCurr == b[|b| - 1].hashCurr
    ensures (forall j | 0 <= j < k :: SameInputs(a, b, j)) || (exists r | 0 <= r < k :: ClashAt(h, a, b, r))
  {
    if k > 0 {
      AgreeBackwards(h, a, b, k - 1);
      if forall j | 0 <= j < k - 1 :: SameInputs(a, b, j) {
        EqualHashesBack(h, a, b, k - 1);
      }
    }
  }

  /** Both of first events or both of later ones, clashing inputs are colliding messages. */
  lemma ClashCollides(sha: Sha256, a: Log, b: Log, k: nat)
    requires k < |a| && k < |b| && (k == |a| - 1 <==> k == |b| - 1)
    requires ChainValid(EventHash(sha), a) && ChainValid(EventHash(sha), b)
    requires ClashAt(EventHash(sha), a, b, k)
    ensures CollideAt(sha, a, b, k)
  {
    var h, i, j := EventHash(sha), |a| - 1 - k, |b| - 1 - k;
    if i > 0 { assert Linked(h, a, i - 1) && Linked(h, b, j - 1); }
    var x, y := InputsAt(a, i), InputsAt(b, j);
    if Encode(x) == Encode(y) { EncodeInjective(x, y); }
  }

  ghost predicate CollideAt(sha: Sha256, a: Log, b: Log, k: nat)
    requires k < |a| && k < |b|
  {
    Collision(sha, Encode(InputsAt(a, |a| - 1 - k)), Encode(InputsAt(b, |b| - 1 - k)))
  }

  /** Two messages the logs themselves hash, at one distance from the end, collide. */
  ghost predicate SomeCollision(sha: Sha256, a: Log, b: Log) {
    exists r | 0 <= r < |a| && r < |b| :: CollideAt(sha, a, b, r)
  }

  /**
   Two verified logs of one length with the same final hash agree on everything but `ts` (and the
   task), or two messages at one position are distinct and have one digest.
   */
  lemma TamperEvidence(sha: Sha256, a: Log, b: Log)
    requires ChainValid(EventHash(sha), a) && ChainValid(EventHash(sha), b)
    requires |a| == |b| > 0 && a[|a| - 1].hashCurr == b[|b| - 1].hashCurr
    ensures Agree(a, b) || SomeCollision(sha, a, b)
  {
    var h, n := EventHash(sha), |a|;
    AgreeBackwards(h, a, b, n);
    if r :| 0 <= r < n && ClashAt(h, a, b, r) {
      ClashCollides(sha, a, b, r);
    } else {
      SameInputsAgree(h, a, b);
    }
  }

  lemma SameInputsAgree(h: Hash, a: Log, b: Log)
    requires ChainValid(h, a) && ChainValid(h, b) && |a| == |b|
    requires forall j | 0 <= j < |a| :: SameInputs(a, b, j)
    ensures Agree(a, b)
  {
    forall i | 0 <= i < |a| ensures SameExceptTime(a[i], b[i]) {
      assert SameInputs(a, b, |a| - 1 - i) && Linked(h, a, i) && Linked(h, b, i);
    }
  }

  /** A digest that happens to read as the header of a first event: `seqNo`, then a kind word. */
  ghost predicate HeaderShaped(d: seq<Byte>, seqNo: I64, kind: EventKind) {
    LeBytes(seqNo) + KindBytes(kind) <= d
  }

  /**
   Verified logs of different lengths never share a final hash, unless two messages collide or a
   digest inside the longer log reads as the header of the shorter log's first event. Cutting
   events off the front is therefore caught too.
   */
  lemma TamperEvidenceAnyLength(sha: Sha256, a: Log, b: Log)
    requires ChainValid(EventHash(sha), a) && ChainValid(EventHash(sha), b)
    requires 0 < |a| < |b| && a[|a| - 1].hashCurr == b[|b| - 1].hashCurr
    ensures SomeCollision(sha, a, b) || HeaderShaped(b[|b| - |a| - 1].hashCurr, a[0].seqNo, a[0].kind)
  {
    var h, n := EventHash(sha), |a|;
    AgreeBackwards(h, a, b, n);
    assert !SameInputs(a, b, n - 1);
    var r :| 0 <= r < n && ClashAt(h, a, b, r);
    if r < n - 1 {
      ClashCollides(sha, a, b, r);
    } else {
      FirstOrCollision(sha, a, b);
    }
  }

  lemma FirstOrCollision(sha: Sha256, a: Log, b: Log)
    requires ChainValid(EventHash(sha), b) && 0 < |a| < |b| && ClashAt(EventHash(sha), a, b, |a| - 1)
    ensures CollideAt(sha, a, b, |a| - 1) || HeaderShaped(b[|b| - |a| - 1].hashCurr, a[0].seqNo, a[0].kind)
  {
    if !CollideAt(sha, a, b, |a| - 1) { FirstAgainstLater(sha, a, b, |b| - |a|); }
  }

  lemma FirstAgainstLater(sha: Sha256, a: Log, b: Log, j: nat)
    requires ChainValid(EventHash(sha), b) && 0 < |a| && 0 < j < |b|
    requires Encode(InputsAt(a, 0)) == Encode(InputsAt(b, j))
    ensures HeaderShaped(b[j - 1].hashCurr, a[0].seqNo, a[0].kind)
  {
    assert Linked(EventHash(sha), b, j - 1);
    var rest := LeBytes(b[j].seqNo) + (KindBytes(b[j].kind) + b[j].payload);
    LongHeader(b[j - 1].hashCurr, rest, a[0].seqNo, a[0].kind, a[0].payload);
  }

  lemma LongHeader(d: seq<Byte>, rest: seq<Byte>, seqNo: I64, kind: EventKind, payload: seq<Byte>)
    requires |d| == 32 && [] + (LeBytes(seqNo) + (KindBytes(kind) + payload)) == d + rest
    ensures HeaderShaped(d, seqNo, kind)
  {
    var head := LeBytes(seqNo) + KindBytes(kind);
    assert |head| <= 16;
    assert head + payload == d + rest;
    assert head == (d + rest)[..|head|] == d[..|head|];
  }

  /** A verified log is determined by its contents: there is at most one chain for each list of contents. */
  lemma {:induction false} ContentsDetermineChain(h: Hash, a: Log, b: Log)
    requires ChainValid(h, a) && ChainValid(h, b) && |a| == |b|
    requires forall i | 0 <= i < |a| ::
      a[i].seqNo == b[i].seqNo && a[i].kind == b[i].kind && a[i].payload == b[i].payload
    ensures Agree(a, b)
  {
    if a != [] {
      var n := |a| - 1;
      PrefixValid(h, a, n);
      PrefixValid(h, b, n);
      ContentsDetermineChain(h, a[..n], b[..n]);
      assert forall i | 0 <= i < n :: SameExceptTime(a[..n][i], b[..n][i]);
      assert Linked(h, a, n) && Linked(h, b, n) && PrevHash(a, n) == PrevHash(b, n);
    }
  }

  /** What an event says, apart from the chaining. */
  datatype Content = Content(seqNo: I64, ts: int, kind: EventKind, payload: seq<Byte>)

  predicate Carries(e: TaskEvent, c: Content) {
    e.seqNo == c.seqNo && e.ts == c.ts && e.kind == c.kind && e.payload == c.payload
  }

  /** The log that one append after the other makes of some contents. */
  function ChainOf(h: Hash, task: TaskId, contents: seq<Content>): (log: Log)
    ensures |log| == |contents|
  {
    if contents == [] then []
    else
      var before, c := ChainOf(h, task, contents[..|contents| - 1]), contents[|contents| - 1];
      before + [NextEvent(h, before, task, c.seqNo, c.ts, c.kind, c.payload)]
  }

  /** Any contents whatever have a chain that verifies: who can rewrite a whole log can make it say anything. */
  lemma {:induction false} AnyContentsVerify(h: Hash, task: TaskId, contents: seq<Content>)
    ensures ChainValid(h, ChainOf(h, task, contents))
    ensures forall i | 0 <= i < |contents| :: Carries(ChainOf(h, task, contents)[i], contents[i])
  {
    if contents != [] {
      var n := |contents| - 1;
      var before, c := ChainOf(h, task, contents[..n]), contents[n];
      AnyContentsVerify(h, task, contents[..n]);
      ExtendValid(h, before, NextEvent(h, before, task, c.seqNo, c.ts, c.kind, c.payload));
      assert forall i | 0 <= i < n :: Carries(before[i], contents[..n][i]);
    }
  }

  // ---- What verification does not see --------------------------------------

  /** Truncating the end of a log is never detected. */
  lemma PrefixValid(h: Hash, log: Log, n: nat)
    requires ChainValid(h, log) && n <= |log|
    ensures ChainValid(h, log[..n])
  {
    forall i | 0 <= i < n ensures Linked(h, log[..n], i) {
      assert Linked(h, log, i);
    }
  }

  /** Nor is any change of timestamps or task ids: only the five chained fields matter. */
  lemma TimestampsUnseen(h: Hash, a: Log, b: Log)
    requires Agree(a, b)
    ensures ChainValid(h, a) <==> ChainValid(h, b)
  {
    forall i | 0 <= i < |a| ensures Linked(h, a, i) <==> Linked(h, b, i) {
      assert SameExceptTime(a[i], b[i]) && (i > 0 ==> SameExceptTime(a[i - 1], b[i - 1]));
    }
  }

  /** The event `append` builds on top of `log`. */
  function NextEvent(h: Hash, log: Log, task: TaskId, seqNo: I64, ts: int, kind: EventKind, payload: seq<Byte>)
    : TaskEvent
  {
    var prev := PrevHash(log, |log|);
    TaskEvent(task, seqNo, ts, kind, payload, prev, h(Inputs(prev, seqNo, kind, payload)))
  }

  /** A chain extends under any sequence number: gaps and repeats are not detected either. */
  lemma ExtendValid(h: Hash, log: Log, e: TaskEvent)
    requires ChainValid(h, log)
    ensures ChainValid(h, log + [e]) <==>
      SameExceptTime(e, NextEvent(h, log, e.taskId, e.seqNo, e.ts, e.kind, e.payload))
  {
    var log' := log + [e];
    assert forall i | 0 <= i < |log| :: Linked(h, log, i) <==> Linked(h, log', i);
    assert log'[|log|] == e && PrevHash(log', |log|) == PrevHash(log, |log|);
    assert Linked(h, log', |log|) <==> SameExceptTime(e, NextEvent(h, log, e.taskId, e.seqNo, e.ts, e.kind, e.payload));
  }
}
