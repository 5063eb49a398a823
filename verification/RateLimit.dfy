/**
 Token-bucket rate limiting (axontask-api/src/middleware/rate_limit.rs): the in-memory bucket that
 refills on every request, and the Redis script that stores a bucket only when it admits and lets
 the key expire. Token amounts are real numbers; times are whole seconds as the callers send them.
 */
module RateLimit {
  import opened Wrappers
  import opened Tenancy

  datatype Limit = Limit(requestsPerMinute: nat, rate: real, capacity: nat)

  function ForPlan(plan: TenantPlan): Limit {
    match plan
    case Trial => Limit(10, 10.0 / 60.0, 10)
    case Entry => Limit(60, 1.0, 60)
    case Pro => Limit(300, 5.0, 300)
    case Enterprise => Limit(1000, 16.67, 1000)
  }

  /** A bucket that fills up within a minute; all four plans have one. */
  predicate FillsInMinute(c: Limit) {
    c.rate > 0.0 && c.capacity >= 1 && 60.0 * c.rate >= c.capacity as real
  }

  lemma PlansFillInMinute(plan: TenantPlan)
    ensures FillsInMinute(ForPlan(plan))
  {
  }

  function Min(x: real, y: real): real { if x <= y then x else y }

  function Ceil(x: real): int { -((-x).Floor) }

  /** Level at `now` of a bucket that held `tokens` at `last`. */
  function Level(c: Limit, tokens: real, last: int, now: int): real {
    Min(c.capacity as real, tokens + (now - last) as real * c.rate)
  }

  // ---- The in-memory bucket ------------------------------------------------

  datatype Bucket = Bucket(tokens: real, lastRefill: int)

  class TokenBucket {
    var tokens: real
    var lastRefill: int

    function Abs(): Bucket reads this { Bucket(tokens, lastRefill) }

    constructor (capacity: nat, now: int)
      ensures Abs() == Bucket(capacity as real, now)
    {
      tokens, lastRefill := capacity as real, now;
    }

    /** Elapsed time is a subtraction of unsigned numbers, so the clock must not run backwards. */
    method Refill(c: Limit, now: int)
      requires now >= lastRefill
      modifies this
      ensures Abs() == Bucket(Level(c, old(tokens), old(lastRefill), now), now)
    {
      var newTokens := (now - lastRefill) as real * c.rate;
      tokens := Min(tokens + newTokens, c.capacity as real);
      lastRefill := now;
    }

    method TryConsume(count: real) returns (ok: bool)
      modifies this`tokens
      ensures ok <==> old(tokens) >= count
      ensures tokens == if ok then old(tokens) - count else old(tokens)
    {
      if tokens >= count {
        tokens := tokens - count;
        return true;
      }
      return false;
    }

    /** One request: refill, then take one token; on denial also the wait for one. */
    method Request(c: Limit, now: int) returns (r: Reply)
      requires now >= lastRefill && FillsInMinute(c)
      modifies this
      ensures (Abs(), r) == EagerStep(c, old(Abs()), now)
    {
      Refill(c, now);
      var ok := TryConsume(1.0);
      r := if ok then Reply(true, tokens.Floor, 60) else Reply(false, 0, SecondsUntilAvailable(c, tokens, 1.0));
    }
  }

  function SecondsUntilAvailable(c: Limit, tokens: real, count: real): int
    requires c.rate > 0.0
  {
    if count - tokens <= 0.0 then 0 else Ceil((count - tokens) / c.rate)
  }

  datatype Reply = Reply(ok: bool, remaining: int, resetAfter: int)

  function EagerStep(c: Limit, b: Bucket, now: int): (Bucket, Reply)
    requires c.rate > 0.0
  {
    var level := Level(c, b.tokens, b.lastRefill, now);
    if level >= 1.0 then (Bucket(level - 1.0, now), Reply(true, (level - 1.0).Floor, 60))
    else (Bucket(level, now), Reply(false, 0, SecondsUntilAvailable(c, level, 1.0)))
  }

  // ---- The Redis script ----------------------------------------------------

  /** The hash at a tenant's key, with the instant at which the key expires. */
  datatype Stored = Stored(tokens: real, lastRefill: int, expires: real)

  /** `now` is the caller's clock in whole seconds, `at` the instant Redis runs the script. */
  datatype Request = Request(now: int, at: real)

  /** The script runs no earlier than the caller read its clock and at most a minute later. */
  predicate Timely(r: Request) { r.now as real <= r.at <= r.now as real + 60.0 }

  function Visible(s: Option<Stored>, at: real): Option<Stored> {
    if s.Some? && at < s.value.expires then s else None
  }

  /** A missing key counts as a full bucket. */
  function LevelSeen(c: Limit, seen: Option<Stored>, now: int): real {
    match seen
    case Some(b) => Level(c, b.tokens, b.lastRefill, now)
    case None => Min(c.capacity as real, c.capacity as real + 0 as real * c.rate)
  }

  /** The script's effect on one key. Nothing is stored on denial. */
  function Script(c: Limit, s: Option<Stored>, r: Request): (Option<Stored>, Reply)
    requires c.rate > 0.0
  {
    var seen := Visible(s, r.at);
    var level := LevelSeen(c, seen, r.now);
    if level >= 1.0 then
      (Some(Stored(level - 1.0, r.now, r.at + 120.0)), Reply(true, (level - 1.0).Floor, 60))
    else (seen, Reply(false, 0, Ceil((1.0 - level) / c.rate)))
  }

  function KeyOf(keys: map<TenantId, Stored>, tenant: TenantId): Option<Stored> {
    if tenant in keys then Some(keys[tenant]) else None
  }

  class RateLimitStore {
    var keys: map<TenantId, Stored>

    constructor ()
      ensures keys == map[]
    {
      keys := map[];
    }

    method CheckRateLimit(c: Limit, tenant: TenantId, r: Request) returns (reply: Reply)
      requires c.rate > 0.0
      modifies this
      ensures (Visible(KeyOf(keys, tenant), r.at), reply) == Script(c, KeyOf(old(keys), tenant), r)
      ensures forall t | t != tenant :: KeyOf(keys, t) == KeyOf(old(keys), t)
    {
      ghost var before := KeyOf(keys, tenant);
      var tokens, lastRefill := c.capacity as real, r.now;
      if tenant in keys && r.at < keys[tenant].expires {
        tokens, lastRefill := keys[tenant].tokens, keys[tenant].lastRefill;
      }
      var elapsed := r.now - lastRefill;
      tokens := Min(c.capacity as real, tokens + elapsed as real * c.rate);
      assert tokens == LevelSeen(c, Visible(before, r.at), r.now);
      if tokens >= 1.0 {
        tokens := tokens - 1.0;
        keys := keys[tenant := Stored(tokens, r.now, r.at + 120.0)];
        reply := Reply(true, tokens.Floor, 60);
        assert KeyOf(keys, tenant) == Script(c, before, r).0;
      } else {
        reply := Reply(false, 0, Ceil((1.0 - tokens) / c.rate));
      }
    }
  }

  // ---- The script refines the bucket ---------------------------------------

  function EagerRun(c: Limit, b: Bucket, rs: seq<Request>): seq<Reply>
    requires c.rate > 0.0
    decreases |rs|
  {
    if rs == [] then []
    else var (b', reply) := EagerStep(c, b, rs[0].now); [reply] + EagerRun(c, b', rs[1..])
  }

  function ScriptRun(c: Limit, s: Option<Stored>, rs: seq<Request>): seq<Reply>
    requires c.rate > 0.0
    decreases |rs|
  {
    if rs == [] then []
    else var (s', reply) := Script(c, s, rs[0]); [reply] + ScriptRun(c, s', rs[1..])
  }

  /** Requests arrive in clock order, starting no earlier than `from`. */
  ghost predicate Ordered(rs: seq<Request>, from: int) {
    (forall i | 0 <= i < |rs| :: rs[i].now >= from && Timely(rs[i])) &&
    (forall i, j | 0 <= i < j < |rs| :: rs[i].now <= rs[j].now)
  }

  /** A stored bucket as some admission left it. */
  predicate StoredOk(c: Limit, b: Stored) {
    0.0 <= b.tokens <= c.capacity as real - 1.0 && b.expires >= b.lastRefill as real + 120.0
  }

  /** The eager bucket is the stored one, brought up to date. */
  ghost predicate Refines(c: Limit, s: Option<Stored>, b: Bucket) {
    match s
    case None => b.tokens == c.capacity as real
    case Some(st) =>
      && StoredOk(c, st) && st.lastRefill <= b.lastRefill
      && b.tokens == Level(c, st.tokens, st.lastRefill, b.lastRefill)
  }

  /** An expired key was full: a minute refills every plan's bucket and a key lives for two. */
  lemma ExpiredWasFull(c: Limit, b: Stored, r: Request)
    requires FillsInMinute(c) && StoredOk(c, b) && Timely(r) && r.at >= b.expires
    ensures Level(c, b.tokens, b.lastRefill, r.now) == c.capacity as real
  {
    var elapsed := (r.now - b.lastRefill) as real;
    assert elapsed >= 60.0;
    Widen(60.0, elapsed, c.rate);
    assert elapsed * c.rate >= c.capacity as real;
  }

  /** Refilling in two steps is refilling in one. */
  lemma LevelTwice(c: Limit, tokens: real, last: int, mid: int, now: int)
    requires c.rate > 0.0 && last <= mid <= now
    ensures Level(c, Level(c, tokens, last, mid), mid, now) == Level(c, tokens, last, now)
  {
    var x, y := (mid - last) as real, (now - mid) as real;
    assert (x + y) * c.rate == x * c.rate + y * c.rate;
    assert y * c.rate >= 0.0;
  }

  lemma StepRefines(c: Limit, s: Option<Stored>, b: Bucket, r: Request)
    requires FillsInMinute(c) && Refines(c, s, b) && Timely(r) && r.now >= b.lastRefill
    ensures Script(c, s, r).1 == EagerStep(c, b, r.now).1
    ensures Refines(c, Script(c, s, r).0, EagerStep(c, b, r.now).0)
    ensures EagerStep(c, b, r.now).0.lastRefill == r.now
  {
    assert (r.now - b.lastRefill) as real * c.rate >= 0.0;
    if s.Some? {
      LevelTwice(c, s.value.tokens, s.value.lastRefill, b.lastRefill, r.now);
      if r.at >= s.value.expires {
        ExpiredWasFull(c, s.value, r);
      }
    }
  }

  /**
   On every request trace with a non-decreasing clock, the script gives the bucket's replies:
   the same decisions, tokens remaining and waits. Storing nothing on denial and dropping the key
   after 120 seconds cannot be observed.
   */
  lemma {:induction false} ScriptRefinesBucket(c: Limit, s: Option<Stored>, b: Bucket, rs: seq<Request>)
    requires FillsInMinute(c) && Refines(c, s, b) && Ordered(rs, b.lastRefill)
    ensures ScriptRun(c, s, rs) == EagerRun(c, b, rs)
    decreases |rs|
  {
    if rs != [] {
      StepRefines(c, s, b, rs[0]);
      ScriptRefinesBucket(c, Script(c, s, rs[0]).0, EagerStep(c, b, rs[0].now).0, rs[1..]);
    }
  }

  lemma FreshKeyRefinesFullBucket(plan: TenantPlan, rs: seq<Request>, start: int)
    requires Ordered(rs, start)
    ensures var c := ForPlan(plan);
            ScriptRun(c, None, rs) == EagerRun(c, Bucket(c.capacity as real, start), rs)
  {
    PlansFillInMinute(plan);
    ScriptRefinesBucket(ForPlan(plan), None, Bucket(ForPlan(plan).capacity as real, start), rs);
  }

  // ---- What the decisions are, without buckets -----------------------------

  ghost predicate Clock(ts: seq<int>) { forall i, j | 0 <= i < j < |ts| :: ts[i] <= ts[j] }

  /** Tokens in sight of request `j` of a trace that starts full, given the decisions before it. */
  function TokensAt(c: Limit, ts: seq<int>, ds: seq<bool>, j: nat): real
    requires j < |ts| == |ds|
  {
    if j == 0 then c.capacity as real
    else Level(c, TokensAt(c, ts, ds, j - 1) - (if ds[j - 1] then 1.0 else 0.0), ts[j - 1], ts[j])
  }

  predicate DecidesAt(c: Limit, ts: seq<int>, ds: seq<bool>, j: nat)
    requires j < |ts| == |ds|
  {
    ds[j] <==> TokensAt(c, ts, ds, j) >= 1.0
  }

  /** The decisions of a token bucket: admit exactly when a token is in sight. */
  ghost predicate BucketDecides(c: Limit, ts: seq<int>, ds: seq<bool>) {
    |ts| == |ds| && forall j | 0 <= j < |ds| :: DecidesAt(c, ts, ds, j)
  }

  /** The window rule: admit exactly when every window that ends here has room for one more. */
  ghost predicate WindowDecides(c: Limit, ts: seq<int>, ds: seq<bool>) {
    |ts| == |ds| && forall j | 0 <= j < |ds| :: WindowDecidesAt(c, ts, ds, j)
  }

  ghost predicate WindowDecidesAt(c: Limit, ts: seq<int>, ds: seq<bool>, j: nat)
    requires j < |ts| == |ds|
  {
    ds[j] <==> forall i | 0 <= i <= j :: Allowance(c, ts, ds, i, j) >= 1.0
  }

  /** Number of requests admitted among `i..j-1`. */
  function Admitted(ds: seq<bool>, i: nat, j: nat): real
    requires i <= j <= |ds|
  {
    if i == j then 0.0 else Admitted(ds, i, j - 1) + (if ds[j - 1] then 1.0 else 0.0)
  }

  /** What a window from request `i` up to request `j` leaves to admit. */
  function Allowance(c: Limit, ts: seq<int>, ds: seq<bool>, i: nat, j: nat): real
    requires i <= j < |ts| == |ds|
  {
    c.capacity as real + (ts[j] - ts[i]) as real * c.rate - Admitted(ds, i, j)
  }

  /** Tokens earned and spent between two neighbouring requests. */
  function Change(c: Limit, ts: seq<int>, ds: seq<bool>, j: nat): real
    requires 0 < j < |ts| == |ds|
  {
    (ts[j] - ts[j - 1]) as real * c.rate - (if ds[j - 1] then 1.0 else 0.0)
  }

  lemma TokensChange(c: Limit, ts: seq<int>, ds: seq<bool>, j: nat)
    requires 0 < j < |ts| == |ds|
    ensures TokensAt(c, ts, ds, j) == Min(c.capacity as real, TokensAt(c, ts, ds, j - 1) + Change(c, ts, ds, j))
  {
  }

  lemma Distribute(x: real, y: real, r: real)
    ensures (x + y) * r == x * r + y * r
  {
  }

  lemma AllowanceChange(c: Limit, ts: seq<int>, ds: seq<bool>, i: nat, j: nat)
    requires i < j < |ts| == |ds|
    ensures Allowance(c, ts, ds, i, j) == Allowance(c, ts, ds, i, j - 1) + Change(c, ts, ds, j)
  {
    Distribute((ts[j - 1] - ts[i]) as real, (ts[j] - ts[j - 1]) as real, c.rate);
    assert (ts[j - 1] - ts[i]) as real + (ts[j] - ts[j - 1]) as real == (ts[j] - ts[i]) as real;
  }

  lemma AllowanceNow(c: Limit, ts: seq<int>, ds: seq<bool>, j: nat)
    requires j < |ts| == |ds|
    ensures Allowance(c, ts, ds, j, j) == c.capacity as real
  {
  }

  lemma {:induction false} TokensInBounds(c: Limit, ts: seq<int>, ds: seq<bool>, j: nat)
    requires FillsInMinute(c) && Clock(ts) && BucketDecides(c, ts, ds) && j < |ts|
    ensures 0.0 <= TokensAt(c, ts, ds, j) <= c.capacity as real
  {
    if j > 0 {
      TokensInBounds(c, ts, ds, j - 1);
      assert DecidesAt(c, ts, ds, j - 1);
      assert (ts[j] - ts[j - 1]) as real * c.rate >= 0.0;
    }
  }

  lemma {:induction false} NoMoreThanAllowed(c: Limit, ts: seq<int>, ds: seq<bool>, i: nat, j: nat)
    requires i <= j < |ts| == |ds|
    ensures TokensAt(c, ts, ds, j) <= Allowance(c, ts, ds, i, j)
    decreases j
  {
    if j == i {
      AllowanceNow(c, ts, ds, j);
      if j > 0 { TokensChange(c, ts, ds, j); }
    } else {
      NoMoreThanAllowed(c, ts, ds, i, j - 1);
      TokensChange(c, ts, ds, j);
      AllowanceChange(c, ts, ds, i, j);
    }
  }

  /** Some window is exhausted down to exactly the tokens in sight. */
  lemma {:induction false} SomeWindowTight(c: Limit, ts: seq<int>, ds: seq<bool>, j: nat)
    requires j < |ts| == |ds|
    ensures exists i | 0 <= i <= j :: TokensAt(c, ts, ds, j) == Allowance(c, ts, ds, i, j)
  {
    AllowanceNow(c, ts, ds, j);
    if j > 0 && TokensAt(c, ts, ds, j) != c.capacity as real {
      SomeWindowTight(c, ts, ds, j - 1);
      var i :| 0 <= i <= j - 1 && TokensAt(c, ts, ds, j - 1) == Allowance(c, ts, ds, i, j - 1);
      TokensChange(c, ts, ds, j);
      AllowanceChange(c, ts, ds, i, j);
    }
  }

  /**
   A token bucket admits a request if and only if admitting it keeps every window that ends with it
   within capacity + rate * length. So it enforces the bound and denies nothing the bound allows.
   */
  lemma BucketIffWindows(c: Limit, ts: seq<int>, ds: seq<bool>)
    ensures BucketDecides(c, ts, ds) <==> WindowDecides(c, ts, ds)
  {
    if |ts| == |ds| {
      forall j | 0 <= j < |ds| ensures DecidesAt(c, ts, ds, j) <==> WindowDecidesAt(c, ts, ds, j) {
        DecidesAlike(c, ts, ds, j);
      }
    }
  }

  lemma DecidesAlike(c: Limit, ts: seq<int>, ds: seq<bool>, j: nat)
    requires j < |ts| == |ds|
    ensures DecidesAt(c, ts, ds, j) <==> WindowDecidesAt(c, ts, ds, j)
  {
    forall i: nat | i <= j ensures TokensAt(c, ts, ds, j) <= Allowance(c, ts, ds, i, j) {
      NoMoreThanAllowed(c, ts, ds, i, j);
    }
    SomeWindowTight(c, ts, ds, j);
  }

  /** Any time window, if `i..j` are its requests, admits at most capacity + rate * width. */
  lemma WindowBound(c: Limit, ts: seq<int>, ds: seq<bool>, i: nat, j: nat, width: real)
    requires FillsInMinute(c) && Clock(ts) && BucketDecides(c, ts, ds)
    requires i <= j < |ts| && (ts[j] - ts[i]) as real <= width
    ensures Admitted(ds, i, j + 1) <= c.capacity as real + width * c.rate
  {
    NoMoreThanAllowed(c, ts, ds, i, j);
    TokensInBounds(c, ts, ds, j);
    assert DecidesAt(c, ts, ds, j);
    AllowanceWithin(c, ts, ds, i, j, width);
    LastAdmission(ds, i, j, TokensAt(c, ts, ds, j), Allowance(c, ts, ds, i, j), c.capacity as real + width * c.rate);
  }

  lemma LastAdmission(ds: seq<bool>, i: nat, j: nat, tokens: real, allowance: real, bound: real)
    requires i <= j < |ds| && 0.0 <= tokens <= allowance && (ds[j] ==> tokens >= 1.0)
    requires allowance + Admitted(ds, i, j) <= bound
    ensures Admitted(ds, i, j + 1) <= bound
  {
  }

  lemma AllowanceWithin(c: Limit, ts: seq<int>, ds: seq<bool>, i: nat, j: nat, width: real)
    requires c.rate > 0.0 && i <= j < |ts| == |ds| && (ts[j] - ts[i]) as real <= width
    ensures Allowance(c, ts, ds, i, j) + Admitted(ds, i, j) <= c.capacity as real + width * c.rate
  {
    Widen((ts[j] - ts[i]) as real, width, c.rate);
  }

  lemma Widen(x: real, y: real, r: real)
    requires x <= y && r > 0.0
    ensures x * r <= y * r
  {
  }

  function Times(rs: seq<Request>): seq<int> { seq(|rs|, i requires 0 <= i < |rs| => rs[i].now) }

  function Decisions(replies: seq<Reply>): seq<bool> {
    seq(|replies|, i requires 0 <= i < |replies| => replies[i].ok)
  }

  /** The bucket's state before request `j`, as the decisions so far leave it. */
  function BucketBefore(c: Limit, ts: seq<int>, ds: seq<bool>, start: int, j: nat): Bucket
    requires j <= |ts| == |ds|
  {
    if j == 0 then Bucket(c.capacity as real, start)
    else Bucket(TokensAt(c, ts, ds, j - 1) - (if ds[j - 1] then 1.0 else 0.0), ts[j - 1])
  }

  lemma {:induction false} EagerRunLength(c: Limit, b: Bucket, rs: seq<Request>)
    requires c.rate > 0.0
    ensures |EagerRun(c, b, rs)| == |rs|
    decreases |rs|
  {
    if rs != [] { EagerRunLength(c, EagerStep(c, b, rs[0].now).0, rs[1..]); }
  }

  /** Running a full bucket passes through exactly the states `BucketBefore`. */
  lemma {:induction false} EagerRunFrom(c: Limit, rs: seq<Request>, start: int, j: nat)
    requires FillsInMinute(c) && Ordered(rs, start) && j <= |rs|
    requires |EagerRun(c, Bucket(c.capacity as real, start), rs)| == |rs|
    ensures var all := EagerRun(c, Bucket(c.capacity as real, start), rs);
      && all[j..] == EagerRun(c, BucketBefore(c, Times(rs), Decisions(all), start, j), rs[j..])
      && forall k | 0 <= k < j :: DecidesAt(c, Times(rs), Decisions(all), k)
  {
    var all := EagerRun(c, Bucket(c.capacity as real, start), rs);
    var ts, ds := Times(rs), Decisions(all);
    if j == 0 {
      assert all[0..] == all && rs[0..] == rs;
    } else {
      var k := j - 1;
      EagerRunFrom(c, rs, start, k);
      var b := BucketBefore(c, ts, ds, start, k);
      assert k == 0 ==> (ts[0] - start) as real * c.rate >= 0.0;
      assert Level(c, b.tokens, b.lastRefill, ts[k]) == TokensAt(c, ts, ds, k);
      assert rs[k..][0] == rs[k] && rs[k..][1..] == rs[j..];
      assert all[k..][0] == all[k] && all[k..][1..] == all[j..];
    }
  }

  /** On a fresh key, the script's decisions are a token bucket's, and so those of the window rule. */
  lemma ScriptDecidesAsBucket(plan: TenantPlan, rs: seq<Request>, start: int)
    requires Ordered(rs, start)
    ensures WindowDecides(ForPlan(plan), Times(rs), Decisions(ScriptRun(ForPlan(plan), None, rs)))
    ensures BucketDecides(ForPlan(plan), Times(rs), Decisions(ScriptRun(ForPlan(plan), None, rs)))
  {
    var c := ForPlan(plan);
    PlansFillInMinute(plan);
    FreshKeyRefinesFullBucket(plan, rs, start);
    EagerRunLength(c, Bucket(c.capacity as real, start), rs);
    EagerRunFrom(c, rs, start, |rs|);
    BucketIffWindows(c, Times(rs), Decisions(ScriptRun(c, None, rs)));
  }

  // ---- Windows of time -----------------------------------------------------

  /** How many of the first `n` requests were admitted between two moments, both included. */
  function AdmittedBetween(ts: seq<int>, ds: seq<bool>, from: real, to: real, n: nat): real
    requires n <= |ts| == |ds|
  {
    if n == 0 then 0.0
    else
      AdmittedBetween(ts, ds, from, to, n - 1)
      + if from <= ts[n - 1] as real <= to && ds[n - 1] then 1.0 else 0.0
  }

  /** The requests before a moment. */
  function CountBefore(ts: seq<int>, x: real): (n: nat)
    ensures n <= |ts| && (forall k | 0 <= k < n :: (ts[k] as real) < x)
    ensures n < |ts| ==> ts[n] as real >= x
  {
    if ts == [] || ts[0] as real >= x then 0 else 1 + CountBefore(ts[1..], x)
  }

  /** The requests up to and at a moment. */
  function CountUpTo(ts: seq<int>, x: real): (n: nat)
    ensures n <= |ts| && forall k | 0 <= k < n :: ts[k] as real <= x
    ensures n < |ts| ==> ts[n] as real > x
  {
    if ts == [] || ts[0] as real > x then 0 else 1 + CountUpTo(ts[1..], x)
  }

  /** The requests `i..j-1` are those of the window. */
  ghost predicate InWindow(ts: seq<int>, from: real, to: real, i: nat, j: nat) {
    && i <= j <= |ts|
    && forall k | 0 <= k < |ts| :: i <= k < j <==> from <= ts[k] as real <= to
  }

  lemma {:induction false} BetweenIsRange(ts: seq<int>, ds: seq<bool>, from: real, to: real, i: nat, j: nat, n: nat)
    requires |ts| == |ds| && InWindow(ts, from, to, i, j) && n <= |ts|
    ensures AdmittedBetween(ts, ds, from, to, n) ==
      if n <= i then 0.0 else if n <= j then Admitted(ds, i, n) else Admitted(ds, i, j)
    decreases n
  {
    if n > 0 { BetweenIsRange(ts, ds, from, to, i, j, n - 1); }
  }

  lemma WindowOfTime(ts: seq<int>, from: real, to: real) returns (i: nat, j: nat)
    requires Clock(ts) && from <= to
    ensures InWindow(ts, from, to, i, j)
  {
    i, j := CountBefore(ts, from), CountUpTo(ts, to);
    forall k | 0 <= k < |ts| ensures i <= k < j <==> from <= ts[k] as real <= to {
      if i < k { assert ts[i] <= ts[k]; }
      if j < k { assert ts[j] <= ts[k]; }
    }
  }

  lemma BetweenBound(c: Limit, ts: seq<int>, ds: seq<bool>, from: real, to: real)
    requires FillsInMinute(c) && Clock(ts) && BucketDecides(c, ts, ds) && from <= to
    ensures AdmittedBetween(ts, ds, from, to, |ts|) <= c.capacity as real + (to - from) * c.rate
  {
    var i, j := WindowOfTime(ts, from, to);
    BetweenIsRange(ts, ds, from, to, i, j, |ts|);
    assert (to - from) * c.rate >= 0.0;
    if i < j {
      assert from <= ts[i] as real && ts[j - 1] as real <= to;
      WindowBound(c, ts, ds, i, j - 1, to - from);
    }
  }

  /**
   Between any two moments, whatever the requests, the script admits at most capacity plus rate
   times the time between them on a tenant's key that began fresh.
   */
  lemma ScriptRateBound(plan: TenantPlan, rs: seq<Request>, start: int, from: real, to: real)
    requires Ordered(rs, start) && from <= to
    ensures var c := ForPlan(plan);
      var replies := ScriptRun(c, None, rs);
      && |replies| == |rs|
      && AdmittedBetween(Times(rs), Decisions(replies), from, to, |rs|) <= c.capacity as real + (to - from) * c.rate
  {
    PlansFillInMinute(plan);
    ScriptDecidesAsBucket(plan, rs, start);
    BetweenBound(ForPlan(plan), Times(rs), Decisions(ScriptRun(ForPlan(plan), None, rs)), from, to);
  }

  // ---- The numbers in a reply ----------------------------------------------

  lemma CeilExact(x: real, rate: real, k: int)
    requires rate > 0.0
    ensures k >= Ceil(x / rate) <==> k as real * rate >= x
  {
    var q := x / rate;
    assert q * rate == x;
    if k as real >= q { assert k as real * rate >= q * rate; } else { assert k as real * rate < q * rate; }
  }

  /** After a denial with wait `d` and no other traffic, a retry is admitted exactly from `d` seconds on. */
  lemma RetryAfterExact(c: Limit, s: Option<Stored>, r: Request, retry: Request)
    requires FillsInMinute(c) && (s.Some? ==> StoredOk(c, s.value))
    requires Timely(retry) && retry.now >= r.now
    requires !Script(c, s, r).1.ok
    ensures Script(c, Script(c, s, r).0, retry).1.ok <==> retry.now - r.now >= Script(c, s, r).1.resetAfter
  {
    var b, k := s.value, retry.now - r.now;
    var level := Level(c, b.tokens, b.lastRefill, r.now);
    LevelLater(c, b.tokens, b.lastRefill, r.now, k);
    WaitForOne(c, level, k);
    assert Script(c, s, r) == (s, Reply(false, 0, Ceil((1.0 - level) / c.rate)));
    if retry.at >= b.expires {
      ExpiredWasFull(c, b, retry);
    }
  }

  /** From `level` below one, a token is there after `k` seconds exactly if `k` reaches the rounded-up wait. */
  lemma WaitForOne(c: Limit, level: real, k: nat)
    requires c.rate > 0.0 && c.capacity >= 1
    ensures Min(c.capacity as real, level + k as real * c.rate) >= 1.0 <==> k >= Ceil((1.0 - level) / c.rate)
  {
    CeilExact(1.0 - level, c.rate, k);
  }

  lemma LevelLater(c: Limit, tokens: real, last: int, now: int, k: nat)
    requires c.rate > 0.0 && Level(c, tokens, last, now) < c.capacity as real
    ensures Level(c, tokens, last, now + k) == Min(c.capacity as real, Level(c, tokens, last, now) + k as real * c.rate)
  {
    Distribute((now - last) as real, k as real, c.rate);
    assert (now + k - last) as real == (now - last) as real + k as real;
  }

  /** After an admission reporting `remaining`, exactly that many more requests pass in the same second. */
  lemma {:induction false} RemainingExact(c: Limit, b: Stored, remaining: int, rs: seq<Request>)
    requires FillsInMinute(c) && StoredOk(c, b) && remaining == b.tokens.Floor
    requires forall i | 0 <= i < |rs| :: rs[i].now == b.lastRefill && Timely(rs[i])
    ensures |ScriptRun(c, Some(b), rs)| == |rs|
    ensures forall i | 0 <= i < |rs| :: ScriptRun(c, Some(b), rs)[i].ok <==> i < remaining
    decreases |rs|
  {
    if rs != [] {
      var (s', reply) := Script(c, Some(b), rs[0]);
      var tail := ScriptRun(c, s', rs[1..]);
      if reply.ok {
        assert s'.value.tokens == b.tokens - 1.0 && s'.value.tokens.Floor == remaining - 1;
        RemainingExact(c, s'.value, remaining - 1, rs[1..]);
      } else {
        RemainingExact(c, b, remaining, rs[1..]);
      }
      forall i | 0 < i < |rs| ensures ScriptRun(c, Some(b), rs)[i].ok <==> i < remaining {
        assert ScriptRun(c, Some(b), rs)[i] == tail[i - 1];
      }
    }
  }

  // ---- The plans in figures ------------------------------------------------

  function Least(a: int, b: int): int { if a <= b then a else b }

  /** Of the requests in one second, exactly the first whole tokens of the level then are admitted. */
  lemma {:induction false} AdmittedAtLevel(c: Limit, b: Stored, k: nat, rs: seq<Request>)
    requires FillsInMinute(c) && StoredOk(c, b)
    requires forall i | 0 <= i < |rs| :: rs[i].now == b.lastRefill + k && Timely(rs[i])
    ensures var level := Level(c, b.tokens, b.lastRefill, b.lastRefill + k);
      && |ScriptRun(c, Some(b), rs)| == |rs|
      && forall i | 0 <= i < |rs| :: ScriptRun(c, Some(b), rs)[i].ok <==> i < level.Floor
    decreases |rs|
  {
    if rs != [] {
      var level := Level(c, b.tokens, b.lastRefill, b.lastRefill + k);
      assert k as real * c.rate >= 0.0;
      if rs[0].at >= b.expires { ExpiredWasFull(c, b, rs[0]); }
      var (s', reply) := Script(c, Some(b), rs[0]);
      var tail := ScriptRun(c, s', rs[1..]);
      if level >= 1.0 {
        assert s' == Some(Stored(level - 1.0, rs[0].now, rs[0].at + 120.0));
        assert (level - 1.0).Floor == level.Floor - 1;
        RemainingExact(c, s'.value, level.Floor - 1, rs[1..]);
      } else {
        AdmittedAtLevel(c, b, k, rs[1..]);
      }
      forall i | 0 < i < |rs| ensures ScriptRun(c, Some(b), rs)[i].ok <==> i < level.Floor {
        assert ScriptRun(c, Some(b), rs)[i] == tail[i - 1];
      }
    }
  }

  /** On a fresh key a tenant has, in one second, exactly its plan's requests per minute. */
  lemma BurstByPlan(plan: TenantPlan, now: int, rs: seq<Request>)
    requires forall i | 0 <= i < |rs| :: rs[i].now == now && Timely(rs[i])
    ensures var burst := match plan case Trial => 10 case Entry => 60 case Pro => 300 case Enterprise => 1000;
      && ForPlan(plan).requestsPerMinute == burst
      && |ScriptRun(ForPlan(plan), None, rs)| == |rs|
      && forall i | 0 <= i < |rs| :: ScriptRun(ForPlan(plan), None, rs)[i].ok <==> i < burst
  {
    var c := ForPlan(plan);
    PlansFillInMinute(plan);
    if rs != [] {
      var (s', reply) := Script(c, None, rs[0]);
      var tail := ScriptRun(c, s', rs[1..]);
      RemainingExact(c, s'.value, c.capacity - 1, rs[1..]);
      forall i | 0 < i < |rs| ensures ScriptRun(c, None, rs)[i].ok <==> i < c.capacity {
        assert ScriptRun(c, None, rs)[i] == tail[i - 1];
      }
    }
  }

  /** Whole tokens that come in `k` seconds: one in six, one, five, and 16.67 a second, to the plan's capacity. */
  function Refilled(plan: TenantPlan, k: nat): int {
    match plan
    case Trial => Least(10, k / 6)
    case Entry => Least(60, k)
    case Pro => Least(300, 5 * k)
    case Enterprise => Least(1000, 1667 * k / 100)
  }

  lemma FloorOf(x: real, n: int)
    requires n as real <= x < n as real + 1.0
    ensures x.Floor == n
  {
  }

  lemma LevelByPlan(plan: TenantPlan, last: int, k: nat)
    ensures Level(ForPlan(plan), 0.0, last, last + k).Floor == Refilled(plan, k)
  {
    var x := k as real;
    match plan
    case Trial =>
      assert x == (6 * (k / 6) + k % 6) as real;
      if k < 60 { FloorOf(x * (10.0 / 60.0), k / 6); }
    case Entry =>
    case Pro =>
    case Enterprise =>
      var n := 1667 * k / 100;
      assert x * 16.67 == (1667 * k) as real / 100.0;
      assert 1667 * k == 100 * n + 1667 * k % 100;
      if x * 16.67 < 1000.0 { FloorOf(x * 16.67, n); }
  }

  /** With its tokens used up, a tenant has in the second `k` seconds later exactly what its plan refilled. */
  lemma RefillByPlan(plan: TenantPlan, b: Stored, k: nat, rs: seq<Request>)
    requires StoredOk(ForPlan(plan), b) && b.tokens == 0.0
    requires forall i | 0 <= i < |rs| :: rs[i].now == b.lastRefill + k && Timely(rs[i])
    ensures |ScriptRun(ForPlan(plan), Some(b), rs)| == |rs|
    ensures forall i | 0 <= i < |rs| :: ScriptRun(ForPlan(plan), Some(b), rs)[i].ok <==> i < Refilled(plan, k)
  {
    PlansFillInMinute(plan);
    AdmittedAtLevel(ForPlan(plan), b, k, rs);
    LevelByPlan(plan, b.lastRefill, k);
  }

  /** Any number of tokens is there after exactly the seconds announced, and not one before. */
  lemma WaitExact(c: Limit, tokens: real, count: real, k: nat)
    requires c.rate > 0.0
    ensures tokens + k as real * c.rate >= count <==> k >= SecondsUntilAvailable(c, tokens, count)
  {
    CeilExact(count - tokens, c.rate, k);
    assert k as real * c.rate >= 0.0;
  }
}
