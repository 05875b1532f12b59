/**
  The fixed-window limiter of modules/proxy/ratelimit.go:15-110. It evicts idle buckets and
  refuses new tenants when the map is full; it is compared with a limiter that does neither.
 */
module RateLimit {
  type Tenant = string

  const MAX_BUCKETS: nat := 100_000

  datatype Bucket = Bucket(tokens: int, lastReset: int, lastSeen: int)

  datatype Config = Config(rate: int, interval: int)

  datatype Limiter = Limiter(buckets: map<Tenant, Bucket>, lastSweep: int)

  datatype Call = Call(tenant: Tenant, now: int)

  // ---- Steps ----

  predicate Stale(c: Config, b: Bucket, now: int) {
    now - b.lastSeen > 2 * c.interval
  }

  function Evicted(c: Config, buckets: map<Tenant, Bucket>, now: int): map<Tenant, Bucket> {
    map t | t in buckets && !Stale(c, buckets[t], now) :: buckets[t]
  }

  function Swept(c: Config, l: Limiter, now: int): Limiter {
    if now - l.lastSweep < c.interval then l else Limiter(Evicted(c, l.buckets, now), now)
  }

  /** The bucket of a tenant as a request at `now` finds it: made if missing, reset if its interval is over. */
  function Opened(c: Config, buckets: map<Tenant, Bucket>, call: Call): Bucket {
    var b := if call.tenant in buckets then buckets[call.tenant].(lastSeen := call.now) else Bucket(c.rate, call.now, call.now);
    if call.now - b.lastReset >= c.interval then b.(tokens := c.rate, lastReset := call.now) else b
  }

  function Spent(b: Bucket): Bucket {
    if b.tokens <= 0 then b else b.(tokens := b.tokens - 1)
  }

  /** A new tenant that finds the map full is turned away. */
  predicate Backstopped(c: Config, l: Limiter, call: Call) {
    var s := Swept(c, l, call.now);
    call.tenant !in s.buckets && |s.buckets| >= MAX_BUCKETS
  }

  predicate Allows(c: Config, l: Limiter, call: Call) {
    !Backstopped(c, l, call) && Opened(c, Swept(c, l, call.now).buckets, call).tokens > 0
  }

  function After(c: Config, l: Limiter, call: Call): Limiter {
    var s := Swept(c, l, call.now);
    if Backstopped(c, l, call) then s
    else s.(buckets := s.buckets[call.tenant := Spent(Opened(c, s.buckets, call))])
  }

  /** The limiter that never evicts and never refuses for lack of room. */
  predicate PlainAllows(c: Config, buckets: map<Tenant, Bucket>, call: Call) {
    Opened(c, buckets, call).tokens > 0
  }

  function PlainAfter(c: Config, buckets: map<Tenant, Bucket>, call: Call): map<Tenant, Bucket> {
    buckets[call.tenant := Spent(Opened(c, buckets, call))]
  }

  class RateLimiter {
    const rate: int
    const interval: int
    var buckets: map<Tenant, Bucket>
    var lastSweep: int

    ghost function View(): Limiter
      reads this
    {
      Limiter(buckets, lastSweep)
    }

    ghost function Settings(): Config {
      Config(rate, interval)
    }

    constructor (rate: int, interval: int, now: int)
      ensures View() == Limiter(map[], now) && Settings() == Config(rate, interval)
    {
      this.rate, this.interval := rate, interval;
      buckets, lastSweep := map[], now;
    }

    /** Delete the buckets that have been idle for more than two intervals, at most once an interval. */
    method EvictStale(now: int)
      modifies this
      ensures View() == Swept(Settings(), old(View()), now)
    {
      if now - lastSweep < interval {
        return;
      }
      lastSweep := now;
      var ttl := 2 * interval;
      var rest := buckets.Keys;
      while rest != {}
        invariant rest <= old(buckets).Keys && lastSweep == now
        invariant buckets == map t | t in old(buckets) && (t in rest || !Stale(Settings(), old(buckets)[t], now)) :: old(buckets)[t]
        decreases rest
      {
        var t :| t in rest;
        if now - buckets[t].lastSeen > ttl {
          buckets := buckets - {t};
        }
        rest := rest - {t};
      }
      assert buckets == Evicted(Settings(), old(buckets), now);
    }

    method Allow(tenant: Tenant, now: int) returns (allowed: bool)
      modifies this
      ensures allowed == Allows(Settings(), old(View()), Call(tenant, now))
      ensures View() == After(Settings(), old(View()), Call(tenant, now))
      // A call that is admitted costs one token of those that it finds, and one that is refused costs none.
      ensures Backstopped(Settings(), old(View()), Call(tenant, now)) ==> !allowed && tenant !in buckets
      ensures !Backstopped(Settings(), old(View()), Call(tenant, now)) ==>
        var found := Opened(Settings(), Swept(Settings(), old(View()), now).buckets, Call(tenant, now)).tokens;
        tenant in buckets && allowed == (found > 0) && buckets[tenant].tokens == if allowed then found - 1 else found
    {
      EvictStale(now);
      ghost var swept := buckets;
      var b := Bucket(rate, now, now);
      if tenant !in buckets {
        if |buckets| >= MAX_BUCKETS {
          return false;
        }
      } else {
        b := buckets[tenant];
      }
      b := b.(lastSeen := now);
      if now - b.lastReset >= interval {
        b := b.(tokens := rate, lastReset := now);
      }
      assert b == Opened(Settings(), swept, Call(tenant, now));
      if b.tokens <= 0 {
        buckets := buckets[tenant := b];
        return false;
      }
      buckets := buckets[tenant := b.(tokens := b.tokens - 1)];
      return true;
    }
  }

  // ---- Runs ----

  /** The limiter before call `i`. */
  function State(c: Config, l: Limiter, calls: seq<Call>, i: nat): Limiter
    requires i <= |calls|
  {
    if i == 0 then l else After(c, State(c, l, calls, i - 1), calls[i - 1])
  }

  function PlainState(c: Config, calls: seq<Call>, i: nat): map<Tenant, Bucket>
    requires i <= |calls|
  {
    if i == 0 then map[] else PlainAfter(c, PlainState(c, calls, i - 1), calls[i - 1])
  }

  /** The latest time among the creation and the first `i` calls. */
  function HighMark(created: int, calls: seq<Call>, i: nat): int
    requires i <= |calls|
  {
    if i == 0 then created
    else if HighMark(created, calls, i - 1) < calls[i - 1].now then calls[i - 1].now
    else HighMark(created, calls, i - 1)
  }

  /** Callers read the clock before they take the lock, so a call can come after one with a later
      time; at most half an interval later, that is. */
  predicate InTime(c: Config, mark: int, now: int) {
    mark <= now || 2 * (mark - now) <= c.interval
  }

  ghost predicate NearlyOrdered(c: Config, created: int, calls: seq<Call>) {
    forall i {:trigger calls[i]} :: 0 <= i < |calls| ==> InTime(c, HighMark(created, calls, i), calls[i].now)
  }

  function Later(mark: int, now: int): int {
    if mark < now then now else mark
  }

  // ---- Agreement with the limiter that never evicts ----

  /** How far, twice, a reset can lie behind the time at which a bucket was last seen. */
  function Slack(c: Config): nat {
    if c.interval > 0 then c.interval else 0
  }

  predicate TimesFit(c: Config, b: Bucket, mark: int) {
    b.lastReset <= mark && b.lastSeen <= mark && 2 * (b.lastReset - b.lastSeen) <= Slack(c)
  }

  /** The interval of the bucket is over for every call that can still come. */
  predicate Over(c: Config, b: Bucket, mark: int) {
    2 * (mark - b.lastReset) >= 2 * c.interval + Slack(c)
  }

  /** The evicting limiter's buckets are the plain ones; a plain bucket it lacks has its interval over. */
  ghost predicate Simulates(c: Config, buckets: map<Tenant, Bucket>, plain: map<Tenant, Bucket>, mark: int) {
    && (forall t :: t in buckets ==> t in plain && buckets[t] == plain[t])
    && (forall t :: t in plain ==> TimesFit(c, plain[t], mark))
    && (forall t :: t in plain && t !in buckets ==> Over(c, plain[t], mark))
  }

  lemma StaleIsOver(c: Config, b: Bucket, mark: int, now: int)
    requires TimesFit(c, b, mark) && Stale(c, b, now) && InTime(c, mark, now)
    ensures Over(c, b, Later(mark, now))
  {
  }

  lemma SweepSimulates(c: Config, l: Limiter, plain: map<Tenant, Bucket>, mark: int, now: int)
    requires Simulates(c, l.buckets, plain, mark) && InTime(c, mark, now)
    ensures Simulates(c, Swept(c, l, now).buckets, plain, Later(mark, now))
  {
    var s := Swept(c, l, now).buckets;
    forall t | t in plain && t !in s ensures Over(c, plain[t], Later(mark, now)) {
      if t in l.buckets {
        StaleIsOver(c, plain[t], mark, now);
      }
    }
  }

  /** A bucket whose interval is over is opened like a new one. */
  lemma OverIsReset(c: Config, b: Bucket, mark: int, call: Call)
    requires Over(c, b, Later(mark, call.now)) && InTime(c, mark, call.now)
    ensures call.now - b.lastReset >= c.interval
  {
  }

  lemma OpenedAlike(c: Config, buckets: map<Tenant, Bucket>, plain: map<Tenant, Bucket>, mark: int, call: Call)
    requires Simulates(c, buckets, plain, Later(mark, call.now)) && InTime(c, mark, call.now)
    ensures Opened(c, buckets, call).tokens == Opened(c, plain, call).tokens
    ensures Opened(c, buckets, call) == Opened(c, plain, call)
    ensures TimesFit(c, Opened(c, plain, call), Later(mark, call.now))
  {
    if call.tenant in plain && call.tenant !in buckets {
      OverIsReset(c, plain[call.tenant], mark, call);
    }
  }

  /** One call that is not refused for lack of room: same answer, and the states stay related. */
  lemma CallSimulates(c: Config, l: Limiter, plain: map<Tenant, Bucket>, mark: int, call: Call)
    requires Simulates(c, l.buckets, plain, mark) && InTime(c, mark, call.now) && !Backstopped(c, l, call)
    ensures Allows(c, l, call) == PlainAllows(c, plain, call)
    ensures Simulates(c, After(c, l, call).buckets, PlainAfter(c, plain, call), Later(mark, call.now))
  {
    SweepSimulates(c, l, plain, mark, call.now);
    OpenedAlike(c, Swept(c, l, call.now).buckets, plain, mark, call);
  }

  /** A call that is refused for lack of room would have been admitted, unless nothing ever is. */
  lemma BackstopDisagrees(c: Config, l: Limiter, plain: map<Tenant, Bucket>, mark: int, call: Call)
    requires Simulates(c, l.buckets, plain, mark) && InTime(c, mark, call.now) && Backstopped(c, l, call)
    ensures !Allows(c, l, call) && (PlainAllows(c, plain, call) <==> c.rate > 0)
  {
    SweepSimulates(c, l, plain, mark, call.now);
    if call.tenant in plain {
      OverIsReset(c, plain[call.tenant], mark, call);
    }
  }

  function Evicting(c: Config, created: int, calls: seq<Call>, i: nat): Limiter
    requires i <= |calls|
  {
    State(c, Limiter(map[], created), calls, i)
  }

  predicate BackstoppedAt(c: Config, created: int, calls: seq<Call>, i: nat)
    requires i < |calls|
  {
    Backstopped(c, Evicting(c, created, calls, i), calls[i])
  }

  predicate AgreeAt(c: Config, created: int, calls: seq<Call>, i: nat)
    requires i < |calls|
  {
    Allows(c, Evicting(c, created, calls, i), calls[i]) == PlainAllows(c, PlainState(c, calls, i), calls[i])
  }

  ghost predicate NeverBackstopped(c: Config, created: int, calls: seq<Call>, n: nat)
    requires n <= |calls|
  {
    forall i {:trigger BackstoppedAt(c, created, calls, i)} :: 0 <= i < n ==> !BackstoppedAt(c, created, calls, i)
  }

  ghost predicate Agree(c: Config, created: int, calls: seq<Call>)
  {
    forall i {:trigger AgreeAt(c, created, calls, i)} :: 0 <= i < |calls| ==> AgreeAt(c, created, calls, i)
  }

  lemma {:induction false} RunsSimulate(c: Config, created: int, calls: seq<Call>, n: nat)
    requires NearlyOrdered(c, created, calls) && n <= |calls| && NeverBackstopped(c, created, calls, n)
    ensures Simulates(c, Evicting(c, created, calls, n).buckets, PlainState(c, calls, n), HighMark(created, calls, n))
    ensures n < |calls| && !BackstoppedAt(c, created, calls, n) ==> AgreeAt(c, created, calls, n)
  {
    if n > 0 {
      RunsSimulate(c, created, calls, n - 1);
      assert !BackstoppedAt(c, created, calls, n - 1);
      CallSimulates(c, Evicting(c, created, calls, n - 1), PlainState(c, calls, n - 1), HighMark(created, calls, n - 1), calls[n - 1]);
    }
    if n < |calls| && !BackstoppedAt(c, created, calls, n) {
      CallSimulates(c, Evicting(c, created, calls, n), PlainState(c, calls, n), HighMark(created, calls, n), calls[n]);
    }
  }

  ghost predicate Empty(buckets: map<Tenant, Bucket>) {
    forall t :: t in buckets ==> buckets[t].tokens <= 0
  }

  lemma EmptyStays(c: Config, l: Limiter, plain: map<Tenant, Bucket>, call: Call)
    requires c.rate <= 0 && Empty(l.buckets) && Empty(plain)
    ensures Empty(After(c, l, call).buckets) && Empty(PlainAfter(c, plain, call))
    ensures !Allows(c, l, call) && !PlainAllows(c, plain, call)
  {
  }

  /** With a rate that admits nothing, no bucket ever holds a token. */
  lemma {:induction false} NothingAdmitted(c: Config, created: int, calls: seq<Call>, n: nat)
    requires c.rate <= 0 && n <= |calls|
    ensures Empty(Evicting(c, created, calls, n).buckets) && Empty(PlainState(c, calls, n))
    ensures n < |calls| ==> AgreeAt(c, created, calls, n)
  {
    if n > 0 {
      NothingAdmitted(c, created, calls, n - 1);
      EmptyStays(c, Evicting(c, created, calls, n - 1), PlainState(c, calls, n - 1), calls[n - 1]);
    }
    if n < |calls| {
      EmptyStays(c, Evicting(c, created, calls, n), PlainState(c, calls, n), calls[n]);
    }
  }

  /** For calls out of the order of time by at most half an interval, eviction never changes a decision
      exactly when no call is refused for lack of room, or the rate admits nothing anyway. */
  lemma EvictionIsInvisible(c: Config, created: int, calls: seq<Call>)
    requires NearlyOrdered(c, created, calls)
    ensures Agree(c, created, calls) <==> c.rate <= 0 || NeverBackstopped(c, created, calls, |calls|)
  {
    if c.rate <= 0 {
      forall i {:trigger AgreeAt(c, created, calls, i)} | 0 <= i < |calls| ensures AgreeAt(c, created, calls, i) {
        NothingAdmitted(c, created, calls, i);
      }
    } else if NeverBackstopped(c, created, calls, |calls|) {
      forall i {:trigger AgreeAt(c, created, calls, i)} | 0 <= i < |calls| ensures AgreeAt(c, created, calls, i) {
        RunsSimulate(c, created, calls, i);
        assert !BackstoppedAt(c, created, calls, i);
      }
    } else {
      var n := FirstBackstop(c, created, calls, |calls|);
      RunsSimulate(c, created, calls, n);
      BackstopDisagrees(c, Evicting(c, created, calls, n), PlainState(c, calls, n), HighMark(created, calls, n), calls[n]);
      assert !AgreeAt(c, created, calls, n);
    }
  }

  lemma {:induction false} FirstBackstop(c: Config, created: int, calls: seq<Call>, n: nat) returns (i: nat)
    requires n <= |calls| && !NeverBackstopped(c, created, calls, n)
    ensures i < n && NeverBackstopped(c, created, calls, i) && BackstoppedAt(c, created, calls, i)
  {
    if NeverBackstopped(c, created, calls, n - 1) {
      i := n - 1;
    } else {
      i := FirstBackstop(c, created, calls, n - 1);
    }
  }

  // ---- At most twice the rate within one interval ----

  function Admitted(c: Config, l: Limiter, calls: seq<Call>, t: Tenant): nat
    decreases |calls|
  {
    if calls == [] then 0
    else (if calls[0].tenant == t && Allows(c, l, calls[0]) then 1 else 0) + Admitted(c, After(c, l, calls[0]), calls[1..], t)
  }

  /** What tenant `t` may still use in a span that started at `from`: its tokens, and one reset
      unless it has had it. */
  ghost function Allowance(c: Config, l: Limiter, t: Tenant, from: int): int {
    if t !in l.buckets then c.rate
    else l.buckets[t].tokens + if l.buckets[t].lastReset >= from then 0 else c.rate
  }

  ghost predicate Sane(c: Config, l: Limiter, mark: int) {
    c.rate >= 0 && forall t :: t in l.buckets ==> 0 <= l.buckets[t].tokens <= c.rate && TimesFit(c, l.buckets[t], mark)
  }

  lemma SweepKeepsAllowance(c: Config, l: Limiter, t: Tenant, from: int, mark: int, now: int)
    requires Sane(c, l, mark) && from <= now < from + c.interval
    ensures Sane(c, Swept(c, l, now), Later(mark, now))
    ensures Allowance(c, Swept(c, l, now), t, from) <= Allowance(c, l, t, from)
  {
  }

  lemma CallKeepsSane(c: Config, l: Limiter, mark: int, call: Call)
    requires Sane(c, l, mark) && InTime(c, mark, call.now)
    ensures Sane(c, After(c, l, call), Later(mark, call.now))
  {
  }

  lemma CallUsesAllowance(c: Config, l: Limiter, t: Tenant, from: int, mark: int, call: Call)
    requires Sane(c, l, mark) && from <= call.now < from + c.interval
    ensures Allowance(c, After(c, l, call), t, from) + (if call.tenant == t && Allows(c, l, call) then 1 else 0) <= Allowance(c, l, t, from)
  {
    SweepKeepsAllowance(c, l, t, from, mark, call.now);
  }

  /** Calls that follow a state, in time for its mark and for each other. */
  ghost predicate Follow(c: Config, mark: int, calls: seq<Call>)
    decreases |calls|
  {
    calls == [] || (InTime(c, mark, calls[0].now) && Follow(c, Later(mark, calls[0].now), calls[1..]))
  }

  lemma {:induction false} SpanUsesAllowance(c: Config, l: Limiter, calls: seq<Call>, t: Tenant, from: int, mark: int)
    requires Sane(c, l, mark) && Follow(c, mark, calls)
    requires forall i :: 0 <= i < |calls| ==> from <= calls[i].now < from + c.interval
    ensures Admitted(c, l, calls, t) <= Allowance(c, l, t, from)
    decreases |calls|
  {
    if calls != [] {
      CallUsesAllowance(c, l, t, from, mark, calls[0]);
      CallKeepsSane(c, l, mark, calls[0]);
      SpanUsesAllowance(c, After(c, l, calls[0]), calls[1..], t, from, Later(mark, calls[0].now));
    }
  }

  lemma {:induction false} StatesAreSane(c: Config, created: int, calls: seq<Call>, i: nat)
    requires c.rate >= 0 && NearlyOrdered(c, created, calls) && i <= |calls|
    ensures Sane(c, Evicting(c, created, calls, i), HighMark(created, calls, i))
  {
    if i > 0 {
      StatesAreSane(c, created, calls, i - 1);
      assert InTime(c, HighMark(created, calls, i - 1), calls[i - 1].now);
      CallKeepsSane(c, Evicting(c, created, calls, i - 1), HighMark(created, calls, i - 1), calls[i - 1]);
    }
  }

  lemma {:induction false} StretchFollows(c: Config, created: int, calls: seq<Call>, i: nat, j: nat)
    requires NearlyOrdered(c, created, calls) && i <= j <= |calls|
    ensures Follow(c, HighMark(created, calls, i), calls[i..j])
    decreases j - i
  {
    if i < j {
      assert calls[i..j][0] == calls[i] && calls[i..j][1..] == calls[i + 1..j];
      StretchFollows(c, created, calls, i + 1, j);
    }
  }

  /** The calls `i` to `j` of a run, if they fall into a half-open span of one interval, admit a
      tenant at most `2 * rate` times, evictions and refusals included. */
  lemma TwiceTheRateAtMost(c: Config, created: int, calls: seq<Call>, i: nat, j: nat, t: Tenant, from: int)
    requires c.rate >= 0 && NearlyOrdered(c, created, calls) && i <= j <= |calls|
    requires forall k :: i <= k < j ==> from <= calls[k].now < from + c.interval
    ensures Admitted(c, Evicting(c, created, calls, i), calls[i..j], t) <= 2 * c.rate
  {
    StatesAreSane(c, created, calls, i);
    StretchFollows(c, created, calls, i, j);
    SpanUsesAllowance(c, Evicting(c, created, calls, i), calls[i..j], t, from, HighMark(created, calls, i));
  }

  // ---- Exactly the rate within an interval that has just begun ----

  function CallsOf(calls: seq<Call>, t: Tenant): nat {
    if calls == [] then 0 else (if calls[0].tenant == t then 1 else 0) + CallsOf(calls[1..], t)
  }

  ghost predicate Within(calls: seq<Call>, from: int, interval: int) {
    forall i :: 0 <= i < |calls| ==> from <= calls[i].now < from + interval
  }

  /** The tenant has a bucket that was filled at `from`, with `left` tokens in it. */
  ghost predicate FilledAt(buckets: map<Tenant, Bucket>, t: Tenant, from: int, left: nat) {
    t in buckets && buckets[t].lastReset == from && buckets[t].lastSeen >= from && left == if buckets[t].tokens > 0 then buckets[t].tokens else 0
  }

  lemma CallTakesOne(c: Config, l: Limiter, call: Call, t: Tenant, from: int, left: nat)
    requires FilledAt(l.buckets, t, from, left) && from <= call.now < from + c.interval
    ensures call.tenant == t ==> (Allows(c, l, call) <==> left > 0)
    ensures FilledAt(After(c, l, call).buckets, t, from, if call.tenant == t && left > 0 then left - 1 else left)
  {
    assert FilledAt(Swept(c, l, call.now).buckets, t, from, left);
  }

  lemma {:induction false} TokensAreUsedUp(c: Config, l: Limiter, calls: seq<Call>, t: Tenant, from: int, left: nat)
    requires FilledAt(l.buckets, t, from, left) && Within(calls, from, c.interval)
    ensures Admitted(c, l, calls, t) == if left < CallsOf(calls, t) then left else CallsOf(calls, t)
    decreases |calls|
  {
    if calls != [] {
      CallTakesOne(c, l, calls[0], t, from, left);
      TokensAreUsedUp(c, After(c, l, calls[0]), calls[1..], t, from, if calls[0].tenant == t && left > 0 then left - 1 else left);
    }
  }

  /** The call finds no bucket of its tenant, or one whose interval is over. */
  predicate Begins(c: Config, l: Limiter, call: Call) {
    var buckets := Swept(c, l, call.now).buckets;
    call.tenant !in buckets || call.now - buckets[call.tenant].lastReset >= c.interval
  }

  /** From a call on that begins an interval for its tenant, and is not refused for lack of room, the calls
      within that interval admit the tenant exactly `rate` times, or as often as it calls if that is less,
      whatever other tenants do. */
  lemma RateIsAdmitted(c: Config, l: Limiter, calls: seq<Call>)
    requires calls != [] && Begins(c, l, calls[0]) && !Backstopped(c, l, calls[0]) && Within(calls, calls[0].now, c.interval)
    ensures var t, rate := calls[0].tenant, if c.rate > 0 then c.rate else 0;
      Admitted(c, l, calls, t) == if rate < CallsOf(calls, t) then rate else CallsOf(calls, t)
  {
    var t, from := calls[0].tenant, calls[0].now;
    var left := if c.rate > 0 then c.rate - 1 else 0;
    assert FilledAt(After(c, l, calls[0]).buckets, t, from, left);
    TokensAreUsedUp(c, After(c, l, calls[0]), calls[1..], t, from, left);
  }

  // ---- Calls further out of order ----

  const ONE_IN_TEN := Config(1, 10)
  const JUMBLED: seq<Call> := [Call("a", 100), Call("a", 95), Call("b", 116), Call("a", 105)]

  lemma JumbledStates()
    ensures Evicting(ONE_IN_TEN, 90, JUMBLED, 3) == Limiter(map["b" := Bucket(0, 116, 116)], 116)
    ensures PlainState(ONE_IN_TEN, JUMBLED, 3) == map["a" := Bucket(0, 100, 95), "b" := Bucket(0, 116, 116)]
  {
    var c, l := ONE_IN_TEN, Limiter(map[], 90);
    var first := map["a" := Bucket(0, 100, 100)];
    assert State(c, l, JUMBLED, 1) == Limiter(first, 100) && PlainState(c, JUMBLED, 1) == first;
    var second := map["a" := Bucket(0, 100, 95)];
    assert first["a" := Bucket(0, 100, 95)] == second;
    assert State(c, l, JUMBLED, 2) == Limiter(second, 100) && PlainState(c, JUMBLED, 2) == second;
    assert Evicted(c, second, 116) == map[];
  }

  /** Eleven units out of order at an interval of ten: the bucket of "a" is evicted before its interval
      is over for the last call, which is admitted, and which the other limiter refuses. */
  lemma FarOutOfOrderDisagrees()
    ensures !NearlyOrdered(ONE_IN_TEN, 90, JUMBLED) && !BackstoppedAt(ONE_IN_TEN, 90, JUMBLED, 3) && !AgreeAt(ONE_IN_TEN, 90, JUMBLED, 3)
  {
    JumbledStates();
    assert HighMark(90, JUMBLED, 3) == 116 by {
      assert HighMark(90, JUMBLED, 1) == 100 && HighMark(90, JUMBLED, 2) == 100;
    }
    assert !InTime(ONE_IN_TEN, HighMark(90, JUMBLED, 3), JUMBLED[3].now);
  }
}
