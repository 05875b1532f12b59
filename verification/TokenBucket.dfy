/** The token bucket of modules/quota/enforcer.go:22-54, with its lossy integer refill. */
module TokenBucket {
  import opened Common
  import opened Int64

  datatype Bucket = Bucket(tokens: int, capacity: int, lastRefill: int)

  /** `elapsed * capacity / minute` on int64. */
  function RefillFor(elapsed: int, capacity: int): int {
    TruncDiv(Wrap64(elapsed * capacity), MINUTE)
  }

  function Refilled(b: Bucket, now: int): Bucket {
    var refill := if now > b.lastRefill then RefillFor(now - b.lastRefill, b.capacity) else 0;
    if refill > 0 then Bucket(Min(b.tokens + refill, b.capacity), b.capacity, now) else b
  }

  function Admits(b: Bucket, now: int): bool {
    b.capacity <= 0 || Refilled(b, now).tokens > 0
  }

  function After(b: Bucket, now: int): Bucket {
    if b.capacity <= 0 then b
    else if Admits(b, now) then Refilled(b, now).(tokens := Refilled(b, now).tokens - 1)
    else Refilled(b, now)
  }

  /** When a denied caller is told to come back. */
  function Hint(b: Bucket): int
    requires b.capacity > 0
  {
    b.lastRefill + MINUTE / b.capacity
  }

  class RateBucket {
    var tokens: int
    const capacity: int
    var lastRefill: int

    ghost function View(): Bucket
      reads this
    {
      Bucket(tokens, capacity, lastRefill)
    }

    /** A full bucket. */
    constructor (capacity: int, now: int)
      ensures View() == Bucket(capacity, capacity, now)
    {
      this.capacity := capacity;
      tokens, lastRefill := capacity, now;
    }

    /** Take one token; on denial, say when the next one arrives. */
    method Allow(now: int) returns (allowed: bool, next: int)
      modifies this
      ensures View() == After(old(View()), now) && allowed == Admits(old(View()), now)
      ensures !allowed ==> capacity > 0 && next == Hint(View())
    {
      next := 0;
      if capacity <= 0 {
        return true, 0;
      }
      var elapsed := now - lastRefill;
      if elapsed > 0 {
        var refill := TruncDiv(Wrap64(elapsed * capacity), MINUTE);
        if refill > 0 {
          tokens := tokens + refill;
          if tokens > capacity {
            tokens := capacity;
          }
          lastRefill := now;
        }
      }
      if tokens > 0 {
        tokens := tokens - 1;
        return true, 0;
      }
      return false, lastRefill + MINUTE / capacity;
    }
  }

  // ---- Calls in a row ----

  /** How many of the calls, made at these times, are admitted. Times need not be in order:
      callers read the clock before they take the lock. */
  function Admitted(b: Bucket, calls: seq<int>): nat
    decreases |calls|
  {
    if calls == [] then 0
    else (if Admits(b, calls[0]) then 1 else 0) + Admitted(After(b, calls[0]), calls[1..])
  }

  function AfterAll(b: Bucket, calls: seq<int>): Bucket
    decreases |calls|
  {
    if calls == [] then b else AfterAll(After(b, calls[0]), calls[1..])
  }

  ghost predicate Sound(b: Bucket) {
    b.capacity > 0 && 0 <= b.tokens <= b.capacity
  }

  /** Elapsed time up to `until`, times the capacity, fits in an int64. */
  ghost predicate Fits(b: Bucket, until: int) {
    (until - b.lastRefill) * b.capacity < TWO_63
  }

  /** Tokens that accrue over a span of time. */
  function Accrued(span: int, capacity: int): int {
    if span <= 0 then 0 else span * capacity / MINUTE
  }

  lemma SmallerSpan(a: int, b: int, capacity: int)
    requires a <= b && capacity > 0
    ensures a * capacity <= b * capacity
  {
  }

  lemma RefillIsAccrual(b: Bucket, now: int, until: int)
    requires Sound(b) && Fits(b, until) && now <= until
    ensures now > b.lastRefill ==> RefillFor(now - b.lastRefill, b.capacity) == Accrued(now - b.lastRefill, b.capacity)
  {
    if now > b.lastRefill {
      SmallerSpan(now - b.lastRefill, until - b.lastRefill, b.capacity);
      SmallerSpan(0, now - b.lastRefill, b.capacity);
    }
  }

  lemma AfterIsSound(b: Bucket, now: int)
    requires Sound(b)
    ensures Sound(After(b, now))
  {
  }

  lemma DivSum(x: int, y: int)
    requires x >= 0 && y >= 0
    ensures x / MINUTE + y / MINUTE <= (x + y) / MINUTE
  {
  }

  /** Rounding down twice never gives more than rounding down once. */
  lemma AccruedAdds(s: int, t: int, capacity: int)
    requires s >= 0 && t >= 0 && capacity > 0
    ensures Accrued(s, capacity) + Accrued(t, capacity) <= Accrued(s + t, capacity)
    ensures Accrued(s, capacity) >= 0
  {
    SmallerSpan(0, s, capacity);
    SmallerSpan(0, t, capacity);
    assert (s + t) * capacity == s * capacity + t * capacity;
    DivSum(s * capacity, t * capacity);
  }

  /** What one call adds to the tokens is at most what accrued since the last refill. */
  lemma StepAccrual(b: Bucket, now: int, until: int)
    requires Sound(b) && Fits(b, until) && now <= until
    ensures var b' := After(b, now);
      && b'.tokens + (if Admits(b, now) then 1 else 0) + Accrued(until - b'.lastRefill, b.capacity)
           <= b.tokens + Accrued(until - b.lastRefill, b.capacity)
      && Fits(b', until) && b'.capacity == b.capacity && b'.lastRefill >= b.lastRefill
  {
    RefillIsAccrual(b, now, until);
    if now > b.lastRefill && RefillFor(now - b.lastRefill, b.capacity) > 0 {
      AccruedAdds(now - b.lastRefill, until - now, b.capacity);
      SmallerSpan(until - now, until - b.lastRefill, b.capacity);
    }
  }

  /** Calls up to a time are paid for by the tokens at hand and what accrues until then. */
  lemma {:induction false} AdmittedByAccrual(b: Bucket, calls: seq<int>, until: int)
    requires Sound(b) && Fits(b, until) && forall i :: 0 <= i < |calls| ==> calls[i] <= until
    ensures Admitted(b, calls) <= b.tokens + Accrued(until - b.lastRefill, b.capacity)
    ensures Sound(AfterAll(b, calls)) && AfterAll(b, calls).capacity == b.capacity
    decreases |calls|
  {
    if calls == [] {
      if until > b.lastRefill {
        AccruedAdds(until - b.lastRefill, 0, b.capacity);
      }
    } else {
      StepAccrual(b, calls[0], until);
      AfterIsSound(b, calls[0]);
      AdmittedByAccrual(After(b, calls[0]), calls[1..], until);
    }
  }

  /** Within a time `span` of its creation a bucket admits at most its capacity plus what accrues. */
  lemma AdmittedSinceCreation(capacity: int, created: int, calls: seq<int>, span: int)
    requires capacity > 0 && span >= 0 && span * capacity < TWO_63
    requires forall i :: 0 <= i < |calls| ==> calls[i] <= created + span
    ensures Admitted(Bucket(capacity, capacity, created), calls) <= capacity + span * capacity / MINUTE
  {
    AdmittedByAccrual(Bucket(capacity, capacity, created), calls, created + span);
  }

  /** Any calls in a row whose times lie within [from, until], at any point of a bucket's life. */
  lemma AdmittedInWindow(b: Bucket, calls: seq<int>, from: int, until: int)
    requires Sound(b) && Fits(b, until) && from <= until
    requires forall i :: 0 <= i < |calls| ==> from <= calls[i] <= until
    ensures Admitted(b, calls) <= b.capacity + (until - from) * b.capacity / MINUTE + 1
  {
    SmallerSpan(0, until - from, b.capacity);
    if calls != [] {
      RefillIsAccrual(b, calls[0], until);
      if calls[0] > b.lastRefill && RefillFor(calls[0] - b.lastRefill, b.capacity) > 0 {
        RefillingStart(b, calls, from, until);
      } else {
        AdmittedByAccrual(b, calls, until);
        LateStart(b, calls[0], from, until);
      }
    }
  }

  /** The first call refills: the rest of the window accrues from there. */
  lemma RefillingStart(b: Bucket, calls: seq<int>, from: int, until: int)
    requires Sound(b) && Fits(b, until) && from <= until && calls != []
    requires forall i :: 0 <= i < |calls| ==> from <= calls[i] <= until
    requires calls[0] > b.lastRefill && RefillFor(calls[0] - b.lastRefill, b.capacity) > 0
    ensures Admitted(b, calls) <= b.capacity + (until - from) * b.capacity / MINUTE
  {
    var r, cap := Refilled(b, calls[0]), b.capacity;
    SmallerSpan(until - calls[0], until - b.lastRefill, cap);
    AdmittedByAccrual(r, calls, until);
    SameCalls(b, calls);
    AccruedWithin(until - calls[0], until - from, cap);
  }

  lemma AccruedWithin(a: int, b: int, capacity: int)
    requires a <= b && 0 <= b && capacity > 0
    ensures Accrued(a, capacity) <= b * capacity / MINUTE
  {
    SmallerSpan(0, b, capacity);
    if a > 0 {
      SmallerSpan(a, b, capacity);
      DivMonotone(a * capacity, b * capacity);
    }
  }

  lemma SameCalls(b: Bucket, calls: seq<int>)
    requires Sound(b) && calls != [] && Refilled(b, calls[0]).lastRefill == calls[0]
    ensures Admitted(Refilled(b, calls[0]), calls) == Admitted(b, calls)
  {
    assert After(Refilled(b, calls[0]), calls[0]) == After(b, calls[0]);
  }

  /** Without a refill at the first call, less than one token has accrued before the window. */
  lemma LateStart(b: Bucket, now: int, from: int, until: int)
    requires Sound(b) && Fits(b, until) && from <= now <= until
    requires now > b.lastRefill ==> RefillFor(now - b.lastRefill, b.capacity) <= 0
    ensures Accrued(until - b.lastRefill, b.capacity) <= (until - from) * b.capacity / MINUTE + 1
  {
    var cap := b.capacity;
    SmallerSpan(0, until - from, cap);
    RefillIsAccrual(b, now, until);
    if until > b.lastRefill {
      if now <= b.lastRefill {
        SmallerSpan(until - b.lastRefill, until - from, cap);
        DivMonotone((until - b.lastRefill) * cap, (until - from) * cap);
      } else {
        assert (now - b.lastRefill) * cap < MINUTE;
        SmallerSpan(until - now, until - from, cap);
        assert (until - b.lastRefill) * cap == (until - now) * cap + (now - b.lastRefill) * cap;
        DivMonotone((until - b.lastRefill) * cap, (until - from) * cap + MINUTE);
      }
    }
  }

  lemma DivMonotone(x: int, y: int)
    requires x <= y
    ensures x / MINUTE <= y / MINUTE && (y + MINUTE) / MINUTE == y / MINUTE + 1
  {
  }

  /** The extra one is real: three admissions within a nanosecond at two per minute. */
  lemma WindowBoundIsTight()
    ensures var b := Bucket(2, 2, 0); var calls := [MINUTE / 2 - 1, MINUTE / 2 - 1, MINUTE / 2];
      Sound(b) && Admitted(b, calls) == 3 == b.capacity + (calls[2] - calls[0]) * b.capacity / MINUTE + 1
  {
    var b, t := Bucket(2, 2, 0), MINUTE / 2;
    assert RefillFor(t - 1, 2) == 0;
    assert RefillFor(t, 2) == 1;
    var b1 := After(b, t - 1);
    assert b1 == Bucket(1, 2, 0);
    var b2 := After(b1, t - 1);
    assert b2 == Bucket(0, 2, 0);
    assert Admits(b2, t);
    var calls := [t - 1, t - 1, t];
    assert calls[1..][1..] == [t];
    assert Admitted(b2, [t]) == 1;
    assert Admitted(b1, calls[1..]) == 2;
  }

  // ---- The hint after a denial ----

  lemma QuotientBounds(capacity: int)
    requires capacity > 0
    ensures MINUTE / capacity >= 0
    ensures (MINUTE / capacity) * capacity <= MINUTE < (MINUTE / capacity + 1) * capacity
    ensures (MINUTE / capacity) * capacity == MINUTE <==> MINUTE % capacity == 0
  {
    assert MINUTE == (MINUTE / capacity) * capacity + MINUTE % capacity;
    assert (MINUTE / capacity + 1) * capacity == (MINUTE / capacity) * capacity + capacity;
  }

  /** A denied bucket is empty, was not refilled, and its hint is not in the past. */
  lemma DenialState(b: Bucket, now: int)
    requires Sound(b) && Fits(b, now) && !Admits(b, now)
    ensures After(b, now) == b && b.tokens == 0 && now <= Hint(b)
  {
    var cap, per := b.capacity, MINUTE / b.capacity;
    RefillIsAccrual(b, now, now);
    QuotientBounds(cap);
    if now - b.lastRefill > per {
      SmallerSpan(per + 1, now - b.lastRefill, cap);
      DivMonotone(MINUTE, (now - b.lastRefill) * cap);
    }
  }

  lemma AdmitsWhenAccrued(b: Bucket, t: int)
    requires Sound(b) && Fits(b, t) && b.tokens == 0
    ensures Admits(b, t) <==> t > b.lastRefill && (t - b.lastRefill) * b.capacity >= MINUTE
    ensures !Admits(b, t) ==> After(b, t) == b
  {
    RefillIsAccrual(b, t, t);
    if t > b.lastRefill {
      SmallerSpan(0, t - b.lastRefill, b.capacity);
      if (t - b.lastRefill) * b.capacity >= MINUTE {
        DivMonotone(MINUTE, (t - b.lastRefill) * b.capacity);
      }
    }
  }

  /** After a denial, calls before the hint are denied and change nothing; calls after it are
      admitted; a call at the hint itself is admitted exactly when the capacity divides a minute. */
  lemma HintIsRight(b: Bucket, now: int, t: int)
    requires Sound(b) && Fits(b, now) && Fits(b, t) && !Admits(b, now)
    ensures After(b, now) == b && now <= Hint(b)
    ensures t < Hint(b) ==> !Admits(b, t) && After(b, t) == b
    ensures t > Hint(b) ==> Admits(b, t)
    ensures t == Hint(b) ==> (Admits(b, t) <==> MINUTE % b.capacity == 0)
  {
    var cap, per := b.capacity, MINUTE / b.capacity;
    DenialState(b, now);
    AdmitsWhenAccrued(b, t);
    QuotientBounds(cap);
    if t < Hint(b) {
      SmallerSpan(t - b.lastRefill, per - 1, cap);
      assert (per - 1) * cap == per * cap - cap;
    } else if t > Hint(b) {
      SmallerSpan(per + 1, t - b.lastRefill, cap);
    } else {
      assert t - b.lastRefill == per;
      assert per == 0 ==> per * cap == 0;
    }
  }

  // ---- Nothing that is at hand is lost ----

  /** What a call at `now` finds in the bucket: the tokens at hand and all that has accrued, up to the capacity. */
  function AtHand(b: Bucket, now: int): int {
    Min(b.capacity, b.tokens + Accrued(now - b.lastRefill, b.capacity))
  }

  lemma RefilledHand(b: Bucket, now: int)
    requires Sound(b) && Fits(b, now)
    ensures Refilled(b, now).tokens == AtHand(b, now)
  {
    RefillIsAccrual(b, now, now);
    AccruedIsNat(now - b.lastRefill, b.capacity);
    RefilledBy(b, now, Accrued(now - b.lastRefill, b.capacity));
  }

  lemma AccruedIsNat(span: int, capacity: int)
    requires capacity > 0
    ensures Accrued(span, capacity) >= 0
  {
    if span > 0 {
      SmallerSpan(0, span, capacity);
    }
  }

  lemma RefilledBy(b: Bucket, now: int, r: nat)
    requires Sound(b) && if now > b.lastRefill then RefillFor(now - b.lastRefill, b.capacity) == r else r == 0
    ensures Refilled(b, now).tokens == Min(b.capacity, b.tokens + r)
  {
  }

  /** Once a call has come, a call at the same time finds nothing more. */
  lemma NothingMore(b: Bucket, now: int)
    requires Sound(b) && Fits(b, now)
    ensures NoRefill(After(b, now), now)
  {
    RefillIsAccrual(b, now, now);
  }

  predicate NoRefill(b: Bucket, now: int) {
    now <= b.lastRefill || RefillFor(now - b.lastRefill, b.capacity) <= 0
  }

  /** A call costs at most one token, whenever it comes. */
  lemma CostsOne(b: Bucket, now: int)
    requires Sound(b)
    ensures Sound(After(b, now)) && (b.tokens > 0 ==> Admits(b, now) && After(b, now).tokens >= b.tokens - 1)
  {
  }

  lemma {:induction false} TokensAdmit(b: Bucket, calls: seq<int>)
    requires Sound(b)
    ensures Admitted(b, calls) >= Min(|calls|, b.tokens)
    decreases |calls|
  {
    if calls != [] {
      CostsOne(b, calls[0]);
      TokensAdmit(After(b, calls[0]), calls[1..]);
    }
  }

  /** As many calls as a bucket has tokens, at hand or accrued by the first of them, are all admitted, at
      whatever times they come. */
  lemma AdmittedFromHand(b: Bucket, calls: seq<int>)
    requires Sound(b) && calls != [] && Fits(b, calls[0])
    ensures Admitted(b, calls) >= Min(|calls|, AtHand(b, calls[0]))
  {
    RefilledHand(b, calls[0]);
    CostsOne(b, calls[0]);
    TokensAdmit(After(b, calls[0]), calls[1..]);
  }

  lemma {:induction false} SameInstant(b: Bucket, calls: seq<int>, now: int)
    requires Sound(b) && forall i :: 0 <= i < |calls| ==> calls[i] == now
    requires NoRefill(b, now)
    ensures Admitted(b, calls) == Min(|calls|, b.tokens)
    decreases |calls|
  {
    if calls != [] {
      SameInstant(After(b, now), calls[1..], now);
    }
  }

  /** Of a burst at one instant exactly as many are admitted as there are tokens for. */
  lemma BurstIsAdmitted(b: Bucket, calls: seq<int>, now: int)
    requires Sound(b) && Fits(b, now) && calls != [] && forall i :: 0 <= i < |calls| ==> calls[i] == now
    ensures Admitted(b, calls) == Min(|calls|, AtHand(b, now))
  {
    RefilledHand(b, now);
    CostsOne(b, now);
    NothingMore(b, now);
    SameInstant(After(b, now), calls[1..], now);
  }

  // ---- When the product leaves int64 ----

  /** An empty bucket admits exactly when the elapsed time times the capacity, as the int64 it wraps
      around to, is a minute or more. */
  lemma AdmitsExactly(b: Bucket, t: int)
    requires Sound(b) && b.tokens == 0
    ensures Admits(b, t) <==> t > b.lastRefill && Wrap64((t - b.lastRefill) * b.capacity) >= MINUTE
  {
    if t > b.lastRefill {
      RefillIsPositive(Wrap64((t - b.lastRefill) * b.capacity));
    }
  }

  lemma RefillIsPositive(w: int)
    ensures TruncDiv(w, MINUTE) > 0 <==> w >= MINUTE
  {
  }

  /** At a million requests a minute, an empty bucket that has been idle for 9,300 seconds is still
      denied, 155 minutes after its hint. */
  lemma IdleBucketIsDenied()
    ensures var b, t := Bucket(0, 1_000_000, 0), 9300 * SECOND;
      Sound(b) && !Admits(b, t) && Hint(b) == 60_000 < t && Wrap64(t * b.capacity) < 0
  {
    var b, t := Bucket(0, 1_000_000, 0), 9300 * SECOND;
    AdmitsExactly(b, t);
    assert t * b.capacity == 9_300_000_000_000_000_000;
    assert Wrap64(t * b.capacity) == 9_300_000_000_000_000_000 - TWO_64;
  }
}
