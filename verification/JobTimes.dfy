/**
  The times of the job queue: retry backoff (kernel/jobs/queue.go:185-191) and the comparison of
  `run_after` with the current time as text (kernel/jobs/queue.go:218-219, 342-347, 459-461).
 */
module JobTimes {
  import opened Common
  import opened Text
  import opened Calendar
  import opened Int64

  // ---- Backoff ----

  function Pow2(n: nat): (p: nat)
    ensures p >= 1
  {
    if n == 0 then 1 else 2 * Pow2(n - 1)
  }

  /** `time.Second << attempt` on int64, capped at a minute. */
  function Backoff(attempt: nat): int {
    var d := Wrap64(SECOND * Pow2(attempt));
    if d > MINUTE || d <= 0 then MINUTE else d
  }

  lemma {:induction false} Pow2Add(a: nat, b: nat)
    ensures Pow2(a + b) == Pow2(a) * Pow2(b)
  {
    if a > 0 {
      Pow2Add(a - 1, b);
    }
  }

  lemma {:induction false} Pow2Grows(a: nat, b: nat)
    requires a <= b
    ensures Pow2(a) <= Pow2(b)
    decreases b - a
  {
    if a < b {
      Pow2Grows(a, b - 1);
    }
  }

  lemma Pow2Values()
    ensures Pow2(5) == 32 && Pow2(6) == 64 && Pow2(15) == 32768 && Pow2(30) == 32768 * 32768
    ensures Pow2(33) == 8 * Pow2(30) && Pow2(34) == 16 * Pow2(30) && Pow2(64) == TWO_64 && Pow2(43) == 8192 * Pow2(30)
  {
    SmallPow2Values();
    Pow2Add(15, 15);
    Pow2Add(3, 30);
    Pow2Add(4, 30);
    Pow2Add(13, 30);
    Pow2Add(34, 30);
  }

  lemma SmallPow2Values()
    ensures Pow2(3) == 8 && Pow2(4) == 16 && Pow2(5) == 32 && Pow2(6) == 64 && Pow2(13) == 8192 && Pow2(15) == 32768
  {
    Pow2Add(4, 4);
    Pow2Add(5, 8);
    Pow2Add(2, 13);
  }

  /** A value that wraps is still a multiple of every power of two that divides it, up to 2^64. */
  lemma WrapKeepsFactor(x: int, k: int, f: int, g: int)
    requires f > 0 && g > 0 && x == f * k && TWO_64 == f * g
    ensures Wrap64(x) == f * (k - g * ((x + TWO_63) / TWO_64))
  {
    var q := (x + TWO_63) / TWO_64;
    assert (x + TWO_63) % TWO_64 == x + TWO_63 - TWO_64 * q;
    calc {
      Wrap64(x);
      x - TWO_64 * q;
      f * k - f * g * q;
      f * (k - g * q);
    }
  }

  /** A second is 1953125 * 2^9 nanoseconds, so late shifts are multiples of 2^43. */
  lemma LateShiftFactor(attempt: nat)
    requires attempt >= 34
    ensures SECOND * Pow2(attempt) == Pow2(43) * (1953125 * Pow2(attempt - 34))
  {
    var p, rest := Pow2(34), Pow2(attempt - 34);
    Pow2Add(34, attempt - 34);
    Regroup(1953125, 512, p, rest);
    Pow2Add(9, 34);
    assert Pow2(9) == 512;
  }

  lemma Regroup(a: int, b: int, p: int, r: int)
    ensures (a * b) * (p * r) == (b * p) * (a * r)
  {
  }

  lemma MultipleOutOfRange(f: int, m: int)
    requires f > MINUTE
    ensures f * m > MINUTE || f * m <= 0
  {
    if m >= 1 {
      assert f * m >= f;
    } else {
      assert f * m <= 0;
    }
  }

  /** From attempt 34 on the shift has wrapped; what is left is not positive or over a minute. */
  lemma LateShiftsLeaveRange(attempt: nat)
    requires attempt >= 34
    ensures Wrap64(SECOND * Pow2(attempt)) > MINUTE || Wrap64(SECOND * Pow2(attempt)) <= 0
  {
    var x, k, f, g := SECOND * Pow2(attempt), 1953125 * Pow2(attempt - 34), Pow2(43), Pow2(21);
    LateShiftFactor(attempt);
    Pow2Values();
    Pow2Add(43, 21);
    WrapKeepsFactor(x, k, f, g);
    MultipleOutOfRange(f, k - g * ((x + TWO_63) / TWO_64));
  }

  /** Despite the wrap-around, the delay is the smaller of a minute and 2^attempt seconds. */
  lemma BackoffIsCappedDoubling(attempt: nat)
    ensures Backoff(attempt) == Min(MINUTE, SECOND * Pow2(attempt))
  {
    Pow2Values();
    if attempt <= 5 {
      Pow2Grows(attempt, 5);
    } else {
      Pow2Grows(6, attempt);
      if attempt <= 33 {
        Pow2Grows(attempt, 33);
        assert SECOND * Pow2(attempt) <= SECOND * Pow2(33) < TWO_63;
      } else {
        LateShiftsLeaveRange(attempt);
      }
    }
  }

  // ---- Time stamps as text ----

  /** `n` in decimal, in exactly `w` digits. */
  function Pad(n: nat, w: nat): (s: string)
    ensures |s| == w && forall i :: 0 <= i < w ==> '0' <= s[i] <= '9'
  {
    if w == 0 then [] else Pad(n / 10, w - 1) + [Digit(n % 10)]
  }

  function Digit(d: nat): (c: char)
    requires d < 10
    ensures '0' <= c <= '9'
  {
    '0' + d as char
  }

  ghost predicate Precedes(a: string, b: string) {
    LexLeq(a, b) && !LexLeq(b, a)
  }

  /** Texts of one length that differ settle the comparison of everything that starts with them. */
  lemma {:induction false} PrefixDecides(a: string, b: string, u: string, v: string)
    requires |a| == |b| && Precedes(a, b)
    ensures Precedes(a + u, b + v)
  {
    assert a != [];
    if a[0] == b[0] {
      PrefixDecides(a[1..], b[1..], u, v);
      assert (a + u)[1..] == a[1..] + u && (b + v)[1..] == b[1..] + v;
    }
  }

  lemma {:induction false} CommonPrefix(p: string, u: string, v: string)
    ensures LexLeq(p + u, p + v) <==> LexLeq(u, v)
  {
    if p == [] {
      assert p + u == u && p + v == v;
    } else {
      CommonPrefix(p[1..], u, v);
      assert (p + u)[1..] == p[1..] + u && (p + v)[1..] == p[1..] + v;
    }
  }

  /** Fixed-width decimal text is ordered like the numbers. */
  lemma {:induction false} PadOrder(n: nat, m: nat, w: nat)
    requires n < m < Power10(w)
    ensures Precedes(Pad(n, w), Pad(m, w))
  {
    if n / 10 == m / 10 {
      var last, other := [Digit(n % 10)], [Digit(m % 10)];
      assert Precedes(last, other);
      CommonPrefix(Pad(n / 10, w - 1), last, other);
      CommonPrefix(Pad(n / 10, w - 1), other, last);
    } else {
      PadOrder(n / 10, m / 10, w - 1);
      PrefixDecides(Pad(n / 10, w - 1), Pad(m / 10, w - 1), [Digit(n % 10)], [Digit(m % 10)]);
    }
  }

  /** An instant: whole seconds since the start of year 0, and nanoseconds. */
  datatype Instant = Instant(sec: int, nano: int)

  const DAY: int := 86400
  const BILLION: int := 1_000_000_000

  /** Years 0000 to 9999, which RFC 3339 writes with four digits. */
  predicate FourDigitYear(t: Instant) {
    0 <= t.sec < DaysBeforeYear(10000) * DAY && 0 <= t.nano < BILLION
  }

  function Nanos(t: Instant): int {
    t.sec * BILLION + t.nano
  }

  function Width(i: nat): nat {
    if i == 0 then 4 else 2
  }

  function Separator(i: nat): string {
    if i < 2 then "-" else if i == 2 then "T" else if i < 5 then ":" else ""
  }

  /** Year, month, day, hour, minute and second. */
  function CalendarFields(t: Instant): (f: seq<nat>)
    requires FourDigitYear(t)
    ensures |f| == 6 && forall i :: 0 <= i < 6 ==> f[i] < Power10(Width(i))
  {
    var d := DateOf(t.sec / DAY);
    var r := t.sec % DAY;
    YearInRange(t);
    SmallPowers();
    [d.year, d.month, d.day, r / 3600, r % 3600 / 60, r % 60]
  }

  lemma SmallPowers()
    ensures Power10(2) == 100 && Power10(4) == 10000 && Power10(9) == BILLION
  {
    assert Power10(3) == 10 * Power10(2);
    assert Power10(6) == 100 * Power10(4);
    assert Power10(8) == 100 * Power10(6);
  }

  lemma YearInRange(t: Instant)
    requires FourDigitYear(t)
    ensures 0 <= DateOf(t.sec / DAY).year < 10000
  {
    var d := DateOf(t.sec / DAY);
    WithinYear(d);
    if d.year < 0 {
      YearsGrow(d.year + 1, 0);
    } else if d.year >= 10000 {
      YearsGrow(10000, d.year);
    }
  }

  /** The fields from `i` on, with the separator that follows each of the first five. */
  function Line(f: seq<nat>, i: nat): (s: string)
    requires |f| == 6 && i <= 6
    decreases 6 - i
  {
    if i == 6 then []
    else Pad(f[i], Width(i)) + (Separator(i) + Line(f, i + 1))
  }

  /** Digits without their trailing zeros. */
  function Trim(s: string): string {
    if s == [] then []
    else
      var rest := Trim(s[1..]);
      if rest == [] && s[0] == '0' then [] else [s[0]] + rest
  }

  function FractionDigits(nano: nat): string {
    Trim(Pad(nano, 9))
  }

  /** The end of a time stamp: nothing for a zero fraction, trailing zeros dropped, then "Z". */
  function Fraction(nano: nat): string {
    if nano == 0 then "Z" else "." + FractionDigits(nano) + "Z"
  }

  /** time.RFC3339Nano, in UTC. */
  function Format(t: Instant): string
    requires FourDigitYear(t)
  {
    Line(CalendarFields(t), 0) + Fraction(t.nano)
  }

  predicate FieldsBefore(f: seq<nat>, g: seq<nat>, i: nat)
    requires |f| == |g| == 6 && i <= 6
    decreases 6 - i
  {
    i < 6 && (f[i] < g[i] || (f[i] == g[i] && FieldsBefore(f, g, i + 1)))
  }

  lemma {:induction false} LineLength(f: seq<nat>, g: seq<nat>, i: nat)
    requires |f| == |g| == 6 && i <= 6
    ensures |Line(f, i)| == |Line(g, i)|
    decreases 6 - i
  {
    if i < 6 {
      LineLength(f, g, i + 1);
    }
  }

  lemma {:induction false} LineOrder(f: seq<nat>, g: seq<nat>, i: nat)
    requires |f| == |g| == 6 && i <= 6 && FieldsBefore(f, g, i)
    requires forall k :: 0 <= k < 6 ==> f[k] < Power10(Width(k)) && g[k] < Power10(Width(k))
    ensures Precedes(Line(f, i), Line(g, i))
    decreases 6 - i
  {
    var a, b := Separator(i) + Line(f, i + 1), Separator(i) + Line(g, i + 1);
    if f[i] < g[i] {
      PadOrder(f[i], g[i], Width(i));
      PrefixDecides(Pad(f[i], Width(i)), Pad(g[i], Width(i)), a, b);
    } else {
      LineOrder(f, g, i + 1);
      CommonPrefix(Separator(i), Line(f, i + 1), Line(g, i + 1));
      CommonPrefix(Separator(i), Line(g, i + 1), Line(f, i + 1));
      CommonPrefix(Pad(f[i], Width(i)), a, b);
      CommonPrefix(Pad(f[i], Width(i)), b, a);
    }
  }

  predicate TripleBefore(f: seq<nat>, g: seq<nat>, i: nat)
    requires |f| == |g| == 6 && i <= 3
  {
    f[i] < g[i] || (f[i] == g[i] && (f[i + 1] < g[i + 1] || (f[i + 1] == g[i + 1] && f[i + 2] < g[i + 2])))
  }

  lemma DateThenClock(f: seq<nat>, g: seq<nat>)
    requires |f| == |g| == 6
    requires TripleBefore(f, g, 0) || (f[0] == g[0] && f[1] == g[1] && f[2] == g[2] && TripleBefore(f, g, 3))
    ensures FieldsBefore(f, g, 0)
  {
    if TripleBefore(f, g, 3) {
      assert FieldsBefore(f, g, 4) || f[3] < g[3];
      assert FieldsBefore(f, g, 3);
    }
    assert FieldsBefore(f, g, 2) || f[0] < g[0] || (f[0] == g[0] && f[1] < g[1]);
    assert FieldsBefore(f, g, 1) || f[0] < g[0];
  }

  /** An earlier second has earlier fields. */
  lemma SecondsOrderFields(r: Instant, n: Instant)
    requires FourDigitYear(r) && FourDigitYear(n) && r.sec < n.sec
    ensures FieldsBefore(CalendarFields(r), CalendarFields(n), 0)
  {
    var dr, dn := r.sec / DAY, n.sec / DAY;
    FieldsByDay(r, dr, r.sec % DAY);
    FieldsByDay(n, dn, n.sec % DAY);
    if dr < dn {
      DateOfMonotone(dr, dn);
      assert TripleBefore(CalendarFields(r), CalendarFields(n), 0);
    } else {
      LaterOnTheDay(r.sec, n.sec);
      ClockOrder(r.sec % DAY, n.sec % DAY);
      assert TripleBefore(CalendarFields(r), CalendarFields(n), 3);
    }
    DateThenClock(CalendarFields(r), CalendarFields(n));
  }

  lemma FieldsByDay(t: Instant, day: int, rest: int)
    requires FourDigitYear(t) && day == t.sec / DAY && rest == t.sec % DAY
    ensures var f := CalendarFields(t); var d := DateOf(day);
      f[0] == d.year && f[1] == d.month && f[2] == d.day && f[3] == rest / 3600 && f[4] == rest % 3600 / 60 && f[5] == rest % 60
  {
  }

  lemma LaterOnTheDay(r: int, n: int)
    requires r < n && r / DAY >= n / DAY
    ensures r / DAY == n / DAY && r % DAY < n % DAY
  {
  }

  lemma ClockOrder(r: int, n: int)
    requires 0 <= r < n < DAY
    ensures r / 3600 < n / 3600
         || (r / 3600 == n / 3600 && (r % 3600 / 60 < n % 3600 / 60 || (r % 3600 / 60 == n % 3600 / 60 && r % 60 < n % 60)))
  {
    assert r == 3600 * (r / 3600) + 60 * (r % 3600 / 60) + r % 60;
    assert n == 3600 * (n / 3600) + 60 * (n % 3600 / 60) + n % 60;
  }

  // ---- Fractions of one second ----

  ghost predicate ProperPrefix(a: string, b: string) {
    |a| < |b| && b[..|a|] == a
  }

  lemma {:induction false} TrimDigits(s: string)
    requires AllDigits(s)
    ensures AllDigits(Trim(s)) && |Trim(s)| <= |s|
  {
    if s != [] {
      TrimDigits(s[1..]);
    }
  }

  /** Only zeros are trimmed away. */
  lemma {:induction false} TrimEmpty(s: string, t: string)
    requires |s| == |t| && AllDigits(s) && AllDigits(t) && Trim(s) == []
    ensures LexLeq(s, t)
    ensures Trim(t) != [] ==> Precedes(s, t)
    ensures Trim(t) == [] ==> s == t
  {
    if s != [] {
      TrimEmpty(s[1..], t[1..]);
    }
  }

  /** Trimmed digits followed by a character above the digits compare like the untrimmed ones,
      unless one is a proper prefix of the other: then the shorter one, which is the smaller
      number, sorts last. */
  lemma {:induction false} TrimOrder(s: string, t: string, z: char)
    requires |s| == |t| && AllDigits(s) && AllDigits(t) && z > '9'
    ensures Trim(s) == Trim(t) <==> s == t
    ensures ProperPrefix(Trim(s), Trim(t)) ==> Precedes(s, t) && Precedes(Trim(t) + [z], Trim(s) + [z])
    ensures !ProperPrefix(Trim(s), Trim(t)) && !ProperPrefix(Trim(t), Trim(s)) ==>
      (LexLeq(Trim(s) + [z], Trim(t) + [z]) <==> LexLeq(s, t))
  {
    var p, q := Trim(s), Trim(t);
    TrimDigits(s);
    TrimDigits(t);
    if s == [] {
      assert s == t;
    } else if p == [] {
      TrimEmpty(s, t);
      if q != [] {
        assert (q + [z])[0] == q[0] < z;
      }
    } else if q == [] {
      TrimEmpty(t, s);
    } else {
      var ps, qs := Trim(s[1..]), Trim(t[1..]);
      TrimOrder(s[1..], t[1..], z);
      assert p == [s[0]] + ps && q == [t[0]] + qs;
      assert (p + [z])[1..] == ps + [z] && (q + [z])[1..] == qs + [z];
      assert p[1..] == ps && q[1..] == qs;
      if s[0] == t[0] {
        ConsPrefix(s[0], ps, qs);
        ConsPrefix(s[0], qs, ps);
      }
    }
  }

  lemma ConsPrefix(c: char, a: string, b: string)
    ensures ProperPrefix([c] + a, [c] + b) <==> ProperPrefix(a, b)
  {
    if |a| < |b| {
      assert ([c] + b)[..|a| + 1] == [c] + b[..|a|];
      if ([c] + b)[..|a| + 1] == [c] + a {
        assert b[..|a|] == ([c] + b)[..|a| + 1][1..] == ([c] + a)[1..] == a;
      }
    }
  }

  // ---- Time stamps against instants ----

  lemma FractionOrder(r: nat, n: nat)
    requires r < BILLION && n < BILLION
    ensures ProperPrefix(FractionDigits(r), FractionDigits(n)) ==> r < n && Precedes(Fraction(n), Fraction(r))
    ensures !ProperPrefix(FractionDigits(r), FractionDigits(n)) && !ProperPrefix(FractionDigits(n), FractionDigits(r)) ==>
      (LexLeq(Fraction(r), Fraction(n)) <==> r <= n)
  {
    SmallPowers();
    PaddedOrder(r, n);
    TrimOrder(Pad(r, 9), Pad(n, 9), 'Z');
    FractionShape(r);
    FractionShape(n);
    DottedOrder(FractionDigits(r), FractionDigits(n));
    DottedOrder(FractionDigits(n), FractionDigits(r));
  }

  /** The fraction as text, from its digits. */
  function Dotted(p: string): string {
    if p == [] then "Z" else "." + p + "Z"
  }

  /** The dot changes nothing for two fractions with digits, and comes before the "Z" of one without. */
  lemma DottedOrder(p: string, q: string)
    requires AllDigits(p) && AllDigits(q)
    ensures !ProperPrefix(p, q) && !ProperPrefix(q, p) ==> (LexLeq(Dotted(p), Dotted(q)) <==> LexLeq(p + "Z", q + "Z"))
    ensures ProperPrefix(p, q) && Precedes(q + "Z", p + "Z") ==> Precedes(Dotted(q), Dotted(p))
  {
    if p != [] && q != [] {
      CommonPrefix(".", p + "Z", q + "Z");
      CommonPrefix(".", q + "Z", p + "Z");
      assert Dotted(p) == "." + (p + "Z") && Dotted(q) == "." + (q + "Z");
    } else if q != [] {
      assert q[..0] == p && ProperPrefix(p, q);
    } else if p != [] {
      assert p[..0] == q && ProperPrefix(q, p);
    }
  }

  lemma FractionShape(n: nat)
    requires n < BILLION
    ensures Fraction(n) == Dotted(FractionDigits(n)) && AllDigits(FractionDigits(n))
    ensures FractionDigits(n) == [] <==> n == 0
  {
    SmallPowers();
    PaddedOrder(0, n);
    ZerosTrimAway(9);
    TrimDigits(Pad(n, 9));
    if FractionDigits(n) == [] {
      TrimEmpty(Pad(n, 9), Pad(0, 9));
    }
  }

  lemma {:induction false} ZerosTrimAway(w: nat)
    ensures Trim(Pad(0, w)) == []
  {
    if w > 0 {
      ZerosTrimAway(w - 1);
      AppendZero(Pad(0, w - 1));
    }
  }

  lemma {:induction false} AppendZero(s: string)
    requires Trim(s) == []
    ensures Trim(s + "0") == []
  {
    if s != [] {
      AppendZero(s[1..]);
      assert (s + "0")[1..] == s[1..] + "0";
    }
  }

  lemma PaddedOrder(r: nat, n: nat)
    requires r < BILLION && n < BILLION
    ensures LexLeq(Pad(r, 9), Pad(n, 9)) <==> r <= n
    ensures Pad(r, 9) == Pad(n, 9) <==> r == n
  {
    SmallPowers();
    if r < n {
      PadOrder(r, n, 9);
    } else if n < r {
      PadOrder(n, r, 9);
    } else {
      CommonPrefix(Pad(r, 9), [], []);
      assert Pad(r, 9) + [] == Pad(r, 9);
    }
  }

  /** One fraction, written without trailing zeros, is the beginning of the other, within one second. */
  ghost predicate Ambiguous(r: Instant, n: Instant)
    requires FourDigitYear(r) && FourDigitYear(n)
  {
    && r.sec == n.sec
    && (ProperPrefix(FractionDigits(r.nano), FractionDigits(n.nano)) || ProperPrefix(FractionDigits(n.nano), FractionDigits(r.nano)))
  }

  lemma CompareText(r: Instant, n: Instant)
    requires FourDigitYear(r) && FourDigitYear(n)
    ensures r.sec < n.sec ==> Precedes(Format(r), Format(n))
    ensures r.sec > n.sec ==> Precedes(Format(n), Format(r))
    ensures r.sec == n.sec ==> (LexLeq(Format(r), Format(n)) <==> LexLeq(Fraction(r.nano), Fraction(n.nano)))
  {
    var f, g := CalendarFields(r), CalendarFields(n);
    LineLength(f, g, 0);
    if r.sec < n.sec {
      SecondsOrderFields(r, n);
      LineOrder(f, g, 0);
      PrefixDecides(Line(f, 0), Line(g, 0), Fraction(r.nano), Fraction(n.nano));
    } else if r.sec > n.sec {
      SecondsOrderFields(n, r);
      LineOrder(g, f, 0);
      PrefixDecides(Line(g, 0), Line(f, 0), Fraction(n.nano), Fraction(r.nano));
    } else {
      assert f == g;
      CommonPrefix(Line(f, 0), Fraction(r.nano), Fraction(n.nano));
    }
  }

  /** The text comparison of the due query never takes a job a full second early and never leaves
      out a job that is due by a full second. */
  lemma DueWithinASecond(runAfter: Instant, now: Instant)
    requires FourDigitYear(runAfter) && FourDigitYear(now)
    ensures LexLeq(Format(runAfter), Format(now)) ==> Nanos(runAfter) < Nanos(now) + BILLION
    ensures !LexLeq(Format(runAfter), Format(now)) ==> Nanos(now) < Nanos(runAfter) + BILLION
  {
    CompareText(runAfter, now);
  }

  /** Exactly when the text comparison is the comparison of the instants. */
  lemma DueExactly(runAfter: Instant, now: Instant)
    requires FourDigitYear(runAfter) && FourDigitYear(now)
    ensures (LexLeq(Format(runAfter), Format(now)) <==> Nanos(runAfter) <= Nanos(now)) <==> !Ambiguous(runAfter, now)
  {
    CompareText(runAfter, now);
    if runAfter.sec == now.sec {
      FractionOrder(runAfter.nano, now.nano);
      FractionOrder(now.nano, runAfter.nano);
    }
  }

  /** The commonest such pair: a whole second, which is written without a fraction, sorts after every
      later instant of that second. A job due at it is not selected at those. */
  lemma WholeSecondSortsLast(sec: int, nano: nat)
    requires 0 < nano < BILLION && FourDigitYear(Instant(sec, 0)) && FourDigitYear(Instant(sec, nano))
    ensures var due, now := Instant(sec, 0), Instant(sec, nano);
      Ambiguous(due, now) && Nanos(due) < Nanos(now) && !LexLeq(Format(due), Format(now))
  {
    var due, now := Instant(sec, 0), Instant(sec, nano);
    FractionShape(0);
    FractionShape(nano);
    assert FractionDigits(nano)[..0] == FractionDigits(0);
    assert Ambiguous(due, now);
    DueExactly(due, now);
  }
}
