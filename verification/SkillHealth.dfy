/**
  Skill health of modules/curator/scores.go: the sliding window of the last 20 invocations, the
  score of a skill, and which skills are suggested for pruning. Histories are newest first.
  Rates are real numbers; for at most 20 invocations the source's float64 quotients compare with
  0.8 and 0.5 in the same way.
 */
module SkillHealth {
  import opened Common
  import opened Int64

  const WINDOW: nat := 20
  const DAY: int := 24 * 60 * MINUTE

  /** Go's zero time, 1 January of year 1, in nanoseconds since 1970. */
  const ZERO_TIME: int := -62_135_596_800 * SECOND

  datatype Invocation = Invocation(at: int, success: bool, durationMs: int)

  datatype Health = InsufficientData | Healthy | Shaky | Failing

  // ---- Counting ----

  /** The positions of the invocations that satisfy `f`. */
  ghost function Where(s: seq<Invocation>, f: Invocation -> bool): set<nat> {
    set i: nat | i < |s| && f(s[i])
  }

  lemma WhereOneMore(s: seq<Invocation>, x: Invocation, f: Invocation -> bool)
    ensures |Where(s + [x], f)| == |Where(s, f)| + if f(x) then 1 else 0
  {
    var before, after := Where(s, f), Where(s + [x], f);
    assert forall i: nat :: i < |s| ==> (s + [x])[i] == s[i];
    assert (s + [x])[|s|] == x && |s| !in before;
    assert after == if f(x) then before + {|s|} else before;
  }

  ghost function Successes(s: seq<Invocation>): nat {
    |Where(s, (x: Invocation) => x.success)|
  }

  lemma SuccessesOneMore(s: seq<Invocation>, x: Invocation)
    ensures Successes(s + [x]) == Successes(s) + if x.success then 1 else 0
  {
    WhereOneMore(s, x, (y: Invocation) => y.success);
  }

  // ---- Health ----

  /** The window that a newest-first history is judged by. */
  function Latest(invs: seq<Invocation>): seq<Invocation> {
    if |invs| > WINDOW then invs[..WINDOW] else invs
  }

  /** Over 80% is healthy, 50% to 80% shaky, less failing; fewer than five say nothing. */
  ghost function HealthOf(invs: seq<Invocation>): Health {
    var n, s := |Latest(invs)|, Successes(Latest(invs));
    if n < 5 then InsufficientData
    else if 5 * s > 4 * n then Healthy
    else if 2 * s >= n then Shaky
    else Failing
  }

  lemma RateComparisons(s: nat, n: nat)
    requires n > 0
    ensures s as real / n as real > 0.80 <==> 5 * s > 4 * n
    ensures s as real / n as real >= 0.50 <==> 2 * s >= n
  {
    QuotientAbove(s as real, n as real, 0.80);
    QuotientAbove(s as real, n as real, 0.50);
    RealComparisons(s as real, n as real);
    assert (5 * s) as real == 5.0 * s as real && (4 * n) as real == 4.0 * n as real && (2 * s) as real == 2.0 * s as real;
  }

  lemma QuotientAbove(x: real, y: real, c: real)
    requires y > 0.0
    ensures x / y > c <==> x > c * y
    ensures x / y >= c <==> x >= c * y
  {
    assert x / y * y == x;
    ScaledComparison(x / y, c, y);
  }

  lemma RealComparisons(x: real, y: real)
    ensures x > 0.8 * y <==> 5.0 * x > 4.0 * y
    ensures x >= 0.5 * y <==> 2.0 * x >= y
  {
  }

  lemma ScaledComparison(a: real, b: real, n: real)
    requires n > 0.0
    ensures a > b <==> a * n > b * n
    ensures a >= b <==> a * n >= b * n
  {
  }

  method ClassifyHealth(invs: seq<Invocation>) returns (h: Health)
    ensures h == HealthOf(invs)
    ensures h == InsufficientData <==> |invs| < 5
    ensures |invs| >= 5 ==>
      var rate := Successes(Latest(invs)) as real / |Latest(invs)| as real;
      (h == Healthy <==> rate > 0.80) && (h == Shaky <==> 0.50 <= rate <= 0.80) && (h == Failing <==> rate < 0.50)
  {
    if |invs| < 5 {
      return InsufficientData;
    }
    var window := invs;
    if |window| > WINDOW {
      window := window[..WINDOW];
    }
    var successes := 0;
    for i := 0 to |window|
      invariant successes == Successes(window[..i])
    {
      SuccessesOneMore(window[..i], window[i]);
      assert window[..i + 1] == window[..i] + [window[i]];
      if window[i].success {
        successes := successes + 1;
      }
    }
    assert window[..|window|] == window;
    RateComparisons(successes, |window|);
    var rate := successes as real / |window| as real;
    if rate > 0.80 {
      return Healthy;
    } else if rate >= 0.50 {
      return Shaky;
    }
    return Failing;
  }

  // ---- When a skill was first seen failing ----

  /** The history up to the invocation at `k` was the first one to be classified failing. */
  ghost predicate FirstCrossing(invs: seq<Invocation>, k: nat) {
    && k < |invs| && HealthOf(invs[k..]) == Failing
    && forall j: nat :: k < j < |invs| ==> HealthOf(invs[j..]) != Failing
  }

  /** `t` is the time of the oldest invocation in the first failing window. */
  ghost predicate SeenFailingAt(invs: seq<Invocation>, t: int) {
    exists k: nat :: FirstCrossing(invs, k) && t == invs[Min(k + WINDOW - 1, |invs| - 1)].at
  }

  lemma OneCrossing(invs: seq<Invocation>, j: nat, k: nat)
    requires FirstCrossing(invs, j) && FirstCrossing(invs, k)
    ensures j == k
  {
  }

  /** Only the window counts, so a whole history and its latest part are judged alike. */
  lemma SameLatest(invs: seq<Invocation>, k: nat, window: seq<Invocation>)
    requires k < |invs| && window == invs[k..Min(k + WINDOW, |invs|)]
    ensures HealthOf(window) == HealthOf(invs[k..])
  {
    assert Latest(window) == window;
    assert Latest(invs[k..]) == window;
  }

  lemma SameWindow(invs: seq<Invocation>, k: nat, window: seq<Invocation>)
    requires k < |invs| && |window| == Min(k + WINDOW, |invs|) - k && forall j :: 0 <= j < |window| ==> window[j] == invs[k + j]
    ensures HealthOf(window) == HealthOf(invs[k..])
  {
    assert window == invs[k..Min(k + WINDOW, |invs|)];
    SameLatest(invs, k, window);
  }

  method Reverse(invs: seq<Invocation>) returns (chrono: array<Invocation>)
    ensures fresh(chrono) && chrono.Length == |invs|
    ensures forall i :: 0 <= i < |invs| ==> chrono[i] == invs[|invs| - 1 - i]
  {
    if invs == [] {
      return new Invocation[0];
    }
    chrono := new Invocation[|invs|](_ => invs[0]);
    for i := 0 to |invs|
      invariant forall j :: 0 <= j < i ==> chrono[|invs| - 1 - j] == invs[j]
    {
      chrono[|invs| - 1 - i] := invs[i];
    }
    forall i | 0 <= i < |invs| ensures chrono[i] == invs[|invs| - 1 - i] {
      assert chrono[|invs| - 1 - (|invs| - 1 - i)] == invs[|invs| - 1 - i];
    }
  }

  /** The newest-first window of chronological positions `start` to `end`. */
  method WindowOf(chrono: array<Invocation>, start: nat, end: nat) returns (window: array<Invocation>)
    requires start < end <= chrono.Length
    ensures fresh(window) && window.Length == end - start
    ensures forall i :: 0 <= i < end - start ==> window[i] == chrono[end - 1 - i]
  {
    var first := chrono[start];
    window := new Invocation[end - start](_ => first);
    for j := start to end
      invariant forall i :: start <= i < j ==> window[end - 1 - i] == chrono[i]
    {
      window[end - 1 - j] := chrono[j];
    }
    forall i | 0 <= i < end - start ensures window[i] == chrono[end - 1 - i] {
      assert window[end - 1 - (end - 1 - i)] == chrono[end - 1 - i];
    }
  }

  /** `chrono` is `invs` from oldest to newest. */
  ghost predicate Reversed(chrono: array<Invocation>, invs: seq<Invocation>)
    reads chrono
  {
    chrono.Length == |invs| && forall j :: 0 <= j < |invs| ==> chrono[j] == invs[|invs| - 1 - j]
  }

  /** How the skill was classified when the invocation at `i` was the newest, and the time at which
      that window starts. */
  method PastHealth(chrono: array<Invocation>, i: nat, ghost invs: seq<Invocation>) returns (h: Health, from: int)
    requires i < |invs| && Reversed(chrono, invs)
    ensures h == HealthOf(invs[|invs| - 1 - i..])
    ensures from == invs[Min(|invs| - 1 - i + WINDOW - 1, |invs| - 1)].at
  {
    var end := i + 1;
    var start := end - WINDOW;
    if start < 0 {
      start := 0;
    }
    var window := WindowOf(chrono, start, end);
    ghost var n, k := |invs|, |invs| - 1 - i;
    assert end - start == Min(k + WINDOW, n) - k;
    forall j | 0 <= j < end - start ensures window[j] == invs[k + j] {
      assert window[j] == chrono[i - j];
    }
    SameWindow(invs, k, window[..]);
    h := ClassifyHealth(window[..]);
    from := chrono[start].at;
  }

  /** None of the windows up to the one at `k` was failing. */
  ghost predicate NoneFailing(invs: seq<Invocation>, k: nat) {
    forall j: nat :: k <= j < |invs| ==> HealthOf(invs[j..]) != Failing
  }

  lemma CrossingFound(invs: seq<Invocation>, k: nat, t: int)
    requires k < |invs| && NoneFailing(invs, k + 1) && HealthOf(invs[k..]) == Failing
    requires t == invs[Min(k + WINDOW - 1, |invs| - 1)].at
    ensures SeenFailingAt(invs, t)
  {
    assert FirstCrossing(invs, k);
  }

  lemma NoneFailingYet(invs: seq<Invocation>, k: nat)
    requires k < |invs| && NoneFailing(invs, k + 1) && HealthOf(invs[k..]) != Failing
    ensures NoneFailing(invs, k)
  {
  }

  lemma LastWindowCounts(invs: seq<Invocation>)
    requires NoneFailing(invs, 0)
    ensures HealthOf(invs) != Failing
  {
    assert invs[0..] == invs;
  }

  /** The zero time for a skill that is not failing now; otherwise the start of its first failing
      window, which always exists: the return after the source's loop is never reached. */
  method FirstSeenFailing(invs: seq<Invocation>) returns (t: int)
    ensures HealthOf(invs) != Failing ==> t == ZERO_TIME
    ensures HealthOf(invs) == Failing ==> SeenFailingAt(invs, t)
  {
    var h := ClassifyHealth(invs);
    if h != Failing {
      return ZERO_TIME;
    }
    var chrono := Reverse(invs);
    t := FirstFailingWindow(chrono, invs);
  }

  /** One round of the loop: the start of the window that ends at `i`, if it is failing. */
  method JudgeAt(chrono: array<Invocation>, i: nat, ghost invs: seq<Invocation>) returns (found: Option<int>)
    requires i < |invs| && Reversed(chrono, invs) && NoneFailing(invs, |invs| - i)
    ensures found.Some? ==> SeenFailingAt(invs, found.value)
    ensures found.None? ==> NoneFailing(invs, |invs| - 1 - i)
  {
    var past, from := PastHealth(chrono, i, invs);
    if past == Failing {
      CrossingFound(invs, |invs| - 1 - i, from);
      return Some(from);
    }
    NoneFailingYet(invs, |invs| - 1 - i);
    return None;
  }

  /** The loop over the windows, from the oldest on. */
  method FirstFailingWindow(chrono: array<Invocation>, ghost invs: seq<Invocation>) returns (t: int)
    requires Reversed(chrono, invs) && HealthOf(invs) == Failing
    ensures SeenFailingAt(invs, t)
  {
    ghost var n := |invs|;
    for i := 0 to chrono.Length
      invariant NoneFailing(invs, n - i) && Reversed(chrono, invs)
    {
      var found := JudgeAt(chrono, i, invs);
      if found.Some? {
        return found.value;
      }
    }
    LastWindowCounts(invs);
    assert false;
  }

  // ---- Scores ----

  datatype Score = Score(
    invocations: nat, health: Health, lastInvokedAt: int, successRate: real, avgDurationMs: real,
    last7Count: nat, last7Rate: real, prior7Count: nat, prior7Rate: real, firstSeenFailing: int)

  function Percent(num: nat, denom: nat): (p: real)
    requires num <= denom
    ensures 0.0 <= p <= 100.0 && p * denom as real == 100.0 * num as real
  {
    if denom == 0 then 0.0
    else
      QuotientWithin(num, denom);
      num as real / denom as real * 100.0
  }

  lemma QuotientWithin(num: nat, denom: nat)
    requires num <= denom && denom > 0
    ensures 0.0 <= num as real / denom as real <= 1.0
    ensures num as real / denom as real * 100.0 * denom as real == 100.0 * num as real
  {
    var q := num as real / denom as real;
    assert q * denom as real == num as real;
    ScaledComparison(q, 0.0, denom as real);
    ScaledComparison(q, 1.0, denom as real);
  }

  /** Invoked after `low` and not after `high`, of the two that are given. */
  ghost function Between(low: Option<int>, high: Option<int>, onlySuccess: bool): Invocation -> bool {
    (x: Invocation) => (low.Some? ==> x.at > low.value) && (high.Some? ==> x.at <= high.value) && (onlySuccess ==> x.success)
  }

  ghost function TotalMs(invs: seq<Invocation>): int {
    if invs == [] then 0 else TotalMs(invs[..|invs| - 1]) + invs[|invs| - 1].durationMs
  }

  ghost function Tally(invs: seq<Invocation>, low: Option<int>, high: Option<int>, onlySuccess: bool): nat {
    |Where(invs, Between(low, high, onlySuccess))|
  }

  lemma SuccessTally(invs: seq<Invocation>, low: Option<int>, high: Option<int>)
    ensures Tally(invs, low, high, true) <= Tally(invs, low, high, false) <= |invs|
  {
    SubsetSize(Where(invs, Between(low, high, true)), Where(invs, Between(low, high, false)));
    SubsetSize(Where(invs, Between(low, high, false)), UpTo(|invs|));
  }

  lemma WhereSplit(s: seq<Invocation>, f: Invocation -> bool, g: Invocation -> bool, h: Invocation -> bool)
    requires forall x :: f(x) <==> g(x) || h(x)
    requires forall x :: !(g(x) && h(x))
    ensures |Where(s, f)| == |Where(s, g)| + |Where(s, h)|
  {
    assert Where(s, f) == Where(s, g) + Where(s, h);
    assert Where(s, g) * Where(s, h) == {};
  }

  /** Every invocation falls in the last seven days, the seven before, or earlier, and in one only. */
  lemma TalliesAddUp(invs: seq<Invocation>, a: int, b: int, onlySuccess: bool)
    requires a <= b
    ensures Tally(invs, None, None, onlySuccess)
      == Tally(invs, Some(b), None, onlySuccess) + Tally(invs, Some(a), Some(b), onlySuccess) + Tally(invs, None, Some(a), onlySuccess)
  {
    WhereSplit(invs, Between(None, None, onlySuccess), Between(Some(b), None, onlySuccess), Between(None, Some(b), onlySuccess));
    WhereSplit(invs, Between(None, Some(b), onlySuccess), Between(Some(a), Some(b), onlySuccess), Between(None, Some(a), onlySuccess));
  }

  /** What a score says about a history. */
  ghost predicate ScoreIs(score: Score, invs: seq<Invocation>, now: int) {
    && score.invocations == |invs| && score.health == HealthOf(invs)
    && (HealthOf(invs) != Failing ==> score.firstSeenFailing == ZERO_TIME)
    && (HealthOf(invs) == Failing ==> SeenFailingAt(invs, score.firstSeenFailing))
    && score.last7Count == Tally(invs, Some(now - 7 * DAY), None, false)
    && score.prior7Count == Tally(invs, Some(now - 14 * DAY), Some(now - 7 * DAY), false)
    && RatesAre(score, invs, now)
    && (invs != [] ==> score.lastInvokedAt == invs[0].at && score.avgDurationMs == TotalMs(invs) as real / |invs| as real)
  }

  ghost predicate RatesAre(score: Score, invs: seq<Invocation>, now: int) {
    var week, fortnight := Some(now - 7 * DAY), Some(now - 14 * DAY);
    && Tally(invs, None, None, true) <= |invs|
    && Tally(invs, week, None, true) <= score.last7Count
    && Tally(invs, fortnight, week, true) <= score.prior7Count
    && score.successRate == Percent(Tally(invs, None, None, true), |invs|)
    && score.last7Rate == Percent(Tally(invs, week, None, true), score.last7Count)
    && score.prior7Rate == Percent(Tally(invs, fortnight, week, true), score.prior7Count)
  }

  ghost predicate Counted(invs: seq<Invocation>, now: int, total: int, good: nat, last7: nat, last7Good: nat, prior7: nat, prior7Good: nat) {
    var week, fortnight := Some(now - 7 * DAY), Some(now - 14 * DAY);
    && total == TotalMs(invs) && good == Tally(invs, None, None, true)
    && last7 == Tally(invs, week, None, false) && last7Good == Tally(invs, week, None, true)
    && prior7 == Tally(invs, fortnight, week, false) && prior7Good == Tally(invs, fortnight, week, true)
  }

  lemma CountOne(invs: seq<Invocation>, x: Invocation, now: int, total: int, good: nat, last7: nat, last7Good: nat, prior7: nat, prior7Good: nat)
    requires Counted(invs, now, total, good, last7, last7Good, prior7, prior7Good)
    ensures
      var recent, middle := x.at > now - 7 * DAY, now - 14 * DAY < x.at <= now - 7 * DAY;
      Counted(invs + [x], now, total + x.durationMs, if x.success then good + 1 else good,
              if recent then last7 + 1 else last7, if recent && x.success then last7Good + 1 else last7Good,
              if middle then prior7 + 1 else prior7, if middle && x.success then prior7Good + 1 else prior7Good)
  {
    var week, fortnight := Some(now - 7 * DAY), Some(now - 14 * DAY);
    assert (invs + [x])[..|invs|] == invs;
    WhereOneMore(invs, x, Between(None, None, true));
    WhereOneMore(invs, x, Between(week, None, false));
    WhereOneMore(invs, x, Between(week, None, true));
    WhereOneMore(invs, x, Between(fortnight, week, false));
    WhereOneMore(invs, x, Between(fortnight, week, true));
  }

  /** The loop of ComputeScore. */
  method CountInvocations(invs: seq<Invocation>, now: int)
    returns (total: int, successes: nat, last7Count: nat, last7Success: nat, prior7Count: nat, prior7Success: nat)
    ensures Counted(invs, now, total, successes, last7Count, last7Success, prior7Count, prior7Success)
  {
    total, successes, last7Count, last7Success, prior7Count, prior7Success := 0, 0, 0, 0, 0, 0;
    var last7Cutoff, prior7Cutoff := now - 7 * DAY, now - 14 * DAY;
    NothingCounted(now);
    for i := 0 to |invs|
      invariant Counted(invs[..i], now, total, successes, last7Count, last7Success, prior7Count, prior7Success)
    {
      var x := invs[i];
      CountOne(invs[..i], x, now, total, successes, last7Count, last7Success, prior7Count, prior7Success);
      assert invs[..i + 1] == invs[..i] + [x];
      total := total + x.durationMs;
      if x.success {
        successes := successes + 1;
      }
      if x.at > last7Cutoff {
        last7Count := last7Count + 1;
        if x.success {
          last7Success := last7Success + 1;
        }
      } else if x.at > prior7Cutoff {
        prior7Count := prior7Count + 1;
        if x.success {
          prior7Success := prior7Success + 1;
        }
      }
    }
    assert invs[..|invs|] == invs;
  }

  lemma NothingCounted(now: int)
    ensures Counted([], now, 0, 0, 0, 0, 0, 0)
  {
    assert forall f: Invocation -> bool :: Where([], f) == {};
  }

  lemma CountsBounded(invs: seq<Invocation>, now: int)
    ensures Tally(invs, None, None, true) <= |invs|
    ensures Tally(invs, Some(now - 7 * DAY), None, true) <= Tally(invs, Some(now - 7 * DAY), None, false)
    ensures Tally(invs, Some(now - 14 * DAY), Some(now - 7 * DAY), true) <= Tally(invs, Some(now - 14 * DAY), Some(now - 7 * DAY), false)
  {
    SuccessTally(invs, None, None);
    SuccessTally(invs, Some(now - 7 * DAY), None);
    SuccessTally(invs, Some(now - 14 * DAY), Some(now - 7 * DAY));
  }

  method ComputeScore(invs: seq<Invocation>, now: int) returns (score: Score)
    ensures ScoreIs(score, invs, now)
  {
    var health := ClassifyHealth(invs);
    CountsBounded(invs, now);
    if invs == [] {
      NothingCounted(now);
      return Score(0, health, ZERO_TIME, 0.0, 0.0, 0, 0.0, 0, 0.0, ZERO_TIME);
    }
    var total, successes, last7Count, last7Success, prior7Count, prior7Success := CountInvocations(invs, now);
    var first := FirstSeenFailing(invs);
    return Score(|invs|, health, invs[0].at, Percent(successes, |invs|), total as real / |invs| as real,
                 last7Count, Percent(last7Success, last7Count), prior7Count, Percent(prior7Success, prior7Count), first);
  }

  // ---- Prune suggestions ----

  datatype Skill = Skill(name: string, history: seq<Invocation>)

  datatype Suggestion = Suggestion(name: string, firstSeenFailing: int, failingForDays: real, successRate: real, invocations: nat)

  /** Failing now, and the first failing window starts more than seven days ago. */
  ghost predicate ToPrune(invs: seq<Invocation>, now: int) {
    HealthOf(invs) == Failing && exists t :: SeenFailingAt(invs, t) && t != ZERO_TIME && t < now - 7 * DAY
  }

  ghost predicate SuggestionIs(x: Suggestion, s: Skill, now: int) {
    && x.name == s.name && x.invocations == |s.history|
    && SeenFailingAt(s.history, x.firstSeenFailing)
    && x.failingForDays == DaysSince(x.firstSeenFailing, now)
    && Tally(s.history, None, None, true) <= |s.history|
    && x.successRate == Percent(Tally(s.history, None, None, true), |s.history|)
  }

  /** `out` are fitting results for the items to keep, in order; `picked` are their positions. */
  ghost predicate Filtered<A, B>(items: seq<A>, keep: A -> bool, fits: (B, A) -> bool, out: seq<B>, picked: seq<nat>) {
    && |picked| == |out|
    && (forall i, j :: 0 <= i < j < |picked| ==> picked[i] < picked[j])
    && (forall i :: 0 <= i < |picked| ==> picked[i] < |items| && fits(out[i], items[picked[i]]))
    && (forall k: nat :: k < |items| ==> (keep(items[k]) <==> k in picked))
  }

  lemma SkipOne<A, B>(items: seq<A>, keep: A -> bool, fits: (B, A) -> bool, out: seq<B>, picked: seq<nat>, a: A)
    requires Filtered(items, keep, fits, out, picked) && !keep(a)
    ensures Filtered(items + [a], keep, fits, out, picked)
  {
    assert forall k: nat :: k < |items| ==> (items + [a])[k] == items[k];
    assert |items| !in picked;
  }

  lemma PickOne<A, B>(items: seq<A>, keep: A -> bool, fits: (B, A) -> bool, out: seq<B>, picked: seq<nat>, a: A, b: B)
    requires Filtered(items, keep, fits, out, picked) && keep(a) && fits(b, a)
    ensures Filtered(items + [a], keep, fits, out + [b], picked + [|items|])
  {
    var all, longer := items + [a], picked + [|items|];
    assert forall k: nat :: k < |items| ==> all[k] == items[k];
    assert longer[|picked|] == |items|;
    forall k: nat | k < |all| ensures keep(all[k]) <==> k in longer {
      assert k < |items| ==> (k in longer <==> k in picked);
    }
  }

  ghost function Prunable(now: int): Skill -> bool {
    (s: Skill) => ToPrune(s.history, now)
  }

  ghost function Describing(now: int): (Suggestion, Skill) -> bool {
    (x: Suggestion, s: Skill) => SuggestionIs(x, s, now)
  }

  /** The suggestions are those of exactly the skills to be pruned, in the order of the skills. */
  ghost predicate Suggested(skills: seq<Skill>, now: int, out: seq<Suggestion>, picked: seq<nat>) {
    Filtered(skills, Prunable(now), Describing(now), out, picked)
  }

  lemma SeenOnce(invs: seq<Invocation>, t: int, u: int)
    requires SeenFailingAt(invs, t) && SeenFailingAt(invs, u)
    ensures t == u
  {
    var j: nat :| FirstCrossing(invs, j) && t == invs[Min(j + WINDOW - 1, |invs| - 1)].at;
    var k: nat :| FirstCrossing(invs, k) && u == invs[Min(k + WINDOW - 1, |invs| - 1)].at;
    OneCrossing(invs, j, k);
  }

  /** The three tests of the loop decide whether a skill is to be pruned. */
  lemma TestsDecide(score: Score, invs: seq<Invocation>, now: int)
    requires ScoreIs(score, invs, now)
    ensures ToPrune(invs, now) <==> score.health == Failing && score.firstSeenFailing != ZERO_TIME && score.firstSeenFailing < now - 7 * DAY
  {
    if ToPrune(invs, now) {
      var t :| SeenFailingAt(invs, t) && t != ZERO_TIME && t < now - 7 * DAY;
      SeenOnce(invs, t, score.firstSeenFailing);
    }
  }

  function DaysSince(t: int, now: int): real {
    (now - t) as real / DAY as real
  }

  lemma SuggestionFits(score: Score, s: Skill, now: int)
    requires ScoreIs(score, s.history, now) && score.health == Failing
    ensures SuggestionIs(Suggestion(s.name, score.firstSeenFailing, DaysSince(score.firstSeenFailing, now), score.successRate, score.invocations), s, now)
  {
  }

  /** The body of the loop: the suggestion for one skill, if it is to be pruned. */
  method Suggest(s: Skill, now: int) returns (x: Option<Suggestion>)
    ensures x.Some? <==> Prunable(now)(s)
    ensures x.Some? ==> Describing(now)(x.value, s)
  {
    var score := ComputeScore(s.history, now);
    TestsDecide(score, s.history, now);
    if score.health != Failing || score.firstSeenFailing == ZERO_TIME || score.firstSeenFailing >= now - 7 * DAY {
      return None;
    }
    SuggestionFits(score, s, now);
    return Some(Suggestion(s.name, score.firstSeenFailing, DaysSince(score.firstSeenFailing, now), score.successRate, score.invocations));
  }

  method ComputePruneSuggestions(skills: seq<Skill>, now: int) returns (out: seq<Suggestion>)
    ensures exists picked :: Suggested(skills, now, out, picked)
  {
    out := [];
    ghost var picked: seq<nat> := [];
    for i := 0 to |skills|
      invariant Filtered(skills[..i], Prunable(now), Describing(now), out, picked)
    {
      var x := Suggest(skills[i], now);
      assert skills[..i + 1] == skills[..i] + [skills[i]];
      if x.Some? {
        PickOne(skills[..i], Prunable(now), Describing(now), out, picked, skills[i], x.value);
        out, picked := out + [x.value], picked + [i];
      } else {
        SkipOne(skills[..i], Prunable(now), Describing(now), out, picked, skills[i]);
      }
    }
    assert skills[..|skills|] == skills;
    assert Suggested(skills, now, out, picked);
  }

  // ---- How the reported time relates to the crossing ----

  ghost predicate NewestFirst(invs: seq<Invocation>) {
    forall i, j :: 0 <= i <= j < |invs| ==> invs[i].at >= invs[j].at
  }

  /** The invocation at `e` began the failing spell that still lasts: every verdict since was failing,
      and the one before, if there is one, was not. */
  ghost predicate SpellStart(invs: seq<Invocation>, e: nat) {
    && e < |invs| && (forall j: nat :: j <= e ==> HealthOf(invs[j..]) == Failing)
    && HealthOf(invs[e + 1..]) != Failing
  }

  /** The verdict after the invocation at `j` was in force at some time from `since` on; `j` may be the
      length of the history, for the time before the first invocation. */
  predicate InForceSince(invs: seq<Invocation>, j: nat, since: int)
    requires j <= |invs|
  {
    j == 0 || invs[j - 1].at >= since
  }

  /** Failing without a break since then: no other verdict was in force. */
  ghost predicate FailingSince(invs: seq<Invocation>, since: int) {
    forall j: nat :: j <= |invs| && InForceSince(invs, j, since) ==> HealthOf(invs[j..]) == Failing
  }

  lemma {:induction false} SpellHasStart(invs: seq<Invocation>, j: nat) returns (e: nat)
    requires j < |invs| && forall i: nat :: i <= j ==> HealthOf(invs[i..]) == Failing
    ensures SpellStart(invs, e) && e >= j
    decreases |invs| - j
  {
    if HealthOf(invs[j + 1..]) != Failing {
      e := j;
    } else {
      assert |Latest(invs[j + 1..])| >= 5;
      e := SpellHasStart(invs, j + 1);
    }
  }

  /** A skill that is failing now is in a spell, and in only one. */
  lemma OneSpell(invs: seq<Invocation>, d: nat, e: nat)
    requires SpellStart(invs, d) && SpellStart(invs, e)
    ensures d == e
  {
    assert HealthOf(invs[d + 1..]) != Failing && HealthOf(invs[e + 1..]) != Failing;
  }

  /** In a history in order, a skill has been failing without a break since a time exactly when its
      spell began before that time. */
  lemma FailingSinceSpell(invs: seq<Invocation>, e: nat, since: int)
    requires NewestFirst(invs) && SpellStart(invs, e)
    ensures FailingSince(invs, since) <==> invs[e].at < since
  {
    if invs[e].at >= since {
      assert InForceSince(invs, e + 1, since);
    } else {
      assert forall i :: e <= i < |invs| ==> invs[i].at <= invs[e].at;
    }
  }

  /** The spell that lasts began no earlier than the first crossing, and at it exactly when no window
      since the first crossing has left Failing. */
  lemma SpellAndCrossing(invs: seq<Invocation>, k: nat, e: nat)
    requires FirstCrossing(invs, k) && SpellStart(invs, e)
    ensures e <= k && (e == k <==> forall j: nat :: j <= k ==> HealthOf(invs[j..]) == Failing)
  {
    assert HealthOf(invs[e..]) == Failing && HealthOf(invs[e + 1..]) != Failing;
  }

  /** A skill is suggested exactly when the first failing window of its whole history starts more than
      seven days ago. */
  lemma SuggestedByFirstWindow(invs: seq<Invocation>, k: nat, now: int)
    requires HealthOf(invs) == Failing && FirstCrossing(invs, k) && forall i :: 0 <= i < |invs| ==> invs[i].at != ZERO_TIME
    ensures ToPrune(invs, now) <==> invs[Min(k + WINDOW - 1, |invs| - 1)].at < now - 7 * DAY
  {
    var m := Min(k + WINDOW - 1, |invs| - 1);
    assert SeenFailingAt(invs, invs[m].at);
    if ToPrune(invs, now) {
      var t :| SeenFailingAt(invs, t) && t != ZERO_TIME && t < now - 7 * DAY;
      SeenOnce(invs, t, invs[m].at);
    }
  }

  /** No skill is missed: one that has been failing for over seven days is always suggested. */
  lemma LongFailingIsSuggested(invs: seq<Invocation>, now: int)
    requires NewestFirst(invs) && HealthOf(invs) == Failing && FailingSince(invs, now - 7 * DAY)
    requires forall i :: 0 <= i < |invs| ==> invs[i].at != ZERO_TIME
    ensures ToPrune(invs, now)
  {
    assert invs[0..] == invs;
    var e := SpellHasStart(invs, 0);
    var k := CrossingExists(invs, e);
    FailingSinceSpell(invs, e, now - 7 * DAY);
    SpellAndCrossing(invs, k, e);
    SuggestedByFirstWindow(invs, k, now);
  }

  lemma {:induction false} CrossingExists(invs: seq<Invocation>, j: nat) returns (k: nat)
    requires j < |invs| && HealthOf(invs[j..]) == Failing
    ensures FirstCrossing(invs, k)
    decreases |invs| - j
  {
    if i: nat :| j < i < |invs| && HealthOf(invs[i..]) == Failing {
      k := CrossingExists(invs, i);
    } else {
      k := j;
    }
  }

  /** When a suggested skill has been failing for seven days without a break: exactly when its spell
      is the first one and began that long ago, or a later one did. A suggestion is wrong exactly when
      the first failing window starts before the cutoff and the spell that lasts begins after it,
      either because that window was only just completed or because the skill had recovered since. */
  lemma SuggestedWithoutAWeekExactly(invs: seq<Invocation>, k: nat, e: nat, now: int)
    requires NewestFirst(invs) && HealthOf(invs) == Failing && FirstCrossing(invs, k) && SpellStart(invs, e)
    requires forall i :: 0 <= i < |invs| ==> invs[i].at != ZERO_TIME
    ensures ToPrune(invs, now) && !FailingSince(invs, now - 7 * DAY) <==>
      invs[Min(k + WINDOW - 1, |invs| - 1)].at < now - 7 * DAY <= invs[e].at
    ensures (forall j: nat :: j <= k ==> HealthOf(invs[j..]) == Failing) ==>
      (FailingSince(invs, now - 7 * DAY) <==> invs[k].at < now - 7 * DAY)
  {
    SuggestedByFirstWindow(invs, k, now);
    FailingSinceSpell(invs, e, now - 7 * DAY);
    SpellAndCrossing(invs, k, e);
  }

  lemma SuccessesAre(s: seq<Invocation>, lo: nat, hi: nat)
    requires lo <= hi <= |s| && forall i :: 0 <= i < |s| ==> (s[i].success <==> lo <= i < hi)
    ensures Successes(s) == hi - lo
  {
    var where := Where(s, (x: Invocation) => x.success);
    assert where == UpTo(hi) - UpTo(lo);
    assert UpTo(hi) == UpTo(lo) + where && UpTo(lo) * where == {};
  }

  /** Two failures now, six successes 20 days ago, five failures 30 days ago. */
  function Relapsed(now: int): (invs: seq<Invocation>)
    ensures |invs| == 13 && forall i :: 0 <= i < 13 ==> (invs[i].success <==> 2 <= i < 8)
  {
    var bad, good, fine := Invocation(now - 30 * DAY, false, 0), Invocation(now - 20 * DAY, true, 0), Invocation(now, false, 0);
    [fine, fine, good, good, good, good, good, good, bad, bad, bad, bad, bad]
  }

  lemma RelapsedHealth(now: int, j: nat)
    requires j <= 13
    ensures j == 0 || j == 8 ==> HealthOf(Relapsed(now)[j..]) == Failing
    ensures j == 1 || j == 2 ==> HealthOf(Relapsed(now)[j..]) == Shaky
    ensures j > 8 ==> HealthOf(Relapsed(now)[j..]) == InsufficientData
  {
    var tail := Relapsed(now)[j..];
    assert forall i :: 0 <= i < |tail| ==> tail[i] == Relapsed(now)[j + i];
    assert Latest(tail) == tail;
    if j <= 2 {
      SuccessesAre(tail, 2 - j, 8 - j);
    } else if j == 8 {
      SuccessesAre(tail, 0, 0);
    }
  }

  /** A skill that failed a month ago, recovered, and fails again from this moment on is suggested at
      once, although its first failing window lies wholly before the cutoff. */
  lemma RelapseIsSuggested(now: int)
    requires now != ZERO_TIME && now - 20 * DAY != ZERO_TIME && now - 30 * DAY != ZERO_TIME
    ensures var invs := Relapsed(now);
      && NewestFirst(invs) && FirstCrossing(invs, 8) && SpellStart(invs, 0) && invs[8].at < now - 7 * DAY
      && ToPrune(invs, now) && !FailingSince(invs, now - 7 * DAY)
  {
    RelapsedSpell(now);
    RelapsedTimes(now);
    OldWindowNewSpell(Relapsed(now), 8, now);
  }

  lemma OldWindowNewSpell(invs: seq<Invocation>, k: nat, now: int)
    requires NewestFirst(invs) && HealthOf(invs) == Failing && FirstCrossing(invs, k) && SpellStart(invs, 0)
    requires forall i :: 0 <= i < |invs| ==> invs[i].at != ZERO_TIME
    requires invs[Min(k + WINDOW - 1, |invs| - 1)].at < now - 7 * DAY <= invs[0].at
    ensures ToPrune(invs, now) && !FailingSince(invs, now - 7 * DAY)
  {
    SuggestedWithoutAWeekExactly(invs, k, 0, now);
  }

  lemma RelapsedTimes(now: int)
    ensures var invs := Relapsed(now);
      && NewestFirst(invs) && invs[0].at == now && invs[8].at == invs[12].at == now - 30 * DAY
      && forall i :: 0 <= i < 13 ==> invs[i].at == now || invs[i].at == now - 20 * DAY || invs[i].at == now - 30 * DAY
  {
  }

  lemma RelapsedSpell(now: int)
    ensures var invs := Relapsed(now); HealthOf(invs) == Failing && FirstCrossing(invs, 8) && SpellStart(invs, 0)
  {
    var invs := Relapsed(now);
    forall j: nat | j <= 13 ensures j > 8 ==> HealthOf(invs[j..]) != Failing {
      RelapsedHealth(now, j);
    }
    RelapsedHealth(now, 0);
    RelapsedHealth(now, 1);
    RelapsedHealth(now, 8);
    assert invs[0..] == invs;
  }

  /** Four invocations eight days old and a failure now: the skill has been failing for no time at
      all, and is suggested as failing for eight days. */
  lemma FreshFailureIsSuggested(now: int)
    requires now - 8 * DAY != ZERO_TIME
    ensures var earlier := now - 8 * DAY;
      var invs := [Invocation(now, false, 0), Invocation(earlier, false, 0), Invocation(earlier, false, 0), Invocation(earlier, true, 0), Invocation(earlier, true, 0)];
      FirstCrossing(invs, 0) && ToPrune(invs, now) && SeenFailingAt(invs, earlier)
  {
    var earlier := now - 8 * DAY;
    var a, b, c := Invocation(now, false, 0), Invocation(earlier, false, 0), Invocation(earlier, true, 0);
    var invs := [a, b, b, c, c];
    assert Where(invs, (x: Invocation) => x.success) == {3, 4};
    assert Latest(invs) == invs && invs[0..] == invs;
    forall j: nat | 0 < j < |invs| ensures HealthOf(invs[j..]) != Failing {
      assert |Latest(invs[j..])| < 5;
    }
    assert FirstCrossing(invs, 0) && invs[Min(WINDOW - 1, 4)].at == earlier;
    assert SeenFailingAt(invs, earlier);
  }
}
