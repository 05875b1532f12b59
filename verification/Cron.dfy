/**
  Cron expressions of modules/scheduler/cron.go: the field parser against the meaning of the
  syntax, on int64 arithmetic, and the search for the next matching minute.
 */
module Cron {
  import opened Common
  import opened Int64
  import opened Text
  import opened Calendar

  // ---- The meaning of a field ----

  /** One comma-separated part: a value, a range, and either of "*" and a range with a step. */
  datatype Part = Value(v: int) | Span(a: int, b: int) | StepAll(k: int) | StepSpan(a: int, b: int, k: int)

  /** `text` is a way to write the range from `a` to `b`. */
  ghost predicate WritesSpan(text: string, a: int, b: int) {
    exists l, r :: text == l + "-" + r && '-' !in l && Atoi(l) == Some(a) && Atoi(r) == Some(b)
  }

  /** `text` is a way to write the part `p`. */
  ghost predicate Writes(text: string, p: Part) {
    match p
    case Value(v) => '/' !in text && '-' !in text && Atoi(text) == Some(v)
    case Span(a, b) => '/' !in text && WritesSpan(text, a, b)
    case StepAll(k) => exists t :: text == "*/" + t && Atoi(t) == Some(k)
    case StepSpan(a, b, k) => exists s, t :: text == s + "/" + t && '/' !in s && s != "*" && WritesSpan(s, a, b) && Atoi(t) == Some(k)
  }

  predicate InBounds(p: Part, min: int, max: int) {
    match p
    case Value(v) => min <= v <= max
    case Span(a, b) => min <= a <= b <= max
    case StepAll(k) => k > 0
    case StepSpan(a, b, k) => min <= a <= b <= max && k > 0
  }

  /** The values that a part stands for. */
  predicate Denotes(p: Part, min: int, max: int, x: int) {
    match p
    case Value(v) => x == v
    case Span(a, b) => a <= x <= b
    case StepAll(k) => k > 0 && min <= x <= max && (x - min) % k == 0
    case StepSpan(a, b, k) => k > 0 && a <= x <= b && (x - a) % k == 0
  }

  /** The step would carry the first value past the largest int64. */
  predicate Wraps(p: Part, min: int) {
    (p.StepAll? && min + p.k >= TWO_63) || (p.StepSpan? && p.a + p.k >= TWO_63)
  }

  ghost predicate Legal(text: string, min: int, max: int) {
    exists p :: Writes(text, p) && InBounds(p, min, max)
  }

  // ---- Reading a part ----

  function SpanOf(s: string): Option<(int, int)> {
    var i := IndexOf(s, '-');
    if i == |s| || Atoi(s[..i]).None? || Atoi(s[i + 1..]).None? then None
    else Some((Atoi(s[..i]).value, Atoi(s[i + 1..]).value))
  }

  function PartOf(text: string): Option<Part> {
    var i := IndexOf(text, '/');
    if i < |text| then
      match Atoi(text[i + 1..])
      case None => None
      case Some(k) =>
        if text[..i] == "*" then Some(StepAll(k))
        else if SpanOf(text[..i]).None? then None
        else Some(StepSpan(SpanOf(text[..i]).value.0, SpanOf(text[..i]).value.1, k))
    else if '-' in text then
      if SpanOf(text).None? then None else Some(Span(SpanOf(text).value.0, SpanOf(text).value.1))
    else if Atoi(text).None? then None
    else Some(Value(Atoi(text).value))
  }

  /** The first `c` of a text is where the text before it has none. */
  lemma FirstSeparator(l: string, c: char, r: string)
    requires c !in l
    ensures IndexOf(l + [c] + r, c) == |l| && (l + [c] + r)[..|l|] == l && (l + [c] + r)[|l| + 1..] == r
  {
    var t := l + [c] + r;
    var i := IndexOf(t, c);
    assert t[|l|] == c;
    assert forall k :: 0 <= k < |l| ==> t[k] == l[k] && l[k] in l;
    assert forall k :: 0 <= k < i ==> t[k] in t[..i];
  }

  lemma SplitAt(s: string, c: char)
    requires IndexOf(s, c) < |s|
    ensures s == s[..IndexOf(s, c)] + [c] + s[IndexOf(s, c) + 1..]
  {
  }

  lemma SpanWitness(s: string, l: string, r: string, a: int, b: int)
    requires s == l + "-" + r && '-' !in l && Atoi(l) == Some(a) && Atoi(r) == Some(b)
    ensures WritesSpan(s, a, b)
  {
  }

  lemma SpanNumbers(s: string)
    requires SpanOf(s).Some?
    ensures var i := IndexOf(s, '-');
      i < |s| && Atoi(s[..i]) == Some(SpanOf(s).value.0) && Atoi(s[i + 1..]) == Some(SpanOf(s).value.1)
  {
  }

  lemma SpanIsWritten(s: string)
    requires SpanOf(s).Some?
    ensures WritesSpan(s, SpanOf(s).value.0, SpanOf(s).value.1)
  {
    SpanNumbers(s);
    SplitAt(s, '-');
    var i := IndexOf(s, '-');
    SpanWitness(s, s[..i], s[i + 1..], SpanOf(s).value.0, SpanOf(s).value.1);
  }

  lemma SpanByNumbers(s: string, i: nat, a: int, b: int)
    requires i == IndexOf(s, '-') < |s| && Atoi(s[..i]) == Some(a) && Atoi(s[i + 1..]) == Some(b)
    ensures SpanOf(s) == Some((a, b))
  {
  }

  lemma WrittenSpanIsRead(s: string, a: int, b: int)
    requires WritesSpan(s, a, b)
    ensures SpanOf(s) == Some((a, b)) && '-' in s
  {
    var l, r :| s == l + "-" + r && '-' !in l && Atoi(l) == Some(a) && Atoi(r) == Some(b);
    FirstSeparator(l, '-', r);
    SpanByNumbers(s, |l|, a, b);
    assert s[|l|] == '-';
  }

  /** Reading finds the part that a text writes, if it writes one, and there is only one. */
  lemma PartOfReads(text: string, p: Part)
    ensures PartOf(text) == Some(p) <==> Writes(text, p)
  {
    if PartOf(text) == Some(p) {
      ReadIsWritten(text);
    }
    if Writes(text, p) {
      WritingIsRead(text, p);
    }
  }

  lemma StepIsRead(text: string, s: string, t: string, k: int)
    requires text == s + "/" + t && '/' !in s && Atoi(t) == Some(k)
    ensures PartOf(text) ==
      if s == "*" then Some(StepAll(k))
      else if SpanOf(s).None? then None
      else Some(StepSpan(SpanOf(s).value.0, SpanOf(s).value.1, k))
  {
    FirstSeparator(s, '/', t);
    assert IndexOf(text, '/') == |s| && text[..|s|] == s && text[|s| + 1..] == t;
  }

  lemma StepIsWritten(text: string, s: string, t: string, k: int)
    requires text == s + "/" + t && '/' !in s && Atoi(t) == Some(k)
    ensures s == "*" ==> Writes(text, StepAll(k))
    ensures s != "*" && SpanOf(s).Some? ==> Writes(text, StepSpan(SpanOf(s).value.0, SpanOf(s).value.1, k))
  {
    if s == "*" {
      assert text == "*/" + t;
    } else if SpanOf(s).Some? {
      SpanIsWritten(s);
    }
  }

  lemma StepNumber(text: string)
    requires PartOf(text).Some? && IndexOf(text, '/') < |text|
    ensures Atoi(text[IndexOf(text, '/') + 1..]).Some?
  {
  }

  lemma ReadIsWritten(text: string)
    requires PartOf(text).Some?
    ensures Writes(text, PartOf(text).value)
  {
    var i := IndexOf(text, '/');
    if i < |text| {
      var s, t := text[..i], text[i + 1..];
      SplitAt(text, '/');
      StepNumber(text);
      StepIsRead(text, s, t, Atoi(t).value);
      StepIsWritten(text, s, t, Atoi(t).value);
    } else if '-' in text {
      SpanIsWritten(text);
    }
  }

  lemma WritingIsRead(text: string, p: Part)
    requires Writes(text, p)
    ensures PartOf(text) == Some(p)
  {
    match p
    case Value(v) =>
    case Span(a, b) => WrittenSpanIsRead(text, a, b);
    case StepAll(k) =>
      var t :| text == "*/" + t && Atoi(t) == Some(k);
      assert text == "*" + "/" + t;
      StepIsRead(text, "*", t, k);
    case StepSpan(a, b, k) =>
      var s, t :| text == s + "/" + t && '/' !in s && s != "*" && WritesSpan(s, a, b) && Atoi(t) == Some(k);
      WrittenSpanIsRead(s, a, b);
      StepIsRead(text, s, t, k);
  }

  lemma LegalByReading(text: string, min: int, max: int)
    ensures Legal(text, min, max) <==> PartOf(text).Some? && InBounds(PartOf(text).value, min, max)
  {
    if PartOf(text).Some? {
      PartOfReads(text, PartOf(text).value);
    }
    if Legal(text, min, max) {
      var p :| Writes(text, p) && InBounds(p, min, max);
      PartOfReads(text, p);
    }
  }

  // ---- The parser ----

  datatype FieldError = InvalidStep | InvalidRange | RangeOutOfBounds | InvalidValue | ValueOutOfRange

  /** Values read from one part: what it denotes, unless the step wraps around. */
  ghost predicate Collected(p: Part, min: int, max: int, vals: seq<int>) {
    && vals != []
    && (!Wraps(p, min) ==> forall x :: x in vals <==> Denotes(p, min, max, x))
    && (Wraps(p, min) ==> exists x :: x in vals && x < 0)
  }

  method ParseRange(s: string, min: int, max: int) returns (r: Result<seq<int>, FieldError>)
    ensures r.Ok? <==> SpanOf(s).Some? && min <= SpanOf(s).value.0 <= SpanOf(s).value.1 <= max
    ensures r.Err? ==> r.error == if SpanOf(s).None? then InvalidRange else RangeOutOfBounds
    ensures r.Ok? ==> var (a, b) := SpanOf(s).value; |r.value| == b - a + 1 && forall i :: 0 <= i < |r.value| ==> r.value[i] == a + i
  {
    var span := ReadSpan(s);
    if span.None? {
      return Err(InvalidRange);
    }
    var (start, end) := span.value;
    if start < min || end > max || start > end {
      return Err(RangeOutOfBounds);
    }
    var vals := [];
    while |vals| < end - start + 1
      invariant |vals| <= end - start + 1 && forall k :: 0 <= k < |vals| ==> vals[k] == start + k
      decreases end - start + 1 - |vals|
    {
      vals := vals + [start + |vals|];
    }
    return Ok(vals);
  }

  /** The two numbers around the first dash. */
  method ReadSpan(s: string) returns (span: Option<(int, int)>)
    ensures span == SpanOf(s)
  {
    var i := IndexOf(s, '-');
    if i == |s| {
      return None;
    }
    var start, end := Atoi(s[..i]), Atoi(s[i + 1..]);
    if start.None? || end.None? {
      return None;
    }
    return Some((start.value, end.value));
  }

  /** How far the stepping loop still has to go, from `i`. When the step is so large that the sum
      can wrap, two rounds together lower `i` by at least two. */
  ghost function StepsLeft(i: int, end: int, step: int): int {
    if i > end then 0
    else if step + end < TWO_63 then end - i + 1
    else if i >= -2000 then 2 * i + 10_000
    else 2 * (i + step) + 10_001
  }

  /** Where the loop variable can be. */
  ghost predicate OnTrack(i: int, start: int, end: int, step: int) {
    if step + end < TWO_63 then i >= start
    else i >= -2000 || (-2000 <= i + step <= end)
  }

  lemma StepDecreases(i: int, start: int, end: int, step: int)
    requires 0 <= start <= end < 1000 && 0 < step < TWO_63 && OnTrack(i, start, end, step) && i <= end
    ensures OnTrack(Wrap64(i + step), start, end, step)
    ensures 0 <= StepsLeft(Wrap64(i + step), end, step) < StepsLeft(i, end, step)
  {
    if step + end >= TWO_63 && i + step >= TWO_63 {
      assert Wrap64(i + step) == i + step - TWO_64;
    }
  }

  /** What the loop has collected, with and without wrap-around. */
  ghost predicate Stepping(vals: seq<int>, i: int, start: int, end: int, step: int) {
    && (vals == [] ==> i == start)
    && (vals != [] ==> vals[0] == start)
    && (start + step < TWO_63 ==> Regular(vals, i, start, end, step))
    && (start + step >= TWO_63 && |vals| == 1 ==> i == start + step - TWO_64)
    && (start + step >= TWO_63 && |vals| >= 2 ==> vals[1] == start + step - TWO_64)
  }

  lemma SteppingStep(vals: seq<int>, i: int, start: int, end: int, step: int)
    requires 0 <= start <= end < 1000 && 0 < step < TWO_63 && i <= end && Stepping(vals, i, start, end, step)
    ensures Stepping(vals + [i], Wrap64(i + step), start, end, step)
  {
    if start + step < TWO_63 {
      RegularStep(vals, i, start, end, step);
    } else if vals == [] {
      assert Wrap64(start + step) == start + step - TWO_64;
    }
  }

  /** Every `step`-th value from `start` to `end`; a step that leaves int64 shows as a negative second value. */
  ghost predicate Stepped(vals: seq<int>, start: int, end: int, step: int)
    requires step > 0
  {
    && (start + step < TWO_63 ==> forall x :: x in vals <==> start <= x <= end && (x - start) % step == 0)
    && (start + step >= TWO_63 ==> |vals| >= 2 && vals[1] == start + step - TWO_64 < 0)
  }

  /** `for i := start; i <= end; i += step`, with int64 addition. */
  method StepValues(start: int, end: int, step: int) returns (vals: seq<int>)
    requires 0 <= start <= end < 1000 && 0 < step < TWO_63
    ensures vals != [] && vals[0] == start && Stepped(vals, start, end, step)
  {
    vals := [];
    var i := start;
    while i <= end
      invariant OnTrack(i, start, end, step) && Stepping(vals, i, start, end, step)
      decreases StepsLeft(i, end, step)
    {
      StepDecreases(i, start, end, step);
      SteppingStep(vals, i, start, end, step);
      vals := vals + [i];
      i := Wrap64(i + step);
    }
    if start + step < TWO_63 {
      RegularEnd(vals, i, start, end, step);
    }
  }

  /** The loop without wrap-around: an arithmetic progression. */
  ghost predicate Regular(vals: seq<int>, i: int, start: int, end: int, step: int) {
    && i == start + |vals| * step
    && (forall j :: 0 <= j < |vals| ==> vals[j] == start + j * step <= end)
  }

  lemma RegularStep(vals: seq<int>, i: int, start: int, end: int, step: int)
    requires 0 <= start <= end < 1000 && 0 < step < TWO_63 && start + step < TWO_63
    requires i <= end && Regular(vals, i, start, end, step)
    ensures i + step < TWO_63 && i >= start && Regular(vals + [i], i + step, start, end, step)
  {
    NextMultiple(|vals|, step);
    RegularAppend(vals, i, start, end, step);
  }

  lemma RegularAppend(vals: seq<int>, i: int, start: int, end: int, step: int)
    requires i <= end && Regular(vals, i, start, end, step)
    ensures Regular(vals + [i], i + step, start, end, step)
  {
    var n, more := |vals|, vals + [i];
    assert start + (n + 1) * step == start + n * step + step;
    forall j | 0 <= j < |more| ensures more[j] == start + j * step <= end {
      assert j < n ==> more[j] == vals[j];
    }
  }

  lemma NextMultiple(n: nat, step: int)
    requires step > 0
    ensures n * step >= 0 && (n >= 1 ==> n * step >= step)
  {
  }

  lemma RegularEnd(vals: seq<int>, i: int, start: int, end: int, step: int)
    requires 0 < step && i > end && Regular(vals, i, start, end, step)
    ensures forall x :: x in vals <==> start <= x <= end && (x - start) % step == 0
  {
    forall x | start <= x <= end && (x - start) % step == 0 ensures x in vals {
      var j := (x - start) / step;
      assert x - start == j * step;
      SmallerFactor(j, |vals|, step);
      assert vals[j] == x;
    }
    forall x | x in vals ensures start <= x <= end && (x - start) % step == 0 {
      var j :| 0 <= j < |vals| && vals[j] == x;
      MultipleHasNoRest(j, step);
      assert j * step >= 0;
    }
  }

  lemma SmallerFactor(j: int, n: int, step: int)
    requires step > 0 && j * step < n * step
    ensures j < n
  {
  }

  lemma ZeroFactor(k: int, step: int)
    requires 0 <= k * step < step
    ensures k == 0
  {
  }

  lemma MultipleHasNoRest(j: int, step: int)
    requires step > 0
    ensures (j * step) % step == 0
  {
    var n := j * step;
    var q := n / step;
    assert n == step * q + n % step;
    assert (j - q) * step == n % step;
    ZeroFactor(j - q, step);
  }

  /** Why a part is refused, if it is. */
  function PartError(text: string, min: int, max: int): Option<FieldError> {
    var i := IndexOf(text, '/');
    if i < |text| then
      if Atoi(text[i + 1..]).None? || Atoi(text[i + 1..]).value <= 0 then Some(InvalidStep)
      else if text[..i] == "*" then None
      else SpanError(text[..i], min, max)
    else if '-' in text then SpanError(text, min, max)
    else if Atoi(text).None? then Some(InvalidValue)
    else if Atoi(text).value < min || Atoi(text).value > max then Some(ValueOutOfRange)
    else None
  }

  function SpanError(s: string, min: int, max: int): Option<FieldError> {
    if SpanOf(s).None? then Some(InvalidRange)
    else if min <= SpanOf(s).value.0 <= SpanOf(s).value.1 <= max then None
    else Some(RangeOutOfBounds)
  }

  /** A part is accepted exactly when it is a legal way to write something in bounds. */
  lemma AcceptedIsLegal(text: string, min: int, max: int)
    ensures PartError(text, min, max).None? <==> Legal(text, min, max)
    ensures PartError(text, min, max).None? ==> PartOf(text).Some? && InBounds(PartOf(text).value, min, max)
  {
    AcceptedIsRead(text, min, max);
    LegalByReading(text, min, max);
  }

  lemma AcceptedIsRead(text: string, min: int, max: int)
    ensures PartError(text, min, max).None? <==> PartOf(text).Some? && InBounds(PartOf(text).value, min, max)
  {
  }

  lemma StepCollected(p: Part, start: int, end: int, k: int, min: int, max: int, vals: seq<int>)
    requires 0 <= min <= start <= end <= max && vals != [] && k > 0
    requires p == StepSpan(start, end, k) || (p == StepAll(k) && start == min && end == max)
    requires Stepped(vals, start, end, k)
    ensures Collected(p, min, max, vals)
  {
    if start + k >= TWO_63 {
      assert vals[1] in vals;
    }
  }

  /** The bounds that a step runs between. */
  method ParseStepBounds(s: string, min: int, max: int) returns (r: Result<(int, int), FieldError>)
    requires 0 <= min <= max
    ensures s == "*" ==> r == Ok((min, max))
    ensures s != "*" && r.Err? ==> SpanError(s, min, max) == Some(r.error)
    ensures s != "*" && r.Ok? ==> SpanError(s, min, max).None? && SpanOf(s) == Some(r.value)
    ensures r.Ok? ==> min <= r.value.0 <= r.value.1 <= max
  {
    if s == "*" {
      return Ok((min, max));
    }
    var span := ParseRange(s, min, max);
    if span.Err? {
      return Err(span.error);
    }
    ghost var (a, b) := SpanOf(s).value;
    assert span.value[0] == a && span.value[|span.value| - 1] == b;
    return Ok((span.value[0], span.value[|span.value| - 1]));
  }

  lemma ReadStep(text: string, i: nat, min: int, max: int, k: int)
    requires i == IndexOf(text, '/') < |text| && Atoi(text[i + 1..]) == Some(k)
    ensures text[..i] == "*" ==> PartOf(text) == Some(StepAll(k))
    ensures text[..i] != "*" && SpanOf(text[..i]).Some? ==> PartOf(text) == Some(StepSpan(SpanOf(text[..i]).value.0, SpanOf(text[..i]).value.1, k))
    ensures k > 0 ==> PartError(text, min, max) == if text[..i] == "*" then None else SpanError(text[..i], min, max)
  {
  }

  /** A part with a step, whose slash is at `i`. */
  method ParseStep(text: string, i: nat, min: int, max: int) returns (r: Result<seq<int>, FieldError>)
    requires 0 <= min <= max < 1000 && i == IndexOf(text, '/') < |text|
    ensures r.Err? ==> PartError(text, min, max) == Some(r.error)
    ensures r.Ok? ==> PartError(text, min, max).None? && PartOf(text).Some? && Collected(PartOf(text).value, min, max, r.value)
  {
    var step := Atoi(text[i + 1..]);
    if step.None? || step.value <= 0 {
      return Err(InvalidStep);
    }
    ReadStep(text, i, min, max, step.value);
    var bounds := ParseStepBounds(text[..i], min, max);
    if bounds.Err? {
      return Err(bounds.error);
    }
    var (start, end) := bounds.value;
    var vals := StepValues(start, end, step.value);
    StepCollected(PartOf(text).value, start, end, step.value, min, max, vals);
    return Ok(vals);
  }

  method ParsePart(text: string, min: int, max: int) returns (r: Result<seq<int>, FieldError>)
    requires 0 <= min <= max < 1000
    ensures r.Err? ==> PartError(text, min, max) == Some(r.error)
    ensures r.Ok? ==> PartError(text, min, max).None? && PartOf(text).Some? && Collected(PartOf(text).value, min, max, r.value)
  {
    if IndexOf(text, '/') < |text| {
      r := ParseStep(text, IndexOf(text, '/'), min, max);
    } else if '-' in text {
      r := ParseRange(text, min, max);
      if r.Ok? {
        SpanValues(SpanOf(text).value.0, SpanOf(text).value.1, r.value);
      }
      return r;
    } else {
      var v := Atoi(text);
      if v.None? {
        return Err(InvalidValue);
      }
      if v.value < min || v.value > max {
        return Err(ValueOutOfRange);
      }
      return Ok([v.value]);
    }
  }

  lemma SpanValues(a: int, b: int, vals: seq<int>)
    requires a <= b && |vals| == b - a + 1 && forall i :: 0 <= i < |vals| ==> vals[i] == a + i
    ensures forall x :: x in vals <==> a <= x <= b
  {
    forall x | a <= x <= b ensures x in vals {
      assert vals[x - a] == x;
    }
  }

  // ---- Fields ----

  ghost predicate FieldLegal(field: string, min: int, max: int) {
    field == "*" || forall i :: 0 <= i < |Split(field, ',')| ==> Legal(Split(field, ',')[i], min, max)
  }

  /** Some part's step wraps around. */
  ghost predicate FieldWraps(parts: seq<string>, min: int) {
    exists i :: 0 <= i < |parts| && PartOf(parts[i]).Some? && Wraps(PartOf(parts[i]).value, min)
  }

  /** What some of the parts denote. */
  ghost predicate PartsDenote(parts: seq<string>, min: int, max: int, x: int) {
    exists i :: 0 <= i < |parts| && PartOf(parts[i]).Some? && Denotes(PartOf(parts[i]).value, min, max, x)
  }

  ghost predicate FieldDenotes(field: string, min: int, max: int, x: int) {
    if field == "*" then min <= x <= max else PartsDenote(Split(field, ','), min, max, x)
  }

  ghost predicate CollectedAll(parts: seq<string>, min: int, max: int, vals: seq<int>) {
    && (parts != [] ==> vals != [])
    && (forall i :: 0 <= i < |parts| ==> PartError(parts[i], min, max).None? && PartOf(parts[i]).Some?)
    && (!FieldWraps(parts, min) ==> forall x :: x in vals <==> PartsDenote(parts, min, max, x))
    && (FieldWraps(parts, min) ==> exists x :: x in vals && x < 0)
  }

  lemma CollectPart(parts: seq<string>, min: int, max: int, vals: seq<int>, text: string, more: seq<int>)
    requires CollectedAll(parts, min, max, vals)
    requires PartError(text, min, max).None? && PartOf(text).Some? && Collected(PartOf(text).value, min, max, more)
    ensures CollectedAll(parts + [text], min, max, vals + more)
  {
    var all, p := parts + [text], PartOf(text).value;
    assert all[|parts|] == text;
    assert forall i :: 0 <= i < |parts| ==> all[i] == parts[i];
    forall x ensures PartsDenote(all, min, max, x) <==> PartsDenote(parts, min, max, x) || Denotes(p, min, max, x) {
      if PartsDenote(parts, min, max, x) {
        var i :| 0 <= i < |parts| && PartOf(parts[i]).Some? && Denotes(PartOf(parts[i]).value, min, max, x);
        assert all[i] == parts[i];
      }
      if PartsDenote(all, min, max, x) {
        var i :| 0 <= i < |all| && PartOf(all[i]).Some? && Denotes(PartOf(all[i]).value, min, max, x);
        assert i < |parts| ==> all[i] == parts[i];
      }
    }
    WrapsOneMore(parts, text, min);
    if FieldWraps(all, min) {
      if FieldWraps(parts, min) {
        var x :| x in vals && x < 0;
        assert x in vals + more;
      } else {
        var x :| x in more && x < 0;
        assert x in vals + more;
      }
    }
  }

  lemma WrapsOneMore(parts: seq<string>, text: string, min: int)
    requires PartOf(text).Some?
    ensures FieldWraps(parts + [text], min) <==> FieldWraps(parts, min) || Wraps(PartOf(text).value, min)
  {
    var all := parts + [text];
    assert all[|parts|] == text;
    if FieldWraps(parts, min) {
      var i :| 0 <= i < |parts| && PartOf(parts[i]).Some? && Wraps(PartOf(parts[i]).value, min);
      assert all[i] == parts[i];
    }
    if FieldWraps(all, min) {
      var i :| 0 <= i < |all| && PartOf(all[i]).Some? && Wraps(PartOf(all[i]).value, min);
      assert i < |parts| ==> all[i] == parts[i];
    }
  }

  ghost predicate FirstRefused(parts: seq<string>, min: int, max: int, i: int, error: FieldError) {
    && 0 <= i < |parts| && PartError(parts[i], min, max) == Some(error)
    && forall j :: 0 <= j < i ==> PartError(parts[j], min, max).None?
  }

  method AllValues(min: int, max: int) returns (all: seq<int>)
    requires min <= max
    ensures all != [] && forall x :: x in all <==> min <= x <= max
  {
    all := [];
    while |all| < max - min + 1
      invariant |all| <= max - min + 1 && forall k :: 0 <= k < |all| ==> all[k] == min + k
      decreases max - min + 1 - |all|
    {
      all := all + [min + |all|];
    }
    SpanValues(min, max, all);
  }

  ghost predicate SomeRefused(parts: seq<string>, min: int, max: int, error: FieldError) {
    exists i :: FirstRefused(parts, min, max, i, error)
  }

  /** None of the field's steps wraps around. */
  ghost predicate WrapFree(field: string, min: int) {
    field == "*" || !FieldWraps(Split(field, ','), min)
  }

  /** `vals` are the values that the field denotes, unless a step wraps around. */
  ghost predicate Says(field: string, min: int, max: int, vals: seq<int>) {
    && vals != []
    && (WrapFree(field, min) ==> forall x :: x in vals <==> FieldDenotes(field, min, max, x))
    && (!WrapFree(field, min) ==> exists x :: x in vals && x < 0)
  }

  lemma StarSays(min: int, max: int, vals: seq<int>)
    requires vals != [] && forall x :: x in vals <==> min <= x <= max
    ensures FieldLegal("*", min, max) && Says("*", min, max, vals)
  {
  }

  lemma CollectedSays(field: string, min: int, max: int, vals: seq<int>)
    requires field != "*" && CollectedAll(Split(field, ','), min, max, vals)
    ensures FieldLegal(field, min, max) && Says(field, min, max, vals)
  {
    var parts := Split(field, ',');
    forall k | 0 <= k < |parts| ensures Legal(parts[k], min, max) {
      AcceptedIsLegal(parts[k], min, max);
    }
  }

  lemma RefusedIsIllegal(field: string, min: int, max: int, error: FieldError)
    requires field != "*" && SomeRefused(Split(field, ','), min, max, error)
    ensures !FieldLegal(field, min, max)
  {
    var i :| FirstRefused(Split(field, ','), min, max, i, error);
    AcceptedIsLegal(Split(field, ',')[i], min, max);
  }

  lemma RefusedAt(parts: seq<string>, min: int, max: int, i: nat, vals: seq<int>, error: FieldError)
    requires i < |parts| && CollectedAll(parts[..i], min, max, vals) && PartError(parts[i], min, max) == Some(error)
    ensures SomeRefused(parts, min, max, error)
  {
    assert forall j :: 0 <= j < i ==> PartError(parts[..i][j], min, max).None? && parts[..i][j] == parts[j];
    assert FirstRefused(parts, min, max, i, error);
  }

  lemma CollectNext(parts: seq<string>, i: nat, min: int, max: int, vals: seq<int>, more: seq<int>)
    requires i < |parts| && CollectedAll(parts[..i], min, max, vals)
    requires PartError(parts[i], min, max).None? && PartOf(parts[i]).Some? && Collected(PartOf(parts[i]).value, min, max, more)
    ensures CollectedAll(parts[..i + 1], min, max, vals + more)
  {
    CollectPart(parts[..i], min, max, vals, parts[i], more);
    OneMorePart(parts, i);
    SameParts(parts[..i] + [parts[i]], parts[..i + 1], min, max, vals + more);
  }

  lemma OneMorePart(parts: seq<string>, i: nat)
    requires i < |parts|
    ensures parts[..i] + [parts[i]] == parts[..i + 1]
  {
  }

  lemma SameParts(parts: seq<string>, same: seq<string>, min: int, max: int, vals: seq<int>)
    requires parts == same && CollectedAll(parts, min, max, vals)
    ensures CollectedAll(same, min, max, vals)
  {
  }

  method CollectParts(parts: seq<string>, min: int, max: int) returns (r: Result<seq<int>, FieldError>)
    requires 0 <= min <= max < 1000
    ensures r.Ok? ==> CollectedAll(parts, min, max, r.value)
    ensures r.Err? ==> SomeRefused(parts, min, max, r.error)
  {
    var result: seq<int> := [];
    var i := 0;
    while i < |parts|
      invariant i <= |parts| && CollectedAll(parts[..i], min, max, result)
    {
      var vals := ParsePart(parts[i], min, max);
      if vals.Err? {
        RefusedAt(parts, min, max, i, result, vals.error);
        return Err(vals.error);
      }
      CollectNext(parts, i, min, max, result, vals.value);
      result := result + vals.value;
      i := i + 1;
    }
    SameParts(parts[..i], parts, min, max, result);
    return Ok(result);
  }

  method ParseField(field: string, min: int, max: int) returns (r: Result<seq<int>, FieldError>)
    requires 0 <= min <= max < 1000
    ensures r.Ok? <==> FieldLegal(field, min, max)
    ensures r.Ok? ==> Says(field, min, max, r.value)
    ensures r.Err? ==> field != "*" && SomeRefused(Split(field, ','), min, max, r.error)
  {
    if field == "*" {
      var all := AllValues(min, max);
      StarSays(min, max, all);
      return Ok(all);
    }
    r := CollectParts(Split(field, ','), min, max);
    if r.Ok? {
      CollectedSays(field, min, max, r.value);
    } else {
      RefusedIsIllegal(field, min, max, r.error);
    }
  }

  lemma DenotedInRange(p: Part, min: int, max: int, x: int)
    requires InBounds(p, min, max) && Denotes(p, min, max, x)
    ensures min <= x <= max
  {
  }

  /** An accepted field holds only values of its range exactly when none of its steps wraps around. */
  lemma InRangeUnlessWrapped(field: string, min: int, max: int, vals: seq<int>)
    requires 0 <= min <= max && FieldLegal(field, min, max) && Says(field, min, max, vals)
    ensures (forall x :: x in vals ==> min <= x <= max) <==> WrapFree(field, min)
  {
    if field != "*" && WrapFree(field, min) {
      var parts := Split(field, ',');
      forall x | x in vals ensures min <= x <= max {
        assert PartsDenote(parts, min, max, x);
        var i :| 0 <= i < |parts| && PartOf(parts[i]).Some? && Denotes(PartOf(parts[i]).value, min, max, x);
        LegalByReading(parts[i], min, max);
        DenotedInRange(PartOf(parts[i]).value, min, max, x);
      }
    }
  }

  // ---- Expressions ----

  datatype Schedule = Schedule(minutes: seq<int>, hours: seq<int>, days: seq<int>, months: seq<int>, weekdays: seq<int>)

  datatype CronError = FieldCount(found: nat) | BadField(index: nat, error: FieldError)

  function Low(i: nat): int {
    if i == 2 || i == 3 then 1 else 0
  }

  function High(i: nat): int {
    if i == 0 then 59 else if i == 1 then 23 else if i == 2 then 31 else if i == 3 then 12 else 6
  }

  function Values(s: Schedule, i: nat): seq<int> {
    if i == 0 then s.minutes else if i == 1 then s.hours else if i == 2 then s.days else if i == 3 then s.months else s.weekdays
  }

  /** The `i`-th field is legal. */
  ghost predicate LegalAt(fields: seq<string>, i: nat)
    requires i < |fields|
  {
    FieldLegal(fields[i], Low(i), High(i))
  }

  /** The `i`-th list of values is what the `i`-th field says. */
  ghost predicate Means(field: string, i: nat, vals: seq<int>) {
    Says(field, Low(i), High(i), vals)
  }

  ghost predicate ParsedSoFar(fields: seq<string>, lists: seq<seq<int>>) {
    |lists| <= 5 <= |fields| && forall i :: 0 <= i < |lists| ==> LegalAt(fields, i) && Means(fields[i], i, lists[i])
  }

  ghost predicate FirstBadField(fields: seq<string>, i: nat) {
    i < |fields| && !LegalAt(fields, i) && forall j :: 0 <= j < i ==> LegalAt(fields, j)
  }

  lemma ParsedOneMore(fields: seq<string>, lists: seq<seq<int>>, vals: seq<int>)
    requires ParsedSoFar(fields, lists) && |lists| < 5
    requires LegalAt(fields, |lists|) && Means(fields[|lists|], |lists|, vals)
    ensures ParsedSoFar(fields, lists + [vals])
  {
  }

  lemma ParsedAll(fields: seq<string>, lists: seq<seq<int>>)
    requires ParsedSoFar(fields, lists) && |lists| == 5
    ensures forall i :: 0 <= i < 5 ==> LegalAt(fields, i)
    ensures forall i :: 0 <= i < 5 ==> Means(fields[i], i, Values(Schedule(lists[0], lists[1], lists[2], lists[3], lists[4]), i))
  {
    forall i | 0 <= i < 5 ensures Means(fields[i], i, Values(Schedule(lists[0], lists[1], lists[2], lists[3], lists[4]), i)) {
      ListAt(lists, i);
    }
  }

  lemma ListAt(lists: seq<seq<int>>, i: nat)
    requires |lists| == 5 && i < 5
    ensures Values(Schedule(lists[0], lists[1], lists[2], lists[3], lists[4]), i) == lists[i]
  {
  }

  lemma BadAt(fields: seq<string>, lists: seq<seq<int>>)
    requires ParsedSoFar(fields, lists) && |lists| < 5 && !LegalAt(fields, |lists|)
    ensures FirstBadField(fields, |lists|)
  {
  }

  method ParseCron(expr: string) returns (r: Result<Schedule, CronError>)
    ensures r.Ok? <==> |Fields(expr)| == 5 && forall i :: 0 <= i < 5 ==> LegalAt(Fields(expr), i)
    ensures r.Ok? ==> forall i :: 0 <= i < 5 ==> Means(Fields(expr)[i], i, Values(r.value, i))
    ensures |Fields(expr)| != 5 ==> r == Err(FieldCount(|Fields(expr)|))
    ensures r.Err? && |Fields(expr)| == 5 ==> r.error.BadField? && FirstBadField(Fields(expr), r.error.index)
  {
    var fields := Fields(expr);
    if |fields| != 5 {
      return Err(FieldCount(|fields|));
    }
    var lists: seq<seq<int>> := [];
    while |lists| < 5
      invariant ParsedSoFar(fields, lists)
      decreases 5 - |lists|
    {
      var i := |lists|;
      var vals := ParseField(fields[i], Low(i), High(i));
      if vals.Err? {
        BadAt(fields, lists);
        return Err(BadField(i, vals.error));
      }
      ParsedOneMore(fields, lists, vals.value);
      lists := lists + [vals.value];
    }
    ParsedAll(fields, lists);
    return Ok(Schedule(lists[0], lists[1], lists[2], lists[3], lists[4]));
  }

  // ---- Matching and searching ----

  /** The five values of minute number `m`, counted from the start of year 0. */
  function ClockField(m: int, i: nat): int {
    if i == 0 then m % 60
    else if i == 1 then m / 60 % 24
    else if i == 2 then DateOf(m / 1440).day
    else if i == 3 then DateOf(m / 1440).month
    else Weekday(m / 1440)
  }

  predicate Matches(s: Schedule, m: int) {
    && ClockField(m, 0) in s.minutes && ClockField(m, 1) in s.hours && ClockField(m, 2) in s.days
    && ClockField(m, 3) in s.months && ClockField(m, 4) in s.weekdays
  }

  /** A parsed expression without wrapped steps matches a minute exactly when all five of its
      fields denote the minute's values; day and weekday must both fit. */
  lemma MatchesItsMeaning(expr: string, s: Schedule, m: int)
    requires |Fields(expr)| == 5
    requires forall i :: 0 <= i < 5 ==> Means(Fields(expr)[i], i, Values(s, i)) && WrapFree(Fields(expr)[i], Low(i))
    ensures Matches(s, m) <==> forall i :: 0 <= i < 5 ==> FieldDenotes(Fields(expr)[i], Low(i), High(i), ClockField(m, i))
  {
    forall i | 0 <= i < 5
      ensures ClockField(m, i) in Values(s, i) <==> FieldDenotes(Fields(expr)[i], Low(i), High(i), ClockField(m, i))
    {
      assert Means(Fields(expr)[i], i, Values(s, i));
    }
    assert Values(s, 0) == s.minutes && Values(s, 1) == s.hours && Values(s, 2) == s.days && Values(s, 3) == s.months && Values(s, 4) == s.weekdays;
  }

  /** The values of a minute are those of a clock and a calendar: its number is made up of day, hour and minute, and
      the day is that of the date with its day and month. */
  lemma ClockReads(m: int)
    ensures 0 <= ClockField(m, 0) < 60 && 0 <= ClockField(m, 1) < 24
    ensures var d := Date(DateOf(m / 1440).year, ClockField(m, 3), ClockField(m, 2));
      ValidDate(d) && m == (DayNumber(d) * 24 + ClockField(m, 1)) * 60 + ClockField(m, 0) && ClockField(m, 4) == Weekday(DayNumber(d))
  {
    assert Date(DateOf(m / 1440).year, ClockField(m, 3), ClockField(m, 2)) == DateOf(m / 1440);
    assert m / 60 / 24 == m / 1440;
  }

  const HORIZON: int := 525_960

  /** The first whole minute after a time given in nanoseconds. */
  function FirstMinute(from: int): int {
    from / MINUTE + 1
  }

  ghost predicate NoneIn(s: Schedule, lo: int, hi: int) {
    forall m :: lo <= m < hi ==> !Matches(s, m)
  }

  ghost predicate SomeIn(s: Schedule, lo: int, hi: int) {
    exists m :: lo <= m < hi && Matches(s, m)
  }

  lemma NoneInOneMore(s: Schedule, lo: int, hi: int)
    requires lo <= hi && NoneIn(s, lo, hi) && !Matches(s, hi)
    ensures NoneIn(s, lo, hi + 1)
  {
  }

  lemma FoundWithin(s: Schedule, first: int, m: int)
    requires first <= m < first + HORIZON && Matches(s, m)
    ensures SomeIn(s, first, first + HORIZON)
  {
  }

  lemma NothingWithin(s: Schedule, first: int)
    requires NoneIn(s, first, first + HORIZON)
    ensures !SomeIn(s, first, first + HORIZON)
  {
  }

  lemma WholeMinute(m: int)
    ensures m * MINUTE / MINUTE == m && m * MINUTE % MINUTE == 0 && m * MINUTE + MINUTE == (m + 1) * MINUTE
  {
  }

  lemma NextMinute(from: int)
    ensures from - from % MINUTE + MINUTE == FirstMinute(from) * MINUTE > from
  {
  }

  /** The least matching whole minute after `from` within the horizon, else the minute at the horizon. */
  method Next(s: Schedule, from: int) returns (t: int)
    ensures t % MINUTE == 0 && t > from
    ensures NoneIn(s, FirstMinute(from), t / MINUTE)
    ensures SomeIn(s, FirstMinute(from), FirstMinute(from) + HORIZON) ==> t / MINUTE < FirstMinute(from) + HORIZON && Matches(s, t / MINUTE)
    ensures !SomeIn(s, FirstMinute(from), FirstMinute(from) + HORIZON) ==> t / MINUTE == FirstMinute(from) + HORIZON
  {
    t := from - from % MINUTE + MINUTE;
    NextMinute(from);
    ghost var first := FirstMinute(from);
    var i := 0;
    while i < HORIZON
      invariant 0 <= i <= HORIZON && t == (first + i) * MINUTE > from && NoneIn(s, first, first + i)
    {
      WholeMinute(first + i);
      var minute := t / MINUTE;
      if Matches(s, minute) {
        FoundWithin(s, first, minute);
        return;
      }
      NoneInOneMore(s, first, first + i);
      t := t + MINUTE;
      i := i + 1;
    }
    WholeMinute(first + HORIZON);
    NothingWithin(s, first);
  }

  // ---- Where the parser and the search fall short ----

  const HUGE: string := "9223372036854775807"

  /** The day field "*" with the largest step is accepted although the step wraps around. */
  lemma WrappingFieldIsAccepted()
    ensures Legal("*/" + HUGE, 1, 31) && PartOf("*/" + HUGE) == Some(StepAll(TWO_63 - 1)) && Wraps(StepAll(TWO_63 - 1), 1)
  {
    HugeValue();
    var text := "*/" + HUGE;
    assert text == "*" + "/" + HUGE;
    StepIsRead(text, "*", HUGE, TWO_63 - 1);
    LegalByReading(text, 1, 31);
  }

  lemma {:induction false} DigitsOfJoin(s: string, t: string)
    requires AllDigits(s) && AllDigits(t)
    ensures AllDigits(s + t) && DigitsValue(s + t) == DigitsValue(s) * Power10(|t|) + DigitsValue(t)
    decreases |t|
  {
    if t == [] {
      assert s + t == s;
    } else {
      var front, last := t[..|t| - 1], t[|t| - 1];
      assert front + [last] == t && s + front + [last] == s + t;
      DigitsOfJoin(s, front);
      OneMoreDigit(front, last);
      OneMoreDigit(s + front, last);
      TenTimes(DigitsValue(s), Power10(|front|), DigitsValue(front), (last - '0') as nat);
    }
  }

  lemma OneMoreDigit(s: string, c: char)
    requires AllDigits(s) && '0' <= c <= '9'
    ensures AllDigits(s + [c]) && DigitsValue(s + [c]) == 10 * DigitsValue(s) + (c - '0') as nat
  {
    assert (s + [c])[..|s|] == s;
  }

  lemma TenTimes(v: nat, p: nat, w: nat, d: nat)
    ensures 10 * (v * p + w) + d == v * (10 * p) + (10 * w + d)
  {
  }

  function Digit(c: char): nat
    requires '0' <= c <= '9'
  {
    (c - '0') as nat
  }

  lemma ThreeDigits(a: char, b: char, c: char)
    requires '0' <= a <= '9' && '0' <= b <= '9' && '0' <= c <= '9'
    ensures DigitsValue([a, b, c]) == 100 * Digit(a) + 10 * Digit(b) + Digit(c)
  {
    assert [a, b, c][..2] == [a, b] && [a, b][..1] == [a] && [a][..0] == [];
    assert DigitsValue([a]) == Digit(a);
    assert DigitsValue([a, b]) == 10 * DigitsValue([a]) + Digit(b);
  }

  lemma ThreeMore(s: string, v: nat, a: char, b: char, c: char)
    requires AllDigits(s) && DigitsValue(s) == v
    requires '0' <= a <= '9' && '0' <= b <= '9' && '0' <= c <= '9'
    ensures AllDigits(s + [a, b, c])
    ensures DigitsValue(s + [a, b, c]) == 1000 * v + 100 * Digit(a) + 10 * Digit(b) + Digit(c)
  {
    DigitsOfJoin(s, [a, b, c]);
    ThreeDigits(a, b, c);
    assert Power10(3) == 10 * Power10(2) == 100 * Power10(1) == 1000;
  }

  const HALF: string := "922337203"

  lemma HalfValue()
    ensures AllDigits(HALF) && DigitsValue(HALF) == 922337203
  {
    var a, b := ['9', '2', '2'], ['9', '2', '2'] + ['3', '3', '7'];
    ThreeDigits('9', '2', '2');
    ThreeMore(a, 922, '3', '3', '7');
    ThreeMore(b, 922337, '2', '0', '3');
    assert HALF == b + ['2', '0', '3'];
  }

  lemma MoreDigits(s: string)
    requires AllDigits(s) && DigitsValue(s) == 922337203
    ensures var t := s + ['6', '8', '5'] + ['4', '7', '7'] + ['5', '8', '0'];
      AllDigits(t) && DigitsValue(t) == 922337203685477580
  {
    ThreeMore(s, 922337203, '6', '8', '5');
    var t := s + ['6', '8', '5'];
    ThreeMore(t, 922337203685, '4', '7', '7');
    var u := t + ['4', '7', '7'];
    ThreeMore(u, 922337203685477, '5', '8', '0');
  }

  lemma LastDigit(s: string)
    requires AllDigits(s) && DigitsValue(s) == 922337203685477580
    ensures AllDigits(s + ['7']) && DigitsValue(s + ['7']) == TWO_63 - 1
  {
    assert (s + ['7'])[..|s|] == s;
  }

  lemma PlainNumber(s: string)
    requires s != [] && AllDigits(s) && DigitsValue(s) < TWO_63
    ensures Atoi(s) == Some(DigitsValue(s))
  {
  }

  lemma HugeValue()
    ensures Atoi(HUGE) == Some(TWO_63 - 1)
  {
    HalfValue();
    MoreDigits(HALF);
    var t := HALF + ['6', '8', '5'] + ['4', '7', '7'] + ['5', '8', '0'];
    LastDigit(t);
    assert HUGE == t + ['7'];
    PlainNumber(t + ['7']);
  }
}
