/**
  The global cap of kernel/jobs/queue.go:328-338, 370-413 with overlapping lease passes: `k` passes
  at a time hold at most `k` times the cap, and two are enough to go beyond it.
 */
module JobQueueCaps {
  import opened Common
  import opened Counters
  import opened JobQueue
  import opened JobQueueRuns

  /** A run with at most `k` lease passes at any time. */
  ghost predicate AtMostPasses(c: Config, run: seq<System>, acts: seq<Action>, k: nat) {
    IsRun(c, run, acts) && forall i :: 0 <= i < |run| ==> |run[i].passes| <= k
  }

  function Open(q: Pass): nat {
    if q.slots > 0 then q.slots else 0
  }

  /** The claims that each pass may still make. */
  ghost function OpenSlots(passes: map<PassId, Pass>): map<PassId, nat> {
    map p | p in passes :: Open(passes[p])
  }

  function Cap(c: Config): nat {
    if c.globalCap > 0 then c.globalCap else 0
  }

  ghost predicate SlotsFit(c: Config, s: System) {
    && (forall p :: p in s.passes ==> s.passes[p].slots <= Cap(c))
    && (forall p :: p in s.passes && Reserves(s.passes[p]) ==> s.passes[p].slots > 0)
  }

  /** Held jobs, and those that the passes at work can still add, are at most `bound`. */
  ghost predicate WithinBound(c: Config, s: System, bound: nat) {
    SlotsFit(c, s) && HeldJobs(s) + Sum(OpenSlots(s.passes)) <= bound
  }

  lemma PassOpens(passes: map<PassId, Pass>, p: PassId, q: Pass)
    ensures Sum(OpenSlots(passes[p := q])) == Sum(OpenSlots(passes)) - (if p in passes then Open(passes[p]) else 0) + Open(q)
  {
    SumUpdate(OpenSlots(passes), p, Open(q));
    assert OpenSlots(passes[p := q]) == OpenSlots(passes)[p := Open(q)];
  }

  lemma PassEnds(passes: map<PassId, Pass>, p: PassId)
    ensures Sum(OpenSlots(passes - {p})) <= Sum(OpenSlots(passes))
  {
    SumRemove(OpenSlots(passes), p);
    assert OpenSlots(passes - {p}) == OpenSlots(passes) - {p};
  }

  lemma SameHeld(s: System, s': System)
    requires s'.holds == s.holds
    ensures HeldJobs(s') == HeldJobs(s)
  {
  }

  lemma OthersWithin(c: Config, s: System)
    requires SlotsFit(c, s)
    ensures Sum(OpenSlots(s.passes)) <= |s.passes| * Cap(c)
  {
    assert OpenSlots(s.passes).Keys == s.passes.Keys;
    SumWithin(OpenSlots(s.passes), Cap(c));
  }

  /** A new pass counts on no more than what is free, and the others on no more than the cap each. */
  lemma BeginFits(c: Config, s: System, p: PassId, bound: nat, others: nat)
    requires Accounting(c, s) && WithinBound(c, s, bound) && Enabled(c, s, Begin(p))
    requires Sum(OpenSlots(s.passes)) <= others && others + Cap(c) <= bound
    ensures WithinBound(c, Apply(c, s, Begin(p)), bound)
  {
    var s' := Apply(c, s, Begin(p));
    SameHeld(s, s');
    PassOpens(s.passes, p, s'.passes[p]);
  }

  /** A pass that neither claims nor gains slots. */
  lemma PassStepFits(c: Config, s: System, s': System, p: PassId, q: Pass, bound: nat)
    requires WithinBound(c, s, bound) && s'.holds == s.holds && s'.passes == s.passes[p := q]
    requires p in s.passes && q.slots == s.passes[p].slots && (Reserves(q) ==> q.slots > 0)
    ensures WithinBound(c, s', bound)
  {
    SameHeld(s, s');
    PassOpens(s.passes, p, q);
  }

  lemma WonClaimFits(c: Config, s: System, p: PassId, t: Ticket, bound: nat)
    requires WithinBound(c, s, bound) && Enabled(c, s, Claim(p, t)) && Wins(s, p)
    ensures WithinBound(c, Apply(c, s, Claim(p, t)), bound)
  {
    var s' := Apply(c, s, Claim(p, t));
    HoldCounts(s.holds, t, s'.holds[t]);
    assert Reserves(s.passes[p]);
    PassOpens(s.passes, p, s'.passes[p]);
  }

  /** Fewer or the same passes, and no more jobs that hold a slot. */
  lemma LowerFits(c: Config, s: System, s': System, bound: nat)
    requires WithinBound(c, s, bound) && SlotsFit(c, s')
    requires HeldJobs(s') <= HeldJobs(s) && Sum(OpenSlots(s'.passes)) <= Sum(OpenSlots(s.passes))
    ensures WithinBound(c, s', bound)
  {
  }

  lemma FinishFits(c: Config, s: System, p: PassId, bound: nat)
    requires WithinBound(c, s, bound) && Enabled(c, s, Finish(p))
    ensures WithinBound(c, Apply(c, s, Finish(p)), bound)
  {
    SameHeld(s, Apply(c, s, Finish(p)));
    PassEnds(s.passes, p);
    LowerFits(c, s, Apply(c, s, Finish(p)), bound);
  }

  lemma CrashFits(c: Config, s: System, bound: nat)
    requires WithinBound(c, s, bound)
    ensures WithinBound(c, Apply(c, s, Crash), bound)
  {
    NothingHeld(c, Apply(c, s, Crash));
    assert OpenSlots(map[]) == map[];
  }

  lemma WorkerFits(c: Config, s: System, a: Action, bound: nat)
    requires WithinBound(c, s, bound) && Enabled(c, s, a) && (a.Invoke? || a.Return? || a.Release? || a.Record?)
    ensures WithinBound(c, Apply(c, s, a), bound)
  {
    var s' := Apply(c, s, a);
    if a.Record? {
      MatchingRemove(s.holds, a.ticket, AnySlot());
    } else {
      HoldCounts(s.holds, a.ticket, s'.holds[a.ticket]);
    }
    LowerFits(c, s, s', bound);
  }

  lemma StepFits(c: Config, s: System, a: Action, bound: nat)
    requires Accounting(c, s) && WithinBound(c, s, bound) && Enabled(c, s, a)
    requires a.Begin? ==> |s.passes| * Cap(c) + Cap(c) <= bound
    ensures WithinBound(c, Apply(c, s, a), bound)
  {
    if a.Begin? {
      OthersWithin(c, s);
      BeginFits(c, s, a.p, bound, |s.passes| * Cap(c));
    } else if a.Claim? && Wins(s, a.p) {
      WonClaimFits(c, s, a.p, a.ticket, bound);
    } else if a.Crash? {
      CrashFits(c, s, bound);
    } else if a.Register? || a.Enqueue? {
      SameHeld(s, Apply(c, s, a));
      LowerFits(c, s, Apply(c, s, a), bound);
    } else if a.Finish? {
      FinishFits(c, s, a.p, bound);
    } else if a.Invoke? || a.Return? || a.Release? || a.Record? {
      WorkerFits(c, s, a, bound);
    } else {
      PassStepFits(c, s, Apply(c, s, a), a.p, Apply(c, s, a).passes[a.p], bound);
    }
  }

  lemma FewerTimes(m: nat, k: nat, b: nat)
    requires m < k
    ensures m * b + b <= k * b
  {
    assert k * b == m * b + b + (k - m - 1) * b;
    assert (k - m - 1) * b >= 0;
  }

  /** Room for one more pass, if there is one. */
  lemma RoomForBegin(c: Config, s: System, a: Action, k: nat)
    requires Enabled(c, s, a) && a.Begin? && |Apply(c, s, a).passes| <= k
    ensures |s.passes| * Cap(c) + Cap(c) <= k * Cap(c)
  {
    assert Apply(c, s, a).passes.Keys == s.passes.Keys + {a.p};
    FewerTimes(|s.passes|, k, Cap(c));
  }

  lemma PointFits(c: Config, run: seq<System>, acts: seq<Action>, k: nat, n: nat)
    requires AtMostPasses(c, run, acts, k) && n < |acts| && WithinBound(c, run[n], k * Cap(c))
    ensures WithinBound(c, run[n + 1], k * Cap(c))
  {
    RunKeepsInv(c, run, acts, n);
    assert run[n + 1] == Apply(c, run[n], acts[n]) && |run[n + 1].passes| <= k;
    if acts[n].Begin? {
      RoomForBegin(c, run[n], acts[n], k);
    }
    StepFits(c, run[n], acts[n], k * Cap(c));
  }

  /** With at most `k` passes at a time, at most `k` times the global cap of jobs hold a slot. */
  lemma {:induction false} HeldWithinPasses(c: Config, run: seq<System>, acts: seq<Action>, k: nat, n: nat)
    requires AtMostPasses(c, run, acts, k) && n < |run|
    ensures HeldJobs(run[n]) <= k * Cap(c) && WithinBound(c, run[n], k * Cap(c))
  {
    if n == 0 {
      NothingHeld(c, INITIAL);
      assert OpenSlots(map[]) == map[];
    } else {
      HeldWithinPasses(c, run, acts, k, n - 1);
      PointFits(c, run, acts, k, n - 1);
    }
  }

  // ---- Two overlapping passes go beyond the cap ----

  const K: Kind := "k"

  /** The id, and the tenant, of the `i`-th job. */
  function Name(i: nat): string {
    seq(i + 1, _ => 'x')
  }

  /** `i` jobs are held, and pass 1 still has its snapshot of an idle queue. */
  ghost predicate Filling(c: Config, s: System, i: nat) {
    && s.handlers == {K} && s.mutex.None? && s.passes == map[1 := Snapshotted(c.globalCap, {K})]
    && HeldJobs(s) == i && Sum(s.inflight) == i
    && (forall id :: id in s.rows ==> |id| <= i && s.rows[id].state == Running)
    && (forall t :: t in s.inflight ==> |t| <= i)
    && (forall k :: k in s.holds ==> k < i)
  }

  lemma OnlyPending(rows: map<JobId, Row>, id: JobId, row: Row)
    requires row.state == Pending && row.runAfter == ""
    requires forall x :: x in rows ==> rows[x].state == Running
    ensures IsSelection(rows[id := row], "", [CopyOf(rows[id := row], id)])
  {
    var after := rows[id := row];
    assert [CopyOf(after, id)][0] == CopyOf(after, id);
  }

  /** What pass `p` leaves of state `s` when it has scanned the one pending job and claimed it. */
  ghost function Taken(s: System, p: PassId, slots: int, i: nat): System {
    s.(rows := s.rows[Name(i) := Row(Name(i), K, "", 0, Running)],
       inflight := Bump(s.inflight, Name(i)),
       passes := s.passes[p := Scanning(slots - 1, {K}, [])],
       holds := s.holds[i := Hold(Job(Name(i), Name(i), K, 0), Claimed)])
  }

  /** One pending job, the `i`-th, and all others running. */
  ghost predicate OneWaits(s: System, i: nat) {
    && s.mutex.None? && i !in s.holds && Get(s.inflight, Name(i)) == 0
    && Name(i) in s.rows && s.rows[Name(i)] == Row(Name(i), K, "", 0, Pending)
    && (forall x :: x in s.rows && x != Name(i) ==> s.rows[x].state == Running)
  }

  lemma WaitingIsSelected(s: System, i: nat)
    requires OneWaits(s, i)
    ensures IsSelection(s.rows, "", [Job(Name(i), Name(i), K, 0)])
  {
    OnlyPending(s.rows - {Name(i)}, Name(i), s.rows[Name(i)]);
    assert (s.rows - {Name(i)})[Name(i) := s.rows[Name(i)]] == s.rows;
  }

  /** Pass `p` scans the one pending job and claims it. */
  lemma TakeNext(c: Config, run: seq<System>, acts: seq<Action>, p: PassId, slots: int, i: nat) returns (run': seq<System>, acts': seq<Action>)
    requires IsRun(c, run, acts) && c.perTenantCap >= 1 && slots > 0 && OneWaits(run[|acts|], i)
    requires p in run[|acts|].passes && run[|acts|].passes[p] == Snapshotted(slots, {K})
    ensures IsRun(c, run', acts') && acts' == acts + [Select(p, "", [Job(Name(i), Name(i), K, 0)]), Reserve(p), Claim(p, i)]
    ensures run'[|acts'|] == Taken(run[|acts|], p, slots, i)
  {
    var s := run[|acts|];
    var job := Job(Name(i), Name(i), K, 0);
    WaitingIsSelected(s, i);
    var s1 := s.(passes := s.passes[p := Scanning(slots, {K}, [job])]);
    run', acts' := Then(c, run, acts, Select(p, "", [job]), s1);
    run', acts' := ReserveAndClaim(c, run', acts', p, i);
    assert [job][1..] == [] && s1.passes[p := Scanning(slots - 1, {K}, [])] == s.passes[p := Scanning(slots - 1, {K}, [])];
  }

  lemma EnqueueNext(c: Config, run: seq<System>, acts: seq<Action>, i: nat) returns (run': seq<System>, acts': seq<Action>)
    requires IsRun(c, run, acts) && Filling(c, run[|acts|], i)
    ensures IsRun(c, run', acts') && acts' == acts + [Enqueue(Name(i), Name(i), K, "")]
    ensures run'[|acts'|] == run[|acts|].(rows := run[|acts|].rows[Name(i) := Row(Name(i), K, "", 0, Pending)])
    ensures OneWaits(run'[|acts'|], i)
  {
    var s := run[|acts|];
    assert Name(i) !in s.rows;
    run', acts' := Then(c, run, acts, Enqueue(Name(i), Name(i), K, ""), s.(rows := s.rows[Name(i) := Row(Name(i), K, "", 0, Pending)]));
  }

  /** Only passes 0 and 1 are ever begun. */
  ghost predicate TwoNames(acts: seq<Action>) {
    forall i :: 0 <= i < |acts| && acts[i].Begin? ==> acts[i].p < 2
  }

  lemma {:induction false} TwoNamesTwoPasses(c: Config, run: seq<System>, acts: seq<Action>, n: nat)
    requires IsRun(c, run, acts) && TwoNames(acts) && n < |run|
    ensures run[n].passes.Keys <= {0, 1} && |run[n].passes| <= 2
  {
    if n > 0 {
      TwoNamesTwoPasses(c, run, acts, n - 1);
      StepAddsOnlyBegun(c, run[n - 1], acts[n - 1]);
    }
    SubsetSize(run[n].passes.Keys, {0, 1});
  }

  lemma StepAddsOnlyBegun(c: Config, s: System, a: Action)
    requires Enabled(c, s, a)
    ensures Apply(c, s, a).passes.Keys <= s.passes.Keys + if a.Begin? then {a.p} else {}
  {
  }

  /** A pass of its own, 0, takes the one pending job. */
  lemma OwnPassTakes(c: Config, run: seq<System>, acts: seq<Action>, slots: int, i: nat) returns (run': seq<System>, acts': seq<Action>)
    requires IsRun(c, run, acts) && TwoNames(acts) && OneWaits(run[|acts|], i) && c.perTenantCap >= 1
    requires run[|acts|].handlers == {K} && 0 !in run[|acts|].passes && slots == c.globalCap - Sum(run[|acts|].inflight) > 0
    ensures IsRun(c, run', acts') && TwoNames(acts')
    ensures run'[|acts'|] == Taken(run[|acts|], 0, slots, i).(passes := run[|acts|].passes)
  {
    var s := run[|acts|];
    run', acts' := Then(c, run, acts, Begin(0), s.(passes := s.passes[0 := Snapshotted(slots, {K})]));
    run', acts' := TakeNext(c, run', acts', 0, slots, i);
    var t := run'[|acts'|];
    assert t.passes - {0} == s.passes;
    run', acts' := Then(c, run', acts', Finish(0), t.(passes := s.passes));
  }

  /** One more job, taken beside pass 1. */
  lemma FillOne(c: Config, run: seq<System>, acts: seq<Action>, i: nat) returns (run': seq<System>, acts': seq<Action>)
    requires IsRun(c, run, acts) && TwoNames(acts) && Filling(c, run[|acts|], i) && c.perTenantCap >= 1 && i < c.globalCap
    ensures IsRun(c, run', acts') && TwoNames(acts') && Filling(c, run'[|acts'|], i + 1)
  {
    run', acts' := EnqueueNext(c, run, acts, i);
    run', acts' := OwnPassTakes(c, run', acts', c.globalCap - i, i);
    FillingGrows(c, run[|acts|], run'[|acts'|], c.globalCap - i, i);
  }

  lemma FillingGrows(c: Config, s: System, s': System, slots: int, i: nat)
    requires Filling(c, s, i)
    requires s' == Taken(s.(rows := s.rows[Name(i) := Row(Name(i), K, "", 0, Pending)]), 0, slots, i).(passes := s.passes)
    ensures Filling(c, s', i + 1)
  {
    SumBump(s.inflight, Name(i));
    HoldCounts(s.holds, i, s'.holds[i]);
  }

  lemma {:induction false} FillUp(c: Config, i: nat) returns (run: seq<System>, acts: seq<Action>)
    requires c.globalCap >= 1 && c.perTenantCap >= 1 && i <= c.globalCap
    ensures IsRun(c, run, acts) && TwoNames(acts) && Filling(c, run[|acts|], i)
  {
    if i == 0 {
      run, acts := [INITIAL], [];
      run, acts := Then(c, run, acts, Register(K), INITIAL.(handlers := {K}));
      run, acts := Then(c, run, acts, Begin(1), INITIAL.(handlers := {K}, passes := map[1 := Snapshotted(c.globalCap, {K})]));
      NothingHeld(c, INITIAL);
      SameHeld(INITIAL, run[|acts|]);
    } else {
      run, acts := FillUp(c, i - 1);
      run, acts := FillOne(c, run, acts, i - 1);
    }
  }

  /** Whatever the caps, as long as they let anything run: two passes at a time are enough for one
      job more than the global cap. */
  lemma OverlapExceedsCap(c: Config) returns (run: seq<System>, acts: seq<Action>)
    requires c.globalCap >= 1 && c.perTenantCap >= 1
    ensures AtMostPasses(c, run, acts, 2) && HeldJobs(run[|acts|]) == c.globalCap + 1
  {
    var g := c.globalCap;
    run, acts := FillUp(c, g);
    run, acts := EnqueueNext(c, run, acts, g);
    var s := run[|acts|];
    run, acts := TakeNext(c, run, acts, 1, g, g);
    HoldCounts(s.holds, g, run[|acts|].holds[g]);
    forall n | 0 <= n < |run| ensures |run[n].passes| <= 2 {
      TwoNamesTwoPasses(c, run, acts, n);
    }
  }

  ghost predicate CapAlwaysHolds(c: Config, k: nat) {
    forall run, acts, n :: AtMostPasses(c, run, acts, k) && 0 <= n < |run| ==> HeldJobs(run[n]) <= c.globalCap
  }

  /** The global cap holds in all runs with at most `k` passes at a time exactly when `k` is at most
      one: passes must not overlap. */
  lemma CapNeedsOnePass(c: Config, k: nat)
    requires c.globalCap >= 1 && c.perTenantCap >= 1
    ensures CapAlwaysHolds(c, k) <==> k <= 1
  {
    if k <= 1 {
      forall run, acts, n | AtMostPasses(c, run, acts, k) && 0 <= n < |run| ensures HeldJobs(run[n]) <= c.globalCap {
        HeldWithinPasses(c, run, acts, k, n);
      }
    } else {
      var run, acts := OverlapExceedsCap(c);
      assert AtMostPasses(c, run, acts, k) && HeldJobs(run[|acts|]) > c.globalCap;
    }
  }
}
