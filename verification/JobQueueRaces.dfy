/**
  A run of the job queue, without a crash, in which two overlapping lease passes make a job run more
  often than its budget allows (kernel/jobs/queue.go:297-309, 352-366, 450-461).
 */
module JobQueueRaces {
  import opened Common
  import opened Counters
  import opened JobQueue
  import opened JobQueueBudget
  import opened JobQueueRuns

  const K: Kind := "k"
  const NOW: string := "0"
  const TWICE := Config(2, 4, 4)
  const SLOTS := Snapshotted(4, {K})
  const A0 := Job("a", "A", K, 0)
  const A1 := Job("a", "A", K, 1)

  function PendingRow(tenant: Tenant, attempts: nat): Row {
    Row(tenant, K, NOW, attempts, Pending)
  }

  function StaleState(attempts: nat, passes: map<PassId, Pass>, starts: map<JobId, nat>): System {
    System(map["a" := PendingRow("A", attempts)], map[], {K}, passes, map[], None, starts, map[])
  }

  lemma StaleSelection(attempts: nat)
    ensures IsSelection(map["a" := PendingRow("A", attempts)], NOW, [Job("a", "A", K, attempts)])
  {
    assert Job("a", "A", K, attempts) == [Job("a", "A", K, attempts)][0];
  }

  lemma TwoMoreSnapshots() returns (run: seq<System>, acts: seq<Action>)
    ensures IsRun(TWICE, run, acts) && forall i :: 0 <= i < |acts| ==> !acts[i].Crash?
    ensures run[|acts|] == StaleState(0, map[0 := SLOTS, 1 := SLOTS], map[])
  {
    run, acts := [INITIAL], [];
    run, acts := Then(TWICE, run, acts, Register(K), INITIAL.(handlers := {K}));
    run, acts := Then(TWICE, run, acts, Enqueue("a", "A", K, NOW), StaleState(0, map[], map[]));
    run, acts := Then(TWICE, run, acts, Begin(0), StaleState(0, map[0 := SLOTS], map[]));
    run, acts := Then(TWICE, run, acts, Begin(1), StaleState(0, map[0 := SLOTS, 1 := SLOTS], map[]));
  }

  /** Two passes that have both scanned the job at its first attempt. */
  lemma TwoScans() returns (run: seq<System>, acts: seq<Action>)
    ensures IsRun(TWICE, run, acts) && forall i :: 0 <= i < |acts| ==> !acts[i].Crash?
    ensures run[|acts|] == StaleState(0, map[0 := Scanning(4, {K}, [A0]), 1 := Scanning(4, {K}, [A0])], map[])
  {
    run, acts := TwoMoreSnapshots();
    StaleSelection(0);
    var one := map[0 := Scanning(4, {K}, [A0]), 1 := SLOTS];
    assert map[0 := SLOTS, 1 := SLOTS][0 := Scanning(4, {K}, [A0])] == one;
    run, acts := Then(TWICE, run, acts, Select(0, NOW, [A0]), StaleState(0, one, map[]));
    run, acts := Then(TWICE, run, acts, Select(1, NOW, [A0]), StaleState(0, one[1 := Scanning(4, {K}, [A0])], map[]));
  }

  /** Claim the job with the copy in pass `p`'s hands, run it and fail. */
  lemma ClaimAndFail(run: seq<System>, acts: seq<Action>, p: PassId, attempts: nat, passes: map<PassId, Pass>, starts: map<JobId, nat>)
    returns (run': seq<System>, acts': seq<Action>)
    requires IsRun(TWICE, run, acts) && run[|acts|] == StaleState(attempts, passes, starts)
    requires p in passes && passes[p] == Scanning(4, {K}, [A0])
    ensures IsRun(TWICE, run', acts')
    ensures acts <= acts' && forall i :: |acts| <= i < |acts'| ==> !acts'[i].Crash?
    ensures run'[|acts'|] == StaleState(1, passes[p := Scanning(3, {K}, [])], Bump(starts, "a"))
  {
    run', acts' := ReserveAndClaim(TWICE, run, acts, p, 0);
    run', acts' := RunOnce(TWICE, run', acts', 0, false, NOW);
    var rows := map["a" := PendingRow("A", attempts)];
    assert RecordRow(TWICE, ClaimRow(rows, "a"), A0, false, NOW) == map["a" := PendingRow("A", 1)];
    var none: map<Ticket, Hold> := map[];
    assert none[0 := Hold(A0, Claimed)] - {0} == none;
    var zero: map<Tenant, nat> := map[];
    assert Drop(Bump(zero, "A"), "A") == zero;
    assert [A0][1..] == [];
  }

  lemma ThirdScan(run: seq<System>, acts: seq<Action>, passes: map<PassId, Pass>, starts: map<JobId, nat>)
    returns (run': seq<System>, acts': seq<Action>)
    requires IsRun(TWICE, run, acts) && run[|acts|] == StaleState(1, passes, starts) && 2 !in passes
    ensures IsRun(TWICE, run', acts') && acts' == acts + [Begin(2)] + [Select(2, NOW, [A1])]
    ensures run'[|acts'|] == StaleState(1, passes[2 := Scanning(4, {K}, [A1])], starts)
  {
    StaleSelection(1);
    run', acts' := Then(TWICE, run, acts, Begin(2), StaleState(1, passes[2 := SLOTS], starts));
    var scanned := passes[2 := Scanning(4, {K}, [A1])];
    assert passes[2 := SLOTS][2 := Scanning(4, {K}, [A1])] == scanned;
    run', acts' := Then(TWICE, run', acts', Select(2, NOW, [A1]), StaleState(1, scanned, starts));
  }

  lemma ThirdStart(run: seq<System>, acts: seq<Action>, passes: map<PassId, Pass>, starts: map<JobId, nat>)
    returns (run': seq<System>, acts': seq<Action>)
    requires IsRun(TWICE, run, acts) && run[|acts|] == StaleState(1, passes, starts)
    requires 2 in passes && passes[2] == Scanning(4, {K}, [A1])
    ensures IsRun(TWICE, run', acts') && acts' == acts + [Reserve(2), Claim(2, 0)] + [Invoke(0)]
    ensures run'[|acts'|].starts == Bump(starts, "a")
  {
    run', acts' := ReserveAndClaim(TWICE, run, acts, 2, 0);
    var s := run'[|acts'|];
    run', acts' := Then(TWICE, run', acts', Invoke(0), s.(holds := s.holds[0 := Hold(A1, Invoked)], starts := Bump(s.starts, "a")));
  }

  /** With at most two attempts and no crash, a handler is started three times: the second pass
      claims with a copy from before the first failure and so loses that attempt. */
  lemma TwoPassesBreakAttemptBudget() returns (run: seq<System>, acts: seq<Action>)
    ensures IsRun(TWICE, run, acts) && (forall i :: 0 <= i < |acts| ==> !acts[i].Crash?)
    ensures Budget(TWICE) == 2 && Get(run[|acts|].starts, "a") == 3
  {
    run, acts := TwoScans();
    var passes := run[|acts|].passes;
    run, acts := ClaimAndFail(run, acts, 0, 0, passes, map[]);
    passes := passes[0 := Scanning(3, {K}, [])];
    run, acts := ClaimAndFail(run, acts, 1, 1, passes, Bump(map[], "a"));
    passes := passes[1 := Scanning(3, {K}, [])];
    run, acts := ThirdScan(run, acts, passes, Bump(Bump(map[], "a"), "a"));
    run, acts := ThirdStart(run, acts, passes[2 := Scanning(4, {K}, [A1])], Bump(Bump(map[], "a"), "a"));
  }
}
