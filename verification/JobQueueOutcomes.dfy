/**
  How jobs end and what a crash leaves of them, over runs (kernel/jobs/queue.go:177-181, 432-461). Nothing
  here refers to the functions that the steps write rows with.
 */
module JobQueueOutcomes {
  import opened Common
  import opened Counters
  import opened Text
  import opened JobQueue
  import opened JobQueueRuns

  // ---- What the handler of a worker returned ----

  /** Since the worker of ticket `k` got its job, its handler has returned `ok`. */
  ghost predicate HandlerReturned(run: seq<System>, acts: seq<Action>, n: nat, k: Ticket, ok: bool)
    requires |run| == |acts| + 1 && n <= |acts|
  {
    n > 0 && k in run[n - 1].holds && k in run[n].holds && (acts[n - 1] == Return(k, ok) || HandlerReturned(run, acts, n - 1, k, ok))
  }

  /** The phases after a return of `ok`. */
  predicate HasReturned(phase: Phase, ok: bool) {
    phase == Returned(ok) || phase == Settling(ok)
  }

  lemma StepMovesPhase(c: Config, s: System, a: Action, k: Ticket, ok: bool)
    requires Enabled(c, s, a) && k in Apply(c, s, a).holds
    ensures HasReturned(Apply(c, s, a).holds[k].phase, ok) <==> k in s.holds && (a == Return(k, ok) || HasReturned(s.holds[k].phase, ok))
  {
  }

  lemma PointMovesPhase(c: Config, run: seq<System>, acts: seq<Action>, n: nat, k: Ticket, ok: bool)
    requires IsRun(c, run, acts) && n < |acts| && k in run[n + 1].holds
    ensures HasReturned(run[n + 1].holds[k].phase, ok) <==> k in run[n].holds && (acts[n] == Return(k, ok) || HasReturned(run[n].holds[k].phase, ok))
  {
    StepMovesPhase(c, run[n], acts[n], k, ok);
  }

  lemma {:induction false} PhaseTellsReturn(c: Config, run: seq<System>, acts: seq<Action>, n: nat, k: Ticket, ok: bool)
    requires IsRun(c, run, acts) && n < |run| && k in run[n].holds
    ensures HandlerReturned(run, acts, n, k, ok) <==> HasReturned(run[n].holds[k].phase, ok)
  {
    if n > 0 {
      PointMovesPhase(c, run, acts, n - 1, k, ok);
      if k in run[n - 1].holds {
        PhaseTellsReturn(c, run, acts, n - 1, k, ok);
      }
    }
  }

  // ---- How a row ends ----

  /** At step `n` of the run the row of the job gets a state that it did not have. */
  ghost predicate Turns(run: seq<System>, n: nat, id: JobId, state: JobState)
    requires n + 1 < |run|
  {
    id in run[n + 1].rows && run[n + 1].rows[id].state == state && !(id in run[n].rows && run[n].rows[id].state == state)
  }

  /** Step `n` is that of a worker writing the outcome of the job, whose handler returned `ok`. */
  ghost predicate Settles(run: seq<System>, acts: seq<Action>, n: nat, id: JobId, ok: bool)
    requires |run| == |acts| + 1 && n < |acts|
  {
    acts[n].Record? && acts[n].ticket in run[n].holds && run[n].holds[acts[n].ticket].job.id == id && HandlerReturned(run, acts, n, acts[n].ticket, ok)
  }

  /** What a worker writes for its job, whose copy counts `attempts`. */
  ghost predicate Written(c: Config, r: Row, r': Row, attempts: nat, ok: bool, next: string) {
    && r'.tenant == r.tenant && r'.kind == r.kind
    && (ok ==> r'.state == Done && r'.attempts == r.attempts && r'.runAfter == r.runAfter)
    && (!ok ==> r'.attempts == attempts + 1)
    && (!ok && attempts + 1 >= c.maxAttempts ==> r'.state == Failed && r'.runAfter == r.runAfter)
    && (!ok && attempts + 1 < c.maxAttempts ==> r'.state == Pending && r'.runAfter == next)
  }

  lemma RecordWrites(c: Config, s: System, k: Ticket, next: string)
    requires Exclusive(s) && Enabled(c, s, Record(k, next))
    ensures var j, s' := s.holds[k].job, Apply(c, s, Record(k, next));
      && j.id in s.rows && s.rows[j.id].state == Running && j.id in s'.rows
      && Written(c, s.rows[j.id], s'.rows[j.id], j.attempts, s.holds[k].phase.ok, next)
      && s'.rows.Keys == s.rows.Keys && forall id :: id in s.rows && id != j.id ==> s'.rows[id] == s.rows[id]
  {
  }

  /** Apart from records no step ends a job. */
  lemma OthersEndNothing(c: Config, s: System, a: Action, id: JobId)
    requires Enabled(c, s, a) && !a.Record? && id in Apply(c, s, a).rows
    ensures var r' := Apply(c, s, a).rows[id]; r'.state == Done || r'.state == Failed ==> id in s.rows && s.rows[id] == r'
  {
    if !a.Enqueue? && !a.Claim? && !a.Crash? {
      OthersKeepHolders(c, s, a);
    }
  }

  /** What happens to the row of a job whose worker writes its outcome. */
  lemma OutcomeIsWritten(c: Config, run: seq<System>, acts: seq<Action>, n: nat, id: JobId, ok: bool)
    requires IsRun(c, run, acts) && n < |acts| && Settles(run, acts, n, id, ok)
    ensures id in run[n].rows && run[n].rows[id].state == Running && id in run[n + 1].rows
    ensures Written(c, run[n].rows[id], run[n + 1].rows[id], run[n].holds[acts[n].ticket].job.attempts, ok, acts[n].nextRun)
    ensures !Settles(run, acts, n, id, !ok)
  {
    RunKeepsInv(c, run, acts, n);
    PhaseTellsReturn(c, run, acts, n, acts[n].ticket, ok);
    PhaseTellsReturn(c, run, acts, n, acts[n].ticket, !ok);
    RecordWrites(c, run[n], acts[n].ticket, acts[n].nextRun);
  }

  lemma RecordSettles(c: Config, run: seq<System>, acts: seq<Action>, n: nat)
    requires IsRun(c, run, acts) && n < |acts| && acts[n].Record?
    ensures acts[n].ticket in run[n].holds
    ensures var id := run[n].holds[acts[n].ticket].job.id; Settles(run, acts, n, id, true) || Settles(run, acts, n, id, false)
  {
    var h := run[n].holds[acts[n].ticket];
    PhaseTellsReturn(c, run, acts, n, acts[n].ticket, h.phase.ok);
  }

  lemma OtherRowsStay(c: Config, run: seq<System>, acts: seq<Action>, n: nat, id: JobId)
    requires IsRun(c, run, acts) && n < |acts| && !Settles(run, acts, n, id, true) && !Settles(run, acts, n, id, false)
    ensures !Turns(run, n, id, Done) && !Turns(run, n, id, Failed)
  {
    RunKeepsInv(c, run, acts, n);
    if acts[n].Record? {
      RecordSettles(c, run, acts, n);
      RecordWrites(c, run[n], acts[n].ticket, acts[n].nextRun);
    } else if id in run[n + 1].rows {
      OthersEndNothing(c, run[n], acts[n], id);
    }
  }

  /** A job is done exactly when its own worker records that its handler returned without an error. */
  lemma DoneExactly(c: Config, run: seq<System>, acts: seq<Action>, n: nat, id: JobId)
    requires IsRun(c, run, acts) && n < |acts|
    ensures Turns(run, n, id, Done) <==> Settles(run, acts, n, id, true)
  {
    if Settles(run, acts, n, id, true) {
      OutcomeIsWritten(c, run, acts, n, id, true);
    } else if Settles(run, acts, n, id, false) {
      OutcomeIsWritten(c, run, acts, n, id, false);
    } else {
      OtherRowsStay(c, run, acts, n, id);
    }
  }

  /** A job has failed exactly when its own worker records an error and the attempts are used up. */
  lemma FailedExactly(c: Config, run: seq<System>, acts: seq<Action>, n: nat, id: JobId)
    requires IsRun(c, run, acts) && n < |acts|
    ensures Turns(run, n, id, Failed) <==>
      Settles(run, acts, n, id, false) && run[n].holds[acts[n].ticket].job.attempts + 1 >= c.maxAttempts
  {
    if Settles(run, acts, n, id, true) {
      OutcomeIsWritten(c, run, acts, n, id, true);
    } else if Settles(run, acts, n, id, false) {
      OutcomeIsWritten(c, run, acts, n, id, false);
    } else {
      OtherRowsStay(c, run, acts, n, id);
    }
  }

  // ---- After a crash ----

  predicate Unfinished(r: Row) {
    r.state == Pending || r.state == Running
  }

  lemma StepAfterCrash(c: Config, s: System, id: JobId)
    requires id in s.rows
    ensures var s' := Apply(c, s, Crash);
      && id in s'.rows && s'.holds == map[] && s'.passes == map[] && s'.inflight == map[] && s'.mutex.None?
      && s'.rows[id] == if Unfinished(s.rows[id]) then s.rows[id].(state := Pending) else s.rows[id]
  {
  }

  /** After a crash every unfinished job waits again, with its attempts and its time, and nobody holds it;
      finished jobs are as they were. */
  lemma CrashRequeues(c: Config, run: seq<System>, acts: seq<Action>, n: nat, id: JobId)
    requires IsRun(c, run, acts) && n < |acts| && acts[n].Crash? && id in run[n].rows
    ensures var r := run[n].rows[id];
      && id in run[n + 1].rows && run[n + 1].holds == map[]
      && (Unfinished(r) ==> run[n + 1].rows[id] == Row(r.tenant, r.kind, r.runAfter, r.attempts, Pending))
      && (!Unfinished(r) ==> run[n + 1].rows[id] == r)
  {
    StepAfterCrash(c, run[n], id);
  }

  // ---- A crash keeps no job from running ----

  ghost function Waiting(rows: map<JobId, Row>): set<JobId> {
    set id | id in rows && rows[id].state == Pending
  }

  lemma {:induction false} EarliestOf(rows: map<JobId, Row>, ids: set<JobId>) returns (m: JobId)
    requires ids != {} && forall id :: id in ids ==> id in rows
    ensures m in ids && forall id :: id in ids ==> LexLeq(rows[m].runAfter, rows[id].runAfter)
    decreases ids
  {
    var x :| x in ids;
    m := x;
    LexReflexive(rows[x].runAfter);
    if ids != {x} {
      var y := EarliestOf(rows, ids - {x});
      LexTotal(rows[x].runAfter, rows[y].runAfter);
      m := if LexLeq(rows[x].runAfter, rows[y].runAfter) then x else y;
      forall id | id in ids ensures LexLeq(rows[m].runAfter, rows[id].runAfter) {
        LexReflexive(rows[m].runAfter);
        if id != x && m == x {
          LexTransitive(rows[x].runAfter, rows[y].runAfter, rows[id].runAfter);
        }
      }
    }
  }

  /** Nobody holds a job, a slot or the mutex. */
  ghost predicate Quiet(s: System) {
    s.holds == map[] && s.inflight == map[] && s.mutex.None?
  }

  /** A new pass scans the table and finds the job that is due first. */
  lemma ScanEarliest(c: Config, run: seq<System>, acts: seq<Action>, m: JobId) returns (run': seq<System>, acts': seq<Action>, p: PassId)
    requires IsRun(c, run, acts) && Quiet(run[|acts|]) && c.globalCap >= 1 && IsEarliest(run[|acts|].rows, m)
    ensures IsRun(c, run', acts') && acts <= acts' && NoCrash(acts', |acts|)
    ensures var s, s' := run[|acts|], run'[|acts'|];
      && p in s'.passes && s' == s.(handlers := s'.handlers, passes := s'.passes) && s'.passes[p].Scanning? && s'.passes[p].slots == c.globalCap
      && s.rows[m].kind in s'.passes[p].kinds && s'.passes[p].cands != [] && s'.passes[p].cands[0] == CopyOf(s.rows, m)
  {
    var s := run[|acts|];
    var kinds := s.handlers + {s.rows[m].kind};
    p := FreshNat(s.passes.Keys);
    var s1 := s.(handlers := kinds);
    run', acts' := Then(c, run, acts, Register(s.rows[m].kind), s1);
    var s2 := s1.(passes := s1.passes[p := Snapshotted(c.globalCap, kinds)]);
    run', acts' := Then(c, run', acts', Begin(p), s2);
    var found := SelectionWith(s.rows, m);
    run', acts' := Then(c, run', acts', Select(p, s.rows[m].runAfter, found), s2.(passes := s2.passes[p := Scanning(c.globalCap, kinds, found)]));
  }

  lemma StartEarliest(c: Config, run: seq<System>, acts: seq<Action>, m: JobId) returns (run': seq<System>, acts': seq<Action>)
    requires IsRun(c, run, acts) && Quiet(run[|acts|]) && c.globalCap >= 1 && c.perTenantCap >= 1 && IsEarliest(run[|acts|].rows, m)
    ensures IsRun(c, run', acts') && acts <= acts' && NoCrash(acts', |acts|)
    ensures var s, s' := run[|acts|], run'[|acts'|]; var j := CopyOf(s.rows, m);
      && s'.holds == map[0 := Hold(j, Claimed)] && s'.mutex.None? && s'.starts == s.starts
      && s'.inflight == Bump(s.inflight, j.tenant) && s'.rows == ClaimRow(s.rows, m)
  {
    var p;
    run', acts', p := ScanEarliest(c, run, acts, m);
    run', acts' := ReserveAndClaim(c, run', acts', p, 0);
  }

  ghost predicate NoCrash(acts: seq<Action>, from: nat) {
    forall i :: from <= i < |acts| ==> !acts[i].Crash?
  }

  /** Whatever else waits, the queue can come to start the handler of a job that waits: the jobs that are due
      before it run first. */
  lemma {:induction false} WaitingRuns(c: Config, run: seq<System>, acts: seq<Action>, id: JobId) returns (run': seq<System>, acts': seq<Action>)
    requires IsRun(c, run, acts) && Quiet(run[|acts|]) && c.globalCap >= 1 && c.perTenantCap >= 1 && id in Waiting(run[|acts|].rows)
    ensures IsRun(c, run', acts') && acts <= acts' && NoCrash(acts', |acts|)
    ensures Get(run'[|acts'|].starts, id) == Get(run[|acts|].starts, id) + 1
    decreases |Waiting(run[|acts|].rows)|
  {
    var s := run[|acts|];
    var m := EarliestOf(s.rows, Waiting(s.rows));
    run', acts' := StartEarliest(c, run, acts, m);
    var t := run'[|acts'|];
    if m == id {
      run', acts' := Then(c, run', acts', Invoke(0), Apply(c, t, Invoke(0)));
    } else {
      run', acts' := RunOnce(c, run', acts', 0, true, "");
      var u := run'[|acts'|];
      OneLess(s.rows, u.rows, m);
      var zero: map<Tenant, nat> := map[];
      assert Drop(Bump(zero, s.rows[m].tenant), s.rows[m].tenant) == zero;
      assert u.holds == map[];
      run', acts' := WaitingRuns(c, run', acts', id);
    }
  }

  lemma OneLess(rows: map<JobId, Row>, rows': map<JobId, Row>, m: JobId)
    requires m in Waiting(rows) && rows'.Keys == rows.Keys && rows'[m].state == Done && forall id :: id in rows && id != m ==> rows'[id] == rows[id]
    ensures Waiting(rows') == Waiting(rows) - {m} && |Waiting(rows')| < |Waiting(rows)|
  {
  }

  /** After a crash every job that was not finished can run again, whatever else waits. */
  lemma UnfinishedRunsAgain(c: Config, run: seq<System>, acts: seq<Action>, id: JobId) returns (run': seq<System>, acts': seq<Action>)
    requires IsRun(c, run, acts) && acts != [] && acts[|acts| - 1].Crash? && c.globalCap >= 1 && c.perTenantCap >= 1
    requires id in run[|acts| - 1].rows && Unfinished(run[|acts| - 1].rows[id])
    ensures IsRun(c, run', acts') && acts <= acts' && NoCrash(acts', |acts|)
    ensures Get(run'[|acts'|].starts, id) == Get(run[|acts|].starts, id) + 1
  {
    var n := |acts| - 1;
    assert run[n + 1] == Apply(c, run[n], acts[n]);
    StepAfterCrash(c, run[n], id);
    run', acts' := WaitingRuns(c, run, acts, id);
  }
}
