/**
  How often a job's handler is started, for any number of lease passes at a time
  (kernel/jobs/queue.go:352-413, 432-461). A pass claims with a copy of the row that it scanned
  before; what matters is whether that copy still has the row's number of attempts.
 */
module JobQueueBudget {
  import opened Common
  import opened Counters
  import opened JobQueue
  import opened JobQueueRuns

  /** How many times a job may be tried: a first try happens whatever the option says. */
  function Budget(c: Config): nat {
    Max(1, c.maxAttempts)
  }

  /** A claim that wins with a copy whose number of attempts is not the row's. */
  ghost predicate StaleClaim(s: System, a: Action) {
    && a.Claim? && a.p in s.passes && s.passes[a.p].Reserved? && s.passes[a.p].cands != [] && Wins(s, a.p)
    && s.passes[a.p].cands[0].attempts != s.rows[s.passes[a.p].cands[0].id].attempts
  }

  /** A run, with any number of passes, in which no claim is stale. */
  ghost predicate AccurateRun(c: Config, run: seq<System>, acts: seq<Action>) {
    IsRun(c, run, acts) && forall i :: 0 <= i < |acts| ==> !StaleClaim(run[i], acts[i])
  }

  // ---- Copies and rows ----

  /** Workers hold the row's own number of attempts. */
  ghost predicate HeldCopies(s: System) {
    forall k :: k in s.holds ==> s.holds[k].job.id in s.rows && s.holds[k].job.attempts == s.rows[s.holds[k].job.id].attempts
  }

  /** A scanned copy is never ahead of its row. */
  ghost predicate OldPass(rows: map<JobId, Row>, q: Pass) {
    !q.Snapshotted? ==> forall i :: 0 <= i < |q.cands| ==> q.cands[i].id in rows && q.cands[i].attempts <= rows[q.cands[i].id].attempts
  }

  ghost predicate OldCopies(s: System) {
    forall p :: p in s.passes ==> OldPass(s.rows, s.passes[p])
  }

  lemma OldPassLater(rows: map<JobId, Row>, rows': map<JobId, Row>, q: Pass)
    requires OldPass(rows, q) && forall id :: id in rows ==> id in rows' && rows[id].attempts <= rows'[id].attempts
    ensures OldPass(rows', q)
  {
  }

  /** Attempts are only ever counted up, as long as workers hold the row's own number. */
  lemma AttemptsGrow(c: Config, s: System, a: Action)
    requires HeldCopies(s) && Enabled(c, s, a)
    ensures forall id :: id in s.rows ==> id in Apply(c, s, a).rows && s.rows[id].attempts <= Apply(c, s, a).rows[id].attempts
  {
    if !a.Enqueue? && !a.Claim? && !a.Record? && !a.Crash? {
      OthersKeepHolders(c, s, a);
    }
  }

  lemma StepKeepsOldCopies(c: Config, s: System, a: Action)
    requires HeldCopies(s) && OldCopies(s) && Enabled(c, s, a)
    ensures OldCopies(Apply(c, s, a))
  {
    AttemptsGrow(c, s, a);
    var s' := Apply(c, s, a);
    forall p | p in s'.passes ensures OldPass(s'.rows, s'.passes[p]) {
      if p in s.passes && s'.passes[p] == s.passes[p] {
        OldPassLater(s.rows, s'.rows, s.passes[p]);
      } else {
        ChangedPassIsOld(c, s, a, p);
      }
    }
  }

  /** A pass that a step changes keeps its candidates, drops the first, or has just scanned. */
  lemma ChangedPassIsOld(c: Config, s: System, a: Action, p: PassId)
    requires HeldCopies(s) && OldCopies(s) && Enabled(c, s, a) && p in Apply(c, s, a).passes
    requires p !in s.passes || Apply(c, s, a).passes[p] != s.passes[p]
    ensures OldPass(Apply(c, s, a).rows, Apply(c, s, a).passes[p])
  {
    var s' := Apply(c, s, a);
    if a.Select? {
      ScanIsOld(c, s, a);
    } else if p in s.passes {
      assert OldPass(s.rows, s.passes[p]);
      AttemptsGrow(c, s, a);
      OldPassLater(s.rows, s'.rows, s.passes[p]);
      ChangedPassKeepsCands(c, s, a, p);
    }
  }

  lemma ScanIsOld(c: Config, s: System, a: Action)
    requires a.Select? && Enabled(c, s, a)
    ensures OldPass(Apply(c, s, a).rows, Apply(c, s, a).passes[a.p])
  {
  }

  lemma ChangedPassKeepsCands(c: Config, s: System, a: Action, p: PassId)
    requires Enabled(c, s, a) && !a.Select? && p in s.passes && p in Apply(c, s, a).passes && Apply(c, s, a).passes[p] != s.passes[p]
    ensures var q, q' := s.passes[p], Apply(c, s, a).passes[p];
      && !q.Snapshotted? && !q'.Snapshotted? && q.cands != [] && (q'.cands == q.cands || q'.cands == q.cands[1..])
  {
  }

  lemma ClaimKeepsHeldCopies(c: Config, s: System, p: PassId, k: Ticket)
    requires HeldCopies(s) && Enabled(c, s, Claim(p, k)) && !StaleClaim(s, Claim(p, k))
    ensures HeldCopies(Apply(c, s, Claim(p, k)))
  {
  }

  lemma RecordKeepsHeldCopies(c: Config, s: System, k: Ticket, next: string)
    requires HeldCopies(s) && Exclusive(s) && Enabled(c, s, Record(k, next))
    ensures HeldCopies(Apply(c, s, Record(k, next)))
  {
    var s' := Apply(c, s, Record(k, next));
    RecordTouchesOne(c, s.rows, s.holds[k].job, s.holds[k].phase.ok, next);
    forall l | l in s'.holds
      ensures s'.holds[l].job.id in s'.rows && s'.holds[l].job.attempts == s'.rows[s'.holds[l].job.id].attempts
    {
      assert l in s.holds && s.holds[l].job.id != s.holds[k].job.id;
    }
  }

  lemma RecordTouchesOne(c: Config, rows: map<JobId, Row>, job: Job, ok: bool, next: string)
    ensures var rows' := RecordRow(c, rows, job, ok, next);
      rows'.Keys == rows.Keys && forall id :: id in rows && id != job.id ==> rows'[id] == rows[id]
  {
  }

  lemma StepKeepsHeldCopies(c: Config, s: System, a: Action)
    requires HeldCopies(s) && Exclusive(s) && Enabled(c, s, a) && !StaleClaim(s, a)
    ensures HeldCopies(Apply(c, s, a))
  {
    if a.Claim? {
      ClaimKeepsHeldCopies(c, s, a.p, a.ticket);
    } else if a.Record? {
      RecordKeepsHeldCopies(c, s, a.ticket, a.nextRun);
    } else if a.Enqueue? || a.Crash? {
      assert Apply(c, s, a).holds == if a.Crash? then map[] else s.holds;
    } else {
      OthersKeepHolders(c, s, a);
    }
  }

  // ---- Starts ----

  /** Starts so far are the attempts recorded, the crashes that interrupted one, and the one under
      way; and the attempts are within the budget. */
  ghost predicate StartsCounted(c: Config, s: System, id: JobId)
    requires id in s.rows
  {
    var r := s.rows[id];
    && (if r.state == Failed then r.attempts <= Budget(c) else r.attempts < Budget(c))
    && Get(s.starts, id) == r.attempts + Get(s.interrupted, id) + One(r.state == Done || Started(s, id))
  }

  ghost predicate HistoryOfRows(s: System) {
    s.starts.Keys <= s.rows.Keys && s.interrupted.Keys <= s.rows.Keys
  }

  ghost predicate Budgeted(c: Config, s: System) {
    (forall id :: id in s.rows ==> StartsCounted(c, s, id)) && HistoryOfRows(s)
  }

  lemma StartedByHolder(s: System, k: Ticket)
    requires Exclusive(s) && k in s.holds
    ensures Started(s, s.holds[k].job.id) <==> s.holds[k].phase != Claimed
  {
  }

  lemma StartedNeedsRunning(s: System, id: JobId)
    requires Exclusive(s) && Started(s, id)
    ensures id in s.rows && s.rows[id].state == Running
  {
  }

  lemma QuietStepKeepsCount(c: Config, s: System, s': System, id: JobId)
    requires id in s.rows && StartsCounted(c, s, id) && s'.holds == s.holds && s'.starts == s.starts && s'.interrupted == s.interrupted
    requires id in s'.rows && s'.rows[id] == s.rows[id]
    ensures StartsCounted(c, s', id)
  {
    assert Started(s', id) <==> Started(s, id);
  }

  /** Steps of the holder of another job. */
  lemma OtherHolderKeepsCount(c: Config, s: System, s': System, k: Ticket, id: JobId)
    requires id in s.rows && StartsCounted(c, s, id)
    requires k in s.holds ==> s.holds[k].job.id != id
    requires k in s'.holds ==> s'.holds[k].job.id != id
    requires s'.holds - {k} == s.holds - {k}
    requires Get(s'.starts, id) == Get(s.starts, id) && s'.interrupted == s.interrupted
    requires id in s'.rows && s'.rows[id] == s.rows[id]
    ensures StartsCounted(c, s', id)
  {
    assert forall l :: l in s.holds && l != k ==> l in s.holds - {k};
    assert forall l :: l in s'.holds && l != k ==> l in s'.holds - {k};
    if Started(s, id) {
      var l :| l in s.holds && s.holds[l].job.id == id && s.holds[l].phase != Claimed;
      assert l in s'.holds - {k} && s'.holds[l] == s.holds[l];
    }
    if Started(s', id) {
      var l :| l in s'.holds && s'.holds[l].job.id == id && s'.holds[l].phase != Claimed;
      assert l in s.holds - {k} && s'.holds[l] == s.holds[l];
    }
  }

  lemma ClaimKeepsCount(c: Config, s: System, p: PassId, k: Ticket, id: JobId)
    requires Exclusive(s) && Enabled(c, s, Claim(p, k)) && id in s.rows && StartsCounted(c, s, id) && Wins(s, p)
    ensures StartsCounted(c, Apply(c, s, Claim(p, k)), id)
  {
    var s' := Apply(c, s, Claim(p, k));
    if s.passes[p].cands[0].id == id {
      if Started(s, id) {
        StartedNeedsRunning(s, id);
      }
    } else {
      OtherHolderKeepsCount(c, s, s', k, id);
    }
  }

  lemma InvokeKeepsCount(c: Config, s: System, k: Ticket, id: JobId)
    requires Exclusive(s) && Enabled(c, s, Invoke(k)) && id in s.rows && StartsCounted(c, s, id)
    ensures StartsCounted(c, Apply(c, s, Invoke(k)), id)
  {
    var s' := Apply(c, s, Invoke(k));
    if s.holds[k].job.id == id {
      StartedByHolder(s, k);
      assert s'.holds[k].phase != Claimed;
      assert Started(s', id);
    } else {
      OtherHolderKeepsCount(c, s, s', k, id);
    }
  }

  lemma ReturnOrReleaseKeepsCount(c: Config, s: System, a: Action, id: JobId)
    requires Exclusive(s) && Enabled(c, s, a) && (a.Return? || a.Release?) && id in s.rows && StartsCounted(c, s, id)
    ensures StartsCounted(c, Apply(c, s, a), id)
  {
    var s' := Apply(c, s, a);
    var k := a.ticket;
    if s.holds[k].job.id == id {
      assert s'.holds[k].phase != Claimed;
      assert Started(s', id);
    } else {
      OtherHolderKeepsCount(c, s, s', k, id);
    }
  }

  lemma RecordKeepsCount(c: Config, s: System, k: Ticket, next: string, id: JobId)
    requires Exclusive(s) && HeldCopies(s) && Enabled(c, s, Record(k, next)) && id in s.rows && StartsCounted(c, s, id)
    ensures StartsCounted(c, Apply(c, s, Record(k, next)), id)
  {
    var s' := Apply(c, s, Record(k, next));
    if s.holds[k].job.id == id {
      StartedByHolder(s, k);
      RecordedIsNotHeld(s, s', k);
    } else {
      OtherHolderKeepsCount(c, s, s', k, id);
    }
  }

  lemma RecordedIsNotHeld(s: System, s': System, k: Ticket)
    requires Exclusive(s) && k in s.holds && s'.holds == s.holds - {k}
    ensures !Started(s', s.holds[k].job.id)
  {
  }

  /** A crash that interrupts a started handler is paid for by `interrupted`. */
  lemma CrashKeepsCount(c: Config, s: System, id: JobId)
    requires id in s.rows && StartsCounted(c, s, id)
    requires Started(s, id) ==> s.rows[id].state == Running
    ensures StartsCounted(c, Apply(c, s, Crash), id)
  {
  }

  lemma EnqueueKeepsBudget(c: Config, s: System, a: Action)
    requires Inv(c, s) && Budgeted(c, s) && a.Enqueue? && Enabled(c, s, a)
    ensures Budgeted(c, Apply(c, s, a))
  {
    var s' := Apply(c, s, a);
    forall id | id in s'.rows ensures StartsCounted(c, s', id) {
      if id in s.rows {
        QuietStepKeepsCount(c, s, s', id);
      }
    }
  }

  lemma StepKeepsCount(c: Config, s: System, a: Action, id: JobId)
    requires Exclusive(s) && HeldCopies(s) && Enabled(c, s, a) && !a.Enqueue?
    requires id in s.rows && StartsCounted(c, s, id)
    ensures id in Apply(c, s, a).rows && StartsCounted(c, Apply(c, s, a), id)
  {
    if a.Claim? && Wins(s, a.p) {
      ClaimKeepsCount(c, s, a.p, a.ticket, id);
    } else if a.Invoke? {
      InvokeKeepsCount(c, s, a.ticket, id);
    } else if a.Return? || a.Release? {
      ReturnOrReleaseKeepsCount(c, s, a, id);
    } else if a.Record? {
      RecordKeepsCount(c, s, a.ticket, a.nextRun, id);
    } else if a.Crash? {
      if Started(s, id) {
        StartedNeedsRunning(s, id);
      }
      CrashKeepsCount(c, s, id);
    } else {
      QuietStepKeepsCount(c, s, Apply(c, s, a), id);
    }
  }

  lemma StepKeepsHistory(c: Config, s: System, a: Action)
    requires HistoryOfRows(s) && Enabled(c, s, a)
    requires a.Invoke? ==> s.holds[a.ticket].job.id in s.rows
    ensures HistoryOfRows(Apply(c, s, a))
    ensures !a.Enqueue? ==> Apply(c, s, a).rows.Keys == s.rows.Keys
  {
  }

  lemma StepKeepsBudget(c: Config, s: System, a: Action)
    requires Inv(c, s) && HeldCopies(s) && Budgeted(c, s) && Enabled(c, s, a)
    ensures Budgeted(c, Apply(c, s, a))
  {
    StepKeepsHistory(c, s, a);
    if a.Enqueue? {
      EnqueueKeepsBudget(c, s, a);
    } else {
      forall id | id in Apply(c, s, a).rows ensures StartsCounted(c, Apply(c, s, a), id) {
        StepKeepsCount(c, s, a, id);
      }
    }
  }

  // ---- The budget holds as long as no claim is stale ----

  ghost predicate BudgetInv(c: Config, s: System) {
    Inv(c, s) && HeldCopies(s) && OldCopies(s) && Budgeted(c, s)
  }

  lemma StepKeepsBudgetInv(c: Config, s: System, a: Action)
    requires BudgetInv(c, s) && Enabled(c, s, a) && !StaleClaim(s, a)
    ensures BudgetInv(c, Apply(c, s, a))
  {
    StepKeepsInv(c, s, a);
    StepKeepsHeldCopies(c, s, a);
    StepKeepsOldCopies(c, s, a);
    StepKeepsBudget(c, s, a);
  }

  lemma {:induction false} AccurateRunKeepsBudget(c: Config, run: seq<System>, acts: seq<Action>, n: nat)
    requires AccurateRun(c, run, acts) && n < |run|
    ensures BudgetInv(c, run[n])
  {
    if n == 0 {
      NothingHeld(c, INITIAL);
    } else {
      AccurateRunKeepsBudget(c, run, acts, n - 1);
      PointKeepsBudget(c, run, acts, n - 1);
    }
  }

  lemma PointKeepsBudget(c: Config, run: seq<System>, acts: seq<Action>, n: nat)
    requires IsRun(c, run, acts) && n < |acts| && BudgetInv(c, run[n]) && !StaleClaim(run[n], acts[n])
    ensures BudgetInv(c, run[n + 1])
  {
    StepKeepsBudgetInv(c, run[n], acts[n]);
  }

  /** Any number of passes, no stale claim: a pending job has tries left, and its handler is started
      at most as often as the budget allows, plus once for each crash that interrupted it. */
  lemma AttemptBudgetHolds(c: Config, run: seq<System>, acts: seq<Action>, n: nat, id: JobId)
    requires AccurateRun(c, run, acts) && n < |run| && id in run[n].rows
    ensures run[n].rows[id].state == Pending ==> run[n].rows[id].attempts < Budget(c)
    ensures run[n].rows[id].state == Failed ==> run[n].rows[id].attempts <= Budget(c)
    ensures Get(run[n].starts, id) <= Budget(c) + Get(run[n].interrupted, id)
  {
    AccurateRunKeepsBudget(c, run, acts, n);
    assert StartsCounted(c, run[n], id);
    if Started(run[n], id) {
      StartedNeedsRunning(run[n], id);
    }
  }

  lemma {:induction false} NoCrashNoInterruption(c: Config, run: seq<System>, acts: seq<Action>, n: nat)
    requires IsRun(c, run, acts) && n < |run| && forall i :: 0 <= i < n ==> !acts[i].Crash?
    ensures run[n].interrupted == map[]
  {
    if n > 0 {
      NoCrashNoInterruption(c, run, acts, n - 1);
    }
  }

  function TriesLeft(c: Config, s: System, id: JobId): int {
    Budget(c) - Get(s.starts, id)
  }

  /** Without crashes, the tries left of a job never grow, never fall below zero, and every start
      of its handler uses one up: retrying ends. */
  lemma CrashFreeTriesDecrease(c: Config, run: seq<System>, acts: seq<Action>, n: nat, id: JobId)
    requires AccurateRun(c, run, acts) && n < |acts| && id in run[n].rows
    requires forall i :: 0 <= i < |acts| ==> !acts[i].Crash?
    ensures 0 <= TriesLeft(c, run[n + 1], id) <= TriesLeft(c, run[n], id)
    ensures acts[n].Invoke? && run[n].holds[acts[n].ticket].job.id == id ==> TriesLeft(c, run[n + 1], id) == TriesLeft(c, run[n], id) - 1
  {
    NoCrashNoInterruption(c, run, acts, n + 1);
    StepExtendsRows(c, run[n], acts[n]);
    AttemptBudgetHolds(c, run, acts, n + 1, id);
  }

  /** With a single attempt there is nothing to be stale: every run is accurate. */
  lemma SingleAttemptIsAccurate(c: Config, run: seq<System>, acts: seq<Action>)
    requires IsRun(c, run, acts) && c.maxAttempts <= 1
    ensures AccurateRun(c, run, acts)
  {
    forall i | 0 <= i < |acts| ensures !StaleClaim(run[i], acts[i]) {
      SingleAttemptKeepsBudget(c, run, acts, i);
      PointNotStale(c, run, acts, i);
    }
  }

  lemma {:induction false} SingleAttemptKeepsBudget(c: Config, run: seq<System>, acts: seq<Action>, n: nat)
    requires IsRun(c, run, acts) && n < |run| && c.maxAttempts <= 1
    ensures BudgetInv(c, run[n])
  {
    if n == 0 {
      NothingHeld(c, INITIAL);
    } else {
      SingleAttemptKeepsBudget(c, run, acts, n - 1);
      PointNotStale(c, run, acts, n - 1);
      PointKeepsBudget(c, run, acts, n - 1);
    }
  }

  lemma PointNotStale(c: Config, run: seq<System>, acts: seq<Action>, n: nat)
    requires IsRun(c, run, acts) && n < |acts| && c.maxAttempts <= 1 && BudgetInv(c, run[n])
    ensures !StaleClaim(run[n], acts[n])
  {
    FirstTryIsNotStale(c, run[n], acts[n]);
  }

  lemma FirstTryIsNotStale(c: Config, s: System, a: Action)
    requires BudgetInv(c, s) && c.maxAttempts <= 1 && Enabled(c, s, a)
    ensures !StaleClaim(s, a)
  {
    if a.Claim? && Wins(s, a.p) {
      assert OldPass(s.rows, s.passes[a.p]) && StartsCounted(c, s, s.passes[a.p].cands[0].id);
    }
  }

  // ---- Passes that scan different jobs are never stale ----

  /** The copy in a pass's hands still says what the table says. */
  ghost predicate Current(rows: map<JobId, Row>, q: Pass) {
    && !q.LostClaim?
    && (!q.Snapshotted? ==>
          && (forall i :: 0 <= i < |q.cands| ==> q.cands[i].id in rows && rows[q.cands[i].id].state == Pending && q.cands[i] == CopyOf(rows, q.cands[i].id))
          && (forall i, j :: 0 <= i < j < |q.cands| ==> q.cands[i].id != q.cands[j].id))
  }

  ghost predicate FreshPasses(rows: map<JobId, Row>, passes: map<PassId, Pass>) {
    forall p :: p in passes ==> Current(rows, passes[p])
  }

  ghost predicate FreshHolds(rows: map<JobId, Row>, holds: map<Ticket, Hold>) {
    forall k :: k in holds ==> holds[k].job.id in rows && holds[k].job == CopyOf(rows, holds[k].job.id)
  }

  ghost predicate FreshCopies(s: System) {
    FreshPasses(s.rows, s.passes) && FreshHolds(s.rows, s.holds)
  }

  lemma CurrentAfter(rows: map<JobId, Row>, rows': map<JobId, Row>, q: Pass)
    requires Current(rows, q)
    requires forall id :: id in rows && rows[id].state == Pending ==> id in rows' && rows'[id] == rows[id]
    ensures Current(rows', q)
  {
  }

  /** Another pass has the job that `p` is about to claim among its candidates. */
  ghost predicate SharesCandidate(s: System, p: PassId)
    requires p in s.passes && s.passes[p].Reserved? && s.passes[p].cands != []
  {
    exists q, i :: q in s.passes && q != p && !s.passes[q].Snapshotted? && 0 <= i < |s.passes[q].cands|
      && s.passes[q].cands[i].id == s.passes[p].cands[0].id
  }

  /** While all copies are current a claim succeeds. It leaves them current exactly when no other pass
      has scanned the same job. */
  lemma ClaimKeepsCopiesExactly(c: Config, s: System, p: PassId, k: Ticket)
    requires FreshCopies(s) && Exclusive(s) && Enabled(c, s, Claim(p, k))
    ensures Wins(s, p) && (FreshCopies(Apply(c, s, Claim(p, k))) <==> !SharesCandidate(s, p))
  {
    var q := s.passes[p];
    assert Current(s.rows, q);
    ClaimedHoldsFresh(s.rows, s.holds, k, q.cands[0]);
    ClaimedPassesExactly(s, p);
  }

  lemma ClaimedHoldsFresh(rows: map<JobId, Row>, holds: map<Ticket, Hold>, k: Ticket, j: Job)
    requires FreshHolds(rows, holds) && j.id in rows && rows[j.id].state == Pending && j == CopyOf(rows, j.id)
    ensures FreshHolds(ClaimRow(rows, j.id), holds[k := Hold(j, Claimed)])
  {
  }

  lemma ClaimedPassesExactly(s: System, p: PassId)
    requires FreshPasses(s.rows, s.passes) && p in s.passes && s.passes[p].Reserved? && s.passes[p].cands != []
    ensures var q := s.passes[p];
      FreshPasses(ClaimRow(s.rows, q.cands[0].id), s.passes[p := Scanning(q.slots - 1, q.kinds, q.cands[1..])]) <==> !SharesCandidate(s, p)
  {
    var q := s.passes[p];
    var rows', passes' := ClaimRow(s.rows, q.cands[0].id), s.passes[p := Scanning(q.slots - 1, q.kinds, q.cands[1..])];
    assert Current(s.rows, q);
    assert Current(rows', passes'[p]);
    if SharesCandidate(s, p) {
      var r, i :| r in s.passes && r != p && !s.passes[r].Snapshotted? && 0 <= i < |s.passes[r].cands|
        && s.passes[r].cands[i].id == q.cands[0].id;
      assert passes'[r].cands[i].id == q.cands[0].id && !Current(rows', passes'[r]);
    } else {
      forall r | r in passes' && r != p ensures Current(rows', passes'[r]) {
        OtherCopiesStay(s, p, r);
      }
    }
  }

  lemma OtherCopiesStay(s: System, p: PassId, q: PassId)
    requires FreshPasses(s.rows, s.passes) && p in s.passes && s.passes[p].Reserved? && s.passes[p].cands != [] && !SharesCandidate(s, p)
    requires q in s.passes && q != p
    ensures Current(ClaimRow(s.rows, s.passes[p].cands[0].id), s.passes[q])
  {
    assert Current(s.rows, s.passes[q]);
  }

  lemma RecordKeepsCopies(c: Config, s: System, k: Ticket, next: string)
    requires FreshCopies(s) && Exclusive(s) && Enabled(c, s, Record(k, next))
    ensures FreshCopies(Apply(c, s, Record(k, next)))
  {
    var s' := Apply(c, s, Record(k, next));
    assert s.rows[s.holds[k].job.id].state == Running;
    PassesAfter(s.rows, s'.rows, s.passes);
    OtherHoldsStay(c, s, k, s.holds[k].phase.ok, next);
  }

  lemma PassesAfter(rows: map<JobId, Row>, rows': map<JobId, Row>, passes: map<PassId, Pass>)
    requires FreshPasses(rows, passes)
    requires forall id :: id in rows && rows[id].state == Pending ==> id in rows' && rows'[id] == rows[id]
    ensures FreshPasses(rows', passes)
  {
    forall p | p in passes ensures Current(rows', passes[p]) {
      CurrentAfter(rows, rows', passes[p]);
    }
  }

  lemma OtherHoldsStay(c: Config, s: System, k: Ticket, ok: bool, next: string)
    requires Exclusive(s) && FreshHolds(s.rows, s.holds) && k in s.holds
    ensures FreshHolds(RecordRow(c, s.rows, s.holds[k].job, ok, next), s.holds - {k})
  {
  }

  lemma EnqueueKeepsCopies(c: Config, s: System, a: Action)
    requires FreshCopies(s) && Enabled(c, s, a) && a.Enqueue?
    ensures FreshCopies(Apply(c, s, a))
  {
    PassesAfter(s.rows, Apply(c, s, a).rows, s.passes);
  }

  lemma PassStepKeepsCopies(c: Config, s: System, a: Action)
    requires FreshCopies(s) && Enabled(c, s, a)
    requires a.Register? || a.Begin? || a.Select? || a.Skip? || a.Reserve? || a.Unreserve? || a.Finish?
    ensures FreshCopies(Apply(c, s, a))
  {
    var s' := Apply(c, s, a);
    forall p | p in s'.passes ensures Current(s'.rows, s'.passes[p]) {
      assert p in s.passes ==> Current(s.rows, s.passes[p]);
    }
  }

  lemma WorkerKeepsCopies(c: Config, s: System, a: Action)
    requires FreshCopies(s) && Enabled(c, s, a) && (a.Crash? || a.Invoke? || a.Return? || a.Release?)
    ensures FreshCopies(Apply(c, s, a))
  {
  }

  /** Exactly which step lets a copy of a job go stale, and with it the number of attempts that the
      copy carries: a claim of a job that another pass has scanned too. */
  lemma StepKeepsCopiesExactly(c: Config, s: System, a: Action)
    requires Exclusive(s) && FreshCopies(s) && Enabled(c, s, a)
    ensures FreshCopies(Apply(c, s, a)) <==> !(a.Claim? && SharesCandidate(s, a.p))
  {
    if a.Claim? {
      ClaimKeepsCopiesExactly(c, s, a.p, a.ticket);
    } else if a.Record? {
      RecordKeepsCopies(c, s, a.ticket, a.nextRun);
    } else if a.Enqueue? {
      EnqueueKeepsCopies(c, s, a);
    } else if a.Crash? || a.Invoke? || a.Return? || a.Release? {
      WorkerKeepsCopies(c, s, a);
    } else {
      PassStepKeepsCopies(c, s, a);
    }
  }

  /** No pass claims a job that another pass has scanned too. */
  ghost predicate UnsharedRun(c: Config, run: seq<System>, acts: seq<Action>) {
    IsRun(c, run, acts) && forall i :: 0 <= i < |acts| && acts[i].Claim? ==> !SharesCandidate(run[i], acts[i].p)
  }

  /** In such a run every copy stays current, so no claim is ever lost, and none is stale. */
  lemma {:induction false} UnsharedRunKeepsCopies(c: Config, run: seq<System>, acts: seq<Action>, n: nat)
    requires UnsharedRun(c, run, acts) && n < |run|
    ensures FreshCopies(run[n])
    ensures n < |acts| && acts[n].Claim? ==> Wins(run[n], acts[n].p) && !StaleClaim(run[n], acts[n])
  {
    if n > 0 {
      UnsharedRunKeepsCopies(c, run, acts, n - 1);
      PointKeepsCopies(c, run, acts, n - 1);
    }
    if n < |acts| && acts[n].Claim? {
      PointClaims(c, run, acts, n);
    }
  }

  lemma PointKeepsCopies(c: Config, run: seq<System>, acts: seq<Action>, n: nat)
    requires UnsharedRun(c, run, acts) && n < |acts| && FreshCopies(run[n])
    ensures FreshCopies(run[n + 1])
  {
    RunKeepsInv(c, run, acts, n);
    StepKeepsCopiesExactly(c, run[n], acts[n]);
  }

  lemma PointClaims(c: Config, run: seq<System>, acts: seq<Action>, n: nat)
    requires UnsharedRun(c, run, acts) && n < |acts| && FreshCopies(run[n]) && acts[n].Claim?
    ensures Wins(run[n], acts[n].p) && !StaleClaim(run[n], acts[n])
  {
    assert Current(run[n].rows, run[n].passes[acts[n].p]);
  }

  lemma UnsharedRunIsAccurate(c: Config, run: seq<System>, acts: seq<Action>)
    requires UnsharedRun(c, run, acts)
    ensures AccurateRun(c, run, acts)
  {
    forall i | 0 <= i < |acts| ensures !StaleClaim(run[i], acts[i]) {
      UnsharedRunKeepsCopies(c, run, acts, i);
    }
  }

  /** One pass at a time shares its candidates with nobody. */
  lemma SerialRunIsUnshared(c: Config, run: seq<System>, acts: seq<Action>)
    requires IsRun(c, run, acts) && forall i :: 0 <= i < |run| ==> |run[i].passes| <= 1
    ensures UnsharedRun(c, run, acts)
  {
    forall i | 0 <= i < |acts| && acts[i].Claim? ensures !SharesCandidate(run[i], acts[i].p) {
      forall q | q in run[i].passes ensures q == acts[i].p {
        SubsetSize({q, acts[i].p}, run[i].passes.Keys);
      }
    }
  }

  // ---- After a stale claim the budget can be exceeded ----

  /** Nothing is going on, and the job waits for try number `a + 1`, due first of all. */
  ghost predicate Idle(s: System, id: JobId, a: nat) {
    && s.holds == map[] && s.passes == map[] && s.mutex.None? && s.inflight == map[]
    && id in s.rows && s.rows[id].state == Pending && s.rows[id].attempts == a && s.rows[id].runAfter == ""
  }

  /** A pass scans the table and finds the job first. */
  lemma ScanFirst(c: Config, run: seq<System>, acts: seq<Action>, id: JobId, a: nat) returns (run': seq<System>, acts': seq<Action>)
    requires IsRun(c, run, acts) && Idle(run[|acts|], id, a) && c.globalCap >= 1
    ensures IsRun(c, run', acts') && acts <= acts'
    ensures var s, s' := run[|acts|], run'[|acts'|]; var kind := s.rows[id].kind;
      && 0 in s'.passes && s'.passes[0].Scanning? && s'.passes[0].slots == c.globalCap && kind in s'.passes[0].kinds
      && s'.passes[0].cands != [] && s'.passes[0].cands[0] == CopyOf(s.rows, id)
      && s' == s.(handlers := s.handlers + {kind}, passes := s'.passes)
  {
    var s := run[|acts|];
    var kinds := s.handlers + {s.rows[id].kind};
    var s1 := s.(handlers := kinds);
    run', acts' := Then(c, run, acts, Register(s.rows[id].kind), s1);
    var s2 := s1.(passes := s1.passes[0 := Snapshotted(c.globalCap, kinds)]);
    run', acts' := Then(c, run', acts', Begin(0), s2);
    var found := SelectionWith(s.rows, id);
    run', acts' := Then(c, run', acts', Select(0, "", found), s2.(passes := s2.passes[0 := Scanning(c.globalCap, kinds, found)]));
  }

  /** One more failed try: scan, claim, run, fail, and a crash that clears what is left. */
  lemma FailOnceMore(c: Config, run: seq<System>, acts: seq<Action>, id: JobId, a: nat) returns (run': seq<System>, acts': seq<Action>)
    requires IsRun(c, run, acts) && Idle(run[|acts|], id, a) && c.globalCap >= 1 && c.perTenantCap >= 1 && a < c.maxAttempts
    ensures IsRun(c, run', acts') && acts <= acts'
    ensures Get(run'[|acts'|].starts, id) == Get(run[|acts|].starts, id) + 1
    ensures Get(run'[|acts'|].interrupted, id) == Get(run[|acts|].interrupted, id)
    ensures a + 1 < c.maxAttempts ==> Idle(run'[|acts'|], id, a + 1)
  {
    run', acts' := ScanFirst(c, run, acts, id, a);
    run', acts' := ReserveAndClaim(c, run', acts', 0, 0);
    run', acts' := RunOnce(c, run', acts', 0, false, "");
    var s := run'[|acts'|];
    assert s.holds == map[];
    run', acts' := Then(c, run', acts', Crash, Apply(c, s, Crash));
  }

  lemma {:induction false} FailToTheEnd(c: Config, run: seq<System>, acts: seq<Action>, id: JobId, a: nat) returns (run': seq<System>, acts': seq<Action>)
    requires IsRun(c, run, acts) && Idle(run[|acts|], id, a) && c.globalCap >= 1 && c.perTenantCap >= 1 && a < c.maxAttempts
    ensures IsRun(c, run', acts') && acts <= acts'
    ensures Get(run'[|acts'|].starts, id) == Get(run[|acts|].starts, id) + c.maxAttempts - a
    ensures Get(run'[|acts'|].interrupted, id) == Get(run[|acts|].interrupted, id)
    decreases c.maxAttempts - a
  {
    run', acts' := FailOnceMore(c, run, acts, id, a);
    if a + 1 < c.maxAttempts {
      run', acts' := FailToTheEnd(c, run', acts', id, a + 1);
    }
  }

  lemma {:induction false} PassesNeedACap(c: Config, run: seq<System>, acts: seq<Action>, n: nat)
    requires IsRun(c, run, acts) && n < |run| && run[n].passes != map[]
    ensures c.globalCap >= 1
  {
    assert n > 0;
    if run[n - 1].passes != map[] {
      PassesNeedACap(c, run, acts, n - 1);
    } else {
      BeginNeedsACap(c, run[n - 1], acts[n - 1]);
    }
  }

  lemma BeginNeedsACap(c: Config, s: System, a: Action)
    requires Enabled(c, s, a) && s.passes == map[] && Apply(c, s, a).passes != map[]
    ensures c.globalCap >= 1
  {
  }

  /** If a worker is about to write an outcome, it does, and the job of ticket `k` is not affected. */
  lemma FreeMutex(c: Config, run: seq<System>, acts: seq<Action>, k: Ticket) returns (run': seq<System>, acts': seq<Action>)
    requires IsRun(c, run, acts) && k in run[|acts|].holds && run[|acts|].holds[k].phase == Claimed
    ensures IsRun(c, run', acts') && acts <= acts'
    ensures var s, s' := run[|acts|], run'[|acts'|]; var id := s.holds[k].job.id;
      && s'.mutex.None? && k in s'.holds && s'.holds[k] == s.holds[k]
      && id in s.rows && id in s'.rows && s'.rows[id] == s.rows[id]
      && s'.starts == s.starts && s'.interrupted == s.interrupted
  {
    var s := run[|acts|];
    RunKeepsInv(c, run, acts, |acts|);
    run', acts' := run, acts;
    if s.mutex.Some? {
      var m := s.mutex.value;
      assert m != k && s.holds[m].job.id != s.holds[k].job.id;
      run', acts' := Then(c, run, acts, Record(m, ""), Apply(c, s, Record(m, "")));
    }
  }

  /** The worker of ticket `k` fails with its copy, and a crash clears what is left. */
  lemma FailWithCopy(c: Config, run: seq<System>, acts: seq<Action>, k: Ticket, job: Job) returns (run': seq<System>, acts': seq<Action>)
    requires IsRun(c, run, acts) && k in run[|acts|].holds && run[|acts|].holds[k] == Hold(job, Claimed) && run[|acts|].mutex.None?
    requires job.attempts + 1 < c.maxAttempts && job.id in run[|acts|].rows
    ensures IsRun(c, run', acts') && acts <= acts' && Idle(run'[|acts'|], job.id, job.attempts + 1)
    ensures Get(run'[|acts'|].starts, job.id) == Get(run[|acts|].starts, job.id) + 1
    ensures Get(run'[|acts'|].interrupted, job.id) == Get(run[|acts|].interrupted, job.id)
  {
    run', acts' := RunOnce(c, run, acts, k, false, "");
    var s := run'[|acts'|];
    RunKeepsInv(c, run', acts', |acts'|);
    if Started(s, job.id) {
      StartedNeedsRunning(s, job.id);
    }
    run', acts' := Then(c, run', acts', Crash, Apply(c, s, Crash));
  }

  /** What holds at a stale claim that is the first of its run. */
  lemma StaleCopyIsBehind(c: Config, s: System, a: Action)
    requires BudgetInv(c, s) && Enabled(c, s, a) && StaleClaim(s, a)
    ensures var job := s.passes[a.p].cands[0];
      && job.id in s.rows && job.attempts < s.rows[job.id].attempts < Budget(c) && c.maxAttempts == Budget(c) && c.perTenantCap >= 1
      && Get(s.starts, job.id) == s.rows[job.id].attempts + Get(s.interrupted, job.id)
  {
    var job := s.passes[a.p].cands[0];
    assert OldPass(s.rows, s.passes[a.p]) && StartsCounted(c, s, job.id);
    if Started(s, job.id) {
      StartedNeedsRunning(s, job.id);
    }
    assert ReservedFor(job.tenant)(s.passes[a.p]);
    OwnSlotCounted(c, s, job.tenant);
  }

  /** The claim, and then the mutex free. */
  lemma ClaimWithCopy(c: Config, run: seq<System>, acts: seq<Action>, a: Action, job: Job) returns (run': seq<System>, acts': seq<Action>)
    requires IsRun(c, run, acts) && Enabled(c, run[|acts|], a) && StaleClaim(run[|acts|], a) && job == run[|acts|].passes[a.p].cands[0]
    ensures IsRun(c, run', acts') && acts + [a] <= acts'
    ensures var s, s' := run[|acts|], run'[|acts'|];
      && s'.mutex.None? && a.ticket in s'.holds && s'.holds[a.ticket] == Hold(job, Claimed) && job.id in s'.rows
      && s'.starts == s.starts && s'.interrupted == s.interrupted
  {
    var s := run[|acts|];
    run', acts' := Then(c, run, acts, a, Apply(c, s, a));
    run', acts' := FreeMutex(c, run', acts', a.ticket);
  }

  /** After a stale claim the run can go on so that the job's handler is started more often than the
      budget and the crashes that interrupted it allow. */
  lemma StaleClaimBreaksBudget(c: Config, run: seq<System>, acts: seq<Action>, a: Action) returns (run': seq<System>, acts': seq<Action>)
    requires AccurateRun(c, run, acts) && Enabled(c, run[|acts|], a) && StaleClaim(run[|acts|], a)
    ensures IsRun(c, run', acts') && acts + [a] <= acts'
    ensures var id := run[|acts|].passes[a.p].cands[0].id;
      Get(run'[|acts'|].starts, id) > Budget(c) + Get(run'[|acts'|].interrupted, id)
  {
    var s := run[|acts|];
    var job := s.passes[a.p].cands[0];
    AccurateRunKeepsBudget(c, run, acts, |acts|);
    StaleCopyIsBehind(c, s, a);
    PassesNeedACap(c, run, acts, |acts|);
    run', acts' := ClaimWithCopy(c, run, acts, a, job);
    run', acts' := FailWithCopy(c, run', acts', a.ticket, job);
    run', acts' := FailToTheEnd(c, run', acts', job.id, job.attempts + 1);
  }
}
