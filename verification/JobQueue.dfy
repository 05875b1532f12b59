/**
  The durable job queue of kernel/jobs/queue.go as a transition system.

  Each action is one step that other goroutines can fall between: a burst under the
  queue's mutex, one SQL statement, or the call into a handler. A lease pass is
  therefore never atomic. `JobQueueObject` holds the same steps as methods.
 */
module JobQueue {
  import opened Common
  import opened Counters
  import opened Text

  type JobId = string
  type Tenant = string
  type Kind = string
  type PassId = nat
  type Ticket = nat

  const LEASE_BATCH: nat := 100

  datatype Config = Config(maxAttempts: int, perTenantCap: int, globalCap: int)

  datatype JobState = Pending | Running | Done | Failed

  /** A row of the jobs table. Times are the text that the table stores. */
  datatype Row = Row(tenant: Tenant, kind: Kind, runAfter: string, attempts: nat, state: JobState)

  /** The in-memory copy of a row that a lease pass scans and hands to a worker. */
  datatype Job = Job(id: JobId, tenant: Tenant, kind: Kind, attempts: nat)

  /** A lease pass, at the points where other goroutines can interleave with it. */
  datatype Pass =
    | Snapshotted(slots: int, kinds: set<Kind>)
    | Scanning(slots: int, kinds: set<Kind>, cands: seq<Job>)
    | Reserved(slots: int, kinds: set<Kind>, cands: seq<Job>)   // slot taken, UPDATE to come
    | LostClaim(slots: int, kinds: set<Kind>, cands: seq<Job>)  // UPDATE hit no row, slot to be given back

  /** A claimed job on its way through a worker. `Settling` is the worker that holds the mutex:
      it has given its slot back and has yet to write the outcome. */
  datatype Phase = Claimed | Invoked | Returned(ok: bool) | Settling(ok: bool)

  datatype Hold = Hold(job: Job, phase: Phase)

  /** `starts` and `interrupted` are history: handler invocations of a job, and crashes that
      came between an invocation and the write of its outcome. */
  datatype System = System(
    rows: map<JobId, Row>,
    inflight: map<Tenant, nat>,
    handlers: set<Kind>,
    passes: map<PassId, Pass>,
    holds: map<Ticket, Hold>,
    mutex: Option<Ticket>,
    starts: map<JobId, nat>,
    interrupted: map<JobId, nat>)

  datatype Action =
    | Register(kind: Kind)
    | Enqueue(id: JobId, tenant: Tenant, enqueuedKind: Kind, runAfter: string)
    | Begin(p: PassId)
    | Select(p: PassId, now: string, found: seq<Job>)
    | Skip(p: PassId)
    | Reserve(p: PassId)
    | Claim(p: PassId, ticket: Ticket)
    | Unreserve(p: PassId)
    | Finish(p: PassId)
    | Invoke(ticket: Ticket)
    | Return(ticket: Ticket, ok: bool)
    | Release(ticket: Ticket)
    | Record(ticket: Ticket, nextRun: string)
    | Crash

  // ---- The single steps, shared with the methods of `JobQueueObject` ----

  function Enqueued(rows: map<JobId, Row>, id: JobId, tenant: Tenant, kind: Kind, runAfter: string): map<JobId, Row> {
    if tenant == "" || kind == "" || id in rows then rows
    else rows[id := Row(tenant, kind, runAfter, 0, Pending)]
  }

  /** UPDATE jobs SET state=running WHERE id=? AND state=pending. */
  function ClaimRow(rows: map<JobId, Row>, id: JobId): map<JobId, Row> {
    if id in rows && rows[id].state == Pending then rows[id := rows[id].(state := Running)] else rows
  }

  /** The unconditional UPDATE with which a worker records its outcome. */
  function RecordRow(c: Config, rows: map<JobId, Row>, job: Job, ok: bool, nextRun: string): map<JobId, Row> {
    if job.id !in rows then rows
    else if ok then rows[job.id := rows[job.id].(state := Done)]
    else if job.attempts + 1 >= c.maxAttempts then
      rows[job.id := rows[job.id].(state := Failed, attempts := job.attempts + 1)]
    else
      rows[job.id := rows[job.id].(state := Pending, attempts := job.attempts + 1, runAfter := nextRun)]
  }

  /** UPDATE jobs SET state=pending WHERE state=running, on start-up. */
  function Recovered(rows: map<JobId, Row>): map<JobId, Row> {
    map id | id in rows :: if rows[id].state == Running then rows[id].(state := Pending) else rows[id]
  }

  function CopyOf(rows: map<JobId, Row>, id: JobId): Job
    requires id in rows
  {
    Job(id, rows[id].tenant, rows[id].kind, rows[id].attempts)
  }

  predicate Due(row: Row, now: string) {
    row.state == Pending && LexLeq(row.runAfter, now)
  }

  /** What SELECT ... WHERE state=pending AND run_after<=now ORDER BY run_after LIMIT batch may answer. */
  ghost predicate IsSelection(rows: map<JobId, Row>, now: string, found: seq<Job>) {
    && |found| <= LEASE_BATCH
    && (forall i :: 0 <= i < |found| ==> found[i].id in rows && Due(rows[found[i].id], now) && found[i] == CopyOf(rows, found[i].id))
    && (forall i, j :: 0 <= i < j < |found| ==> found[i].id != found[j].id)
    && (forall i, j :: 0 <= i < j < |found| ==> LexLeq(rows[found[i].id].runAfter, rows[found[j].id].runAfter))
    && (forall id :: id in rows && Due(rows[id], now) && |found| < LEASE_BATCH ==> CopyOf(rows, id) in found)
    && (forall id, i :: id in rows && Due(rows[id], now) && CopyOf(rows, id) !in found && 0 <= i < |found| ==>
          LexLeq(rows[found[i].id].runAfter, rows[id].runAfter))
  }

  predicate TakesSlot(h: Hold) {
    !h.phase.Settling?
  }

  predicate Reserves(p: Pass) {
    (p.Reserved? || p.LostClaim?) && p.cands != []
  }

  ghost function SlotOf(t: Tenant): Hold -> bool {
    (h: Hold) => TakesSlot(h) && h.job.tenant == t
  }

  ghost function ReservedFor(t: Tenant): Pass -> bool {
    (p: Pass) => Reserves(p) && p.cands[0].tenant == t
  }

  ghost function AnySlot(): Hold -> bool {
    (h: Hold) => TakesSlot(h)
  }

  ghost function AnyReservation(): Pass -> bool {
    (p: Pass) => Reserves(p)
  }

  /** Slots of tenant `t` that some pass has reserved or some worker still holds. */
  ghost function SlotsOf(s: System, t: Tenant): nat {
    |Matching(s.holds, SlotOf(t))| + |Matching(s.passes, ReservedFor(t))|
  }

  /** Jobs that hold a slot, over all tenants. */
  ghost function HeldJobs(s: System): nat {
    |Matching(s.holds, AnySlot())|
  }

  ghost predicate Started(s: System, id: JobId) {
    exists k :: k in s.holds && s.holds[k].job.id == id && s.holds[k].phase != Claimed
  }

  // ---- The transition relation ----

  ghost predicate AtCandidate(s: System, p: PassId) {
    p in s.passes && s.passes[p].Scanning? && s.passes[p].slots > 0 && s.passes[p].cands != []
  }

  ghost predicate Enabled(c: Config, s: System, a: Action) {
    match a
    case Register(_) => s.mutex.None?
    case Enqueue(_, _, _, _) => s.mutex.None?
    case Begin(p) => s.mutex.None? && p !in s.passes && s.handlers != {} && c.globalCap - Sum(s.inflight) > 0
    case Select(p, now, found) => p in s.passes && s.passes[p].Snapshotted? && IsSelection(s.rows, now, found)
    case Skip(p) =>
      && AtCandidate(s, p)
      && var t := s.passes[p].cands[0];
         t.kind !in s.passes[p].kinds || (s.mutex.None? && Get(s.inflight, t.tenant) >= c.perTenantCap)
    case Reserve(p) =>
      && AtCandidate(s, p)
      && var t := s.passes[p].cands[0];
         t.kind in s.passes[p].kinds && s.mutex.None? && Get(s.inflight, t.tenant) < c.perTenantCap
    case Claim(p, k) => p in s.passes && s.passes[p].Reserved? && s.passes[p].cands != [] && k !in s.holds
    case Unreserve(p) => p in s.passes && s.passes[p].LostClaim? && s.passes[p].cands != [] && s.mutex.None?
    case Finish(p) => p in s.passes && s.passes[p].Scanning? && (s.passes[p].slots <= 0 || s.passes[p].cands == [])
    case Invoke(k) => k in s.holds && s.holds[k].phase == Claimed && s.mutex.None?
    case Return(k, ok) => k in s.holds && s.holds[k].phase == Invoked
    case Release(k) => k in s.holds && s.holds[k].phase.Returned? && s.mutex.None?
    case Record(k, nextRun) => k in s.holds && s.holds[k].phase.Settling? && s.mutex == Some(k)
    case Crash => true
  }

  ghost function Apply(c: Config, s: System, a: Action): System
    requires Enabled(c, s, a)
  {
    match a
    case Register(kind) => s.(handlers := s.handlers + {kind})
    case Enqueue(id, tenant, kind, runAfter) => s.(rows := Enqueued(s.rows, id, tenant, kind, runAfter))
    case Begin(p) =>
      s.(passes := s.passes[p := Snapshotted(c.globalCap - Sum(s.inflight), s.handlers)])
    case Select(p, now, found) =>
      var q := s.passes[p];
      s.(passes := s.passes[p := Scanning(q.slots, q.kinds, found)])
    case Skip(p) =>
      var q := s.passes[p];
      s.(passes := s.passes[p := Scanning(q.slots, q.kinds, q.cands[1..])])
    case Reserve(p) =>
      var q := s.passes[p];
      s.(inflight := Bump(s.inflight, q.cands[0].tenant),
         passes := s.passes[p := Reserved(q.slots, q.kinds, q.cands)])
    case Claim(p, k) =>
      var q := s.passes[p];
      if Wins(s, p) then
        s.(rows := ClaimRow(s.rows, q.cands[0].id),
           holds := s.holds[k := Hold(q.cands[0], Claimed)],
           passes := s.passes[p := Scanning(q.slots - 1, q.kinds, q.cands[1..])])
      else
        s.(passes := s.passes[p := LostClaim(q.slots, q.kinds, q.cands)])
    case Unreserve(p) =>
      var q := s.passes[p];
      s.(inflight := Drop(s.inflight, q.cands[0].tenant),
         passes := s.passes[p := Scanning(q.slots, q.kinds, q.cands[1..])])
    case Finish(p) => s.(passes := s.passes - {p})
    case Invoke(k) =>
      var h := s.holds[k];
      s.(holds := s.holds[k := h.(phase := Invoked)], starts := Bump(s.starts, h.job.id))
    case Return(k, ok) => s.(holds := s.holds[k := s.holds[k].(phase := Returned(ok))])
    case Release(k) =>
      var h := s.holds[k];
      s.(inflight := Drop(s.inflight, h.job.tenant),
         holds := s.holds[k := h.(phase := Settling(h.phase.ok))],
         mutex := Some(k))
    case Record(k, nextRun) =>
      var h := s.holds[k];
      s.(rows := RecordRow(c, s.rows, h.job, h.phase.ok, nextRun), holds := s.holds - {k}, mutex := None)
    case Crash =>
      System(Recovered(s.rows), map[], {}, map[], map[], None, s.starts,
             map id | id in s.rows :: Get(s.interrupted, id) + One(Started(s, id)))
  }

  /** An empty database and a process that has just started. */
  const INITIAL := System(map[], map[], {}, map[], map[], None, map[], map[])

  ghost predicate IsRun(c: Config, run: seq<System>, acts: seq<Action>) {
    && |run| == |acts| + 1
    && run[0] == INITIAL
    && forall i :: 0 <= i < |acts| ==> Enabled(c, run[i], acts[i]) && run[i + 1] == Apply(c, run[i], acts[i])
  }

  // ---- What every step keeps, for any number of concurrent passes ----

  ghost predicate Accounting(c: Config, s: System) {
    && (forall t :: Get(s.inflight, t) == SlotsOf(s, t))
    && (forall t :: Get(s.inflight, t) <= Max(0, c.perTenantCap))
    && Sum(s.inflight) == HeldJobs(s) + |Matching(s.passes, AnyReservation())|
  }

  ghost predicate Exclusive(s: System) {
    && (forall k :: k in s.holds ==>
          var j := s.holds[k].job;
          j.id in s.rows && s.rows[j.id].state == Running && s.rows[j.id].tenant == j.tenant && s.rows[j.id].kind == j.kind)
    && (forall k, l :: k in s.holds && l in s.holds && s.holds[k].job.id == s.holds[l].job.id ==> k == l)
    && (forall id :: id in s.rows && s.rows[id].state == Running ==> exists k :: k in s.holds && s.holds[k].job.id == id)
  }

  ghost predicate GoodHolds(s: System) {
    && (forall k :: k in s.holds ==> s.holds[k].job.kind in s.handlers)
    && (forall k :: k in s.holds && s.holds[k].phase.Settling? ==> s.mutex == Some(k))
    && (s.mutex.Some? ==> s.mutex.value in s.holds && s.holds[s.mutex.value].phase.Settling?)
  }

  ghost predicate WellFormed(s: System) {
    && (forall p :: p in s.passes ==> GoodPass(s.rows, s.handlers, s.passes[p]))
    && GoodHolds(s)
  }

  ghost predicate Inv(c: Config, s: System) {
    Accounting(c, s) && Exclusive(s) && WellFormed(s)
  }

  /** How one change to `passes` and one to `holds` move every count that `Accounting` compares. */
  lemma PassCounts(passes: map<PassId, Pass>, p: PassId, q: Pass)
    ensures forall t :: |Matching(passes[p := q], ReservedFor(t))|
                     == |Matching(passes, ReservedFor(t))| - One(p in passes && ReservedFor(t)(passes[p])) + One(ReservedFor(t)(q))
    ensures |Matching(passes[p := q], AnyReservation())|
         == |Matching(passes, AnyReservation())| - One(p in passes && Reserves(passes[p])) + One(Reserves(q))
  {
    forall t
      ensures |Matching(passes[p := q], ReservedFor(t))|
           == |Matching(passes, ReservedFor(t))| - One(p in passes && ReservedFor(t)(passes[p])) + One(ReservedFor(t)(q))
    {
      MatchingUpdate(passes, p, q, ReservedFor(t));
    }
    MatchingUpdate(passes, p, q, AnyReservation());
  }

  lemma HoldCounts(holds: map<Ticket, Hold>, k: Ticket, h: Hold)
    ensures forall t :: |Matching(holds[k := h], SlotOf(t))|
                     == |Matching(holds, SlotOf(t))| - One(k in holds && SlotOf(t)(holds[k])) + One(SlotOf(t)(h))
    ensures |Matching(holds[k := h], AnySlot())|
         == |Matching(holds, AnySlot())| - One(k in holds && TakesSlot(holds[k])) + One(TakesSlot(h))
  {
    forall t
      ensures |Matching(holds[k := h], SlotOf(t))|
           == |Matching(holds, SlotOf(t))| - One(k in holds && SlotOf(t)(holds[k])) + One(SlotOf(t)(h))
    {
      MatchingUpdate(holds, k, h, SlotOf(t));
    }
    MatchingUpdate(holds, k, h, AnySlot());
  }

  /** A reservation or a held slot is counted, so its decrement finds a positive count. */
  lemma OwnSlotCounted(c: Config, s: System, t: Tenant)
    requires Accounting(c, s)
    requires (exists k :: k in s.holds && SlotOf(t)(s.holds[k])) || (exists p :: p in s.passes && ReservedFor(t)(s.passes[p]))
    ensures Get(s.inflight, t) > 0
  {
    if k :| k in s.holds && SlotOf(t)(s.holds[k]) {
      assert k in Matching(s.holds, SlotOf(t));
    } else {
      var p :| p in s.passes && ReservedFor(t)(s.passes[p]);
      assert p in Matching(s.passes, ReservedFor(t));
    }
  }

  /** A step that leaves every reservation, every held slot and every counter as it was. */
  lemma SameSlots(c: Config, s: System, s': System)
    requires Accounting(c, s) && s'.inflight == s.inflight
    requires forall t :: Matching(s'.holds, SlotOf(t)) == Matching(s.holds, SlotOf(t))
    requires forall t :: Matching(s'.passes, ReservedFor(t)) == Matching(s.passes, ReservedFor(t))
    requires Matching(s'.holds, AnySlot()) == Matching(s.holds, AnySlot())
    requires Matching(s'.passes, AnyReservation()) == Matching(s.passes, AnyReservation())
    ensures Accounting(c, s')
  {
    forall t ensures Get(s'.inflight, t) == SlotsOf(s', t) {
      assert Get(s.inflight, t) == SlotsOf(s, t);
    }
  }

  lemma QuietPassStep(c: Config, s: System, p: PassId, q: Pass)
    requires Accounting(c, s) && !Reserves(q) && (p in s.passes ==> !Reserves(s.passes[p]))
    ensures Accounting(c, s.(passes := s.passes[p := q]))
  {
    var s' := s.(passes := s.passes[p := q]);
    forall t ensures Matching(s'.passes, ReservedFor(t)) == Matching(s.passes, ReservedFor(t)) {
    }
    assert Matching(s'.passes, AnyReservation()) == Matching(s.passes, AnyReservation());
    SameSlots(c, s, s');
  }

  lemma QuietHoldStep(c: Config, s: System, k: Ticket, h: Hold)
    requires Accounting(c, s) && k in s.holds && h.job == s.holds[k].job && TakesSlot(h) && TakesSlot(s.holds[k])
    ensures Accounting(c, s.(holds := s.holds[k := h]))
  {
    var s' := s.(holds := s.holds[k := h]);
    forall t ensures Matching(s'.holds, SlotOf(t)) == Matching(s.holds, SlotOf(t)) {
    }
    assert Matching(s'.holds, AnySlot()) == Matching(s.holds, AnySlot());
    SameSlots(c, s, s');
  }

  lemma ReserveKeepsAccounting(c: Config, s: System, p: PassId)
    requires Accounting(c, s) && Enabled(c, s, Reserve(p))
    ensures Accounting(c, Apply(c, s, Reserve(p)))
  {
    var s' := Apply(c, s, Reserve(p));
    var own := s.passes[p].cands[0].tenant;
    PassCounts(s.passes, p, s'.passes[p]);
    SumBump(s.inflight, own);
    forall t
      ensures Get(s'.inflight, t) == SlotsOf(s', t)
      ensures Get(s'.inflight, t) <= Max(0, c.perTenantCap)
    {
      assert Get(s.inflight, t) == SlotsOf(s, t);
    }
  }

  ghost predicate Wins(s: System, p: PassId)
    requires p in s.passes && s.passes[p].Reserved? && s.passes[p].cands != []
  {
    var id := s.passes[p].cands[0].id;
    id in s.rows && s.rows[id].state == Pending
  }

  /** A claim that succeeds turns the pass's reservation into a held slot. */
  lemma WonClaimKeepsAccounting(c: Config, s: System, p: PassId, k: Ticket)
    requires Accounting(c, s) && Enabled(c, s, Claim(p, k)) && Wins(s, p)
    ensures Accounting(c, Apply(c, s, Claim(p, k)))
  {
    var s' := Apply(c, s, Claim(p, k));
    PassCounts(s.passes, p, s'.passes[p]);
    HoldCounts(s.holds, k, s'.holds[k]);
    forall t ensures Get(s'.inflight, t) == SlotsOf(s', t) {
      assert Get(s.inflight, t) == SlotsOf(s, t);
    }
  }

  lemma LostClaimKeepsAccounting(c: Config, s: System, p: PassId, k: Ticket)
    requires Accounting(c, s) && Enabled(c, s, Claim(p, k)) && !Wins(s, p)
    ensures Accounting(c, Apply(c, s, Claim(p, k)))
  {
    var s' := Apply(c, s, Claim(p, k));
    forall t ensures Matching(s'.passes, ReservedFor(t)) == Matching(s.passes, ReservedFor(t)) {
    }
    assert Matching(s'.passes, AnyReservation()) == Matching(s.passes, AnyReservation());
    SameSlots(c, s, s');
  }

  lemma UnreserveKeepsAccounting(c: Config, s: System, p: PassId)
    requires Accounting(c, s) && Enabled(c, s, Unreserve(p))
    ensures Accounting(c, Apply(c, s, Unreserve(p)))
  {
    var s' := Apply(c, s, Unreserve(p));
    var own := s.passes[p].cands[0].tenant;
    assert ReservedFor(own)(s.passes[p]);
    OwnSlotCounted(c, s, own);
    PassCounts(s.passes, p, s'.passes[p]);
    SumDrop(s.inflight, own);
    forall t
      ensures Get(s'.inflight, t) == SlotsOf(s', t)
      ensures Get(s'.inflight, t) <= Max(0, c.perTenantCap)
    {
      assert Get(s.inflight, t) == SlotsOf(s, t);
    }
  }

  lemma ReleaseKeepsAccounting(c: Config, s: System, k: Ticket)
    requires Accounting(c, s) && Enabled(c, s, Release(k))
    ensures Accounting(c, Apply(c, s, Release(k)))
  {
    var s' := Apply(c, s, Release(k));
    var own := s.holds[k].job.tenant;
    assert SlotOf(own)(s.holds[k]);
    OwnSlotCounted(c, s, own);
    HoldCounts(s.holds, k, s'.holds[k]);
    SumDrop(s.inflight, own);
    forall t
      ensures Get(s'.inflight, t) == SlotsOf(s', t)
      ensures Get(s'.inflight, t) <= Max(0, c.perTenantCap)
    {
      assert Get(s.inflight, t) == SlotsOf(s, t);
    }
  }

  lemma CrashKeepsAccounting(c: Config, s: System)
    ensures Accounting(c, Apply(c, s, Crash))
  {
    NothingHeld(c, Apply(c, s, Crash));
  }

  lemma NothingHeld(c: Config, s: System)
    requires s.inflight == map[] && s.passes == map[] && s.holds == map[]
    ensures Accounting(c, s) && HeldJobs(s) == 0
  {
    forall t ensures SlotsOf(s, t) == 0 {
      assert Matching(s.holds, SlotOf(t)) == {};
      assert Matching(s.passes, ReservedFor(t)) == {};
    }
    assert Matching(s.holds, AnySlot()) == {};
    assert Matching(s.passes, AnyReservation()) == {};
  }

  lemma StepKeepsAccounting(c: Config, s: System, a: Action)
    requires Accounting(c, s) && WellFormed(s) && Enabled(c, s, a)
    ensures Accounting(c, Apply(c, s, a))
  {
    match a
    case Register(_) => SameSlots(c, s, Apply(c, s, a));
    case Enqueue(_, _, _, _) => SameSlots(c, s, Apply(c, s, a));
    case Begin(p) => QuietPassStep(c, s, p, Apply(c, s, a).passes[p]);
    case Select(p, _, _) => QuietPassStep(c, s, p, Apply(c, s, a).passes[p]);
    case Skip(p) => QuietPassStep(c, s, p, Apply(c, s, a).passes[p]);
    case Reserve(p) => ReserveKeepsAccounting(c, s, p);
    case Claim(p, k) => if Wins(s, p) { WonClaimKeepsAccounting(c, s, p, k); } else { LostClaimKeepsAccounting(c, s, p, k); }
    case Unreserve(p) => UnreserveKeepsAccounting(c, s, p);
    case Finish(p) => FinishKeepsAccounting(c, s, p);
    case Invoke(k) => InvokeKeepsAccounting(c, s, k);
    case Return(k, _) => QuietHoldStep(c, s, k, Apply(c, s, a).holds[k]);
    case Release(k) => ReleaseKeepsAccounting(c, s, k);
    case Record(k, next) => RecordKeepsAccounting(c, s, k, next);
    case Crash => CrashKeepsAccounting(c, s);
  }

  lemma FinishKeepsAccounting(c: Config, s: System, p: PassId)
    requires Accounting(c, s) && Enabled(c, s, Finish(p))
    ensures Accounting(c, Apply(c, s, Finish(p)))
  {
    var s' := Apply(c, s, Finish(p));
    forall t ensures Matching(s'.passes, ReservedFor(t)) == Matching(s.passes, ReservedFor(t)) {
    }
    assert Matching(s'.passes, AnyReservation()) == Matching(s.passes, AnyReservation());
    SameSlots(c, s, s');
  }

  lemma InvokeKeepsAccounting(c: Config, s: System, k: Ticket)
    requires Accounting(c, s) && Enabled(c, s, Invoke(k))
    ensures Accounting(c, Apply(c, s, Invoke(k)))
  {
    var s' := Apply(c, s, Invoke(k));
    QuietHoldStep(c, s, k, s'.holds[k]);
    SameSlots(c, s.(holds := s'.holds), s');
  }

  lemma RecordKeepsAccounting(c: Config, s: System, k: Ticket, next: string)
    requires Accounting(c, s) && Enabled(c, s, Record(k, next))
    ensures Accounting(c, Apply(c, s, Record(k, next)))
  {
    var s' := Apply(c, s, Record(k, next));
    forall t ensures Matching(s'.holds, SlotOf(t)) == Matching(s.holds, SlotOf(t)) {
    }
    assert Matching(s'.holds, AnySlot()) == Matching(s.holds, AnySlot());
    SameSlots(c, s, s');
  }

  // ---- One holder per running row ----

  lemma SameHolders(s: System, s': System)
    requires Exclusive(s) && s'.rows == s.rows && s'.holds.Keys == s.holds.Keys
    requires forall k :: k in s.holds ==> s'.holds[k].job == s.holds[k].job
    ensures Exclusive(s')
  {
    forall id | id in s'.rows && s'.rows[id].state == Running
      ensures exists l :: l in s'.holds && s'.holds[l].job.id == id
    {
      var l :| l in s.holds && s.holds[l].job.id == id;
      assert l in s'.holds && s'.holds[l].job.id == id;
    }
  }

  lemma EnqueueKeepsExclusive(s: System, s': System, id: JobId, tenant: Tenant, kind: Kind, runAfter: string)
    requires Exclusive(s) && s'.holds == s.holds && s'.rows == Enqueued(s.rows, id, tenant, kind, runAfter)
    ensures Exclusive(s')
  {
    forall i | i in s'.rows && s'.rows[i].state == Running
      ensures exists l :: l in s'.holds && s'.holds[l].job.id == i
    {
      assert i in s.rows && s.rows[i].state == Running;
      var l :| l in s.holds && s.holds[l].job.id == i;
      assert l in s'.holds && s'.holds[l].job.id == i;
    }
  }

  /** Only a pending row can be claimed, and a pending row has no holder yet. */
  lemma WonClaimKeepsExclusive(s: System, s': System, j: Job, k: Ticket)
    requires Exclusive(s) && k !in s.holds && s'.holds == s.holds[k := Hold(j, Claimed)]
    requires j.id in s.rows && s.rows[j.id].state == Pending && s'.rows == ClaimRow(s.rows, j.id)
    requires s.rows[j.id].tenant == j.tenant && s.rows[j.id].kind == j.kind
    ensures Exclusive(s')
  {
    assert forall l :: l in s.holds ==> s.holds[l].job.id != j.id;
    forall id | id in s'.rows && s'.rows[id].state == Running
      ensures exists l :: l in s'.holds && s'.holds[l].job.id == id
    {
      if id == j.id {
        assert k in s'.holds && s'.holds[k].job.id == id;
      } else {
        var l :| l in s.holds && s.holds[l].job.id == id;
        assert l in s'.holds && s'.holds[l].job.id == id;
      }
    }
  }

  lemma RecordKeepsExclusive(c: Config, s: System, s': System, k: Ticket, ok: bool, next: string)
    requires Exclusive(s) && k in s.holds && s'.holds == s.holds - {k}
    requires s'.rows == RecordRow(c, s.rows, s.holds[k].job, ok, next)
    ensures Exclusive(s')
  {
    forall id | id in s'.rows && s'.rows[id].state == Running
      ensures exists l :: l in s'.holds && s'.holds[l].job.id == id
    {
      assert id != s.holds[k].job.id;
      var l :| l in s.holds && s.holds[l].job.id == id;
      assert l in s'.holds && s'.holds[l].job.id == id;
    }
  }

  lemma CrashKeepsExclusive(c: Config, s: System)
    ensures Exclusive(Apply(c, s, Crash))
  {
  }

  /** Only enqueueing, claiming, recording and crashing touch a row or the set of holders. */
  lemma OthersKeepHolders(c: Config, s: System, a: Action)
    requires Enabled(c, s, a) && !a.Enqueue? && !a.Claim? && !a.Record? && !a.Crash?
    ensures Apply(c, s, a).rows == s.rows && Apply(c, s, a).holds.Keys == s.holds.Keys
    ensures forall k :: k in s.holds ==> Apply(c, s, a).holds[k].job == s.holds[k].job
  {
  }

  lemma ClaimKeepsExclusive(c: Config, s: System, p: PassId, k: Ticket)
    requires Exclusive(s) && WellFormed(s) && Enabled(c, s, Claim(p, k))
    ensures Exclusive(Apply(c, s, Claim(p, k)))
  {
    if Wins(s, p) {
      assert GoodPass(s.rows, s.handlers, s.passes[p]);
      assert Describes(s.rows, s.passes[p].cands[0]);
      WonClaimKeepsExclusive(s, Apply(c, s, Claim(p, k)), s.passes[p].cands[0], k);
    } else {
      SameHolders(s, Apply(c, s, Claim(p, k)));
    }
  }

  lemma StepKeepsExclusive(c: Config, s: System, a: Action)
    requires Exclusive(s) && WellFormed(s) && Enabled(c, s, a)
    ensures Exclusive(Apply(c, s, a))
  {
    if a.Enqueue? {
      EnqueueKeepsExclusive(s, Apply(c, s, a), a.id, a.tenant, a.enqueuedKind, a.runAfter);
    } else if a.Claim? {
      ClaimKeepsExclusive(c, s, a.p, a.ticket);
    } else if a.Record? {
      RecordKeepsExclusive(c, s, Apply(c, s, a), a.ticket, s.holds[a.ticket].phase.ok, a.nextRun);
    } else if a.Crash? {
      CrashKeepsExclusive(c, s);
    } else {
      OthersKeepHolders(c, s, a);
      SameHolders(s, Apply(c, s, a));
    }
  }

  // ---- Well-formed passes, holds and mutex ----

  ghost predicate GoodPass(rows: map<JobId, Row>, handlers: set<Kind>, q: Pass) {
    && q.kinds <= handlers
    && (!q.Snapshotted? ==> forall i :: 0 <= i < |q.cands| ==> Describes(rows, q.cands[i]))
    && (q.Reserved? || q.LostClaim? ==> q.cands != [] && q.cands[0].kind in q.kinds)
  }

  /** A copied job belongs to a row of the same tenant and kind; the state may have moved on. */
  ghost predicate Describes(rows: map<JobId, Row>, j: Job) {
    j.id in rows && rows[j.id].tenant == j.tenant && rows[j.id].kind == j.kind
  }

  /** No statement deletes a row or changes its tenant or kind. */
  ghost predicate Extends(rows: map<JobId, Row>, rows': map<JobId, Row>) {
    forall id :: id in rows ==> id in rows' && rows'[id].tenant == rows[id].tenant && rows'[id].kind == rows[id].kind
  }

  lemma StepExtendsRows(c: Config, s: System, a: Action)
    requires Enabled(c, s, a)
    ensures Extends(s.rows, Apply(c, s, a).rows)
  {
    if !a.Enqueue? && !a.Claim? && !a.Record? && !a.Crash? {
      OthersKeepHolders(c, s, a);
    }
  }

  lemma StepKeepsPasses(c: Config, s: System, a: Action)
    requires WellFormed(s) && Enabled(c, s, a)
    ensures forall p :: p in Apply(c, s, a).passes ==> GoodPass(Apply(c, s, a).rows, Apply(c, s, a).handlers, Apply(c, s, a).passes[p])
  {
    StepExtendsRows(c, s, a);
    var s' := Apply(c, s, a);
    forall p | p in s'.passes
      ensures GoodPass(s'.rows, s'.handlers, s'.passes[p])
    {
      if p in s.passes && s'.passes[p] == s.passes[p] {
        GoodPassLater(s.rows, s'.rows, s.handlers, s'.handlers, s.passes[p]);
      } else {
        ChangedPassIsGood(c, s, a, p);
      }
    }
  }

  lemma GoodPassLater(rows: map<JobId, Row>, rows': map<JobId, Row>, handlers: set<Kind>, handlers': set<Kind>, q: Pass)
    requires GoodPass(rows, handlers, q) && Extends(rows, rows') && handlers <= handlers'
    ensures GoodPass(rows', handlers', q)
  {
  }

  lemma ChangedPassIsGood(c: Config, s: System, a: Action, p: PassId)
    requires WellFormed(s) && Enabled(c, s, a) && p in Apply(c, s, a).passes
    requires p !in s.passes || Apply(c, s, a).passes[p] != s.passes[p]
    ensures GoodPass(Apply(c, s, a).rows, Apply(c, s, a).handlers, Apply(c, s, a).passes[p])
  {
    var s' := Apply(c, s, a);
    if a.Select? {
      assert GoodPass(s.rows, s.handlers, s.passes[p]);
      SelectionIsGood(s.rows, a.now, a.found);
    } else if !a.Begin? {
      OthersDropOne(c, s, a, p);
      GoodPassTail(s.rows, s.handlers, s.passes[p], s'.passes[p]);
      StepExtendsRows(c, s, a);
      GoodPassLater(s.rows, s'.rows, s.handlers, s'.handlers, s'.passes[p]);
    }
  }

  lemma SelectionIsGood(rows: map<JobId, Row>, now: string, found: seq<Job>)
    requires IsSelection(rows, now, found)
    ensures forall i :: 0 <= i < |found| ==> Describes(rows, found[i])
  {
  }

  /** Between its scan and its end a pass keeps its candidates or drops the first one. */
  lemma OthersDropOne(c: Config, s: System, a: Action, p: PassId)
    requires WellFormed(s) && Enabled(c, s, a) && !a.Begin? && !a.Select? && p in Apply(c, s, a).passes
    requires p !in s.passes || Apply(c, s, a).passes[p] != s.passes[p]
    ensures p in s.passes && Tail(s.passes[p], Apply(c, s, a).passes[p])
    ensures s.handlers == Apply(c, s, a).handlers && GoodPass(s.rows, s.handlers, s.passes[p])
  {
    assert p in s.passes ==> GoodPass(s.rows, s.handlers, s.passes[p]);
  }

  ghost predicate Tail(q: Pass, q': Pass) {
    && !q.Snapshotted? && !q'.Snapshotted? && q'.kinds == q.kinds && q.cands != []
    && ((q'.cands == q.cands && q.cands[0].kind in q.kinds) || (q'.Scanning? && q'.cands == q.cands[1..]))
  }

  lemma GoodPassTail(rows: map<JobId, Row>, handlers: set<Kind>, q: Pass, q': Pass)
    requires GoodPass(rows, handlers, q) && Tail(q, q')
    ensures GoodPass(rows, handlers, q')
  {
  }

  lemma StepKeepsMutex(c: Config, s: System, a: Action)
    requires WellFormed(s) && Enabled(c, s, a)
    ensures GoodHolds(Apply(c, s, a))
  {
    if a.Claim? {
      assert GoodPass(s.rows, s.handlers, s.passes[a.p]);
    } else if a.Invoke? || a.Return? || a.Release? || a.Record? {
      WorkerKeepsMutex(c, s, a);
    }
  }

  lemma WorkerKeepsMutex(c: Config, s: System, a: Action)
    requires GoodHolds(s) && Enabled(c, s, a) && (a.Invoke? || a.Return? || a.Release? || a.Record?)
    ensures GoodHolds(Apply(c, s, a))
  {
  }

  lemma StepKeepsInv(c: Config, s: System, a: Action)
    requires Inv(c, s) && Enabled(c, s, a)
    ensures Inv(c, Apply(c, s, a))
  {
    StepKeepsAccounting(c, s, a);
    StepKeepsExclusive(c, s, a);
    StepKeepsPasses(c, s, a);
    StepKeepsMutex(c, s, a);
  }

  /** The invariant holds at every point of every run: any number of lease passes, workers,
      enqueues, registrations and crashes, in any interleaving. */
  lemma {:induction false} RunKeepsInv(c: Config, run: seq<System>, acts: seq<Action>, n: nat)
    requires IsRun(c, run, acts) && n < |run|
    ensures Inv(c, run[n])
  {
    if n == 0 {
      NothingHeld(c, INITIAL);
    } else {
      RunKeepsInv(c, run, acts, n - 1);
      StepKeepsInv(c, run[n - 1], acts[n - 1]);
    }
  }

  /** For every tenant, at every point of every run: the counter is the number of slots reserved
      or held, the cap is kept, and a step that gives a slot back finds a positive counter. */
  lemma TenantSlotsAccounted(c: Config, run: seq<System>, acts: seq<Action>, n: nat, t: Tenant)
    requires IsRun(c, run, acts) && n < |run|
    ensures Get(run[n].inflight, t) == SlotsOf(run[n], t) <= Max(0, c.perTenantCap)
    ensures n < |acts| && acts[n].Unreserve? ==> Get(run[n].inflight, run[n].passes[acts[n].p].cands[0].tenant) > 0
    ensures n < |acts| && acts[n].Release? ==> Get(run[n].inflight, run[n].holds[acts[n].ticket].job.tenant) > 0
  {
    RunKeepsInv(c, run, acts, n);
    if n < |acts| && acts[n].Unreserve? {
      var q := run[n].passes[acts[n].p];
      assert ReservedFor(q.cands[0].tenant)(q);
      OwnSlotCounted(c, run[n], q.cands[0].tenant);
    }
    if n < |acts| && acts[n].Release? {
      var h := run[n].holds[acts[n].ticket];
      assert SlotOf(h.job.tenant)(h);
      OwnSlotCounted(c, run[n], h.job.tenant);
    }
  }

  /** A job is running exactly when it has a holder, the holder is unique and it was handed a
      kind that has a handler, so the "no handler" answer of a worker cannot occur. */
  lemma OneHolderPerRunningJob(c: Config, run: seq<System>, acts: seq<Action>, n: nat, id: JobId)
    requires IsRun(c, run, acts) && n < |run| && id in run[n].rows
    ensures run[n].rows[id].state == Running <==> exists k :: k in run[n].holds && run[n].holds[k].job.id == id
    ensures forall k, l :: k in run[n].holds && l in run[n].holds && run[n].holds[k].job.id == id && run[n].holds[l].job.id == id ==> k == l
    ensures forall k :: k in run[n].holds ==> run[n].holds[k].job.kind in run[n].handlers
  {
    RunKeepsInv(c, run, acts, n);
  }

  lemma StepKeepsFinishedRows(c: Config, s: System, a: Action, id: JobId)
    requires Exclusive(s) && Enabled(c, s, a)
    requires id in s.rows && (s.rows[id].state == Done || s.rows[id].state == Failed)
    ensures id in Apply(c, s, a).rows && Apply(c, s, a).rows[id] == s.rows[id]
  {
    if a.Record? {
      assert s.rows[s.holds[a.ticket].job.id].state == Running;
    } else if !a.Enqueue? && !a.Claim? && !a.Crash? {
      OthersKeepHolders(c, s, a);
    }
  }

  /** The row of a job keeps its tenant and kind, and does not change at all once the job is done or failed. */
  ghost predicate Persists(rows: map<JobId, Row>, rows': map<JobId, Row>, id: JobId) {
    id in rows ==>
      && id in rows' && rows'[id].tenant == rows[id].tenant && rows'[id].kind == rows[id].kind
      && (rows[id].state == Done || rows[id].state == Failed ==> rows'[id] == rows[id])
  }

  lemma PersistsTwice(rows: map<JobId, Row>, m: map<JobId, Row>, rows': map<JobId, Row>, id: JobId)
    requires Persists(rows, m, id) && Persists(m, rows', id)
    ensures Persists(rows, rows', id)
  {
  }

  lemma StepPersists(c: Config, s: System, a: Action, id: JobId)
    requires Exclusive(s) && Enabled(c, s, a)
    ensures Persists(s.rows, Apply(c, s, a).rows, id)
  {
    StepExtendsRows(c, s, a);
    if id in s.rows && (s.rows[id].state == Done || s.rows[id].state == Failed) {
      StepKeepsFinishedRows(c, s, a, id);
    }
  }

  lemma PointPersists(c: Config, run: seq<System>, acts: seq<Action>, n: nat, id: JobId)
    requires IsRun(c, run, acts) && n < |acts|
    ensures Persists(run[n].rows, run[n + 1].rows, id)
  {
    RunKeepsInv(c, run, acts, n);
    StepPersists(c, run[n], acts[n], id);
  }

  lemma {:induction false} PersistsAlong(run: seq<System>, i: nat, n: nat, id: JobId)
    requires i <= n < |run| && forall k: nat :: k < n ==> Persists(run[k].rows, run[k + 1].rows, id)
    ensures Persists(run[i].rows, run[n].rows, id)
    decreases n - i
  {
    if i < n {
      PersistsAlong(run, i, n - 1, id);
      PersistsTwice(run[i].rows, run[n - 1].rows, run[n].rows, id);
    }
  }

  /** A job once enqueued stays in the table under its tenant and kind, and a done or failed
      job never changes again, through retries, other passes and crashes. */
  lemma JobsPersist(c: Config, run: seq<System>, acts: seq<Action>, i: nat, n: nat, id: JobId)
    requires IsRun(c, run, acts) && i <= n < |run|
    ensures Persists(run[i].rows, run[n].rows, id)
  {
    forall k: nat | k < n ensures Persists(run[k].rows, run[k + 1].rows, id) {
      PointPersists(c, run, acts, k, id);
    }
    PersistsAlong(run, i, n, id);
  }
}
