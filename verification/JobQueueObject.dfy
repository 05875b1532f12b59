/**
  The queue object of kernel/jobs/queue.go. Every method is one burst under the mutex or one SQL
  statement, specified by the same functions as the steps of module `JobQueue`; `Lease` strings
  them together the way the source does, for candidates that may have gone stale meanwhile.
 */
module JobQueueObject {
  import opened Common
  import opened Counters
  import opened JobQueue
  import opened JobQueueRuns

  ghost function TenantCount(jobs: seq<Job>, t: Tenant): nat {
    if jobs == [] then 0 else TenantCount(jobs[..|jobs| - 1], t) + One(jobs[|jobs| - 1].tenant == t)
  }

  lemma TenantCountAppend(jobs: seq<Job>, j: Job, t: Tenant)
    ensures TenantCount(jobs + [j], t) == TenantCount(jobs, t) + One(j.tenant == t)
  {
    assert (jobs + [j])[..|jobs|] == jobs;
  }

  ghost predicate Has(jobs: seq<Job>, id: JobId) {
    exists i :: 0 <= i < |jobs| && jobs[i].id == id
  }

  /** The table after the claims of `jobs`. */
  ghost function Marked(rows: map<JobId, Row>, jobs: seq<Job>): map<JobId, Row> {
    map id | id in rows :: if Has(jobs, id) then rows[id].(state := Running) else rows[id]
  }

  lemma MarkedAppend(rows: map<JobId, Row>, jobs: seq<Job>, j: Job)
    requires j.id in Marked(rows, jobs) && Marked(rows, jobs)[j.id].state == Pending
    ensures rows[j.id].state == Pending && !Has(jobs, j.id)
    ensures ClaimRow(Marked(rows, jobs), j.id) == Marked(rows, jobs + [j])
  {
    var all := jobs + [j];
    forall id ensures Has(all, id) <==> Has(jobs, id) || id == j.id {
      if Has(jobs, id) {
        var i :| 0 <= i < |jobs| && jobs[i].id == id;
        assert all[i].id == id;
      }
      assert all[|jobs|].id == j.id;
    }
  }

  /** What the claiming loop has done after the candidates `seen`. */
  ghost predicate Progress(rows0: map<JobId, Row>, inflight0: map<Tenant, nat>, kinds: set<Kind>, cap: int,
                           seen: seq<Job>, claimed: seq<Job>, rows: map<JobId, Row>, inflight: map<Tenant, nat>) {
    && rows == Marked(rows0, claimed)
    && ClaimsFit(rows0, kinds, seen, claimed)
    && CountsFit(inflight0, cap, claimed, inflight)
    && AllExcused(rows0, kinds, cap, seen, claimed, inflight)
  }

  /** The claimed jobs are different candidates of known kinds whose rows were pending. */
  ghost predicate ClaimsFit(rows0: map<JobId, Row>, kinds: set<Kind>, seen: seq<Job>, claimed: seq<Job>) {
    && (forall k :: 0 <= k < |claimed| ==> claimed[k] in seen && claimed[k].kind in kinds && Claimable(rows0, claimed[k].id))
    && (forall k, l :: 0 <= k < l < |claimed| ==> claimed[k].id != claimed[l].id)
  }

  ghost predicate CountsFit(inflight0: map<Tenant, nat>, cap: int, claimed: seq<Job>, inflight: map<Tenant, nat>) {
    forall t :: Get(inflight, t) == Get(inflight0, t) + TenantCount(claimed, t) <= Max(Get(inflight0, t), cap)
  }

  ghost predicate AllExcused(rows0: map<JobId, Row>, kinds: set<Kind>, cap: int, seen: seq<Job>, claimed: seq<Job>, inflight: map<Tenant, nat>) {
    forall k :: 0 <= k < |seen| && Claimable(rows0, seen[k].id) ==> Excused(kinds, cap, claimed, inflight, seen[k])
  }

  ghost predicate Excused(kinds: set<Kind>, cap: int, claimed: seq<Job>, inflight: map<Tenant, nat>, j: Job) {
    Has(claimed, j.id) || j.kind !in kinds || Get(inflight, j.tenant) >= cap
  }

  lemma ProgressClaim(rows0: map<JobId, Row>, inflight0: map<Tenant, nat>, kinds: set<Kind>, cap: int,
                      seen: seq<Job>, claimed: seq<Job>, rows: map<JobId, Row>, inflight: map<Tenant, nat>, j: Job)
    requires Progress(rows0, inflight0, kinds, cap, seen, claimed, rows, inflight)
    requires j.kind in kinds && Get(inflight, j.tenant) < cap && Claimable(rows, j.id)
    ensures Progress(rows0, inflight0, kinds, cap, seen + [j], claimed + [j], ClaimRow(rows, j.id), Bump(inflight, j.tenant))
  {
    MarkedAppend(rows0, claimed, j);
    ClaimCounts(inflight0, cap, claimed, inflight, j);
    ClaimedList(rows0, kinds, seen, claimed, j);
    ClaimExcuses(rows0, kinds, cap, seen, claimed, inflight, j);
  }

  lemma ClaimCounts(inflight0: map<Tenant, nat>, cap: int, claimed: seq<Job>, inflight: map<Tenant, nat>, j: Job)
    requires CountsFit(inflight0, cap, claimed, inflight) && Get(inflight, j.tenant) < cap
    ensures CountsFit(inflight0, cap, claimed + [j], Bump(inflight, j.tenant))
  {
    forall t
      ensures Get(Bump(inflight, j.tenant), t) == Get(inflight0, t) + TenantCount(claimed + [j], t) <= Max(Get(inflight0, t), cap)
    {
      TenantCountAppend(claimed, j, t);
    }
  }

  lemma ClaimExcuses(rows0: map<JobId, Row>, kinds: set<Kind>, cap: int, seen: seq<Job>, claimed: seq<Job>, inflight: map<Tenant, nat>, j: Job)
    requires AllExcused(rows0, kinds, cap, seen, claimed, inflight)
    ensures AllExcused(rows0, kinds, cap, seen + [j], claimed + [j], Bump(inflight, j.tenant))
  {
    forall k | 0 <= k < |seen + [j]| && Claimable(rows0, (seen + [j])[k].id)
      ensures Excused(kinds, cap, claimed + [j], Bump(inflight, j.tenant), (seen + [j])[k])
    {
      if k < |seen| {
        StillExcused(kinds, cap, claimed, inflight, seen[k], j);
      } else {
        assert (claimed + [j])[|claimed|].id == j.id;
      }
    }
  }

  lemma ClaimedList(rows0: map<JobId, Row>, kinds: set<Kind>, seen: seq<Job>, claimed: seq<Job>, j: Job)
    requires ClaimsFit(rows0, kinds, seen, claimed) && j.kind in kinds && Claimable(rows0, j.id) && !Has(claimed, j.id)
    ensures ClaimsFit(rows0, kinds, seen + [j], claimed + [j])
  {
    assert (seen + [j])[|seen|] == j;
  }

  lemma StillExcused(kinds: set<Kind>, cap: int, claimed: seq<Job>, inflight: map<Tenant, nat>, x: Job, j: Job)
    requires Excused(kinds, cap, claimed, inflight, x)
    ensures Excused(kinds, cap, claimed + [j], Bump(inflight, j.tenant), x)
  {
    if Has(claimed, x.id) {
      var i :| 0 <= i < |claimed| && claimed[i].id == x.id;
      assert (claimed + [j])[i].id == x.id;
    }
  }

  lemma ProgressSkip(rows0: map<JobId, Row>, inflight0: map<Tenant, nat>, kinds: set<Kind>, cap: int,
                     seen: seq<Job>, claimed: seq<Job>, rows: map<JobId, Row>, inflight: map<Tenant, nat>, j: Job, after: map<Tenant, nat>)
    requires Progress(rows0, inflight0, kinds, cap, seen, claimed, rows, inflight)
    requires j.kind !in kinds || Get(inflight, j.tenant) >= cap || !Claimable(rows, j.id)
    requires forall t :: Get(after, t) == Get(inflight, t)
    ensures Progress(rows0, inflight0, kinds, cap, seen + [j], claimed, rows, after)
  {
    forall k | 0 <= k < |seen + [j]| && Claimable(rows0, (seen + [j])[k].id)
      ensures Excused(kinds, cap, claimed, after, (seen + [j])[k])
    {
      if k < |seen| {
        assert Excused(kinds, cap, claimed, inflight, seen[k]);
      }
    }
  }

  lemma ProgressNext(rows0: map<JobId, Row>, inflight0: map<Tenant, nat>, kinds: set<Kind>, cap: int,
                     seen: seq<Job>, claimed: seq<Job>, rows: map<JobId, Row>, inflight: map<Tenant, nat>, j: Job, after: map<Tenant, nat>)
    requires Progress(rows0, inflight0, kinds, cap, seen, claimed, rows, inflight)
    requires after == CountsAfter(rows, inflight, kinds, cap, j)
    ensures if Takes(rows, inflight, kinds, cap, j)
      then Progress(rows0, inflight0, kinds, cap, seen + [j], claimed + [j], ClaimRow(rows, j.id), after)
      else Progress(rows0, inflight0, kinds, cap, seen + [j], claimed, rows, after)
  {
    if Takes(rows, inflight, kinds, cap, j) {
      ProgressClaim(rows0, inflight0, kinds, cap, seen, claimed, rows, inflight, j);
    } else {
      ProgressSkip(rows0, inflight0, kinds, cap, seen, claimed, rows, inflight, j, after);
    }
  }

  lemma ProgressStart(rows: map<JobId, Row>, inflight: map<Tenant, nat>, kinds: set<Kind>, cap: int)
    ensures Progress(rows, inflight, kinds, cap, [], [], rows, inflight)
  {
    assert Marked(rows, []) == rows;
  }

  /** The claiming loop, from state `s` with `free` slots, after `i` of the candidates `found`. */
  ghost predicate InLoop(c: Config, s: System, p: PassId, base: Ticket, kinds: set<Kind>, free: int, found: seq<Job>, i: nat,
                         acts: seq<Action>, claimed: seq<Job>, rows: map<JobId, Row>, inflight: map<Tenant, nat>) {
    && Reached(c, s, p, base, kinds, free, found, i, acts, claimed, rows, inflight)
    && Progress(s.rows, s.inflight, kinds, c.perTenantCap, found[..i], claimed, rows, inflight)
  }

  lemma LoopStart(c: Config, s: System, p: PassId, base: Ticket, kinds: set<Kind>, free: int, found: seq<Job>)
    ensures InLoop(c, s, p, base, kinds, free, found, 0, [], [], s.rows, s.inflight)
  {
    ProgressStart(s.rows, s.inflight, kinds, c.perTenantCap);
  }

  lemma LoopNext(c: Config, s: System, p: PassId, base: Ticket, kinds: set<Kind>, free: int, found: seq<Job>, i: nat,
                 acts: seq<Action>, claimed: seq<Job>, rows: map<JobId, Row>, inflight: map<Tenant, nat>) returns (acts': seq<Action>)
    requires InLoop(c, s, p, base, kinds, free, found, i, acts, claimed, rows, inflight) && i < |found| && |claimed| < free
    requires s.mutex.None? && forall k :: k in s.holds ==> k < base
    ensures var j := found[i];
      var counts := CountsAfter(rows, inflight, kinds, c.perTenantCap, j);
      if Takes(rows, inflight, kinds, c.perTenantCap, j)
      then InLoop(c, s, p, base, kinds, free, found, i + 1, acts', claimed + [j], ClaimRow(rows, j.id), counts)
      else InLoop(c, s, p, base, kinds, free, found, i + 1, acts', claimed, rows, counts)
  {
    acts' := ReachedNext(c, s, p, base, kinds, free, found, i, acts, claimed, rows, inflight);
    ProgressNext(s.rows, s.inflight, kinds, c.perTenantCap, found[..i], claimed, rows, inflight, found[i],
                 CountsAfter(rows, inflight, kinds, c.perTenantCap, found[i]));
    assert found[..i] + [found[i]] == found[..i + 1];
  }

  /** When the candidates have run out, every one that could be claimed has been claimed or has an excuse. */
  lemma LoopEnd(c: Config, s: System, p: PassId, base: Ticket, kinds: set<Kind>, free: int, found: seq<Job>, i: nat,
                acts: seq<Action>, claimed: seq<Job>, rows: map<JobId, Row>, inflight: map<Tenant, nat>) returns (acts': seq<Action>)
    requires InLoop(c, s, p, base, kinds, free, found, i, acts, claimed, rows, inflight)
    requires p !in s.passes && (i == |found| || |claimed| == free)
    ensures rows == Marked(s.rows, claimed)
    ensures ClaimsFit(s.rows, kinds, found, claimed) && CountsFit(s.inflight, c.perTenantCap, claimed, inflight)
    ensures i == |found| ==> AllExcused(s.rows, kinds, c.perTenantCap, found, claimed, inflight)
    ensures LeaseSteps(c, s, p, base, kinds, free, found, acts', claimed, rows, inflight)
  {
    assert i == |found| ==> found[..i] == found;
    assert forall j :: j in found[..i] ==> j in found;
    acts' := PassEnds(c, s, p, base, kinds, free, found, i, acts, claimed, rows, inflight);
  }

  class Queue {
    const config: Config
    var rows: map<JobId, Row>
    var inflight: map<Tenant, nat>
    var handlers: set<Kind>

    /** Open the queue on an existing table: rows left running by a crash become pending. */
    constructor (config: Config, table: map<JobId, Row>)
      ensures this.config == config && rows == Recovered(table) && inflight == map[] && handlers == {}
      ensures rows.Keys == table.Keys
      ensures forall id :: id in table && table[id].state == Running ==>
        rows[id] == Row(table[id].tenant, table[id].kind, table[id].runAfter, table[id].attempts, Pending)
      ensures forall id :: id in table && table[id].state != Running ==> rows[id] == table[id]
    {
      this.config := config;
      rows := map id | id in table :: if table[id].state == Running then table[id].(state := Pending) else table[id];
      inflight, handlers := map[], {};
    }

    method Register(kind: Kind)
      modifies this`handlers
      ensures handlers == old(handlers) + {kind}
    {
      handlers := handlers + {kind};
    }

    /** Insert a job; a missing tenant or kind and a taken id are errors that change nothing. */
    method Enqueue(id: JobId, tenant: Tenant, kind: Kind, runAfter: string) returns (r: Result<JobId, string>)
      modifies this`rows
      ensures rows == Enqueued(old(rows), id, tenant, kind, runAfter)
      ensures r.Ok? <==> tenant != "" && kind != "" && id !in old(rows)
      ensures r.Ok? ==> r.value == id && id in rows && rows[id] == Row(tenant, kind, runAfter, 0, Pending)
    {
      if tenant == "" || kind == "" {
        return Err("tenant and kind are required");
      }
      if id in rows {
        return Err("enqueue");
      }
      rows := rows[id := Row(tenant, kind, runAfter, 0, Pending)];
      return Ok(id);
    }

    /** Count what is in flight and copy the registered kinds. */
    method Snapshot() returns (slots: int, kinds: set<Kind>)
      ensures slots == config.globalCap - Sum(inflight) && kinds == handlers
    {
      var used, rest := 0, inflight;
      while rest != map[]
        invariant used + Sum(rest) == Sum(inflight)
        decreases |rest|
      {
        var t :| t in rest;
        SumRemove(rest, t);
        used, rest := used + rest[t], rest - {t};
      }
      slots, kinds := config.globalCap - used, handlers;
    }

    method TryReserve(t: Tenant) returns (ok: bool)
      modifies this`inflight
      ensures ok <==> Get(old(inflight), t) < config.perTenantCap
      ensures inflight == if ok then Bump(old(inflight), t) else old(inflight)
    {
      if Get(inflight, t) >= config.perTenantCap {
        return false;
      }
      inflight := inflight[t := Get(inflight, t) + 1];
      return true;
    }

    method GiveBack(t: Tenant)
      modifies this`inflight
      ensures inflight == Drop(old(inflight), t)
    {
      if Get(inflight, t) > 0 {
        inflight := inflight[t := Get(inflight, t) - 1];
        if Get(inflight, t) == 0 {
          inflight := inflight - {t};
        }
      }
      assert Drop(old(inflight), t) == inflight;
    }

    method TryClaim(id: JobId) returns (claimed: bool)
      modifies this`rows
      ensures claimed <==> id in old(rows) && old(rows)[id].state == Pending
      ensures rows == ClaimRow(old(rows), id)
    {
      if id in rows && rows[id].state == Pending {
        rows := rows[id := rows[id].(state := Running)];
        return true;
      }
      return false;
    }

    /** Reserve a slot, try the claim, and give the slot back if the claim is lost. */
    method ClaimCandidate(j: Job, kinds: set<Kind>) returns (won: bool)
      modifies this`rows, this`inflight
      ensures won <==> Takes(old(rows), old(inflight), kinds, config.perTenantCap, j)
      ensures rows == if won then ClaimRow(old(rows), j.id) else old(rows)
      ensures inflight == CountsAfter(old(rows), old(inflight), kinds, config.perTenantCap, j)
    {
      if j.kind !in kinds {
        return false;
      }
      var reserved := TryReserve(j.tenant);
      if !reserved {
        return false;
      }
      won := TryClaim(j.id);
      if !won {
        GiveBack(j.tenant);
      }
    }

    /** The object as part of a state of the transition system. */
    ghost predicate Shows(s: System)
      reads this
    {
      s.rows == rows && s.inflight == inflight && s.handlers == handlers
    }

    /** Claim from the scanned candidates `found`, up to the free slots. From any state `s` that the object shows and
        in which pass `p` has scanned them, it is the sequence of steps `acts`, up to the end of the pass. */
    method Lease(found: seq<Job>, ghost s: System, ghost p: PassId, ghost base: Ticket)
      returns (claimed: seq<Job>, ghost acts: seq<Action>)
      requires Shows(s) && s.mutex.None? && p !in s.passes && forall k :: k in s.holds ==> k < base
      modifies this`rows, this`inflight
      ensures rows == Marked(old(rows), claimed)
      ensures ClaimsFit(old(rows), handlers, found, claimed) && CountsFit(old(inflight), config.perTenantCap, claimed, inflight)
      ensures var slots := config.globalCap - Sum(old(inflight));
        if handlers == {} || slots <= 0 then claimed == [] && inflight == old(inflight)
        else
          && |claimed| <= slots
          // Nothing is passed over without a reason.
          && (|claimed| == slots || AllExcused(old(rows), handlers, config.perTenantCap, found, claimed, inflight))
          && LeaseSteps(config, s, p, base, handlers, slots, found, acts, claimed, rows, inflight)
    {
      claimed, acts := [], [];
      ProgressStart(rows, inflight, handlers, config.perTenantCap);
      if handlers == {} {
        return;
      }
      var slots, kinds := Snapshot();
      if slots <= 0 {
        return;
      }
      claimed, acts := ClaimWhile(found, slots, kinds, s, p, base);
    }

    /** Deal with candidates until they or the free slots run out. */
    method ClaimWhile(found: seq<Job>, free: int, kinds: set<Kind>, ghost s: System, ghost p: PassId, ghost base: Ticket)
      returns (claimed: seq<Job>, ghost acts: seq<Action>)
      requires free > 0 && s.rows == rows && s.inflight == inflight
      requires p !in s.passes && s.mutex.None? && forall k :: k in s.holds ==> k < base
      modifies this`rows, this`inflight
      ensures rows == Marked(old(rows), claimed)
      ensures ClaimsFit(old(rows), kinds, found, claimed) && CountsFit(old(inflight), config.perTenantCap, claimed, inflight)
      ensures |claimed| <= free && (|claimed| == free || AllExcused(old(rows), kinds, config.perTenantCap, found, claimed, inflight))
      ensures LeaseSteps(config, s, p, base, kinds, free, found, acts, claimed, rows, inflight)
    {
      var slots, i := free, 0;
      claimed, acts := [], [];
      LoopStart(config, s, p, base, kinds, free, found);
      while i < |found| && slots > 0
        invariant 0 <= i <= |found| && 0 <= slots == free - |claimed|
        invariant InLoop(config, s, p, base, kinds, free, found, i, acts, claimed, rows, inflight)
        decreases |found| - i
      {
        ghost var before, table, counts := claimed, rows, inflight;
        var won := ClaimCandidate(found[i], kinds);
        if won {
          slots, claimed := slots - 1, claimed + [found[i]];
        }
        acts := LoopNext(config, s, p, base, kinds, free, found, i, acts, before, table, counts);
        i := i + 1;
      }
      acts := LoopEnd(config, s, p, base, kinds, free, found, i, acts, claimed, rows, inflight);
    }

    /** The end of a worker: give the slot back, then write the outcome. */
    method Settle(job: Job, ok: bool, nextRun: string)
      modifies this`rows, this`inflight
      ensures inflight == Drop(old(inflight), job.tenant)
      ensures rows == RecordRow(config, old(rows), job, ok, nextRun)
    {
      GiveBack(job.tenant);
      if job.id in rows {
        if ok {
          rows := rows[job.id := rows[job.id].(state := Done)];
          return;
        }
        var attempts := job.attempts + 1;
        if attempts >= config.maxAttempts {
          rows := rows[job.id := rows[job.id].(state := Failed, attempts := attempts)];
          return;
        }
        rows := rows[job.id := rows[job.id].(state := Pending, attempts := attempts, runAfter := nextRun)];
      }
    }
  }
}
