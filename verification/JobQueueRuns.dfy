/** Building runs of the job queue step by step, and stretches that runs are made of: a lease that nothing falls into is one. */
module JobQueueRuns {
  import opened Common
  import opened Counters
  import opened Text
  import opened JobQueue

  /** One more step at the end of a run. */
  lemma Extend(c: Config, run: seq<System>, acts: seq<Action>, a: Action, s': System)
    requires IsRun(c, run, acts) && Enabled(c, run[|acts|], a) && s' == Apply(c, run[|acts|], a)
    ensures IsRun(c, run + [s'], acts + [a])
  {
  }

  lemma Then(c: Config, run: seq<System>, acts: seq<Action>, a: Action, s': System) returns (run': seq<System>, acts': seq<Action>)
    requires IsRun(c, run, acts) && Enabled(c, run[|acts|], a) && s' == Apply(c, run[|acts|], a)
    ensures run' == run + [s'] && acts' == acts + [a] && IsRun(c, run', acts') && run'[|acts'|] == s'
  {
    run', acts' := run + [s'], acts + [a];
    Extend(c, run, acts, a, s');
  }

  /** Reserve and claim the first candidate of pass `p`, whose row is still pending. */
  lemma ReserveAndClaim(c: Config, run: seq<System>, acts: seq<Action>, p: PassId, k: Ticket)
    returns (run': seq<System>, acts': seq<Action>)
    requires IsRun(c, run, acts) && AtCandidate(run[|acts|], p) && k !in run[|acts|].holds && run[|acts|].mutex.None?
    requires var s := run[|acts|]; var j := s.passes[p].cands[0];
      j.kind in s.passes[p].kinds && Get(s.inflight, j.tenant) < c.perTenantCap && j.id in s.rows && s.rows[j.id].state == Pending
    ensures IsRun(c, run', acts') && acts' == acts + [Reserve(p), Claim(p, k)]
    ensures var s, s' := run[|acts|], run'[|acts'|]; var q := s.passes[p];
      s' == s.(rows := ClaimRow(s.rows, q.cands[0].id), inflight := Bump(s.inflight, q.cands[0].tenant),
               passes := s.passes[p := Scanning(q.slots - 1, q.kinds, q.cands[1..])], holds := s.holds[k := Hold(q.cands[0], Claimed)])
  {
    var s := run[|acts|];
    var q := s.passes[p];
    var s1 := s.(inflight := Bump(s.inflight, q.cands[0].tenant), passes := s.passes[p := Reserved(q.slots, q.kinds, q.cands)]);
    run', acts' := Then(c, run, acts, Reserve(p), s1);
    var s2 := Apply(c, s1, Claim(p, k));
    assert s2.passes == s.passes[p := Scanning(q.slots - 1, q.kinds, q.cands[1..])];
    run', acts' := Then(c, run', acts', Claim(p, k), s2);
  }

  /** A worker that runs its job once and writes the outcome. */
  lemma RunOnce(c: Config, run: seq<System>, acts: seq<Action>, k: Ticket, ok: bool, next: string)
    returns (run': seq<System>, acts': seq<Action>)
    requires IsRun(c, run, acts) && k in run[|acts|].holds && run[|acts|].holds[k].phase == Claimed && run[|acts|].mutex.None?
    ensures IsRun(c, run', acts')
    ensures acts' == acts + [Invoke(k), Return(k, ok), Release(k), Record(k, next)]
    ensures var s, s' := run[|acts|], run'[|acts'|]; var j := s.holds[k].job;
      s' == s.(rows := RecordRow(c, s.rows, j, ok, next), holds := s.holds - {k}, inflight := Drop(s.inflight, j.tenant),
               starts := Bump(s.starts, j.id))
  {
    var s := run[|acts|];
    var j := s.holds[k].job;
    var s2 := s.(holds := s.holds[k := Hold(j, Returned(ok))], starts := Bump(s.starts, j.id));
    run', acts' := InvokeAndReturn(c, run, acts, k, ok);
    var s3 := s2.(holds := s.holds[k := Hold(j, Settling(ok))], inflight := Drop(s.inflight, j.tenant), mutex := Some(k));
    var s4 := s3.(rows := RecordRow(c, s.rows, j, ok, next), holds := s.holds - {k}, mutex := None);
    assert s2.holds[k := Hold(j, Settling(ok))] == s3.holds;
    run', acts' := Then(c, run', acts', Release(k), s3);
    assert s3.holds - {k} == s4.holds;
    run', acts' := Then(c, run', acts', Record(k, next), s4);
  }

  lemma InvokeAndReturn(c: Config, run: seq<System>, acts: seq<Action>, k: Ticket, ok: bool)
    returns (run': seq<System>, acts': seq<Action>)
    requires IsRun(c, run, acts) && k in run[|acts|].holds && run[|acts|].holds[k].phase == Claimed && run[|acts|].mutex.None?
    ensures IsRun(c, run', acts') && acts' == acts + [Invoke(k), Return(k, ok)]
    ensures var s := run[|acts|]; var j := s.holds[k].job;
      run'[|acts'|] == s.(holds := s.holds[k := Hold(j, Returned(ok))], starts := Bump(s.starts, j.id))
  {
    var s := run[|acts|];
    var j := s.holds[k].job;
    var s1 := s.(holds := s.holds[k := Hold(j, Invoked)], starts := Bump(s.starts, j.id));
    run', acts' := Then(c, run, acts, Invoke(k), s1);
    assert s1.holds[k := Hold(j, Returned(ok))] == s.holds[k := Hold(j, Returned(ok))];
    run', acts' := Then(c, run', acts', Return(k, ok), s1.(holds := s.holds[k := Hold(j, Returned(ok))]));
  }

  // ---- From any state on ----

  /** The state after the steps `acts` from `s`, if they can be taken one after the other. */
  ghost function After(c: Config, s: System, acts: seq<Action>): Option<System> {
    if acts == [] then Some(s)
    else
      var last := |acts| - 1;
      match After(c, s, acts[..last])
      case None => None
      case Some(m) => if Enabled(c, m, acts[last]) then Some(Apply(c, m, acts[last])) else None
  }

  lemma OneMore(c: Config, s: System, acts: seq<Action>, m: System, a: Action)
    requires After(c, s, acts) == Some(m) && Enabled(c, m, a)
    ensures After(c, s, acts + [a]) == Some(Apply(c, m, a))
  {
    assert (acts + [a])[..|acts|] == acts;
  }

  /** Steps that can be taken where a run ends prolong the run. */
  lemma {:induction false} RunOn(c: Config, run: seq<System>, acts: seq<Action>, more: seq<Action>, s': System) returns (run': seq<System>)
    requires IsRun(c, run, acts) && After(c, run[|acts|], more) == Some(s')
    ensures IsRun(c, run', acts + more) && run'[|acts + more|] == s'
    decreases |more|
  {
    if more == [] {
      run' := run;
      assert acts + more == acts;
    } else {
      var front := more[..|more| - 1];
      var m := After(c, run[|acts|], front).value;
      run' := RunOn(c, run, acts, front, m);
      Extend(c, run', acts + front, more[|more| - 1], s');
      run' := run' + [s'];
      assert acts + more == (acts + front) + [more[|more| - 1]];
    }
  }

  lemma RunOnTwice(c: Config, run: seq<System>, acts: seq<Action>, first: seq<Action>, second: seq<Action>, m: System, s': System)
    returns (run': seq<System>)
    requires IsRun(c, run, acts) && After(c, run[|acts|], first) == Some(m) && After(c, m, second) == Some(s')
    ensures IsRun(c, run', acts + first + second) && run'[|run'| - 1] == s'
  {
    run' := RunOn(c, run, acts, first, m);
    run' := RunOn(c, run', acts + first, second, s');
  }

  /** What the claiming loop does to the counters for one candidate: nothing, a reservation that is
      kept, or one that is given back because the row was gone. */
  function CountsAfter(rows: map<JobId, Row>, inflight: map<Tenant, nat>, kinds: set<Kind>, cap: int, j: Job): map<Tenant, nat> {
    if j.kind !in kinds || Get(inflight, j.tenant) >= cap then inflight
    else if Claimable(rows, j.id) then Bump(inflight, j.tenant)
    else Drop(Bump(inflight, j.tenant), j.tenant)
  }

  predicate Claimable(rows: map<JobId, Row>, id: JobId) {
    id in rows && rows[id].state == Pending
  }

  predicate Takes(rows: map<JobId, Row>, inflight: map<Tenant, nat>, kinds: set<Kind>, cap: int, j: Job) {
    j.kind in kinds && Get(inflight, j.tenant) < cap && Claimable(rows, j.id)
  }

  /** The state after pass `p`, alone, has dealt with its first candidate. */
  ghost function Tried(c: Config, s: System, p: PassId, k: Ticket): System
    requires AtCandidate(s, p)
  {
    var q := s.passes[p];
    var j := q.cands[0];
    var counts := CountsAfter(s.rows, s.inflight, q.kinds, c.perTenantCap, j);
    if Takes(s.rows, s.inflight, q.kinds, c.perTenantCap, j) then
      s.(rows := ClaimRow(s.rows, j.id), inflight := counts, holds := s.holds[k := Hold(j, Claimed)],
         passes := s.passes[p := Scanning(q.slots - 1, q.kinds, q.cands[1..])])
    else s.(inflight := counts, passes := s.passes[p := Scanning(q.slots, q.kinds, q.cands[1..])])
  }

  /** One candidate takes one step, two, or three. */
  lemma TriedIsReached(c: Config, s0: System, acts: seq<Action>, s: System, p: PassId, k: Ticket) returns (acts': seq<Action>)
    requires After(c, s0, acts) == Some(s) && AtCandidate(s, p) && s.mutex.None? && k !in s.holds
    ensures After(c, s0, acts') == Some(Tried(c, s, p, k))
  {
    var q := s.passes[p];
    var j := q.cands[0];
    if j.kind !in q.kinds || Get(s.inflight, j.tenant) >= c.perTenantCap {
      OneMore(c, s0, acts, s, Skip(p));
      acts' := acts + [Skip(p)];
    } else {
      var s1 := s.(inflight := Bump(s.inflight, j.tenant), passes := s.passes[p := Reserved(q.slots, q.kinds, q.cands)]);
      OneMore(c, s0, acts, s, Reserve(p));
      acts' := ReservedIsTried(c, s0, acts + [Reserve(p)], s, s1, p, k);
    }
  }

  lemma ReservedIsTried(c: Config, s0: System, acts: seq<Action>, s: System, s1: System, p: PassId, k: Ticket) returns (acts': seq<Action>)
    requires AtCandidate(s, p) && s.mutex.None? && k !in s.holds && After(c, s0, acts) == Some(s1)
    requires var q := s.passes[p];
      && q.cands[0].kind in q.kinds && Get(s.inflight, q.cands[0].tenant) < c.perTenantCap
      && s1 == s.(inflight := Bump(s.inflight, q.cands[0].tenant), passes := s.passes[p := Reserved(q.slots, q.kinds, q.cands)])
    ensures After(c, s0, acts') == Some(Tried(c, s, p, k))
  {
    var q := s.passes[p];
    var s2 := Apply(c, s1, Claim(p, k));
    OneMore(c, s0, acts, s1, Claim(p, k));
    acts' := acts + [Claim(p, k)];
    if Claimable(s.rows, q.cands[0].id) {
      assert s2.passes == s.passes[p := Scanning(q.slots - 1, q.kinds, q.cands[1..])];
    } else {
      OneMore(c, s0, acts', s2, Unreserve(p));
      acts' := acts' + [Unreserve(p)];
      assert Apply(c, s2, Unreserve(p)).passes == s.passes[p := Scanning(q.slots, q.kinds, q.cands[1..])];
    }
  }

  /** A pass that begins and scans at once has its candidates and slots as a lease takes them. */
  lemma BeginAndSelect(c: Config, s: System, p: PassId, now: string, found: seq<Job>)
    requires Enabled(c, s, Begin(p)) && IsSelection(s.rows, now, found)
    ensures After(c, s, [Begin(p), Select(p, now, found)])
      == Some(s.(passes := s.passes[p := Scanning(c.globalCap - Sum(s.inflight), s.handlers, found)]))
  {
    var s1 := Apply(c, s, Begin(p));
    assert After(c, s, []) == Some(s);
    OneMore(c, s, [], s, Begin(p));
    OneMore(c, s, [Begin(p)], s1, Select(p, now, found));
    assert [] + [Begin(p)] + [Select(p, now, found)] == [Begin(p), Select(p, now, found)];
    assert Apply(c, s1, Select(p, now, found)).passes == s.passes[p := Scanning(c.globalCap - Sum(s.inflight), s.handlers, found)];
  }

  /** The workers that a lease starts, with tickets from `base` on. */
  ghost function Leased(holds: map<Ticket, Hold>, base: Ticket, claimed: seq<Job>): (r: map<Ticket, Hold>)
    ensures forall k :: k in r ==> k in holds || k < base + |claimed|
  {
    if claimed == [] then holds
    else
      var last := |claimed| - 1;
      Leased(holds, base, claimed[..last])[base + last := Hold(claimed[last], Claimed)]
  }

  lemma LeasedAppend(holds: map<Ticket, Hold>, base: Ticket, claimed: seq<Job>, j: Job)
    ensures Leased(holds, base, claimed + [j]) == Leased(holds, base, claimed)[base + |claimed| := Hold(j, Claimed)]
  {
    assert (claimed + [j])[..|claimed|] == claimed;
  }

  /** State `s` with pass `p` at its claiming loop, after the claims of `claimed`. */
  ghost function Midway(s: System, rows: map<JobId, Row>, inflight: map<Tenant, nat>, p: PassId, base: Ticket, claimed: seq<Job>, pass: Pass): System {
    s.(rows := rows, inflight := inflight, holds := Leased(s.holds, base, claimed), passes := s.passes[p := pass])
  }

  lemma MidwayTried(c: Config, s: System, rows: map<JobId, Row>, inflight: map<Tenant, nat>, p: PassId, base: Ticket, claimed: seq<Job>, q: Pass)
    requires q.Scanning? && q.slots > 0 && q.cands != [] && forall k :: k in s.holds ==> k < base
    ensures var j, k := q.cands[0], base + |claimed|;
      var m := Midway(s, rows, inflight, p, base, claimed, q);
      var won := Takes(rows, inflight, q.kinds, c.perTenantCap, j);
      && k !in m.holds
      && Tried(c, m, p, k) == Midway(s, if won then ClaimRow(rows, j.id) else rows, CountsAfter(rows, inflight, q.kinds, c.perTenantCap, j), p, base,
           if won then claimed + [j] else claimed, Scanning(if won then q.slots - 1 else q.slots, q.kinds, q.cands[1..]))
  {
    LeasedAppend(s.holds, base, claimed, q.cands[0]);
  }

  /** The claiming loop of pass `p`, which had `free` slots and the candidates `found` in state `s`, comes to its
      candidate `i` by the steps `acts`. */
  ghost predicate Reached(c: Config, s: System, p: PassId, base: Ticket, kinds: set<Kind>, free: int, found: seq<Job>, i: nat,
                          acts: seq<Action>, claimed: seq<Job>, rows: map<JobId, Row>, inflight: map<Tenant, nat>) {
    && i <= |found|
    && After(c, s.(passes := s.passes[p := Scanning(free, kinds, found)]), acts)
         == Some(Midway(s, rows, inflight, p, base, claimed, Scanning(free - |claimed|, kinds, found[i..])))
  }

  lemma ReachedNext(c: Config, s: System, p: PassId, base: Ticket, kinds: set<Kind>, free: int, found: seq<Job>, i: nat,
                    acts: seq<Action>, claimed: seq<Job>, rows: map<JobId, Row>, inflight: map<Tenant, nat>) returns (acts': seq<Action>)
    requires Reached(c, s, p, base, kinds, free, found, i, acts, claimed, rows, inflight) && i < |found| && |claimed| < free
    requires s.mutex.None? && forall k :: k in s.holds ==> k < base
    ensures var j := found[i];
      var won, counts := Takes(rows, inflight, kinds, c.perTenantCap, j), CountsAfter(rows, inflight, kinds, c.perTenantCap, j);
      if won then Reached(c, s, p, base, kinds, free, found, i + 1, acts', claimed + [j], ClaimRow(rows, j.id), counts)
      else Reached(c, s, p, base, kinds, free, found, i + 1, acts', claimed, rows, counts)
  {
    var q := Scanning(free - |claimed|, kinds, found[i..]);
    MidwayTried(c, s, rows, inflight, p, base, claimed, q);
    acts' := TriedIsReached(c, s.(passes := s.passes[p := Scanning(free, kinds, found)]), acts,
                            Midway(s, rows, inflight, p, base, claimed, q), p, base + |claimed|);
    assert found[i..][1..] == found[i + 1..] && found[i..][0] == found[i];
  }

  /** A whole lease: pass `p`, at its candidates in state `s`, deals with them by the steps `acts` and ends. */
  ghost predicate LeaseSteps(c: Config, s: System, p: PassId, base: Ticket, kinds: set<Kind>, free: int, found: seq<Job>,
                             acts: seq<Action>, claimed: seq<Job>, rows: map<JobId, Row>, inflight: map<Tenant, nat>) {
    After(c, s.(passes := s.passes[p := Scanning(free, kinds, found)]), acts)
      == Some(s.(rows := rows, inflight := inflight, holds := Leased(s.holds, base, claimed)))
  }

  lemma PassEnds(c: Config, s: System, p: PassId, base: Ticket, kinds: set<Kind>, free: int, found: seq<Job>, i: nat,
                 acts: seq<Action>, claimed: seq<Job>, rows: map<JobId, Row>, inflight: map<Tenant, nat>) returns (acts': seq<Action>)
    requires Reached(c, s, p, base, kinds, free, found, i, acts, claimed, rows, inflight)
    requires p !in s.passes && (i == |found| || |claimed| == free)
    ensures LeaseSteps(c, s, p, base, kinds, free, found, acts', claimed, rows, inflight)
  {
    var q := Scanning(free - |claimed|, kinds, found[i..]);
    OneMore(c, s.(passes := s.passes[p := Scanning(free, kinds, found)]), acts, Midway(s, rows, inflight, p, base, claimed, q), Finish(p));
    acts' := acts + [Finish(p)];
    assert s.passes[p := q] - {p} == s.passes;
  }

  /** A lease that scans the rows as they are prolongs any run, and so everything that is proved of runs
      holds after it. */
  lemma LeaseProlongsRun(c: Config, run: seq<System>, acts: seq<Action>, p: PassId, base: Ticket, now: string, found: seq<Job>,
                         more: seq<Action>, claimed: seq<Job>, rows: map<JobId, Row>, inflight: map<Tenant, nat>)
    returns (run': seq<System>)
    requires IsRun(c, run, acts) && Enabled(c, run[|acts|], Begin(p)) && IsSelection(run[|acts|].rows, now, found)
    requires var s := run[|acts|];
      LeaseSteps(c, s, p, base, s.handlers, c.globalCap - Sum(s.inflight), found, more, claimed, rows, inflight)
    ensures IsRun(c, run', acts + [Begin(p), Select(p, now, found)] + more)
    ensures run'[|run'| - 1] == run[|acts|].(rows := rows, inflight := inflight, holds := Leased(run[|acts|].holds, base, claimed))
  {
    var s := run[|acts|];
    BeginAndSelect(c, s, p, now, found);
    run' := RunOnTwice(c, run, acts, [Begin(p), Select(p, now, found)], more,
                       s.(passes := s.passes[p := Scanning(c.globalCap - Sum(s.inflight), s.handlers, found)]),
                       s.(rows := rows, inflight := inflight, holds := Leased(s.holds, base, claimed)));
  }

  // ---- Selections that start with a given row ----

  /** A pending row that no other pending row is due before. */
  ghost predicate IsEarliest(rows: map<JobId, Row>, m: JobId) {
    && m in rows && rows[m].state == Pending
    && forall id :: id in rows && rows[id].state == Pending ==> LexLeq(rows[m].runAfter, rows[id].runAfter)
  }

  ghost predicate Copies(rows: map<JobId, Row>, found: seq<Job>, ids: set<JobId>) {
    && (forall i :: 0 <= i < |found| ==> found[i].id in ids && found[i].id in rows && found[i] == CopyOf(rows, found[i].id))
    && (forall i, j :: 0 <= i < j < |found| ==> found[i].id != found[j].id)
  }

  /** Up to `n` copies of different rows from `ids`, and all of them if there are no more. */
  lemma {:induction false} PickCopies(rows: map<JobId, Row>, ids: set<JobId>, n: nat) returns (found: seq<Job>)
    requires forall id :: id in ids ==> id in rows
    ensures |found| <= n && Copies(rows, found, ids)
    ensures |found| < n ==> forall id :: id in ids ==> CopyOf(rows, id) in found
    decreases n
  {
    if n == 0 || ids == {} {
      found := [];
    } else {
      var id :| id in ids;
      var rest := PickCopies(rows, ids - {id}, n - 1);
      found := [CopyOf(rows, id)] + rest;
      forall x | |found| < n && x in ids ensures CopyOf(rows, x) in found {
        if x != id {
          assert CopyOf(rows, x) in rest;
        }
      }
    }
  }

  /** When the earliest row falls due, a selection may start with it. */
  lemma SelectionWith(rows: map<JobId, Row>, m: JobId) returns (found: seq<Job>)
    requires IsEarliest(rows, m)
    ensures IsSelection(rows, rows[m].runAfter, found) && found != [] && found[0] == CopyOf(rows, m)
  {
    var now := rows[m].runAfter;
    var due := set id | id in rows && Due(rows[id], now);
    forall id | id in rows && Due(rows[id], now) ensures rows[id].runAfter == now {
      LexAntisymmetric(rows[id].runAfter, now);
    }
    LexReflexive(now);
    var rest := PickCopies(rows, due - {m}, LEASE_BATCH - 1);
    found := [CopyOf(rows, m)] + rest;
    assert forall i :: 0 < i < |found| ==> found[i] == rest[i - 1];
    forall x | x in rows && Due(rows[x], now) && |found| < LEASE_BATCH ensures CopyOf(rows, x) in found {
      if x != m {
        assert CopyOf(rows, x) in rest;
      }
    }
  }
}
