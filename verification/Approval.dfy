/**
  The approval queue of modules/policy/approval.go: the effect of each operation on the table of
  requests, runs of operations in any order, and the class that holds the table. Clock readings are
  parameters; where an operation reads the clock twice it has two.
 */
module Approval {
  import opened Common
  import opened Int64

  const RETAIN: int := 10 * MINUTE
  const DEFAULT_TTL: int := 15 * MINUTE

  datatype Status = Pending | Approved | Denied | Expired

  datatype Details = Details(tenant: string, user: string, agent: string, action: string, tool: string, rule: string)

  /** No decision time is Go's zero time. */
  datatype Request = Request(
    id: string, details: Details, status: Status, createdAt: int, expiresAt: int, decidedBy: string, decidedAt: Option<int>)

  datatype Error = NotFound | Already(status: Status) | PastDeadline

  type Table = map<string, Request>

  // ---- The critical sections, shared with the class below ----

  function NewRequest(id: string, details: Details, created: int, ttl: int): Request {
    Request(id, details, Pending, created, created + ttl, "", None)
  }

  function TerminalAt(r: Request): int {
    if r.decidedAt.Some? then r.decidedAt.value else r.expiresAt
  }

  /** A request after a sweep, unless the sweep removes it. */
  function SweptOne(r: Request, now: int, retain: int): Option<Request> {
    if r.status == Pending then Some(if now > r.expiresAt then r.(status := Expired, decidedAt := Some(now)) else r)
    else if now > TerminalAt(r) + retain then None
    else Some(r)
  }

  function Swept(requests: Table, now: int, retain: int): Table {
    map id | id in requests && SweptOne(requests[id], now, retain).Some? :: SweptOne(requests[id], now, retain).value
  }

  function DecisionError(requests: Table, id: string): Option<Error> {
    if id !in requests then Some(NotFound)
    else if requests[id].status != Pending then Some(Already(requests[id].status))
    else None
  }

  /** An approval past the deadline expires the request instead. */
  function AfterApprove(requests: Table, id: string, who: string, check: int, decide: int): Table {
    if DecisionError(requests, id).Some? then requests
    else if check > requests[id].expiresAt then requests[id := requests[id].(status := Expired, decidedAt := Some(decide))]
    else requests[id := requests[id].(status := Approved, decidedBy := who, decidedAt := Some(decide))]
  }

  /** A denial does not look at the deadline. */
  function AfterDeny(requests: Table, id: string, who: string, decide: int): Table {
    if DecisionError(requests, id).Some? then requests
    else requests[id := requests[id].(status := Denied, decidedBy := who, decidedAt := Some(decide))]
  }

  // ---- Runs ----

  /** How a request left the pending state: when the deadline was looked at, and the recorded time. */
  datatype End = End(status: Status, checkedAt: int, at: int)

  /** `clock` is the last reading. The rest is history: the deadline of each submitted request, how
      often it has left the pending state, and how it last did. */
  datatype State = State(
    ttl: int, retain: nat, requests: Table, clock: int,
    deadline: map<string, int>, departures: map<string, nat>, ends: map<string, End>)

  datatype Action =
    | Submit(id: string, details: Details, created: int, now: int)
    | Sweep(now: int)
    | Approve(id: string, who: string, check: int, decide: int)
    | Deny(id: string, who: string, decide: int)

  function Initial(ttl: int, retain: nat, clock: int): State {
    State(ttl, retain, map[], clock, map[], map[], map[])
  }

  /** Readings do not go back, and identifiers are random, so a new one was never used. */
  ghost predicate Enabled(s: State, a: Action) {
    match a
    case Submit(id, _, created, now) => id !in s.deadline && s.clock <= created <= now
    case Sweep(now) => s.clock <= now
    case Approve(_, _, check, decide) => s.clock <= check <= decide
    case Deny(_, _, decide) => s.clock <= decide
  }

  function Before(s: State, a: Action): Table {
    if a.Submit? then s.requests[a.id := NewRequest(a.id, a.details, a.created, s.ttl)] else s.requests
  }

  function After(s: State, a: Action): Table {
    match a
    case Submit(_, _, _, now) => Swept(Before(s, a), now, s.retain)
    case Sweep(now) => Swept(s.requests, now, s.retain)
    case Approve(id, who, check, decide) => AfterApprove(s.requests, id, who, check, decide)
    case Deny(id, who, decide) => AfterDeny(s.requests, id, who, decide)
  }

  function CheckTime(a: Action): int {
    match a
    case Submit(_, _, _, now) => now
    case Sweep(now) => now
    case Approve(_, _, check, _) => check
    case Deny(_, _, decide) => decide
  }

  function LastReading(a: Action): int {
    match a
    case Submit(_, _, _, now) => now
    case Sweep(now) => now
    case Approve(_, _, _, decide) => decide
    case Deny(_, _, decide) => decide
  }

  /** The request was pending and is not any more, kept or removed. */
  predicate Departs(before: Table, after: Table, id: string) {
    id in before && before[id].status == Pending && (id !in after || after[id].status != Pending)
  }

  function EndOf(after: Table, id: string, check: int, clock: int): End {
    if id in after then End(after[id].status, check, TerminalAt(after[id])) else End(Pending, check, clock)
  }

  function Count(departures: map<string, nat>, id: string): nat {
    if id in departures then departures[id] else 0
  }

  ghost function Apply(s: State, a: Action): State
    requires Enabled(s, a)
  {
    var before, after, clock := Before(s, a), After(s, a), LastReading(a);
    var deadline := if a.Submit? then s.deadline[a.id := a.created + s.ttl] else s.deadline;
    State(
      s.ttl, s.retain, after, clock, deadline,
      map id | id in deadline :: Count(s.departures, id) + (if Departs(before, after, id) then 1 else 0),
      map id | id in deadline && (id in s.ends || Departs(before, after, id)) ::
        if Departs(before, after, id) then EndOf(after, id, CheckTime(a), clock) else s.ends[id])
  }

  ghost predicate IsRun(s: State, actions: seq<Action>, t: State)
    decreases |actions|
  {
    if actions == [] then s == t
    else Enabled(s, actions[0]) && IsRun(Apply(s, actions[0]), actions[1..], t)
  }

  // ---- The invariant ----

  ghost predicate PendingOk(s: State, id: string)
    requires id in s.deadline
  {
    && id in s.requests && s.requests[id].status == Pending && s.requests[id].decidedAt == None
    && id !in s.ends
  }

  ghost predicate EndedOk(s: State, id: string)
    requires id in s.deadline
  {
    && id in s.ends
    && var e := s.ends[id];
    && e.status != Pending && s.deadline[id] - s.ttl <= e.checkedAt <= e.at <= s.clock
    && (e.status == Approved ==> e.checkedAt <= s.deadline[id])
    && (e.status == Expired ==> e.checkedAt > s.deadline[id])
    && (id in s.requests ==> s.requests[id].status == e.status && s.requests[id].decidedAt == Some(e.at))
    && (id !in s.requests ==> s.clock > e.at + s.retain)
  }

  /** What holds of each submitted request. */
  ghost predicate RequestOk(s: State, id: string) {
    && id in s.deadline && id in s.departures && s.deadline[id] - s.ttl <= s.clock
    && (id in s.requests ==> s.requests[id].id == id && s.requests[id].expiresAt == s.deadline[id])
    && ((s.departures[id] == 0 && PendingOk(s, id)) || (s.departures[id] == 1 && EndedOk(s, id)))
  }

  ghost predicate Inv(s: State) {
    && s.requests.Keys <= s.deadline.Keys && s.ends.Keys <= s.deadline.Keys && s.departures.Keys == s.deadline.Keys
    && forall id :: id in s.deadline ==> RequestOk(s, id)
  }

  /** What a sweep does to a request that had been submitted before. */
  ghost predicate SweepsTo(s: State, t: State, id: string, now: int)
    requires id in s.deadline
  {
    && t.ttl == s.ttl && t.retain == s.retain && t.clock == now
    && id in t.deadline && t.deadline[id] == s.deadline[id] && id in t.departures
    && (if id in t.requests then id in s.requests && SweptOne(s.requests[id], now, s.retain) == Some(t.requests[id])
        else id in s.requests ==> SweptOne(s.requests[id], now, s.retain).None?)
    && (if Departs(s.requests, t.requests, id) then
          t.departures[id] == Count(s.departures, id) + 1 && id in t.ends && t.ends[id] == EndOf(t.requests, id, now, now)
        else
          t.departures[id] == Count(s.departures, id) && (id in t.ends <==> id in s.ends) && (id in s.ends ==> t.ends[id] == s.ends[id]))
  }

  lemma SweepKeepsOk(s: State, t: State, id: string, now: int)
    requires id in s.deadline && RequestOk(s, id) && SweepsTo(s, t, id, now) && s.clock <= now
    ensures RequestOk(t, id)
  {
  }

  lemma SweepKeepsRequest(s: State, now: int, id: string)
    requires Inv(s) && Enabled(s, Sweep(now)) && id in s.deadline
    ensures RequestOk(Apply(s, Sweep(now)), id)
  {
    SweepKeepsOk(s, Apply(s, Sweep(now)), id, now);
  }

  lemma SubmitKeepsOthers(s: State, a: Action, id: string)
    requires Inv(s) && a.Submit? && Enabled(s, a) && id in s.deadline
    ensures RequestOk(Apply(s, a), id)
  {
    SweepKeepsOk(s, Apply(s, a), id, a.now);
  }

  lemma SubmitKeepsRequest(s: State, a: Action, id: string)
    requires Inv(s) && a.Submit? && Enabled(s, a) && (id in s.deadline || id == a.id)
    ensures RequestOk(Apply(s, a), id)
  {
    if id != a.id {
      SubmitKeepsOthers(s, a, id);
    }
  }

  /** Other requests are as they were, at a later time. */
  lemma LaterIsOk(s: State, t: State, id: string)
    requires RequestOk(s, id) && t.ttl == s.ttl && t.retain == s.retain && s.clock <= t.clock
    requires id in t.deadline && t.deadline[id] == s.deadline[id] && id in t.departures && t.departures[id] == s.departures[id]
    requires (id in t.requests <==> id in s.requests) && (id in s.requests ==> t.requests[id] == s.requests[id])
    requires (id in t.ends <==> id in s.ends) && (id in s.ends ==> t.ends[id] == s.ends[id])
    ensures RequestOk(t, id)
  {
  }

  lemma ApproveKeepsRequest(s: State, a: Action, id: string)
    requires Inv(s) && a.Approve? && Enabled(s, a) && id in s.deadline
    ensures RequestOk(Apply(s, a), id)
  {
    assert RequestOk(s, id);
    if id != a.id || DecisionError(s.requests, id).Some? {
      LaterIsOk(s, Apply(s, a), id);
    } else {
      DecidedIsOk(s, Apply(s, a), id, a.check, a.decide);
    }
  }

  /** A decision about a pending request ends it. */
  lemma DecidedIsOk(s: State, t: State, id: string, check: int, at: int)
    requires RequestOk(s, id) && DecisionError(s.requests, id).None? && t.ttl == s.ttl && t.retain == s.retain
    requires s.clock <= check <= at == t.clock
    requires id in t.deadline && t.deadline[id] == s.deadline[id] && id in t.departures && t.departures[id] == s.departures[id] + 1
    requires id in t.requests && t.requests[id].id == id && t.requests[id].expiresAt == s.deadline[id] && t.requests[id].decidedAt == Some(at)
    requires t.requests[id].status != Pending && id in t.ends && t.ends[id] == End(t.requests[id].status, check, at)
    requires t.requests[id].status == Approved ==> check <= s.deadline[id]
    requires t.requests[id].status == Expired ==> check > s.deadline[id]
    ensures RequestOk(t, id)
  {
  }

  lemma DenyKeepsRequest(s: State, a: Action, id: string)
    requires Inv(s) && a.Deny? && Enabled(s, a) && id in s.deadline
    ensures RequestOk(Apply(s, a), id)
  {
    assert RequestOk(s, id);
    if id != a.id || DecisionError(s.requests, id).Some? {
      LaterIsOk(s, Apply(s, a), id);
    } else {
      DecidedIsOk(s, Apply(s, a), id, a.decide, a.decide);
    }
  }

  lemma StepKeepsInv(s: State, a: Action)
    requires Inv(s) && Enabled(s, a)
    ensures Inv(Apply(s, a))
  {
    var t := Apply(s, a);
    forall id | id in t.deadline ensures RequestOk(t, id) {
      if a.Submit? {
        SubmitKeepsRequest(s, a, id);
      } else if a.Sweep? {
        SweepKeepsRequest(s, a.now, id);
      } else if a.Approve? {
        ApproveKeepsRequest(s, a, id);
      } else {
        DenyKeepsRequest(s, a, id);
      }
    }
    assert t.requests.Keys <= t.deadline.Keys;
  }

  lemma {:induction false} RunKeepsInv(s: State, actions: seq<Action>, t: State)
    requires Inv(s) && IsRun(s, actions, t)
    ensures Inv(t) && t.ttl == s.ttl && t.retain == s.retain
    decreases |actions|
  {
    if actions != [] {
      StepKeepsInv(s, actions[0]);
      RunKeepsInv(Apply(s, actions[0]), actions[1..], t);
    }
  }

  ghost predicate Reachable(s: State) {
    exists ttl: int, retain: nat, clock: int, actions: seq<Action> :: IsRun(Initial(ttl, retain, clock), actions, s)
  }

  lemma ReachableIsInv(s: State)
    requires Reachable(s)
    ensures Inv(s)
  {
    var ttl: int, retain: nat, clock: int, actions: seq<Action> :| IsRun(Initial(ttl, retain, clock), actions, s);
    RunKeepsInv(Initial(ttl, retain, clock), actions, s);
  }

  // ---- What runs guarantee ----

  /** In every run a request leaves the pending state at most once, and is there until it does. */
  lemma LeavesPendingOnce(s: State, id: string)
    requires Reachable(s) && id in s.deadline
    ensures Count(s.departures, id) <= 1 && (Count(s.departures, id) == 1 <==> id in s.ends)
    ensures id !in s.ends ==> id in s.requests && s.requests[id].status == Pending
  {
    ReachableIsInv(s);
    assert RequestOk(s, id);
  }

  /** Approved requests were checked before their deadline, expired ones after it, and nothing ends
      in another way than by approval, denial and expiry. */
  lemma ApprovedInTime(s: State, id: string)
    requires Reachable(s) && id in s.ends
    ensures id in s.deadline && s.ends[id].status != Pending
    ensures s.ends[id].status == Approved ==> s.ends[id].checkedAt <= s.deadline[id]
    ensures s.ends[id].status == Expired ==> s.ends[id].at > s.deadline[id]
  {
    ReachableIsInv(s);
    assert RequestOk(s, id);
  }

  /** A decision can be read for at least the retention time, and what is read is the decision. */
  lemma DecisionIsReadable(s: State, id: string)
    requires Reachable(s) && id in s.ends
    ensures s.clock <= s.ends[id].at + s.retain ==> id in s.requests
    ensures id in s.requests ==> s.requests[id].status == s.ends[id].status
  {
    ReachableIsInv(s);
    assert RequestOk(s, id);
  }

  lemma EndStays(s: State, a: Action, id: string)
    requires Inv(s) && Enabled(s, a) && id in s.ends
    ensures id in Apply(s, a).ends && Apply(s, a).ends[id] == s.ends[id]
  {
    assert RequestOk(s, id);
  }

  /** A decision is final: whatever happens afterwards, it stays what it was. */
  lemma {:induction false} DecisionIsFinal(s: State, actions: seq<Action>, t: State, id: string)
    requires Inv(s) && IsRun(s, actions, t) && id in s.ends
    ensures id in t.ends && t.ends[id] == s.ends[id]
    decreases |actions|
  {
    if actions != [] {
      EndStays(s, actions[0], id);
      StepKeepsInv(s, actions[0]);
      DecisionIsFinal(Apply(s, actions[0]), actions[1..], t, id);
    }
  }

  // ---- Which action ends a request, and how ----

  /** What it takes for the action to end a pending request with this deadline in this way. */
  predicate EndsBy(a: Action, id: string, deadline: int, status: Status) {
    match status
    case Pending => false
    case Approved => a.Approve? && a.id == id && a.check <= deadline
    case Denied => a.Deny? && a.id == id
    case Expired => (a.Sweep? && a.now > deadline) || (a.Submit? && a.now > deadline) || (a.Approve? && a.id == id && a.check > deadline)
  }

  /** Who is named as the one that ended it. */
  function Decider(a: Action, status: Status): string {
    if status == Approved && a.Approve? then a.who else if status == Denied && a.Deny? then a.who else ""
  }

  /** Both a sweep and the sweep of a submission expire what is past its deadline, and end nothing else. */
  lemma SweepEnds(s: State, t: State, id: string, now: int)
    requires id in s.deadline && RequestOk(s, id) && id !in s.ends && SweepsTo(s, t, id, now)
    ensures id in t.ends <==> now > s.deadline[id]
    ensures id in t.ends ==> t.ends[id].status == Expired
  {
  }

  lemma SubmitEnds(s: State, a: Action)
    requires Inv(s) && a.Submit? && Enabled(s, a)
    ensures var t := Apply(s, a);
      && a.id in t.deadline && (a.id in t.ends <==> a.now > t.deadline[a.id])
      && (a.id in t.ends ==> t.ends[a.id].status == Expired)
  {
  }

  lemma ApproveEnds(s: State, a: Action, id: string)
    requires Inv(s) && a.Approve? && Enabled(s, a) && id in s.deadline && RequestOk(s, id) && id !in s.ends
    ensures var t := Apply(s, a);
      && (id in t.ends <==> id == a.id)
      && (id in t.ends ==> t.ends[id].status == if a.check > s.deadline[id] then Expired else Approved)
  {
  }

  lemma DenyEnds(s: State, a: Action, id: string)
    requires Inv(s) && a.Deny? && Enabled(s, a) && id in s.deadline && RequestOk(s, id) && id !in s.ends
    ensures var t := Apply(s, a);
      && (id in t.ends <==> id == a.id)
      && (id in t.ends ==> t.ends[id].status == Denied)
  {
  }

  /** A step ends a request in a way exactly when its action is one that does. */
  lemma StepEnds(s: State, a: Action, id: string, status: Status)
    requires Inv(s) && Enabled(s, a) && id !in s.ends
    ensures var t := Apply(s, a);
      id in t.ends && t.ends[id].status == status <==> id in t.deadline && EndsBy(a, id, t.deadline[id], status)
  {
    if id in s.deadline {
      assert RequestOk(s, id);
      match a
      case Submit(_, _, _, now) => SweepEnds(s, Apply(s, a), id, now);
      case Sweep(now) => SweepEnds(s, Apply(s, a), id, now);
      case Approve(_, _, _, _) => ApproveEnds(s, a, id);
      case Deny(_, _, _) => DenyEnds(s, a, id);
    } else if a.Submit? && id == a.id {
      SubmitEnds(s, a);
    }
  }

  /** As long as nothing has ended a request, nobody is named. */
  ghost predicate Undecided(s: State) {
    forall id :: id in s.requests && s.requests[id].status == Pending ==> s.requests[id].decidedBy == ""
  }

  lemma StepNamesDecider(s: State, a: Action, id: string)
    requires Inv(s) && Undecided(s) && Enabled(s, a) && id !in s.ends && id in Apply(s, a).ends
    ensures var t := Apply(s, a); id in t.requests ==> t.requests[id].decidedBy == Decider(a, t.ends[id].status)
  {
    assert id in s.deadline ==> RequestOk(s, id);
  }

  lemma StepKeepsUndecided(s: State, a: Action)
    requires Undecided(s) && Enabled(s, a)
    ensures Undecided(Apply(s, a))
  {
  }

  lemma StepKeepsEnded(s: State, a: Action, id: string)
    requires Inv(s) && Enabled(s, a) && id in s.ends
    ensures var t := Apply(s, a);
      && id in t.deadline && t.deadline[id] == s.deadline[id] && id in t.ends && t.ends[id] == s.ends[id]
      && (id in t.requests ==> id in s.requests && t.requests[id] == s.requests[id])
  {
    assert RequestOk(s, id);
  }

  lemma {:induction false} EndedStays(s: State, actions: seq<Action>, t: State, id: string)
    requires Inv(s) && IsRun(s, actions, t) && id in s.ends
    ensures id in t.deadline && t.deadline[id] == s.deadline[id] && id in t.ends && t.ends[id] == s.ends[id]
    ensures id in t.requests ==> id in s.requests && t.requests[id] == s.requests[id]
    decreases |actions|
  {
    if actions != [] {
      StepKeepsEnded(s, actions[0], id);
      StepKeepsInv(s, actions[0]);
      EndedStays(Apply(s, actions[0]), actions[1..], t, id);
    }
  }

  /** Step `i` of the run, from state `u`, is the one that ended the request. */
  ghost predicate EndedAt(s: State, actions: seq<Action>, t: State, id: string, i: nat, u: State) {
    && i < |actions| && IsRun(s, actions[..i], u) && Enabled(u, actions[i]) && id !in u.ends
    && IsRun(Apply(u, actions[i]), actions[i + 1..], t)
  }

  lemma EndedAtLater(s: State, actions: seq<Action>, t: State, id: string, i: nat, u: State)
    requires actions != [] && Enabled(s, actions[0]) && EndedAt(Apply(s, actions[0]), actions[1..], t, id, i, u)
    ensures EndedAt(s, actions, t, id, i + 1, u)
  {
    assert actions[..i + 1][0] == actions[0] && actions[..i + 1][1..] == actions[1..][..i];
    assert actions[1..][i + 1..] == actions[i + 2..];
  }

  /** Every request that has ended was ended by one action of the run: approved by an approval no later than
      its deadline, denied by a denial, expired by an approval, a sweep or a submission later than that. It
      names who approved or denied it for as long as it can be read. */
  lemma {:induction false} EndedByAction(s: State, actions: seq<Action>, t: State, id: string) returns (i: nat, u: State)
    requires Inv(s) && Undecided(s) && IsRun(s, actions, t) && id !in s.ends && id in t.ends
    ensures EndedAt(s, actions, t, id, i, u) && id in t.deadline && EndsBy(actions[i], id, t.deadline[id], t.ends[id].status)
    ensures id in t.requests ==> t.requests[id].status == t.ends[id].status && t.requests[id].decidedBy == Decider(actions[i], t.ends[id].status)
    decreases |actions|
  {
    var s' := Apply(s, actions[0]);
    StepKeepsInv(s, actions[0]);
    if id in s'.ends {
      i, u := 0, s;
      StepEnds(s, actions[0], id, s'.ends[id].status);
      StepNamesDecider(s, actions[0], id);
      EndedStays(s', actions[1..], t, id);
      RunKeepsInv(s, actions, t);
      assert RequestOk(t, id);
      assert actions[..0] == [];
    } else {
      StepKeepsUndecided(s, actions[0]);
      i, u := EndedByAction(s', actions[1..], t, id);
      EndedAtLater(s, actions, t, id, i, u);
      i := i + 1;
    }
  }

  /** The table is bounded by what is recent: after a sweep it holds no pending request past its
      deadline, and no decision older than the retention time. */
  lemma SweepKeepsOnlyRecent(s: State, now: int, id: string)
    requires Inv(s) && Enabled(s, Sweep(now))
    ensures var t := Apply(s, Sweep(now));
      id in t.requests ==>
        if t.requests[id].status == Pending then now <= t.requests[id].expiresAt
        else id in t.ends && now <= t.ends[id].at + s.retain
  {
    var t := Apply(s, Sweep(now));
    StepKeepsInv(s, Sweep(now));
    if id in t.requests {
      assert RequestOk(t, id) && RequestOk(s, id);
    }
  }

  /** A sweep that expires a request does not also remove it: it takes a second one, after the
      retention time. */
  lemma ExpiryIsReadable(s: State, now: int, id: string)
    requires Inv(s) && Enabled(s, Sweep(now)) && id in s.requests && s.requests[id].status == Pending && now > s.deadline[id]
    ensures var t := Apply(s, Sweep(now));
      id in t.requests && t.requests[id].status == Expired && t.ends[id] == End(Expired, now, now)
  {
    assert RequestOk(s, id);
  }

  /** Past the deadline and before a sweep, a denial still denies, where an approval expires. */
  lemma LateDecisions(s: State, id: string, who: string, now: int)
    requires Inv(s) && id in s.requests && s.requests[id].status == Pending && s.clock <= now && now > s.deadline[id]
    ensures Apply(s, Deny(id, who, now)).ends[id].status == Denied
    ensures Apply(s, Approve(id, who, now, now)).ends[id].status == Expired
  {
    assert RequestOk(s, id);
  }

  /** Whether an identifier is new matters: submitting one that was decided makes it pending again,
      and a second decision can contradict the first. */
  lemma ReusedIdIsPendingAgain(requests: Table, id: string, details: Details, ttl: nat, retain: int, who: string, now: int)
    requires id in requests && requests[id].status == Approved
    ensures var again := Swept(requests[id := NewRequest(id, details, now, ttl)], now, retain);
      && id in again && again[id].status == Pending
      && AfterDeny(again, id, who, now)[id].status == Denied
  {
  }

  // ---- Waiting for a decision ----

  const WAIT: int := 5 * MINUTE

  function StatusName(status: Status): string {
    match status
    case Pending => "pending"
    case Approved => "approved"
    case Denied => "denied"
    case Expired => "expired"
  }

  /** What the status request answers; none if the identifier is unknown. */
  function StatusReply(requests: Table, id: string): Option<string> {
    if id in requests then Some(StatusName(requests[id].status)) else None
  }

  /** With the queue's retention time, a poll within the waiting time after submission sees exactly
      where the request stands: a decision made in the meantime cannot be missed. */
  lemma PollSeesDecision(s: State, id: string)
    requires Reachable(s) && s.retain == RETAIN && id in s.deadline && s.clock <= s.deadline[id] - s.ttl + WAIT
    ensures StatusReply(s.requests, id) == Some(StatusName(if id in s.ends then s.ends[id].status else Pending))
  {
    ReachableIsInv(s);
    assert RequestOk(s, id);
  }

  /** With the default lifetime, a poll within the waiting time never sees an expired request. */
  lemma PollNeverSeesExpiry(s: State, id: string)
    requires Reachable(s) && s.ttl == DEFAULT_TTL && id in s.deadline && s.clock <= s.deadline[id] - s.ttl + WAIT
    ensures StatusReply(s.requests, id) != Some("expired")
  {
    ReachableIsInv(s);
    assert RequestOk(s, id);
    assert StatusName(Pending) != "expired" && StatusName(Approved) != "expired" && StatusName(Denied) != "expired";
  }
}

module ApprovalObject {
  import opened Common
  import opened Approval

  class ApprovalQueue {
    var requests: Table
    const ttl: int
    const retain: int

    constructor (ttl: int)
      ensures requests == map[] && retain == RETAIN && this.ttl == if ttl == 0 then DEFAULT_TTL else ttl
    {
      requests := map[];
      this.ttl := if ttl == 0 then DEFAULT_TTL else ttl;
      retain := RETAIN;
    }

    /** `random` is the random identifier for a request that comes without one. */
    method Submit(id: string, details: Details, created: int, now: int, random: string) returns (chosen: string)
      modifies this
      ensures chosen == if id == "" then random else id
      ensures requests == Swept(old(requests)[chosen := NewRequest(chosen, details, created, ttl)], now, retain)
      ensures chosen in requests
      ensures var r := requests[chosen];
        && r.id == chosen && r.details == details && r.createdAt == created && r.expiresAt == created + ttl && r.decidedBy == ""
        && r.status == if now > created + ttl then Expired else Pending
    {
      chosen := if id == "" then random else id;
      requests := requests[chosen := NewRequest(chosen, details, created, ttl)];
      SweepLocked(now);
    }

    /** One pass over the table, in any order, changing and deleting entries on the way. */
    method SweepLocked(now: int)
      modifies this
      ensures requests == Swept(old(requests), now, retain)
    {
      ghost var before := requests;
      var rest := requests.Keys;
      while rest != {}
        invariant rest <= before.Keys
        invariant forall id :: id in rest ==> id in requests && requests[id] == before[id]
        invariant forall id :: id in requests ==> id in before
        invariant forall id :: id in before && id !in rest ==> (id in requests <==> SweptOne(before[id], now, retain).Some?)
        invariant forall id :: id in requests && id !in rest ==> Some(requests[id]) == SweptOne(before[id], now, retain)
        decreases rest
      {
        var id :| id in rest;
        var r := requests[id];
        if r.status == Pending {
          if now > r.expiresAt {
            requests := requests[id := r.(status := Expired, decidedAt := Some(now))];
          }
        } else {
          var terminalAt := if r.decidedAt.Some? then r.decidedAt.value else r.expiresAt;
          if now > terminalAt + retain {
            requests := requests - {id};
          }
        }
        rest := rest - {id};
      }
      assert requests == Swept(before, now, retain);
    }

    method Approve(id: string, decidedBy: string, check: int, decide: int) returns (err: Option<Error>)
      modifies this
      ensures requests == AfterApprove(old(requests), id, decidedBy, check, decide)
      ensures err ==
        if DecisionError(old(requests), id).Some? then DecisionError(old(requests), id)
        else if check > old(requests)[id].expiresAt then Some(PastDeadline)
        else None
      ensures err.None? ==> id in requests && requests[id].status == Approved && requests[id].decidedBy == decidedBy && requests[id].decidedAt == Some(decide)
      ensures err == Some(PastDeadline) ==> id in requests && requests[id].status == Expired && requests[id].decidedAt == Some(decide)
      ensures err.Some? && err != Some(PastDeadline) ==> requests == old(requests)
    {
      if id !in requests {
        return Some(NotFound);
      }
      var r := requests[id];
      if r.status != Pending {
        return Some(Already(r.status));
      }
      if check > r.expiresAt {
        requests := requests[id := r.(status := Expired, decidedAt := Some(decide))];
        return Some(PastDeadline);
      }
      requests := requests[id := r.(status := Approved, decidedBy := decidedBy, decidedAt := Some(decide))];
      return None;
    }

    method Deny(id: string, decidedBy: string, decide: int) returns (err: Option<Error>)
      modifies this
      ensures requests == AfterDeny(old(requests), id, decidedBy, decide)
      ensures err == DecisionError(old(requests), id)
      ensures err.None? ==> id in requests && requests[id].status == Denied && requests[id].decidedBy == decidedBy && requests[id].decidedAt == Some(decide)
      ensures err.Some? ==> requests == old(requests)
    {
      if id !in requests {
        return Some(NotFound);
      }
      var r := requests[id];
      if r.status != Pending {
        return Some(Already(r.status));
      }
      requests := requests[id := r.(status := Denied, decidedBy := decidedBy, decidedAt := Some(decide))];
      return None;
    }

    method Get(id: string) returns (r: Option<Request>)
      ensures r == if id in requests then Some(requests[id]) else None
    {
      return if id in requests then Some(requests[id]) else None;
    }

    /** Each request that is still pending after a sweep, once, oldest first. */
    method ListPending(now: int) returns (pending: seq<Request>)
      modifies this
      ensures requests == Swept(old(requests), now, retain)
      ensures ByAge(pending) && OnceEach(pending, requests)
    {
      SweepLocked(now);
      pending := [];
      ghost var ids: seq<string> := [];
      var rest := requests.Keys;
      while rest != {}
        invariant rest <= requests.Keys && Listed(pending, ids, requests, rest)
        decreases rest
      {
        var id :| id in rest;
        if requests[id].status == Pending {
          pending, ids := pending + [requests[id]], ids + [id];
        }
        rest := rest - {id};
      }
      pending, ids := SortByAge(pending, ids, requests);
    }
  }

  ghost predicate ByAge(s: seq<Request>) {
    forall i, j :: 0 <= i < j < |s| ==> s[i].createdAt <= s[j].createdAt
  }

  /** `pending` are the pending requests of the table except those under `rest`, at `ids`. */
  ghost predicate Listed(pending: seq<Request>, ids: seq<string>, requests: Table, rest: set<string>) {
    && |ids| == |pending| && Distinct(ids)
    && (forall i :: 0 <= i < |ids| ==> ids[i] in requests && ids[i] !in rest && pending[i] == requests[ids[i]] && pending[i].status == Pending)
    && (forall id :: id in requests && id !in rest && requests[id].status == Pending ==> id in ids)
  }

  ghost predicate OnceEach(pending: seq<Request>, requests: Table) {
    exists ids :: Listed(pending, ids, requests, {})
  }

  lemma SwapKeepsListed(pending: seq<Request>, ids: seq<string>, requests: Table, i: nat)
    requires Listed(pending, ids, requests, {}) && i + 1 < |pending|
    ensures Listed(pending[i := pending[i + 1]][i + 1 := pending[i]], ids[i := ids[i + 1]][i + 1 := ids[i]], requests, {})
  {
    var swapped := ids[i := ids[i + 1]][i + 1 := ids[i]];
    forall id | id in ids ensures id in swapped {
      var k :| 0 <= k < |ids| && ids[k] == id;
      assert swapped[if k == i then i + 1 else if k == i + 1 then i else k] == id;
    }
  }

  /** The first `n + 1` are in order, but the one at `i` may belong further left. */
  ghost predicate ByAgeExcept(s: seq<Request>, n: nat, i: nat) {
    && i <= n < |s|
    && forall a, b :: 0 <= a < b <= n && b != i ==> s[a].createdAt <= s[b].createdAt
  }

  function Swapped<T>(s: seq<T>, i: nat): seq<T>
    requires 0 < i < |s|
  {
    s[i - 1 := s[i]][i := s[i - 1]]
  }

  lemma SwapKeepsByAge(s: seq<Request>, n: nat, i: nat)
    requires i > 0 && ByAgeExcept(s, n, i) && s[i].createdAt < s[i - 1].createdAt
    ensures ByAgeExcept(Swapped(s, i), n, i - 1)
  {
    var t := Swapped(s, i);
    forall a, b | 0 <= a < b <= n && b != i - 1 ensures t[a].createdAt <= t[b].createdAt {
      if b == i && a < i - 1 {
        assert s[a].createdAt <= s[i - 1].createdAt;
      }
    }
  }

  lemma InPlace(s: seq<Request>, n: nat, i: nat)
    requires ByAgeExcept(s, n, i) && (i > 0 ==> s[i - 1].createdAt <= s[i].createdAt)
    ensures ByAge(s[..n + 1])
  {
    forall a, b | 0 <= a < b <= n ensures s[a].createdAt <= s[b].createdAt {
      if b == i && a < i - 1 {
        assert s[a].createdAt <= s[i - 1].createdAt;
      }
    }
  }

  /** Sorting by creation time; `ids` follows the moves. */
  method SortByAge(unsorted: seq<Request>, ghost ids0: seq<string>, ghost requests: Table) returns (s: seq<Request>, ghost ids: seq<string>)
    requires Listed(unsorted, ids0, requests, {})
    ensures ByAge(s) && Listed(s, ids, requests, {})
  {
    s, ids := unsorted, ids0;
    for n := 0 to |unsorted|
      invariant |s| == |unsorted| && Listed(s, ids, requests, {}) && ByAge(s[..n])
    {
      s, ids := Insert(s, n, ids, requests);
    }
    assert s[..|s|] == s;
  }

  lemma StartInsert(s: seq<Request>, n: nat)
    requires n < |s| && ByAge(s[..n])
    ensures ByAgeExcept(s, n, n)
  {
    assert forall a :: 0 <= a < n ==> s[..n][a] == s[a];
  }

  method Insert(unsorted: seq<Request>, n: nat, ghost ids0: seq<string>, ghost requests: Table) returns (s: seq<Request>, ghost ids: seq<string>)
    requires n < |unsorted| && Listed(unsorted, ids0, requests, {}) && ByAge(unsorted[..n])
    ensures |s| == |unsorted| && Listed(s, ids, requests, {}) && ByAge(s[..n + 1])
  {
    s, ids := unsorted, ids0;
    var i := n;
    StartInsert(s, n);
    while i > 0 && s[i].createdAt < s[i - 1].createdAt
      invariant 0 <= i <= n && |s| == |unsorted| && Listed(s, ids, requests, {}) && ByAgeExcept(s, n, i)
    {
      SwapKeepsListed(s, ids, requests, i - 1);
      SwapKeepsByAge(s, n, i);
      s, ids := Swapped(s, i), Swapped(ids, i);
      i := i - 1;
    }
    InPlace(s, n, i);
  }
}
