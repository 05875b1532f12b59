/**
  Concurrent-agent slots of modules/quota/enforcer.go:56-84, 126-144, 238-288 and the slot-id
  table of modules/quota/module.go:195-237, as a transition system. An acquisition reads the
  config, looks the slot object up, and takes a slot, in three steps that other goroutines can
  fall between.
 */
module AgentSlots {
  import opened Common
  import opened Counters

  type Tenant = string
  type ObjId = nat
  type Thread = nat
  type HandleId = nat

  /** The counting semaphore object; `cap` is positive for every object that is ever looked up. */
  datatype Slots = Slots(cap: int, inUse: nat)

  datatype Acquisition = Read(tenant: Tenant, max: int) | Holding(tenant: Tenant, max: int, obj: ObjId)

  /** A release closure; one for an unlimited tenant belongs to no object. */
  datatype Handle = Handle(obj: Option<ObjId>, released: bool)

  datatype System = System(
    configs: map<Tenant, int>,
    current: map<Tenant, ObjId>,
    objects: map<ObjId, Slots>,
    threads: map<Thread, Acquisition>,
    handles: map<HandleId, Handle>,
    counter: nat,
    table: map<string, HandleId>)

  datatype Action =
    | SetConfig(tenant: Tenant, max: int)
    | ReadConfig(thread: Thread, tenant: Tenant)
    | Unlimited(thread: Thread, handle: HandleId)
    | Lookup(thread: Thread, obj: ObjId)
    | Take(thread: Thread, handle: HandleId)
    | Call(handle: HandleId)
    | Publish(handle: HandleId, tenant: Tenant)
    | Withdraw(slotId: string)

  function ConfigOf(s: System, t: Tenant): int {
    if t in s.configs then s.configs[t] else 0
  }

  /** `acquire`: a non-positive cap admits everything. */
  predicate CanTake(a: Slots) {
    a.cap <= 0 || a.inUse < a.cap
  }

  function Taken(a: Slots): Slots {
    if CanTake(a) then a.(inUse := a.inUse + 1) else a
  }

  /** `release`, with its guard. */
  function GivenBack(a: Slots): Slots {
    if a.inUse > 0 then a.(inUse := a.inUse - 1) else a
  }

  // ---- Slot ids ----

  function Decimal(n: nat): (s: string)
    ensures |s| >= 1 && (|s| == 1 <==> n < 10) && forall i :: 0 <= i < |s| ==> '0' <= s[i] <= '9'
  {
    var digit := ['0' + (n % 10) as char];
    if n < 10 then digit else Decimal(n / 10) + digit
  }

  /** The id that the quota module hands out: tenant, dash, counter. */
  function SlotId(t: Tenant, n: nat): string {
    t + "-" + Decimal(n)
  }

  lemma {:induction false} DecimalInjective(m: nat, n: nat)
    requires Decimal(m) == Decimal(n)
    ensures m == n
  {
    var a, b := Decimal(m), Decimal(n);
    assert a[|a| - 1] == '0' + (m % 10) as char && b[|b| - 1] == '0' + (n % 10) as char;
    if m >= 10 {
      assert a[..|a| - 1] == Decimal(m / 10) && b[..|b| - 1] == Decimal(n / 10);
      DecimalInjective(m / 10, n / 10);
    }
  }

  lemma LastDash(t: Tenant, n: nat)
    ensures SlotId(t, n)[|t|] == '-' && forall k :: |t| < k < |SlotId(t, n)| ==> SlotId(t, n)[k] != '-'
  {
    forall k | |t| < k < |SlotId(t, n)| ensures SlotId(t, n)[k] != '-' {
      assert SlotId(t, n)[k] == Decimal(n)[k - |t| - 1];
    }
  }

  /** Whatever dashes tenants contain, an id belongs to one tenant and one counter value. */
  lemma SlotIdsUnique(t: Tenant, m: nat, u: Tenant, n: nat)
    requires SlotId(t, m) == SlotId(u, n)
    ensures t == u && m == n
  {
    var id, other := SlotId(t, m), SlotId(u, n);
    LastDash(t, m);
    LastDash(u, n);
    assert |t| == |u|;
    assert id[..|t|] == t && other[..|u|] == u;
    assert id[|t| + 1..] == Decimal(m) && other[|u| + 1..] == Decimal(n);
    DecimalInjective(m, n);
  }

  // ---- The transition relation ----

  ghost predicate Enabled(s: System, a: Action) {
    match a
    case SetConfig(_, _) => true
    case ReadConfig(th, _) => th !in s.threads
    case Unlimited(th, h) => th in s.threads && s.threads[th].Read? && s.threads[th].max <= 0 && h !in s.handles
    case Lookup(th, o) =>
      && th in s.threads && s.threads[th].Read? && s.threads[th].max > 0
      && if s.threads[th].tenant in s.current then o == s.current[s.threads[th].tenant] && o in s.objects else o !in s.objects
    case Take(th, h) => th in s.threads && s.threads[th].Holding? && s.threads[th].obj in s.objects && h !in s.handles
    case Call(h) => h in s.handles && (s.handles[h].obj.Some? ==> s.handles[h].obj.value in s.objects)
    case Publish(h, _) => h in s.handles
    case Withdraw(_) => true
  }

  ghost function Apply(s: System, a: Action): System
    requires Enabled(s, a)
  {
    match a
    case SetConfig(t, max) => s.(configs := s.configs[t := max], current := s.current - {t})
    case ReadConfig(th, t) => s.(threads := s.threads[th := Read(t, ConfigOf(s, t))])
    case Unlimited(th, h) => s.(threads := s.threads - {th}, handles := s.handles[h := Handle(None, false)])
    case Lookup(th, o) =>
      var t, max := s.threads[th].tenant, s.threads[th].max;
      var found := if o in s.objects then s.objects[o].(cap := max) else Slots(max, 0);
      s.(current := s.current[t := o], objects := s.objects[o := found], threads := s.threads[th := Holding(t, max, o)])
    case Take(th, h) =>
      var o := s.threads[th].obj;
      if CanTake(s.objects[o]) then
        s.(objects := s.objects[o := Taken(s.objects[o])], threads := s.threads - {th}, handles := s.handles[h := Handle(Some(o), false)])
      else s.(threads := s.threads - {th})
    case Call(h) =>
      if s.handles[h].released then s
      else if s.handles[h].obj.None? then s.(handles := s.handles[h := s.handles[h].(released := true)])
      else
        var o := s.handles[h].obj.value;
        s.(objects := s.objects[o := GivenBack(s.objects[o])], handles := s.handles[h := s.handles[h].(released := true)])
    case Publish(h, t) =>
      s.(counter := s.counter + 1, table := s.table[SlotId(t, s.counter + 1) := h])
    case Withdraw(id) => s.(table := s.table - {id})
  }

  const INITIAL := System(map[], map[], map[], map[], map[], 0, map[])

  ghost predicate IsRun(run: seq<System>, acts: seq<Action>) {
    && |run| == |acts| + 1 && run[0] == INITIAL
    && forall i {:trigger acts[i]} :: 0 <= i < |acts| ==> Enabled(run[i], acts[i]) && run[i + 1] == Apply(run[i], acts[i])
  }

  /** The state after the steps `acts` from `s`, if they can be taken one after the other. */
  ghost function After(s: System, acts: seq<Action>): Option<System>
    decreases |acts|
  {
    if acts == [] then Some(s)
    else if Enabled(s, acts[0]) then After(Apply(s, acts[0]), acts[1..])
    else None
  }

  /** Steps that can be taken where a run ends prolong the run. */
  lemma {:induction false} RunOn(run: seq<System>, acts: seq<Action>, more: seq<Action>, s': System) returns (run': seq<System>)
    requires IsRun(run, acts) && After(run[|acts|], more) == Some(s')
    ensures IsRun(run', acts + more) && run'[|acts + more|] == s'
    decreases |more|
  {
    if more == [] {
      run' := run;
      assert acts + more == acts;
    } else {
      run' := RunOn(run + [Apply(run[|acts|], more[0])], acts + [more[0]], more[1..], s');
      assert acts + more == acts + [more[0]] + more[1..];
    }
  }

  /** The three steps of an acquisition, or two for a tenant without a limit, with nothing in between. */
  ghost function AcquireActs(s: System, t: Tenant, th: Thread, h: HandleId, o: ObjId): seq<Action> {
    if ConfigOf(s, t) <= 0 then [ReadConfig(th, t), Unlimited(th, h)]
    else [ReadConfig(th, t), Lookup(th, o), Take(th, h)]
  }

  /** The tenant's object is `o` and has the cap `max`. */
  ghost function Found(s: System, t: Tenant, max: int, o: ObjId): System {
    s.(current := s.current[t := o], objects := s.objects[o := if o in s.objects then s.objects[o].(cap := max) else Slots(max, 0)])
  }

  ghost function TakenIn(f: System, o: ObjId, h: HandleId): System
    requires o in f.objects
  {
    f.(objects := f.objects[o := Taken(f.objects[o])], handles := if CanTake(f.objects[o]) then f.handles[h := Handle(Some(o), false)] else f.handles)
  }

  ghost function Acquired(s: System, t: Tenant, h: HandleId, o: ObjId): System {
    var max := ConfigOf(s, t);
    if max <= 0 then s.(handles := s.handles[h := Handle(None, false)])
    else
      TakenIn(Found(s, t, max, o), o, h)
  }

  lemma OneFirst(s: System, a: Action, rest: seq<Action>)
    requires Enabled(s, a)
    ensures After(s, [a] + rest) == After(Apply(s, a), rest)
  {
    assert ([a] + rest)[1..] == rest;
  }

  lemma UnlimitedSteps(s: System, t: Tenant, th: Thread, h: HandleId)
    requires th !in s.threads && h !in s.handles && ConfigOf(s, t) <= 0
    ensures After(s, [ReadConfig(th, t)] + ([Unlimited(th, h)] + [])) == Some(s.(handles := s.handles[h := Handle(None, false)]))
  {
    var s1 := s.(threads := s.threads[th := Read(t, ConfigOf(s, t))]);
    OneFirst(s, ReadConfig(th, t), [Unlimited(th, h)] + []);
    OneFirst(s1, Unlimited(th, h), []);
    assert s1.threads - {th} == s.threads;
  }

  lemma LimitedSteps(s: System, t: Tenant, th: Thread, h: HandleId, o: ObjId)
    requires th !in s.threads && h !in s.handles && ConfigOf(s, t) > 0
    requires if t in s.current then o == s.current[t] && o in s.objects else o !in s.objects
    ensures After(s, [ReadConfig(th, t)] + ([Lookup(th, o)] + ([Take(th, h)] + []))) == Some(Acquired(s, t, h, o))
  {
    var max := ConfigOf(s, t);
    var f := Found(s, t, max, o);
    var s1 := s.(threads := s.threads[th := Read(t, max)]);
    var s2 := f.(threads := s.threads[th := Holding(t, max, o)]);
    OneFirst(s, ReadConfig(th, t), [Lookup(th, o)] + ([Take(th, h)] + []));
    LookedUp(s, s1, th, o);
    OneFirst(s1, Lookup(th, o), [Take(th, h)] + []);
    TakenThere(s, f, th, h, t, max, o);
    OneFirst(s2, Take(th, h), []);
  }

  lemma TakenThere(s: System, f: System, th: Thread, h: HandleId, t: Tenant, max: int, o: ObjId)
    requires th !in s.threads && h !in f.handles && f.threads == s.threads && o in f.objects
    ensures Apply(f.(threads := s.threads[th := Holding(t, max, o)]), Take(th, h))
      == TakenIn(f, o, h)
  {
    assert s.threads[th := Holding(t, max, o)] - {th} == s.threads;
    assert f.objects[o := f.objects[o]] == f.objects;
  }

  lemma LookedUp(s: System, s1: System, th: Thread, o: ObjId)
    requires th in s1.threads && s1.threads[th].Read? && s1 == s.(threads := s.threads[th := s1.threads[th]]) && Enabled(s1, Lookup(th, o))
    ensures var x := s1.threads[th];
      Apply(s1, Lookup(th, o)) == Found(s, x.tenant, x.max, o).(threads := s.threads[th := Holding(x.tenant, x.max, o)])
  {
    assert s1.threads[th := Holding(s1.threads[th].tenant, s1.threads[th].max, o)] == s.threads[th := Holding(s1.threads[th].tenant, s1.threads[th].max, o)];
  }

  lemma InARow(a: Action, rest: seq<Action>)
    ensures |rest| == 1 ==> [a] + ([rest[0]] + []) == [a, rest[0]]
    ensures |rest| == 2 ==> [a] + ([rest[0]] + ([rest[1]] + [])) == [a, rest[0], rest[1]]
  {
  }

  lemma AcquireIsSteps(s: System, t: Tenant, th: Thread, h: HandleId, o: ObjId)
    requires th !in s.threads && h !in s.handles
    requires if t in s.current then o == s.current[t] && o in s.objects else o !in s.objects
    ensures After(s, AcquireActs(s, t, th, h, o)) == Some(Acquired(s, t, h, o))
  {
    if ConfigOf(s, t) <= 0 {
      UnlimitedSteps(s, t, th, h);
      InARow(ReadConfig(th, t), [Unlimited(th, h)]);
    } else {
      LimitedSteps(s, t, th, h, o);
      InARow(ReadConfig(th, t), [Lookup(th, o), Take(th, h)]);
    }
  }

  /** An acquisition that nothing falls into prolongs any run, and so everything that is proved of runs holds
      after it. */
  lemma AcquireProlongsRun(run: seq<System>, acts: seq<Action>, t: Tenant, th: Thread, h: HandleId, o: ObjId) returns (run': seq<System>)
    requires IsRun(run, acts)
    requires var s := run[|acts|];
      th !in s.threads && h !in s.handles && if t in s.current then o == s.current[t] && o in s.objects else o !in s.objects
    ensures IsRun(run', acts + AcquireActs(run[|acts|], t, th, h, o)) && run'[|run'| - 1] == Acquired(run[|acts|], t, h, o)
  {
    var s := run[|acts|];
    AcquireIsSteps(s, t, th, h, o);
    run' := RunOn(run, acts, AcquireActs(s, t, th, h, o), Acquired(s, t, h, o));
  }

  // ---- Every interleaving: the count is the number of acquisitions not yet released ----

  ghost function LiveOn(o: ObjId): Handle -> bool {
    (h: Handle) => h.obj == Some(o) && !h.released
  }

  ghost function Live(s: System, o: ObjId): nat {
    |Matching(s.handles, LiveOn(o))|
  }

  ghost predicate Inv(s: System) {
    && (forall o :: o in s.objects ==> s.objects[o].inUse == Live(s, o) && s.objects[o].cap > 0)
    && (forall h :: h in s.handles && s.handles[h].obj.Some? ==> s.handles[h].obj.value in s.objects)
    && (forall th :: th in s.threads && s.threads[th].Holding? ==> s.threads[th].obj in s.objects)
    && (forall t :: t in s.current ==> s.current[t] in s.objects)
  }

  lemma NewHandle(s: System, h: HandleId, v: Handle)
    requires h !in s.handles
    ensures forall o: ObjId :: |Matching(s.handles[h := v], LiveOn(o))| == Live(s, o) + One(LiveOn(o)(v))
  {
    forall o: ObjId ensures |Matching(s.handles[h := v], LiveOn(o))| == Live(s, o) + One(LiveOn(o)(v)) {
      MatchingUpdate(s.handles, h, v, LiveOn(o));
    }
  }

  lemma ReleasedHandle(s: System, h: HandleId)
    requires h in s.handles && !s.handles[h].released
    ensures forall o: ObjId :: |Matching(s.handles[h := s.handles[h].(released := true)], LiveOn(o))| == Live(s, o) - One(s.handles[h].obj == Some(o))
  {
    var v := s.handles[h].(released := true);
    forall o: ObjId ensures |Matching(s.handles[h := v], LiveOn(o))| == Live(s, o) - One(s.handles[h].obj == Some(o)) {
      MatchingUpdate(s.handles, h, v, LiveOn(o));
    }
  }

  lemma LookupKeepsInv(s: System, th: Thread, o: ObjId)
    requires Inv(s) && Enabled(s, Lookup(th, o))
    ensures Inv(Apply(s, Lookup(th, o)))
  {
    var s' := Apply(s, Lookup(th, o));
    if o !in s.objects {
      assert Matching(s.handles, LiveOn(o)) == {};
    }
    forall p | p in s'.objects ensures s'.objects[p].inUse == Live(s', p) && s'.objects[p].cap > 0 {
    }
  }

  lemma TakeKeepsInv(s: System, th: Thread, h: HandleId)
    requires Inv(s) && Enabled(s, Take(th, h))
    ensures Inv(Apply(s, Take(th, h)))
  {
    NewHandle(s, h, Handle(Some(s.threads[th].obj), false));
  }

  lemma LiveHandleCounted(s: System, h: HandleId)
    requires Inv(s) && h in s.handles && !s.handles[h].released && s.handles[h].obj.Some?
    ensures s.handles[h].obj.value in s.objects && s.objects[s.handles[h].obj.value].inUse > 0
  {
    assert h in Matching(s.handles, LiveOn(s.handles[h].obj.value));
  }

  lemma CallKeepsInv(s: System, h: HandleId)
    requires Inv(s) && Enabled(s, Call(h)) && !s.handles[h].released
    ensures Inv(Apply(s, Call(h)))
  {
    if s.handles[h].obj.Some? {
      LiveHandleCounted(s, h);
      HolderCallKeepsInv(s, h, s.handles[h].obj.value);
    } else {
      UnlimitedCallKeepsInv(s, h);
    }
  }

  lemma UnlimitedCallKeepsInv(s: System, h: HandleId)
    requires Inv(s) && h in s.handles && !s.handles[h].released && s.handles[h].obj.None?
    ensures Inv(s.(handles := s.handles[h := s.handles[h].(released := true)]))
  {
    ReleasedHandle(s, h);
    var s' := s.(handles := s.handles[h := s.handles[h].(released := true)]);
    forall o | o in s'.objects ensures s'.objects[o].inUse == Live(s', o) && s'.objects[o].cap > 0 {
      assert s.objects[o].inUse == Live(s, o);
    }
  }

  lemma HolderCallKeepsInv(s: System, h: HandleId, o: ObjId)
    requires Inv(s) && h in s.handles && !s.handles[h].released && s.handles[h].obj == Some(o)
    requires o in s.objects && s.objects[o].inUse > 0
    ensures Inv(s.(objects := s.objects[o := GivenBack(s.objects[o])], handles := s.handles[h := s.handles[h].(released := true)]))
  {
    ReleasedHandle(s, h);
    var s' := s.(objects := s.objects[o := GivenBack(s.objects[o])], handles := s.handles[h := s.handles[h].(released := true)]);
    forall p | p in s'.objects ensures s'.objects[p].inUse == Live(s', p) && s'.objects[p].cap > 0 {
      assert s.objects[p].inUse == Live(s, p);
    }
  }

  lemma StepKeepsInv(s: System, a: Action)
    requires Inv(s) && Enabled(s, a)
    ensures Inv(Apply(s, a))
  {
    match a
    case Lookup(th, o) => LookupKeepsInv(s, th, o);
    case Take(th, h) => TakeKeepsInv(s, th, h);
    case Call(h) => if !s.handles[h].released { CallKeepsInv(s, h); }
    case Unlimited(th, h) => NewHandle(s, h, Handle(None, false));
    case _ =>
      assert Apply(s, a).handles == s.handles && Apply(s, a).objects == s.objects;
  }

  lemma {:induction false} RunKeepsInv(run: seq<System>, acts: seq<Action>, n: nat)
    requires IsRun(run, acts) && n < |run|
    ensures Inv(run[n])
  {
    if n > 0 {
      RunKeepsInv(run, acts, n - 1);
      StepKeepsInv(run[n - 1], acts[n - 1]);
    }
  }

  /** Every count is the number of unreleased acquisitions of that object, and a release that
      takes effect finds a positive count. */
  lemma InUseIsLive(run: seq<System>, acts: seq<Action>, n: nat, o: ObjId)
    requires IsRun(run, acts) && n < |run| && o in run[n].objects
    ensures run[n].objects[o].inUse == Live(run[n], o)
    ensures n < |acts| && acts[n].Call? && !run[n].handles[acts[n].handle].released && run[n].handles[acts[n].handle].obj == Some(o) ==>
      run[n].objects[o].inUse > 0
  {
    RunKeepsInv(run, acts, n);
    if n < |acts| && acts[n].Call? && !run[n].handles[acts[n].handle].released && run[n].handles[acts[n].handle].obj == Some(o) {
      LiveHandleCounted(run[n], acts[n].handle);
    }
  }

  /** No step forgets a handle, moves it to another object, or takes its release back. */
  lemma HandleStays(s: System, a: Action, h: HandleId)
    requires h in s.handles && Enabled(s, a)
    ensures h in Apply(s, a).handles && Apply(s, a).handles[h].obj == s.handles[h].obj
    ensures s.handles[h].released ==> Apply(s, a).handles[h].released
    ensures s.handles[h].released && a == Call(h) ==> Apply(s, a) == s
  {
  }

  /** A release closure takes effect at most once: once released it stays so, and further calls
      change nothing. */
  lemma {:induction false} ReleaseTakesEffectOnce(run: seq<System>, acts: seq<Action>, i: nat, n: nat, h: HandleId)
    requires IsRun(run, acts) && i <= n < |run| && h in run[i].handles
    ensures h in run[n].handles && run[n].handles[h].obj == run[i].handles[h].obj
    ensures run[i].handles[h].released ==> run[n].handles[h].released
    ensures run[i].handles[h].released && n < |acts| && acts[n] == Call(h) ==> run[n + 1] == run[n]
    decreases n - i
  {
    if i < n {
      ReleaseTakesEffectOnce(run, acts, i, n - 1, h);
      HandleStays(run[n - 1], acts[n - 1], h);
    }
    if n < |acts| {
      HandleStays(run[n], acts[n], h);
    }
  }

  /** A release only touches the object it was acquired from: whatever object has replaced that
      one since, after a config reset, keeps its count. */
  lemma ReleaseTouchesOwnObject(run: seq<System>, acts: seq<Action>, n: nat, o: ObjId)
    requires IsRun(run, acts) && n < |acts| && acts[n].Call? && o in run[n].objects
    requires run[n].handles[acts[n].handle].obj != Some(o)
    ensures o in run[n + 1].objects && run[n + 1].objects[o] == run[n].objects[o]
  {
  }

  // ---- The slot-id table ----

  /** Published ids carry counter values up to the current one. */
  ghost predicate Issued(s: System) {
    forall id :: id in s.table ==> exists t: Tenant, k: nat :: 1 <= k <= s.counter && id == SlotId(t, k)
  }

  lemma {:induction false} RunKeepsIssued(run: seq<System>, acts: seq<Action>, n: nat)
    requires IsRun(run, acts) && n < |run|
    ensures Issued(run[n])
  {
    if n > 0 {
      RunKeepsIssued(run, acts, n - 1);
      PublishKeepsIssued(run[n - 1], acts[n - 1]);
    }
  }

  lemma PublishKeepsIssued(s: System, a: Action)
    requires Issued(s) && Enabled(s, a)
    ensures Issued(Apply(s, a))
  {
    var s' := Apply(s, a);
    forall id | id in s'.table ensures exists t: Tenant, k: nat :: 1 <= k <= s'.counter && id == SlotId(t, k) {
      if id in s.table {
        var t: Tenant, k: nat :| 1 <= k <= s.counter && id == SlotId(t, k);
        assert 1 <= k <= s'.counter && id == SlotId(t, k);
      } else {
        assert a.Publish? && 1 <= s.counter + 1 <= s'.counter && id == SlotId(a.tenant, s.counter + 1);
      }
    }
  }

  /** A new id is not in the table yet, so publishing it never drops another holder's closure. */
  lemma PublishedIdIsNew(run: seq<System>, acts: seq<Action>, n: nat, t: Tenant)
    requires IsRun(run, acts) && n < |run|
    ensures SlotId(t, run[n].counter + 1) !in run[n].table
  {
    RunKeepsIssued(run, acts, n);
    var id := SlotId(t, run[n].counter + 1);
    if id in run[n].table {
      var u: Tenant, k: nat :| 1 <= k <= run[n].counter && id == SlotId(u, k);
      SlotIdsUnique(t, run[n].counter + 1, u, k);
    }
  }

  /** An id that has been issued and withdrawn never comes back: it releases at most once. */
  lemma {:induction false} WithdrawnIdStaysAway(run: seq<System>, acts: seq<Action>, i: nat, n: nat, t: Tenant, k: nat)
    requires IsRun(run, acts) && i <= n < |run| && k <= run[i].counter && SlotId(t, k) !in run[i].table
    ensures k <= run[n].counter && SlotId(t, k) !in run[n].table
    decreases n - i
  {
    if i < n {
      WithdrawnIdStaysAway(run, acts, i, n - 1, t, k);
      AwayAfterStep(run[n - 1], acts[n - 1], t, k);
    }
  }

  lemma AwayAfterStep(s: System, a: Action, t: Tenant, k: nat)
    requires Enabled(s, a) && k <= s.counter && SlotId(t, k) !in s.table
    ensures k <= Apply(s, a).counter && SlotId(t, k) !in Apply(s, a).table
  {
    if a.Publish? && SlotId(a.tenant, s.counter + 1) == SlotId(t, k) {
      SlotIdsUnique(a.tenant, s.counter + 1, t, k);
    }
  }
}

/** The objects of modules/quota/enforcer.go and modules/quota/module.go. */
module AgentSlotsObject {
  import opened AgentSlots

  class AgentSlotsBox {
    var cap: int
    var inUse: nat

    ghost function View(): Slots
      reads this
    {
      Slots(cap, inUse)
    }

    constructor (cap: int)
      ensures View() == Slots(cap, 0)
    {
      this.cap, inUse := cap, 0;
    }

    method Acquire() returns (ok: bool)
      modifies this`inUse
      ensures ok == CanTake(old(View())) && View() == Taken(old(View()))
    {
      if cap <= 0 {
        inUse := inUse + 1;
        return true;
      }
      if inUse >= cap {
        return false;
      }
      inUse := inUse + 1;
      return true;
    }

    method Release()
      modifies this`inUse
      ensures View() == GivenBack(old(View()))
    {
      if inUse > 0 {
        inUse := inUse - 1;
      }
    }
  }

  /** A release closure. One without slots belongs to an unlimited tenant and does nothing. */
  class ReleaseHandle {
    const slots: AgentSlotsBox?
    var released: bool

    constructor (slots: AgentSlotsBox?)
      ensures this.slots == slots && !released
    {
      this.slots, released := slots, false;
    }

    /** The first call gives the slot back; later calls do nothing. */
    method Call()
      modifies this, slots
      ensures released
      ensures slots != null ==> slots.View() == if old(released) then old(slots.View()) else GivenBack(old(slots.View()))
    {
      if released {
        return;
      }
      released := true;
      if slots != null {
        slots.Release();
      }
    }
  }

  class Enforcer {
    var configs: map<Tenant, int>
    var slots: map<Tenant, AgentSlotsBox>

    constructor ()
      ensures configs == map[] && slots == map[]
    {
      configs, slots := map[], map[];
    }

    /** A new config drops the tenant's slot object, so that the next acquisition makes a new one. */
    method SetConfig(t: Tenant, max: int)
      modifies this
      ensures configs == old(configs)[t := max] && slots == old(slots) - {t}
    {
      configs := configs[t := max];
      slots := slots - {t};
    }

    function Limit(t: Tenant): int
      reads this
    {
      if t in configs then configs[t] else 0
    }

    /** The object as part of a state of the transition system. */
    ghost predicate Shows(s: System)
      reads this, slots.Values
    {
      && s.configs == configs && s.current.Keys == slots.Keys
      && (forall t :: t in slots ==> s.current[t] in s.objects && s.objects[s.current[t]] == slots[t].View())
      && (forall t, u :: t in slots && u in slots ==> (s.current[t] == s.current[u] <==> slots[t] == slots[u]))
    }

    /** Find the slot object of a tenant with a limit, or make one, and give it the limit as its cap. */
    method Lookup(t: Tenant, max: int, ghost s: System, ghost o: ObjId) returns (a: AgentSlotsBox)
      requires max > 0 && Shows(s) && if t in s.current then o == s.current[t] else o !in s.objects
      modifies this`slots, if t in slots then {slots[t]} else {}
      ensures slots == old(slots)[t := a]
      ensures if t in old(slots) then a == old(slots)[t] else fresh(a)
      ensures a.View() == Slots(max, if t in old(slots) then old(slots[t].inUse) else 0)
      ensures Shows(Found(s, t, max, o))
    {
      if t in slots {
        a := slots[t];
      } else {
        a := new AgentSlotsBox(max);
        slots := slots[t := a];
      }
      if a.cap != max {
        a.cap := max;
      }
    }

    /** Take a slot of the object that was found. */
    method Take(a: AgentSlotsBox, ghost t: Tenant, ghost f: System, ghost h: HandleId) returns (release: ReleaseHandle?)
      requires t in slots && slots[t] == a && Shows(f)
      modifies a
      ensures a.View() == Taken(old(a.View())) && (release != null <==> CanTake(old(a.View())))
      ensures release != null ==> fresh(release) && !release.released && release.slots == a
      ensures Shows(TakenIn(f, f.current[t], h))
    {
      var ok := a.Acquire();
      if !ok {
        return null;
      }
      release := new ReleaseHandle(a);
    }

    /** Take a slot of tenant `t`, if one is free; the closure that gives it back, or none. From any state `s`
        that the object shows it leads to `Acquired`, which is the steps of `AcquireActs`, for a new handle and
        the tenant's object or, if it has none, a new one. */
    method AcquireAgentSlot(t: Tenant, ghost s: System, ghost h: HandleId, ghost o: ObjId) returns (release: ReleaseHandle?)
      requires Shows(s) && h !in s.handles
      requires if t in s.current then o == s.current[t] else o !in s.objects
      modifies this`slots, if t in slots then {slots[t]} else {}
      ensures Limit(t) <= 0 ==> release != null && fresh(release) && release.slots == null && slots == old(slots)
      ensures Limit(t) <= 0 && t in slots ==> slots[t].View() == old(slots[t].View())
      ensures Limit(t) > 0 ==> t in slots && slots == old(slots)[t := slots[t]]
      ensures Limit(t) > 0 && t in old(slots) ==> slots[t] == old(slots)[t]
      ensures Limit(t) > 0 && t !in old(slots) ==> fresh(slots[t]) && release != null && slots[t].View() == Slots(Limit(t), 1)
      ensures Limit(t) > 0 && t in old(slots) ==>
        && (release != null <==> old(slots[t].inUse) < Limit(t))
        && slots[t].View() == Taken(Slots(Limit(t), old(slots[t].inUse)))
      ensures Limit(t) > 0 && release != null ==> fresh(release) && !release.released && release.slots == slots[t]
      ensures Shows(Acquired(s, t, h, o))
      ensures release != null <==> h in Acquired(s, t, h, o).handles
    {
      var max := Limit(t);
      if max <= 0 {
        release := new ReleaseHandle(null);
        return;
      }
      var a := Lookup(t, max, s, o);
      release := Take(a, t, Found(s, t, max, o), h);
    }
  }

  class QuotaModule {
    const enforcer: Enforcer
    var slotCounter: nat
    var slots: map<string, ReleaseHandle>

    constructor (enforcer: Enforcer)
      ensures this.enforcer == enforcer && slotCounter == 0 && slots == map[]
    {
      this.enforcer, slotCounter, slots := enforcer, 0, map[];
    }

    /** Hand out an id for an acquired slot. */
    method Publish(t: Tenant, release: ReleaseHandle) returns (slotId: string)
      modifies this
      ensures slotCounter == old(slotCounter) + 1 && slotId == SlotId(t, slotCounter)
      ensures slots == old(slots)[slotId := release]
    {
      slotCounter := slotCounter + 1;
      slotId := SlotId(t, slotCounter);
      slots := slots[slotId := release];
    }

    /** Give back the slot behind an id; an id that is not in the table changes nothing. */
    method HandleSlotRelease(slotId: string) returns (found: bool)
      modifies this`slots, if slotId in slots then {slots[slotId]} else {}
      modifies if slotId in slots && slots[slotId].slots != null then {slots[slotId].slots} else {}
      ensures found <==> slotId in old(slots)
      ensures slots == old(slots) - {slotId}
      ensures found ==> old(slots)[slotId].released
      ensures found && old(slots)[slotId].slots != null ==>
        old(slots)[slotId].slots.View() ==
          if old(slots[slotId].released) then old(slots[slotId].slots.View()) else GivenBack(old(slots[slotId].slots.View()))
    {
      found := slotId in slots;
      if found {
        var release := slots[slotId];
        slots := slots - {slotId};
        release.Call();
      } else {
        assert slots - {slotId} == slots;
      }
    }
  }
}
