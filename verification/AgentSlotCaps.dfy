/**
  The cap of concurrent-agent slots (modules/quota/enforcer.go:126-139, 247-265): every look-up writes
  the limit that its goroutine has read to the slot object, so the cap is only as good as those limits.
 */
module AgentSlotCaps {
  import opened Common
  import opened AgentSlots

  // ---- The cap ----

  ghost predicate WithinCaps(s: System) {
    forall o :: o in s.objects ==> s.objects[o].inUse <= s.objects[o].cap
  }

  /** Only a look-up with a limit below what is in use leaves an object beyond its cap. */
  lemma CapKeptExactly(s: System, a: Action)
    requires Inv(s) && WithinCaps(s) && Enabled(s, a)
    ensures WithinCaps(Apply(s, a)) <==>
      !(a.Lookup? && a.obj in s.objects && s.objects[a.obj].inUse > s.threads[a.thread].max)
  {
    if a.Lookup? {
      assert a.obj in Apply(s, a).objects;
    }
  }

  /** A look-up uses the tenant's config of that moment: no SetConfig came between the two. */
  ghost predicate PromptRun(run: seq<System>, acts: seq<Action>) {
    IsRun(run, acts) && forall i :: 0 <= i < |acts| && acts[i].Lookup? ==>
      run[i].threads[acts[i].thread].max == ConfigOf(run[i], run[i].threads[acts[i].thread].tenant)
  }

  ghost predicate CurrentCaps(s: System) {
    forall t :: t in s.current ==> s.current[t] in s.objects && s.objects[s.current[t]].cap == ConfigOf(s, t)
  }

  /** Objects in the map belong to one tenant each. */
  ghost predicate OwnObjects(s: System) {
    forall t, u :: t in s.current && u in s.current && s.current[t] == s.current[u] ==> t == u
  }

  lemma LookupKeepsCurrent(s: System, th: Thread, o: ObjId)
    requires Inv(s) && CurrentCaps(s) && OwnObjects(s) && Enabled(s, Lookup(th, o))
    requires s.threads[th].max == ConfigOf(s, s.threads[th].tenant)
    ensures CurrentCaps(Apply(s, Lookup(th, o))) && OwnObjects(Apply(s, Lookup(th, o)))
  {
    var s', own := Apply(s, Lookup(th, o)), s.threads[th].tenant;
    forall t | t in s'.current && t != own ensures s.current[t] != o {
      assert t in s.current && s.current[t] in s.objects;
    }
  }

  lemma SetConfigKeepsCurrent(s: System, t: Tenant, max: int)
    requires CurrentCaps(s) && OwnObjects(s)
    ensures CurrentCaps(Apply(s, SetConfig(t, max))) && OwnObjects(Apply(s, SetConfig(t, max)))
  {
  }

  lemma OthersKeepCaps(s: System, a: Action)
    requires Enabled(s, a) && !a.SetConfig? && !a.Lookup?
    ensures Apply(s, a).current == s.current && Apply(s, a).configs == s.configs
    ensures forall o :: o in s.objects ==> o in Apply(s, a).objects && Apply(s, a).objects[o].cap == s.objects[o].cap
  {
  }

  lemma PromptStep(s: System, a: Action)
    requires Inv(s) && CurrentCaps(s) && OwnObjects(s) && Enabled(s, a)
    requires a.Lookup? ==> s.threads[a.thread].max == ConfigOf(s, s.threads[a.thread].tenant)
    ensures CurrentCaps(Apply(s, a)) && OwnObjects(Apply(s, a))
  {
    if a.Lookup? {
      LookupKeepsCurrent(s, a.thread, a.obj);
    } else if a.SetConfig? {
      SetConfigKeepsCurrent(s, a.tenant, a.max);
    } else {
      OthersKeepCaps(s, a);
    }
  }

  /** A prompt look-up sets the cap that the object already has. */
  lemma PromptLookupKeepsCaps(s: System, a: Action)
    requires Inv(s) && WithinCaps(s) && CurrentCaps(s) && Enabled(s, a)
    requires a.Lookup? ==> s.threads[a.thread].max == ConfigOf(s, s.threads[a.thread].tenant)
    ensures WithinCaps(Apply(s, a))
  {
    CapKeptExactly(s, a);
  }

  lemma {:induction false} PromptRunKeepsCaps(run: seq<System>, acts: seq<Action>, n: nat)
    requires PromptRun(run, acts) && n < |run|
    ensures WithinCaps(run[n]) && CurrentCaps(run[n]) && OwnObjects(run[n])
  {
    if n > 0 {
      PromptRunKeepsCaps(run, acts, n - 1);
      RunKeepsInv(run, acts, n - 1);
      PromptLookupKeepsCaps(run[n - 1], acts[n - 1]);
      PromptStep(run[n - 1], acts[n - 1]);
    }
  }

  /** With prompt look-ups, the holders of an object never exceed its cap, and the object in use
      for a tenant carries the tenant's configured cap, however often the config is reset. */
  lemma HoldersWithinCap(run: seq<System>, acts: seq<Action>, n: nat, o: ObjId, t: Tenant)
    requires PromptRun(run, acts) && n < |run|
    ensures o in run[n].objects ==> Live(run[n], o) <= run[n].objects[o].cap
    ensures t in run[n].current ==> run[n].current[t] in run[n].objects && run[n].objects[run[n].current[t]].cap == ConfigOf(run[n], t)
  {
    RunKeepsInv(run, acts, n);
    PromptRunKeepsCaps(run, acts, n);
  }

  // ---- One object ----

  /** A look-up of object `o` with a smaller limit than the look-up before it. */
  ghost predicate Lowers(s: System, a: Action, o: ObjId) {
    && a.Lookup? && a.obj == o && o in s.objects && a.thread in s.threads && s.threads[a.thread].Read?
    && s.threads[a.thread].max < s.objects[o].cap
  }

  lemma StepKeepsCapOf(s: System, a: Action, o: ObjId)
    requires Inv(s) && Enabled(s, a) && !Lowers(s, a, o) && (o in s.objects ==> s.objects[o].inUse <= s.objects[o].cap)
    ensures o in Apply(s, a).objects ==> Apply(s, a).objects[o].inUse <= Apply(s, a).objects[o].cap
  {
    if a.Lookup? {
      LookupKeepsCapOf(s, a.thread, a.obj, o);
    } else if !a.Take? && !a.Call? {
      assert Apply(s, a).objects == s.objects;
    }
  }

  lemma LookupKeepsCapOf(s: System, th: Thread, p: ObjId, o: ObjId)
    requires Enabled(s, Lookup(th, p)) && !Lowers(s, Lookup(th, p), o) && (o in s.objects ==> s.objects[o].inUse <= s.objects[o].cap)
    ensures var t := Apply(s, Lookup(th, p)); o in t.objects ==> t.objects[o].inUse <= t.objects[o].cap
  {
  }

  /** An object whose look-ups never lower the limit is never beyond its cap, whatever the look-ups of
      other objects do. */
  lemma {:induction false} RisingLookupsKeepCap(run: seq<System>, acts: seq<Action>, n: nat, o: ObjId)
    requires IsRun(run, acts) && n < |run| && forall i :: 0 <= i < n ==> !Lowers(run[i], acts[i], o)
    ensures o in run[n].objects ==> Live(run[n], o) <= run[n].objects[o].cap
  {
    RunKeepsInv(run, acts, n);
    if n > 0 {
      RisingLookupsKeepCap(run, acts, n - 1, o);
      RunKeepsInv(run, acts, n - 1);
      StepKeepsCapOf(run[n - 1], acts[n - 1], o);
    }
  }

  // ---- One tenant: exactly when its cap is safe ----

  /** Steps that follow each other, from any state. */
  ghost predicate IsPath(run: seq<System>, acts: seq<Action>) {
    && |run| == |acts| + 1
    && forall i {:trigger acts[i]} :: 0 <= i < |acts| ==> Enabled(run[i], acts[i]) && run[i + 1] == Apply(run[i], acts[i])
  }

  /** The config of tenant `t` is left alone. */
  ghost predicate KeepsConfig(acts: seq<Action>, t: Tenant) {
    forall i :: 0 <= i < |acts| && acts[i].SetConfig? ==> acts[i].tenant != t
  }

  ghost predicate TenantWithin(s: System, t: Tenant) {
    t in s.current ==> s.current[t] in s.objects && s.objects[s.current[t]].inUse <= s.objects[s.current[t]].cap
  }

  /** The slots in use for the tenant carry its configured limit, and keep it. */
  ghost predicate TenantOk(s: System, t: Tenant) {
    TenantWithin(s, t) && (t in s.current ==> s.objects[s.current[t]].cap == ConfigOf(s, t))
  }

  /** A goroutine is about to look the tenant's slots up with another limit than the one configured. */
  ghost predicate Outdated(s: System, t: Tenant, th: Thread) {
    th in s.threads && s.threads[th].Read? && s.threads[th].tenant == t && s.threads[th].max > 0 && s.threads[th].max != ConfigOf(s, t)
  }

  ghost predicate NoneOutdated(s: System, t: Tenant) {
    forall th :: !Outdated(s, t, th)
  }

  /** Whatever follows, as long as the tenant's config stays, so does its cap. */
  ghost predicate CapIsSafe(s: System, t: Tenant) {
    forall run, acts :: IsPath(run, acts) && run[0] == s && KeepsConfig(acts, t) ==> TenantWithin(run[|acts|], t)
  }

  ghost predicate Settled(s: System, t: Tenant) {
    Inv(s) && OwnObjects(s) && TenantOk(s, t) && NoneOutdated(s, t)
  }

  lemma StepKeepsOwn(s: System, a: Action)
    requires Inv(s) && OwnObjects(s) && Enabled(s, a)
    ensures OwnObjects(Apply(s, a))
  {
    if a.Lookup? {
      var s', own := Apply(s, a), s.threads[a.thread].tenant;
      forall t | t in s'.current && t != own ensures s.current[t] != a.obj {
        assert t in s.current && s.current[t] in s.objects;
      }
    } else if !a.SetConfig? {
      OthersKeepCaps(s, a);
    }
  }

  lemma LookupSettled(s: System, a: Action, t: Tenant)
    requires Settled(s, t) && a.Lookup? && Enabled(s, a)
    ensures TenantOk(Apply(s, a), t) && NoneOutdated(Apply(s, a), t)
  {
    assert !Outdated(s, t, a.thread);
    forall th ensures !Outdated(Apply(s, a), t, th) {
      assert !Outdated(s, t, th);
    }
  }

  lemma SettledStep(s: System, a: Action, t: Tenant)
    requires Settled(s, t) && Enabled(s, a) && (a.SetConfig? ==> a.tenant != t)
    ensures Settled(Apply(s, a), t)
  {
    StepKeepsInv(s, a);
    StepKeepsOwn(s, a);
    if a.Lookup? {
      LookupSettled(s, a, t);
    } else {
      forall th ensures !Outdated(Apply(s, a), t, th) {
        assert !Outdated(s, t, th);
      }
      OtherStepTenantOk(s, a, t);
    }
  }

  lemma OtherStepTenantOk(s: System, a: Action, t: Tenant)
    requires Inv(s) && TenantOk(s, t) && Enabled(s, a) && !a.Lookup? && (a.SetConfig? ==> a.tenant != t)
    ensures TenantOk(Apply(s, a), t)
  {
  }

  lemma {:induction false} SettledPath(run: seq<System>, acts: seq<Action>, n: nat, t: Tenant)
    requires IsPath(run, acts) && n < |run| && Settled(run[0], t) && KeepsConfig(acts, t)
    ensures Settled(run[n], t)
  {
    if n > 0 {
      SettledPath(run, acts, n - 1, t);
      SettledStep(run[n - 1], acts[n - 1], t);
    }
  }

  // ---- Going beyond the cap ----

  /** One more step at the end of a path. */
  lemma Go(run: seq<System>, acts: seq<Action>, a: Action) returns (run': seq<System>, acts': seq<Action>)
    requires IsPath(run, acts) && Enabled(run[|acts|], a)
    ensures IsPath(run', acts') && run'[0] == run[0] && acts' == acts + [a] && run'[|acts'|] == Apply(run[|acts|], a)
  {
    run', acts' := run + [Apply(run[|acts|], a)], acts + [a];
  }

  /** The object that a look-up of the tenant finds or makes. */
  lemma ObjectToFind(s: System, t: Tenant) returns (o: ObjId)
    requires Inv(s)
    ensures if t in s.current then o == s.current[t] && o in s.objects else o !in s.objects
  {
    if t in s.current {
      o := s.current[t];
    } else {
      o := FreshNat(s.objects.Keys);
    }
  }

  ghost function InUse(s: System, t: Tenant): nat
    requires TenantWithin(s, t)
  {
    if t in s.current then s.objects[s.current[t]].inUse else 0
  }

  /** A goroutine of its own reads the config and looks the slots up. */
  lemma ReadAndLookup(run: seq<System>, acts: seq<Action>, t: Tenant) returns (run': seq<System>, acts': seq<Action>, n: Thread, o: ObjId)
    requires IsPath(run, acts) && Inv(run[|acts|]) && KeepsConfig(acts, t) && ConfigOf(run[|acts|], t) > 0
    ensures IsPath(run', acts') && run'[0] == run[0] && KeepsConfig(acts', t)
    ensures var s, s' := run[|acts|], run'[|acts'|]; var x := ConfigOf(s, t);
      && n !in s.threads && s'.threads == s.threads[n := Holding(t, x, o)] && s'.configs == s.configs && s'.handles == s.handles
      && s'.current == s.current[t := o] && o in s'.objects
      && (t in s.current ==> o == s.current[t] && o in s.objects)
      && s'.objects[o] == Slots(x, if t in s.current then s.objects[o].inUse else 0)
  {
    var s := run[|acts|];
    n := FreshNat(s.threads.Keys);
    o := ObjectToFind(s, t);
    run', acts' := Go(run, acts, ReadConfig(n, t));
    run', acts' := Go(run', acts', Lookup(n, o));
  }

  /** What matters of a state for going beyond the cap of tenant `t`. */
  ghost predicate Filled(s: System, s0: System, t: Tenant, u: int) {
    && u >= 0 && t in s.current && s.current[t] in s.objects && s.objects[s.current[t]] == Slots(ConfigOf(s0, t), u)
    && s.configs == s0.configs && s.threads == s0.threads
  }

  /** One more slot is taken while there is room. */
  lemma AcquireOne(run: seq<System>, acts: seq<Action>, t: Tenant) returns (run': seq<System>, acts': seq<Action>)
    requires IsPath(run, acts) && Inv(run[|acts|]) && KeepsConfig(acts, t) && ConfigOf(run[|acts|], t) > 0
    requires TenantWithin(run[|acts|], t) && InUse(run[|acts|], t) < ConfigOf(run[|acts|], t)
    ensures IsPath(run', acts') && run'[0] == run[0] && KeepsConfig(acts', t)
    ensures Filled(run'[|acts'|], run[|acts|], t, InUse(run[|acts|], t) + 1)
  {
    var n, o;
    run', acts', n, o := ReadAndLookup(run, acts, t);
    var s, s' := run[|acts|], run'[|acts'|];
    var h := FreshNat(s'.handles.Keys);
    run', acts' := Go(run', acts', Take(n, h));
    assert s.threads[n := Holding(t, ConfigOf(s, t), o)] - {n} == s.threads;
  }

  lemma {:induction false} PathKeepsInv(run: seq<System>, acts: seq<Action>, n: nat)
    requires IsPath(run, acts) && n < |run| && Inv(run[0])
    ensures Inv(run[n])
  {
    if n > 0 {
      PathKeepsInv(run, acts, n - 1);
      PointKeepsInv(run, acts, n - 1);
    }
  }

  lemma PointKeepsInv(run: seq<System>, acts: seq<Action>, n: nat)
    requires IsPath(run, acts) && n < |acts| && Inv(run[n])
    ensures Inv(run[n + 1])
  {
    StepKeepsInv(run[n], acts[n]);
  }

  /** Slots are taken until the configured limit is reached. */
  lemma {:induction false} FillTo(s: System, t: Tenant, u: nat) returns (run: seq<System>, acts: seq<Action>)
    requires Inv(s) && TenantOk(s, t) && ConfigOf(s, t) > 0 && InUse(s, t) < u <= ConfigOf(s, t)
    ensures IsPath(run, acts) && run[0] == s && KeepsConfig(acts, t) && Filled(run[|acts|], s, t, u)
    decreases u
  {
    if u == InUse(s, t) + 1 {
      run, acts := AcquireOne([s], [], t);
    } else {
      run, acts := FillTo(s, t, u - 1);
      PathKeepsInv(run, acts, |acts|);
      run, acts := AcquireOne(run, acts, t);
    }
  }

  /** All slots of the tenant are in use under the configured limit. */
  lemma FillUp(s: System, t: Tenant) returns (run: seq<System>, acts: seq<Action>)
    requires Inv(s) && TenantOk(s, t) && ConfigOf(s, t) > 0
    ensures IsPath(run, acts) && run[0] == s && KeepsConfig(acts, t) && Inv(run[|acts|]) && Filled(run[|acts|], s, t, ConfigOf(s, t))
  {
    if InUse(s, t) == ConfigOf(s, t) {
      run, acts := [s], [];
    } else {
      run, acts := FillTo(s, t, ConfigOf(s, t));
    }
    PathKeepsInv(run, acts, |acts|);
  }

  /** A goroutine with a smaller limit looks up slots that are all in use. */
  lemma SmallerLimitBreaks(run: seq<System>, acts: seq<Action>, t: Tenant, th: Thread) returns (run': seq<System>, acts': seq<Action>)
    requires IsPath(run, acts) && KeepsConfig(acts, t) && Filled(run[|acts|], run[|acts|], t, ConfigOf(run[|acts|], t))
    requires Outdated(run[|acts|], t, th) && run[|acts|].threads[th].max < ConfigOf(run[|acts|], t)
    ensures IsPath(run', acts') && run'[0] == run[0] && KeepsConfig(acts', t) && !TenantWithin(run'[|acts'|], t)
  {
    run', acts' := Go(run, acts, Lookup(th, run[|acts|].current[t]));
  }

  lemma TakeOneMore(run: seq<System>, acts: seq<Action>, t: Tenant, th: Thread) returns (run': seq<System>, acts': seq<Action>)
    requires IsPath(run, acts) && KeepsConfig(acts, t)
    requires Filled(run[|acts|], run[|acts|], t, ConfigOf(run[|acts|], t))
    requires Outdated(run[|acts|], t, th) && run[|acts|].threads[th].max > ConfigOf(run[|acts|], t) > 0
    ensures IsPath(run', acts') && run'[0] == run[0] && KeepsConfig(acts', t)
    ensures var s, s' := run[|acts|], run'[|acts'|]; var o := s.current[t];
      && t in s'.current && s'.current[t] == o && o in s'.objects && s'.objects[o].inUse == ConfigOf(s, t) + 1 && s'.configs == s.configs
  {
    run', acts' := Go(run, acts, Lookup(th, run[|acts|].current[t]));
    var h := FreshNat(run'[|acts'|].handles.Keys);
    run', acts' := Go(run', acts', Take(th, h));
  }

  /** A goroutine with a larger limit takes one slot more, and the next look-up lowers the cap again. */
  lemma LargerLimitBreaks(run: seq<System>, acts: seq<Action>, t: Tenant, th: Thread) returns (run': seq<System>, acts': seq<Action>)
    requires IsPath(run, acts) && KeepsConfig(acts, t) && Inv(run[|acts|]) && Inv(run[0])
    requires Filled(run[|acts|], run[|acts|], t, ConfigOf(run[|acts|], t))
    requires Outdated(run[|acts|], t, th) && run[|acts|].threads[th].max > ConfigOf(run[|acts|], t) > 0
    ensures IsPath(run', acts') && run'[0] == run[0] && KeepsConfig(acts', t) && !TenantWithin(run'[|acts'|], t)
  {
    run', acts' := TakeOneMore(run, acts, t, th);
    PathKeepsInv(run', acts', |acts'|);
    var n, p;
    run', acts', n, p := ReadAndLookup(run', acts', t);
  }

  /** As long as the config of a tenant stays, its cap is safe exactly when no goroutine is about to
      look its slots up with another limit. */
  lemma CapIsSafeExactly(s: System, t: Tenant)
    requires Inv(s) && OwnObjects(s) && TenantOk(s, t) && ConfigOf(s, t) > 0
    ensures CapIsSafe(s, t) <==> NoneOutdated(s, t)
  {
    if NoneOutdated(s, t) {
      forall run, acts | IsPath(run, acts) && run[0] == s && KeepsConfig(acts, t) ensures TenantWithin(run[|acts|], t) {
        SettledPath(run, acts, |acts|, t);
      }
    } else {
      var th :| Outdated(s, t, th);
      var run, acts := FillUp(s, t);
      assert Outdated(run[|acts|], t, th);
      if s.threads[th].max < ConfigOf(s, t) {
        run, acts := SmallerLimitBreaks(run, acts, t, th);
      } else {
        run, acts := LargerLimitBreaks(run, acts, t, th);
      }
      assert !TenantWithin(run[|acts|], t);
    }
  }

  /** In runs whose look-ups are all prompt, the tenants meet what that asks for. */
  lemma PromptRunIsOk(run: seq<System>, acts: seq<Action>, n: nat, t: Tenant)
    requires PromptRun(run, acts) && n < |run|
    ensures Inv(run[n]) && OwnObjects(run[n]) && TenantOk(run[n], t)
  {
    RunKeepsInv(run, acts, n);
    PromptRunKeepsCaps(run, acts, n);
  }

  lemma BeforeLowering() returns (run: seq<System>, acts: seq<Action>)
    ensures IsRun(run, acts)
    ensures var s := run[|acts|];
      && s.configs == map["t" := 1] && s.threads == map[0 := Holding("t", 2, 0), 1 := Read("t", 1)]
      && s.current == map["t" := 0] && s.objects == map[0 := Slots(2, 0)]
  {
    run, acts := [INITIAL], [];
    run, acts := Then(run, acts, SetConfig("t", 2));
    run, acts := Then(run, acts, ReadConfig(0, "t"));
    run, acts := Then(run, acts, SetConfig("t", 1));
    run, acts := Then(run, acts, Lookup(0, 0));
    run, acts := Then(run, acts, ReadConfig(1, "t"));
  }

  /** A look-up that lowers the limit need not do harm: with nothing in use and no other outdated limit
      about, the cap is safe again after it. */
  lemma LoweringCanBeHarmless() returns (run: seq<System>, acts: seq<Action>)
    ensures IsRun(run, acts) && |acts| > 0 && Lowers(run[|acts| - 1], acts[|acts| - 1], 0) && CapIsSafe(run[|acts|], "t")
  {
    run, acts := BeforeLowering();
    run, acts := Then(run, acts, Lookup(1, 0));
    RunKeepsInv(run, acts, |acts|);
    assert run[|acts|].threads == map[0 := Holding("t", 2, 0), 1 := Holding("t", 1, 0)];
    CapIsSafeExactly(run[|acts|], "t");
  }

  // ---- Two holders under a cap of one ----

  lemma Then(run: seq<System>, acts: seq<Action>, a: Action) returns (run': seq<System>, acts': seq<Action>)
    requires IsRun(run, acts) && Enabled(run[|acts|], a)
    ensures run' == run + [Apply(run[|acts|], a)] && acts' == acts + [a] && IsRun(run', acts')
    ensures run'[|acts'|] == Apply(run[|acts|], a)
  {
    run', acts' := run + [Apply(run[|acts|], a)], acts + [a];
  }

  /** Two acquisitions read a limit of two, the limit is then lowered to one, and a third one
      looks the object up: two holders, cap one. */
  lemma OutdatedConfigBreaksCap() returns (run: seq<System>, acts: seq<Action>)
    ensures IsRun(run, acts)
    ensures var s := run[|acts|]; "t" in s.current && s.current["t"] in s.objects && s.objects[s.current["t"]] == Slots(1, 2)
  {
    run, acts := [INITIAL], [];
    run, acts := Then(run, acts, SetConfig("t", 2));
    run, acts := Then(run, acts, ReadConfig(0, "t"));
    run, acts := Then(run, acts, ReadConfig(1, "t"));
    run, acts := Then(run, acts, SetConfig("t", 1));
    run, acts := Then(run, acts, ReadConfig(2, "t"));
    var s := run[|acts|];
    assert s.threads == map[0 := Read("t", 2), 1 := Read("t", 2), 2 := Read("t", 1)] && s.current == map[] && s.objects == map[] && s.handles == map[];
    run, acts := OutdatedHolders(run, acts);
    run, acts := Then(run, acts, Lookup(2, 0));
  }

  lemma OutdatedHolders(run0: seq<System>, acts0: seq<Action>) returns (run: seq<System>, acts: seq<Action>)
    requires IsRun(run0, acts0)
    requires var s := run0[|acts0|];
      s.threads == map[0 := Read("t", 2), 1 := Read("t", 2), 2 := Read("t", 1)] && s.current == map[] && s.objects == map[] && s.handles == map[]
    ensures IsRun(run, acts)
    ensures var s := run[|acts|];
      "t" in s.current && s.current["t"] == 0 && 0 in s.objects && s.objects[0] == Slots(2, 2) && 2 in s.threads && s.threads[2] == Read("t", 1)
  {
    run, acts := Then(run0, acts0, Lookup(0, 0));
    run, acts := Then(run, acts, Take(0, 0));
    assert run[|acts|].objects[0] == Slots(2, 1);
    run, acts := Then(run, acts, Lookup(1, 0));
    run, acts := Then(run, acts, Take(1, 1));
  }
}
