/**
  The kernel of kernel/kernel.go: module registration, the boot order by repeated removal of
  modules without open dependencies, and the init/start/stop life cycle under any failures.
 */
module KernelBoot {
  import opened Common
  import opened Dependencies

  datatype Module = Module(name: string, deps: seq<string>)

  datatype ModuleState = Registered | Initialized | Running | Stopped | Failed

  datatype BootError =
    | AlreadyRegistered(name: string)
    | ConfigNotLoaded
    | UnregisteredDependency(name: string, dep: string)
    | CyclicDependency
    | InitFailed(name: string)
    | StartFailed(name: string)
    | StopFailed(name: string)

  // ---- From names to a graph ----

  ghost predicate AllRegistered(mods: seq<Module>, index: map<string, nat>) {
    forall i, k :: 0 <= i < |mods| && 0 <= k < |mods[i].deps| ==> mods[i].deps[k] in index
  }

  ghost function Targets(deps: seq<string>, index: map<string, nat>): (t: seq<nat>)
    requires forall k :: 0 <= k < |deps| ==> deps[k] in index
    ensures |t| == |deps| && forall k :: 0 <= k < |t| ==> t[k] == index[deps[k]]
  {
    seq(|deps|, k requires 0 <= k < |deps| => index[deps[k]])
  }

  ghost function GraphOf(mods: seq<Module>, index: map<string, nat>): (g: Graph)
    requires AllRegistered(mods, index)
    ensures |g| == |mods| && forall i :: 0 <= i < |g| ==> g[i] == Targets(mods[i].deps, index)
  {
    seq(|mods|, i requires 0 <= i < |mods| => Targets(mods[i].deps, index))
  }

  /** The names of the modules, and only they, are indexed, each by its position. */
  ghost predicate Indexed(mods: seq<Module>, index: map<string, nat>) {
    && (forall i :: 0 <= i < |mods| ==> mods[i].name in index && index[mods[i].name] == i)
    && (forall name :: name in index ==> index[name] < |mods| && mods[index[name]].name == name)
  }

  /** The first dependency, in declaration order, that names no module. */
  ghost predicate FirstUnregistered(mods: seq<Module>, index: map<string, nat>, i: nat, k: nat) {
    && i < |mods| && k < |mods[i].deps| && mods[i].deps[k] !in index
    && AllRegistered(mods[..i], index)
    && forall l :: 0 <= l < k ==> mods[i].deps[l] in index
  }

  /** In-degrees and reverse edges of a graph, duplicates included. */
  ghost predicate Linked(g: Graph, degrees: seq<nat>, adj: seq<seq<nat>>) {
    && |degrees| == |adj| == |g|
    && (forall i :: 0 <= i < |g| ==> degrees[i] == |g[i]|)
    && (forall i, j :: 0 <= i < |g| && 0 <= j < |g| ==> multiset(adj[j])[i] == multiset(g[i])[j])
    && (forall j, k :: 0 <= j < |g| && 0 <= k < |adj[j]| ==> adj[j][k] < |g|)
  }

  lemma LinkEdge(g: Graph, degrees: seq<nat>, adj: seq<seq<nat>>, i: nat, j: nat)
    requires Linked(g, degrees, adj) && i < |g| && j < |g|
    ensures Linked(g[i := g[i] + [j]], degrees[i := degrees[i] + 1], adj[j := adj[j] + [i]])
  {
  }

  /** Edges declared by the modules before `i`. */
  ghost function PrefixGraph(mods: seq<Module>, index: map<string, nat>, i: nat): (g: Graph)
    requires i <= |mods| && AllRegistered(mods[..i], index)
    ensures |g| == |mods|
  {
    GraphOf(mods[..i], index) + seq(|mods| - i, _ => [])
  }

  /** Edges declared by the modules before `i` and by the first `k` entries of module `i`. */
  ghost function PartialGraph(mods: seq<Module>, index: map<string, nat>, i: nat, k: nat): (g: Graph)
    requires i < |mods| && k <= |mods[i].deps| && AllRegistered(mods[..i], index)
    requires forall l :: 0 <= l < k ==> mods[i].deps[l] in index
    ensures |g| == |mods|
  {
    PrefixGraph(mods, index, i)[i := Targets(mods[i].deps[..k], index)]
  }

  lemma PartialStart(mods: seq<Module>, index: map<string, nat>, i: nat)
    requires i < |mods| && AllRegistered(mods[..i], index)
    ensures PartialGraph(mods, index, i, 0) == PrefixGraph(mods, index, i)
  {
  }

  lemma PartialStep(mods: seq<Module>, index: map<string, nat>, i: nat, k: nat)
    requires i < |mods| && k < |mods[i].deps| && AllRegistered(mods[..i], index)
    requires forall l :: 0 <= l <= k ==> mods[i].deps[l] in index
    ensures var g := PartialGraph(mods, index, i, k);
      PartialGraph(mods, index, i, k + 1) == g[i := g[i] + [index[mods[i].deps[k]]]]
  {
    assert Targets(mods[i].deps[..k + 1], index) == Targets(mods[i].deps[..k], index) + [index[mods[i].deps[k]]];
  }

  lemma PartialEnd(mods: seq<Module>, index: map<string, nat>, i: nat)
    requires i < |mods| && AllRegistered(mods[..i], index)
    requires forall l :: 0 <= l < |mods[i].deps| ==> mods[i].deps[l] in index
    ensures AllRegistered(mods[..i + 1], index)
    ensures PartialGraph(mods, index, i, |mods[i].deps|) == PrefixGraph(mods, index, i + 1)
  {
    var longer := mods[..i + 1];
    forall a, l | 0 <= a < |longer| && 0 <= l < |longer[a].deps| ensures longer[a].deps[l] in index {
      if a < i {
        assert longer[a] == mods[..i][a];
      }
    }
    assert mods[i].deps[..|mods[i].deps|] == mods[i].deps;
    var g, h := PartialGraph(mods, index, i, |mods[i].deps|), PrefixGraph(mods, index, i + 1);
    forall a | 0 <= a < |mods| ensures g[a] == h[a] {
      if a < i {
        assert mods[..i + 1][a] == mods[..i][a];
      }
    }
  }

  lemma NoEdges(mods: seq<Module>, index: map<string, nat>, degrees: seq<nat>, adj: seq<seq<nat>>)
    requires |degrees| == |adj| == |mods|
    requires forall i :: 0 <= i < |mods| ==> degrees[i] == 0 && adj[i] == []
    ensures Linked(PrefixGraph(mods, index, 0), degrees, adj)
  {
    assert mods[..0] == [];
  }

  // ---- Removing modules without open dependencies ----

  ghost function Elems(s: seq<nat>): set<nat> {
    set x | x in s
  }

  /** `order` has been booted, `queue` has nothing left to wait for, and the waits on the last
      module of `order` that `todo` lists have still to be taken off `degrees`. */
  ghost predicate Sorting(g: Graph, degrees: seq<nat>, order: seq<nat>, queue: seq<nat>, todo: seq<nat>) {
    && |degrees| == |g|
    && (forall i :: 0 <= i < |g| ==> degrees[i] == Waiting(g[i], Elems(order)) + multiset(todo)[i])
    && (forall k :: 0 <= k < |todo| ==> todo[k] < |g|)
    && Distinct(order + queue)
    && (forall k :: 0 <= k < |order + queue| ==> (order + queue)[k] < |g|)
    && (forall i :: 0 <= i < |g| ==> (degrees[i] == 0 <==> i in order + queue))
    && DependenciesFirst(g, order)
  }

  lemma SortingStart(g: Graph, degrees: seq<nat>, adj: seq<seq<nat>>, queue: seq<nat>)
    requires Linked(g, degrees, adj)
    requires Distinct(queue) && forall i :: i in queue <==> 0 <= i < |g| && degrees[i] == 0
    ensures Sorting(g, degrees, [], queue, [])
  {
    var none: seq<nat> := [];
    assert none + queue == queue && Elems(none) == {};
    assert forall k :: 0 <= k < |queue| ==> queue[k] in queue;
    forall i | 0 <= i < |g| ensures Waiting(g[i], {}) == degrees[i] {
      WaitingNone(g[i]);
    }
  }

  lemma SortingPop(g: Graph, linked: seq<nat>, degrees: seq<nat>, adj: seq<seq<nat>>, order: seq<nat>, queue: seq<nat>)
    requires Sorting(g, degrees, order, queue, []) && queue != []
    requires Linked(g, linked, adj)
    ensures queue[0] < |g| && Sorting(g, degrees, order + [queue[0]], queue[1..], adj[queue[0]])
  {
    var curr := queue[0];
    assert order + queue == order + [curr] + queue[1..];
    assert curr == (order + queue)[|order|] && curr < |g|;
    assert curr in order + queue;
    assert forall a :: 0 <= a < |order| ==> order[a] == (order + queue)[a];
    assert curr !in Elems(order);
    assert Elems(order + [curr]) == Elems(order) + {curr};
    forall i | 0 <= i < |g|
      ensures degrees[i] == Waiting(g[i], Elems(order + [curr])) + multiset(adj[curr])[i]
    {
      WaitingFinish(g[i], Elems(order), curr);
    }
    WaitingDone(g[curr], Elems(order));
    OneMoreBooted(g, order, curr);
  }

  lemma OneMoreBooted(g: Graph, order: seq<nat>, x: nat)
    requires DependenciesFirst(g, order) && x < |g| && forall d :: d in g[x] ==> d in order
    ensures DependenciesFirst(g, order + [x])
  {
    var longer := order + [x];
    forall a | 0 <= a < |longer| && longer[a] < |g|
      ensures forall d :: d in g[longer[a]] ==> d in longer[..a]
    {
      if a < |order| {
        assert longer[..a] == order[..a];
      } else {
        assert longer[..a] == order;
      }
    }
  }

  function PushReady(queue: seq<nat>, degrees: seq<nat>, x: nat): seq<nat>
    requires x < |degrees|
  {
    if degrees[x] == 0 then queue + [x] else queue
  }

  lemma SortingTake(g: Graph, degrees: seq<nat>, order: seq<nat>, queue: seq<nat>, todo: seq<nat>)
    requires Sorting(g, degrees, order, queue, todo) && todo != []
    ensures degrees[todo[0]] > 0
    ensures var after := degrees[todo[0] := degrees[todo[0]] - 1];
      Sorting(g, after, order, PushReady(queue, after, todo[0]), todo[1..])
  {
    var x := todo[0];
    assert todo == [x] + todo[1..];
    assert multiset(todo) == multiset{x} + multiset(todo[1..]);
    var after := degrees[x := degrees[x] - 1];
    var queue' := PushReady(queue, after, x);
    assert x !in order + queue;
    assert order + (queue + [x]) == order + queue + [x];
    forall i | 0 <= i < |g| ensures after[i] == 0 <==> i in order + queue' {
    }
  }

  lemma SortingProgress(g: Graph, degrees: seq<nat>, order: seq<nat>, queue: seq<nat>, todo: seq<nat>)
    requires Sorting(g, degrees, order, queue, todo)
    ensures |order| + |queue| <= |g|
  {
    DistinctWithin(order + queue, UpTo(|g|));
  }

  /** When nothing is ready any more, either everything is in order or there is a cycle. */
  lemma SortingEnd(g: Graph, degrees: seq<nat>, order: seq<nat>)
    requires Closed(g) && Sorting(g, degrees, order, [], [])
    ensures |order| == |g| ==> IsBootOrder(g, order)
    ensures |order| != |g| ==> HasCycle(g)
  {
    assert order + [] == order;
    if |order| != |g| {
      var stuck := UpTo(|g|) - Elems(order);
      forall i {:trigger StuckAt(g, stuck, i)} | i in stuck ensures StuckAt(g, stuck, i) {
        WaitingDone(g[i], Elems(order));
        var d :| d in g[i] && d !in Elems(order);
        assert d in stuck;
      }
      DistinctWithin(order, UpTo(|g|));
      DistinctSetSize(order);
      LargerSetHasMore(UpTo(|g|), Elems(order));
      StuckModulesHaveCycle(g, stuck);
    }
  }

  /** Module `i` waits for one more, and module `j` is waited for by one more. */
  method AddEdge(i: nat, j: nat, inDegree: array<nat>, adj: array<seq<nat>>)
    requires i < inDegree.Length && j < adj.Length
    modifies inDegree, adj
    ensures inDegree[..] == old(inDegree[..])[i := old(inDegree[i]) + 1]
    ensures adj[..] == old(adj[..])[j := old(adj[j]) + [i]]
  {
    adj[j] := adj[j] + [i];
    inDegree[i] := inDegree[i] + 1;
  }

  /** Count and link the dependencies of module `i`, up to the first that is not registered. */
  method LinkModule(mods: seq<Module>, index: map<string, nat>, i: nat, inDegree: array<nat>, adj: array<seq<nat>>)
    returns (unknown: Option<nat>)
    requires Indexed(mods, index) && i < |mods| && AllRegistered(mods[..i], index)
    requires Linked(PrefixGraph(mods, index, i), inDegree[..], adj[..])
    modifies inDegree, adj
    ensures unknown.None? <==> forall l :: 0 <= l < |mods[i].deps| ==> mods[i].deps[l] in index
    ensures unknown.Some? ==> FirstUnregistered(mods, index, i, unknown.value)
    ensures unknown.None? ==> Linked(PartialGraph(mods, index, i, |mods[i].deps|), inDegree[..], adj[..])
  {
    PartialStart(mods, index, i);
    var k := 0;
    while k < |mods[i].deps|
      invariant k <= |mods[i].deps| && forall l :: 0 <= l < k ==> mods[i].deps[l] in index
      invariant Linked(PartialGraph(mods, index, i, k), inDegree[..], adj[..])
    {
      var dep := mods[i].deps[k];
      if dep !in index {
        return Some(k);
      }
      LinkEdge(PartialGraph(mods, index, i, k), inDegree[..], adj[..], i, index[dep]);
      PartialStep(mods, index, i, k);
      AddEdge(i, index[dep], inDegree, adj);
      k := k + 1;
    }
    return None;
  }

  /** In-degrees and reverse edges from the declared names, or the first name that is unknown. */
  method Link(mods: seq<Module>, index: map<string, nat>)
    returns (err: Option<BootError>, inDegree: array<nat>, adj: array<seq<nat>>)
    requires Indexed(mods, index)
    ensures err.None? <==> AllRegistered(mods, index)
    ensures err.Some? ==> exists i: nat, k: nat :: FirstUnregistered(mods, index, i, k)
                                      && err.value == UnregisteredDependency(mods[i].name, mods[i].deps[k])
    ensures fresh(inDegree) && fresh(adj)
    ensures err.None? ==> Linked(GraphOf(mods, index), inDegree[..], adj[..])
  {
    var n := |mods|;
    inDegree := new nat[n](_ => 0);
    adj := new seq<nat>[n](_ => []);
    NoEdges(mods, index, inDegree[..], adj[..]);
    var i := 0;
    while i < n
      invariant i <= n && AllRegistered(mods[..i], index)
      invariant Linked(PrefixGraph(mods, index, i), inDegree[..], adj[..])
    {
      var unknown := LinkModule(mods, index, i, inDegree, adj);
      if unknown.Some? {
        err := Some(UnregisteredDependency(mods[i].name, mods[i].deps[unknown.value]));
        return;
      }
      PartialEnd(mods, index, i);
      i := i + 1;
    }
    assert mods[..n] == mods;
    assert PrefixGraph(mods, index, n) == GraphOf(mods, index);
    err := None;
  }

  /** The modules that wait for nothing, in registration order. */
  method Ready(inDegree: array<nat>) returns (queue: seq<nat>)
    ensures Distinct(queue) && forall x :: x in queue <==> 0 <= x < inDegree.Length && inDegree[x] == 0
  {
    queue := [];
    var i := 0;
    while i < inDegree.Length
      invariant i <= inDegree.Length
      invariant Distinct(queue) && forall x :: x in queue <==> 0 <= x < i && inDegree[x] == 0
    {
      if inDegree[i] == 0 {
        queue := queue + [i];
      }
      i := i + 1;
    }
  }

  /** Take one booted module off the waits of its dependents, queueing those that become free. */
  method Free(ghost g: Graph, inDegree: array<nat>, ghost order: seq<nat>, queue0: seq<nat>, dependents: seq<nat>)
    returns (queue: seq<nat>)
    requires Sorting(g, inDegree[..], order, queue0, dependents)
    modifies inDegree
    ensures Sorting(g, inDegree[..], order, queue, [])
  {
    queue := queue0;
    var todo := dependents;
    while todo != []
      invariant Sorting(g, inDegree[..], order, queue, todo)
      decreases |todo|
    {
      var next := todo[0];
      ghost var before := inDegree[..];
      SortingTake(g, before, order, queue, todo);
      inDegree[next] := inDegree[next] - 1;
      assert inDegree[..] == before[next := before[next] - 1];
      if inDegree[next] == 0 {
        queue := queue + [next];
      }
      todo := todo[1..];
    }
  }

  /** Kahn's algorithm: the order in which modules become free of open dependencies. */
  method Sort(ghost g: Graph, inDegree: array<nat>, adj: array<seq<nat>>) returns (order: seq<nat>)
    requires Closed(g) && Linked(g, inDegree[..], adj[..])
    modifies inDegree
    ensures |order| == |g| ==> IsBootOrder(g, order)
    ensures |order| != |g| ==> HasCycle(g)
  {
    ghost var linked := inDegree[..];
    var queue := Ready(inDegree);
    order := [];
    SortingStart(g, linked, adj[..], queue);
    while queue != []
      invariant Sorting(g, inDegree[..], order, queue, [])
      decreases |g| - |order|
    {
      SortingPop(g, linked, inDegree[..], adj[..], order, queue);
      SortingProgress(g, inDegree[..], order, queue, []);
      var curr := queue[0];
      order := order + [curr];
      queue := Free(g, inDegree, order, queue[1..], adj[curr]);
    }
    SortingEnd(g, inDegree[..], order);
  }

  // ---- The life cycle ----

  /** A partial boot order over names: each listed module comes after everything it depends on. */
  ghost predicate OrderOk(mods: seq<Module>, index: map<string, nat>, order: seq<nat>) {
    && Distinct(order)
    && (forall a :: 0 <= a < |order| ==> order[a] < |mods|)
    && (forall a, k :: 0 <= a < |order| && 0 <= k < |mods[order[a]].deps| ==>
          mods[order[a]].deps[k] in index && index[mods[order[a]].deps[k]] in order[..a])
  }

  lemma BootOrderOk(mods: seq<Module>, index: map<string, nat>, order: seq<nat>)
    requires AllRegistered(mods, index) && IsBootOrder(GraphOf(mods, index), order)
    ensures OrderOk(mods, index, order)
  {
    var g := GraphOf(mods, index);
    forall a | 0 <= a < |order| ensures order[a] < |mods| {
      assert order[a] in order;
    }
    forall a, k | 0 <= a < |order| && 0 <= k < |mods[order[a]].deps|
      ensures index[mods[order[a]].deps[k]] in order[..a]
    {
      assert g[order[a]][k] == index[mods[order[a]].deps[k]];
      assert g[order[a]][k] in g[order[a]];
    }
  }

  /** The first position of `order`, from `a` on, whose call fails. */
  function FirstFailure(order: seq<nat>, ok: seq<bool>, a: nat): (f: nat)
    requires a <= |order| && forall k :: 0 <= k < |order| ==> order[k] < |ok|
    ensures a <= f <= |order| && (forall k :: a <= k < f ==> ok[order[k]]) && (f < |order| ==> !ok[order[f]])
    decreases |order| - a
  {
    if a == |order| || !ok[order[a]] then a else FirstFailure(order, ok, a + 1)
  }

  /** One pass over the boot order that stops at the failing position `f`. */
  ghost predicate Advanced(before: seq<ModuleState>, after: seq<ModuleState>, order: seq<nat>, f: nat, state: ModuleState) {
    && |after| == |before| && (forall k :: 0 <= k < |order| ==> order[k] < |before|)
    && (forall k :: 0 <= k < |order| ==> after[order[k]] == if k < f then state else if k == f then Failed else before[order[k]])
    && (forall i :: 0 <= i < |before| && i !in order ==> after[i] == before[i])
  }

  /** The running modules are an initial part of the boot order. */
  ghost predicate RunningPrefix(states: seq<ModuleState>, order: seq<nat>) {
    exists p: nat :: p <= |order| && PrefixRuns(states, order, p)
  }

  ghost predicate PrefixRuns(states: seq<ModuleState>, order: seq<nat>, p: nat) {
    && (forall i :: 0 <= i < |states| && states[i] == Running ==> i in order)
    && (forall k :: 0 <= k < |order| ==> order[k] < |states| && (states[order[k]] == Running <==> k < p))
  }

  /** Whatever a running module depends on is running. */
  ghost predicate DependencyClosed(mods: seq<Module>, index: map<string, nat>, states: seq<ModuleState>)
    requires |states| == |mods|
  {
    forall i, k :: 0 <= i < |mods| && states[i] == Running && 0 <= k < |mods[i].deps| ==>
      mods[i].deps[k] in index && index[mods[i].deps[k]] < |states| && states[index[mods[i].deps[k]]] == Running
  }

  lemma PrefixIsDependencyClosed(mods: seq<Module>, index: map<string, nat>, states: seq<ModuleState>, order: seq<nat>)
    requires |states| == |mods| && OrderOk(mods, index, order) && RunningPrefix(states, order)
    ensures DependencyClosed(mods, index, states)
  {
    var p: nat :| p <= |order| && PrefixRuns(states, order, p);
    forall i, k | 0 <= i < |mods| && states[i] == Running && 0 <= k < |mods[i].deps|
      ensures mods[i].deps[k] in index && index[mods[i].deps[k]] < |states| && states[index[mods[i].deps[k]]] == Running
    {
      var a :| 0 <= a < |order| && order[a] == i;
      assert index[mods[order[a]].deps[k]] in order[..a];
      var b :| 0 <= b < |order[..a]| && order[..a][b] == index[mods[i].deps[k]];
      assert order[b] == index[mods[i].deps[k]];
    }
  }

  /** The Stop calls: the running modules, last booted first. */
  function StopCalls(states: seq<ModuleState>, order: seq<nat>): seq<nat>
    requires forall k :: 0 <= k < |order| ==> order[k] < |states|
  {
    if order == [] then []
    else
      var last := order[|order| - 1];
      (if states[last] == Running then [last] else []) + StopCalls(states, order[..|order| - 1])
  }

  lemma {:induction false} StopCallsAre(states: seq<ModuleState>, order: seq<nat>)
    requires Distinct(order) && forall k :: 0 <= k < |order| ==> order[k] < |states|
    ensures forall i :: i in StopCalls(states, order) <==> i in order && states[i] == Running
    ensures Distinct(StopCalls(states, order))
  {
    if order != [] {
      var front, last := order[..|order| - 1], order[|order| - 1];
      StopCallsAre(states, front);
      assert order == front + [last];
      assert last !in front;
      var calls := StopCalls(states, front);
      assert Distinct([last] + calls) by {
        assert last !in calls;
      }
    }
  }

  /** Of two running modules, the one booted later is stopped earlier. */
  lemma {:induction false} StopCallsReverseOrder(states: seq<ModuleState>, order: seq<nat>, b: nat, c: nat, a: nat)
    requires Distinct(order) && forall k :: 0 <= k < |order| ==> order[k] < |states|
    requires b < c < |order| && states[order[c]] == Running
    requires a < |StopCalls(states, order)| && StopCalls(states, order)[a] == order[b]
    ensures order[c] in StopCalls(states, order)[..a]
  {
    var front, last := order[..|order| - 1], order[|order| - 1];
    var calls, rest := StopCalls(states, order), StopCalls(states, front);
    if states[last] == Running {
      assert calls[0] == last && order[b] != last;
      assert last == calls[..a][0];
      if c < |front| {
        assert rest[a - 1] == calls[a];
        StopCallsReverseOrder(states, front, b, c, a - 1);
        var e :| 0 <= e < a - 1 && rest[e] == order[c];
        assert calls[..a][e + 1] == order[c];
      }
    } else {
      assert calls == rest;
      StopCallsReverseOrder(states, front, b, c, a);
    }
  }

  /** When a module is stopped, every running module that depends on it has been stopped before. */
  lemma DependentsStopFirst(mods: seq<Module>, index: map<string, nat>, states: seq<ModuleState>, order: seq<nat>,
                            a: nat, i: nat, k: nat)
    requires |states| == |mods| && OrderOk(mods, index, order)
    requires i in order && states[i] == Running && k < |mods[i].deps|
    requires a < |StopCalls(states, order)| && mods[i].deps[k] in index && StopCalls(states, order)[a] == index[mods[i].deps[k]]
    ensures i in StopCalls(states, order)[..a]
  {
    var c :| 0 <= c < |order| && order[c] == i;
    assert index[mods[order[c]].deps[k]] in order[..c];
    var b :| 0 <= b < |order[..c]| && order[..c][b] == index[mods[i].deps[k]];
    StopCallsReverseOrder(states, order, b, c, a);
  }

  function FirstStopError(mods: seq<Module>, stopped: seq<nat>, ok: seq<bool>): Option<BootError>
    requires forall k :: 0 <= k < |stopped| ==> stopped[k] < |mods| && stopped[k] < |ok|
  {
    if stopped == [] then None
    else if ok[stopped[0]] then FirstStopError(mods, stopped[1..], ok)
    else Some(StopFailed(mods[stopped[0]].name))
  }

  /** The first of the stopped modules whose Stop fails is the one at `k`. */
  predicate FirstFailed(stopped: seq<nat>, ok: seq<bool>, k: int)
    requires forall i :: 0 <= i < |stopped| ==> stopped[i] < |ok|
  {
    0 <= k < |stopped| && !ok[stopped[k]] && forall i :: 0 <= i < k ==> ok[stopped[i]]
  }

  lemma {:induction false} ErrorIsFirst(mods: seq<Module>, stopped: seq<nat>, ok: seq<bool>)
    requires forall k :: 0 <= k < |stopped| ==> stopped[k] < |mods| && stopped[k] < |ok|
    ensures FirstStopError(mods, stopped, ok).None? <==> forall k :: 0 <= k < |stopped| ==> ok[stopped[k]]
    ensures FirstStopError(mods, stopped, ok).Some? ==>
      exists k :: FirstFailed(stopped, ok, k) && FirstStopError(mods, stopped, ok) == Some(StopFailed(mods[stopped[k]].name))
    decreases |stopped|
  {
    if stopped != [] {
      if ok[stopped[0]] {
        ErrorIsFirst(mods, stopped[1..], ok);
        assert forall k :: 0 < k < |stopped| ==> stopped[k] == stopped[1..][k - 1];
        if FirstStopError(mods, stopped, ok).Some? {
          var k :| FirstFailed(stopped[1..], ok, k) && FirstStopError(mods, stopped[1..], ok) == Some(StopFailed(mods[stopped[1..][k]].name));
          assert FirstFailed(stopped, ok, k + 1);
        }
      } else {
        assert FirstFailed(stopped, ok, 0);
      }
    }
  }

  class Kernel {
    var modules: seq<Module>
    var states: seq<ModuleState>
    var index: map<string, nat>
    var configLoaded: bool
    var running: bool
    var bootOrder: seq<nat>

    ghost predicate Valid()
      reads this
    {
      && |states| == |modules| && Indexed(modules, index) && OrderOk(modules, index, bootOrder)
      && forall i :: 0 <= i < |states| && states[i] == Running ==> i in bootOrder
    }

    constructor ()
      ensures Valid() && modules == [] && !configLoaded && !running && bootOrder == []
    {
      modules, states, index, bootOrder := [], [], map[], [];
      configLoaded, running := false, false;
    }

    method LoadConfig(loads: bool)
      requires Valid()
      modifies this`configLoaded
      ensures Valid() && configLoaded == (old(configLoaded) || loads)
    {
      if loads {
        configLoaded := true;
      }
    }

    /** Add a module under a name that is not taken; a taken name is an error that changes nothing. */
    method Register(mod: Module) returns (r: Option<BootError>)
      requires Valid()
      modifies this`modules, this`states, this`index
      ensures Valid()
      ensures r == if mod.name in old(index) then Some(AlreadyRegistered(mod.name)) else None
      ensures r.Some? ==> modules == old(modules) && states == old(states) && index == old(index)
      ensures r.None? ==> modules == old(modules) + [mod] && states == old(states) + [Registered]
      ensures r.None? ==> index == old(index)[mod.name := |old(modules)|]
    {
      if mod.name in index {
        return Some(AlreadyRegistered(mod.name));
      }
      index := index[mod.name := |modules|];
      modules := modules + [mod];
      states := states + [Registered];
      return None;
    }

    /** The boot order, exactly when every dependency is registered and none is circular. */
    method TopoSort() returns (r: Result<seq<nat>, BootError>)
      requires Valid()
      ensures r.Ok? <==> AllRegistered(modules, index) && !HasCycle(GraphOf(modules, index))
      ensures r.Ok? ==> IsBootOrder(GraphOf(modules, index), r.value)
      ensures r.Err? && AllRegistered(modules, index) ==> r.error == CyclicDependency && HasCycle(GraphOf(modules, index))
      ensures !AllRegistered(modules, index) ==>
        exists i: nat, k: nat :: FirstUnregistered(modules, index, i, k) && r == Err(UnregisteredDependency(modules[i].name, modules[i].deps[k]))
    {
      var err, inDegree, adj := Link(modules, index);
      if err.Some? {
        return Err(err.value);
      }
      ghost var g := GraphOf(modules, index);
      var order := Sort(g, inDegree, adj);
      if |order| != |modules| {
        return Err(CyclicDependency);
      }
      BootOrderExcludesCycles(g, order);
      return Ok(order);
    }

    /** Call one phase of every module in order and stop at the first failure. */
    method Advance(order: seq<nat>, ok: seq<bool>, state: ModuleState) returns (f: nat)
      requires Distinct(order) && |ok| == |states| && forall k :: 0 <= k < |order| ==> order[k] < |states|
      modifies this`states
      ensures f == FirstFailure(order, ok, 0) && Advanced(old(states), states, order, f, state)
    {
      f := 0;
      while f < |order|
        invariant f <= |order| && |states| == |old(states)| && FirstFailure(order, ok, 0) == FirstFailure(order, ok, f)
        invariant forall k :: 0 <= k < |order| ==> states[order[k]] == if k < f then state else old(states)[order[k]]
        invariant forall i :: 0 <= i < |states| && i !in order ==> states[i] == old(states)[i]
      {
        if !ok[order[f]] {
          states := states[order[f] := Failed];
          return;
        }
        states := states[order[f] := state];
        f := f + 1;
      }
    }

    /** Init all modules and then start all of them, stopping at the first failure. */
    method Boot(initOk: seq<bool>, startOk: seq<bool>) returns (r: Option<BootError>)
      requires |initOk| == |startOk| == |modules| == |states|
      requires Distinct(bootOrder) && forall k :: 0 <= k < |bootOrder| ==> bootOrder[k] < |states|
      modifies this`states
      ensures Outcome(modules, old(states), states, bootOrder, initOk, startOk, r)
    {
      var f := Advance(bootOrder, initOk, Initialized);
      if f < |bootOrder| {
        return Some(InitFailed(modules[bootOrder[f]].name));
      }
      f := Advance(bootOrder, startOk, Running);
      if f < |bootOrder| {
        return Some(StartFailed(modules[bootOrder[f]].name));
      }
      return None;
    }

    ghost predicate CanBoot()
      requires Valid()
      reads this
    {
      configLoaded && AllRegistered(modules, index) && !HasCycle(GraphOf(modules, index))
    }

    /** Boot the kernel; `initOk` and `startOk` say which of the modules' calls succeed. */
    method Start(initOk: seq<bool>, startOk: seq<bool>) returns (r: Option<BootError>)
      requires Valid() && |initOk| == |startOk| == |modules|
      modifies this`states, this`running, this`bootOrder
      ensures Valid()
      ensures !configLoaded ==> r == Some(ConfigNotLoaded)
      ensures !CanBoot() ==> r.Some? && states == old(states) && bootOrder == old(bootOrder) && running == old(running)
      ensures CanBoot() ==> IsBootOrder(GraphOf(modules, index), bootOrder)
      ensures CanBoot() ==> Outcome(modules, old(states), states, bootOrder, initOk, startOk, r)
      ensures CanBoot() ==> Reports(modules, old(states), states, initOk, startOk, r)
      ensures running == (old(running) || r.None?)
      // From a kernel in which nothing runs yet, whatever fails.
      ensures NothingRuns(old(states)) ==> RunningPrefix(states, bootOrder) && DependencyClosed(modules, index, states)
    {
      if !configLoaded {
        NothingRunsIsPrefix(modules, index, states, bootOrder);
        return Some(ConfigNotLoaded);
      }
      var sorted := TopoSort();
      if sorted.Err? {
        NothingRunsIsPrefix(modules, index, states, bootOrder);
        return Some(sorted.error);
      }
      r := BootAlong(sorted.value, initOk, startOk);
    }

    /** Boot along a full boot order. */
    method BootAlong(order: seq<nat>, initOk: seq<bool>, startOk: seq<bool>) returns (r: Option<BootError>)
      requires Valid() && |initOk| == |startOk| == |modules|
      requires AllRegistered(modules, index) && IsBootOrder(GraphOf(modules, index), order)
      modifies this`states, this`running, this`bootOrder
      ensures Valid() && bootOrder == order && running == (old(running) || r.None?)
      ensures Outcome(modules, old(states), states, order, initOk, startOk, r)
      ensures Reports(modules, old(states), states, initOk, startOk, r)
      ensures NothingRuns(old(states)) ==> RunningPrefix(states, order) && DependencyClosed(modules, index, states)
    {
      BootOrderOk(modules, index, order);
      Complete(modules, index, order);
      bootOrder := order;
      r := Boot(initOk, startOk);
      OutcomeIsPrefix(modules, index, old(states), states, order, initOk, startOk, r);
      OutcomeReports(modules, index, old(states), states, order, initOk, startOk, r);
      if r.None? {
        running := true;
      }
    }

    /** Stop the module at `idx` if it is running. */
    method StopOne(idx: nat, ok: bool) returns (called: bool, err: Option<BootError>)
      requires idx < |states| && idx < |modules|
      modifies this`states
      ensures called == (old(states)[idx] == Running)
      ensures states == if called then old(states)[idx := if ok then Stopped else Failed] else old(states)
      ensures err == if called && !ok then Some(StopFailed(modules[idx].name)) else None
    {
      if states[idx] != Running {
        return false, None;
      }
      if !ok {
        states := states[idx := Failed];
        return true, Some(StopFailed(modules[idx].name));
      }
      states := states[idx := Stopped];
      return true, None;
    }

    /** The loop of Stop, from the last module of the boot order to the first. */
    method StopInReverse(stopOk: seq<bool>) returns (stopped: seq<nat>, r: Option<BootError>)
      requires Valid() && |stopOk| == |modules|
      modifies this`states
      ensures Stopping(modules, old(states), states, bootOrder, 0, stopped, stopOk, r)
    {
      stopped, r := [], None;
      var i := |bootOrder|;
      assert bootOrder[..i] == bootOrder;
      while i > 0
        invariant i <= |bootOrder|
        invariant Stopping(modules, old(states), states, bootOrder, i, stopped, stopOk, r)
      {
        i := i - 1;
        var idx := bootOrder[i];
        StoppingStep(modules, old(states), states, bootOrder, i, stopped, stopOk, r);
        var called, err := StopOne(idx, stopOk[idx]);
        if called {
          if err.Some? && r.None? {
            r := err;
          }
          stopped := stopped + [idx];
        }
      }
    }

    /** Stop the running modules, last booted first, whatever their Stop calls answer. */
    method Stop(stopOk: seq<bool>) returns (stopped: seq<nat>, r: Option<BootError>)
      requires Valid() && |stopOk| == |modules|
      modifies this`states, this`running
      ensures Valid() && !running && NothingRuns(states)
      ensures stopped == StopCalls(old(states), bootOrder)
      ensures Distinct(stopped) && forall i :: i in stopped <==> 0 <= i < |old(states)| && old(states)[i] == Running
      ensures |states| == |old(states)| && forall i :: 0 <= i < |states| ==>
        states[i] == if old(states)[i] == Running then (if stopOk[i] then Stopped else Failed) else old(states)[i]
      ensures (forall k :: 0 <= k < |stopped| ==> stopped[k] < |modules|) && r == FirstStopError(modules, stopped, stopOk)
      ensures r.None? <==> forall k :: 0 <= k < |stopped| ==> stopOk[stopped[k]]
      ensures r.Some? ==> exists k :: FirstFailed(stopped, stopOk, k) && r == Some(StopFailed(modules[stopped[k]].name))
    {
      stopped, r := StopInReverse(stopOk);
      ErrorIsFirst(modules, stopped, stopOk);
      StoppingEnd(modules, old(states), states, bootOrder, stopped, stopOk, r);
      running := false;
    }
  }

  ghost predicate NothingRuns(states: seq<ModuleState>) {
    forall i :: 0 <= i < |states| ==> states[i] != Running
  }

  /** The stop loop when the positions of `order` from `i` on have been visited. */
  ghost predicate Stopping(mods: seq<Module>, before: seq<ModuleState>, states: seq<ModuleState>, order: seq<nat>, i: nat,
                           stopped: seq<nat>, ok: seq<bool>, r: Option<BootError>) {
    && i <= |order| && |states| == |before| == |mods| == |ok|
    && (forall k :: 0 <= k < |order| ==> order[k] < |mods|)
    && stopped + StopCalls(before, order[..i]) == StopCalls(before, order)
    && (forall k :: 0 <= k < |stopped| ==> stopped[k] < |mods|)
    && (forall j :: 0 <= j < |states| ==>
          states[j] == if j in stopped then (if ok[j] then Stopped else Failed) else before[j])
    && (forall j :: j in stopped ==> j in order[i..])
    && r == FirstStopError(mods, stopped, ok)
  }

  lemma StoppingStep(mods: seq<Module>, before: seq<ModuleState>, states: seq<ModuleState>, order: seq<nat>, i: nat,
                     stopped: seq<nat>, ok: seq<bool>, r: Option<BootError>)
    requires i < |order| && Distinct(order) && Stopping(mods, before, states, order, i + 1, stopped, ok, r)
    ensures states[order[i]] == before[order[i]]
    ensures before[order[i]] != Running ==> Stopping(mods, before, states, order, i, stopped, ok, r)
    ensures before[order[i]] == Running ==>
      var x := order[i];
      Stopping(mods, before, states[x := if ok[x] then Stopped else Failed], order, i, stopped + [x], ok,
               if r.None? && !ok[x] then Some(StopFailed(mods[x].name)) else r)
  {
    var x := order[i];
    assert order[..i + 1][..i] == order[..i];
    assert order[i..] == [x] + order[i + 1..];
    assert x !in order[i + 1..];
    FirstStopErrorAppend(mods, stopped, ok, x);
    assert stopped + ([x] + StopCalls(before, order[..i])) == stopped + [x] + StopCalls(before, order[..i]);
  }

  lemma StoppingEnd(mods: seq<Module>, before: seq<ModuleState>, states: seq<ModuleState>, order: seq<nat>,
                    stopped: seq<nat>, ok: seq<bool>, r: Option<BootError>)
    requires Distinct(order) && Stopping(mods, before, states, order, 0, stopped, ok, r)
    requires forall i :: 0 <= i < |before| && before[i] == Running ==> i in order
    ensures stopped == StopCalls(before, order) && Distinct(stopped)
    ensures forall i :: i in stopped <==> 0 <= i < |before| && before[i] == Running
    ensures NothingRuns(states)
    ensures forall i :: 0 <= i < |states| ==>
      states[i] == if before[i] == Running then (if ok[i] then Stopped else Failed) else before[i]
  {
    assert order[..0] == [];
    assert stopped == StopCalls(before, order);
    StopCallsAre(before, order);
    forall i | i in stopped ensures 0 <= i < |before| {
      assert i in order;
    }
  }

  lemma NothingRunsIsPrefix(mods: seq<Module>, index: map<string, nat>, states: seq<ModuleState>, order: seq<nat>)
    requires |states| == |mods| && OrderOk(mods, index, order)
    ensures NothingRuns(states) ==> RunningPrefix(states, order) && DependencyClosed(mods, index, states)
  {
    if NothingRuns(states) {
      assert PrefixRuns(states, order, 0);
    }
  }

  /** Whatever fails during a start, the modules that run are a dependency-closed initial part of
      the boot order. */
  lemma OutcomeIsPrefix(mods: seq<Module>, index: map<string, nat>, before: seq<ModuleState>, after: seq<ModuleState>, order: seq<nat>,
                        initOk: seq<bool>, startOk: seq<bool>, r: Option<BootError>)
    requires |before| == |mods| && OrderOk(mods, index, order) && forall i :: 0 <= i < |mods| ==> i in order
    requires Outcome(mods, before, after, order, initOk, startOk, r)
    ensures |after| == |mods|
    ensures NothingRuns(before) ==> RunningPrefix(after, order) && DependencyClosed(mods, index, after)
  {
    if NothingRuns(before) {
      var i, s := FirstFailure(order, initOk, 0), FirstFailure(order, startOk, 0);
      assert PrefixRuns(after, order, if i < |order| then 0 else s);
      PrefixIsDependencyClosed(mods, index, after, order);
    }
  }

  /** `i` comes after a failing position in the boot order, ran before, and depends on a module up to
      that position. */
  ghost predicate LeftHanging(mods: seq<Module>, index: map<string, nat>, before: seq<ModuleState>, order: seq<nat>, failed: nat, a: nat, k: nat)
    requires OrderOk(mods, index, order) && |before| == |mods|
  {
    && failed < a < |order| && before[order[a]] == Running && k < |mods[order[a]].deps|
    && index[mods[order[a]].deps[k]] in order[..failed + 1]
  }

  /** Starting again while modules run: what runs afterwards is still dependency-closed exactly when
      no Init fails, or no module that ran before and comes later in the order depends on one that was
      initialised again. */
  lemma RestartKeepsClosureExactly(mods: seq<Module>, index: map<string, nat>, before: seq<ModuleState>, after: seq<ModuleState>,
                                   order: seq<nat>, initOk: seq<bool>, startOk: seq<bool>, r: Option<BootError>)
    requires |before| == |mods| && OrderOk(mods, index, order) && forall i :: 0 <= i < |mods| ==> i in order
    requires Outcome(mods, before, after, order, initOk, startOk, r) && DependencyClosed(mods, index, before)
    ensures |after| == |mods|
    ensures var failed := FirstFailure(order, initOk, 0);
      DependencyClosed(mods, index, after) <==> failed == |order| || forall a: nat, k: nat :: !LeftHanging(mods, index, before, order, failed, a, k)
  {
    var failed := FirstFailure(order, initOk, 0);
    if failed == |order| {
      StartedIsClosed(mods, index, before, after, order, initOk, startOk, r);
    } else {
      InitFailureClosure(mods, index, before, after, order, initOk, failed);
    }
  }

  /** Two modules, the second on top of the first, both running: a second start whose first Init fails
      leaves the second running without the first. */
  lemma RestartLosesClosure()
    ensures var mods, index, order := [Module("a", []), Module("b", ["a"])], map["a" := 0, "b" := 1], [0, 1];
      var before, after := [Running, Running], [Failed, Running];
      && OrderOk(mods, index, order) && DependencyClosed(mods, index, before) && !DependencyClosed(mods, index, after)
      && Outcome(mods, before, after, order, [false, true], [true, true], Some(InitFailed("a")))
  {
    var mods, index, order := [Module("a", []), Module("b", ["a"])], map["a" := 0, "b" := 1], [0, 1];
    var after: seq<ModuleState> := [Failed, Running];
    assert order[..1] == [0];
    assert mods[1].deps[0] == "a" && index[mods[1].deps[0]] == 0 && after[1] == Running && after[0] == Failed;
    assert FirstFailure(order, [false, true], 0) == 0;
  }

  lemma StartedIsClosed(mods: seq<Module>, index: map<string, nat>, before: seq<ModuleState>, after: seq<ModuleState>,
                        order: seq<nat>, initOk: seq<bool>, startOk: seq<bool>, r: Option<BootError>)
    requires |before| == |mods| && OrderOk(mods, index, order) && forall i :: 0 <= i < |mods| ==> i in order
    requires Outcome(mods, before, after, order, initOk, startOk, r) && FirstFailure(order, initOk, 0) == |order|
    ensures |after| == |mods| && DependencyClosed(mods, index, after)
  {
    assert PrefixRuns(after, order, FirstFailure(order, startOk, 0));
    PrefixIsDependencyClosed(mods, index, after, order);
  }

  lemma InitFailureClosure(mods: seq<Module>, index: map<string, nat>, before: seq<ModuleState>, after: seq<ModuleState>,
                           order: seq<nat>, initOk: seq<bool>, failed: nat)
    requires |before| == |mods| && OrderOk(mods, index, order) && forall i :: 0 <= i < |mods| ==> i in order
    requires failed < |order| && Advanced(before, after, order, failed, Initialized) && DependencyClosed(mods, index, before)
    ensures |after| == |mods|
    ensures DependencyClosed(mods, index, after) <==> forall a: nat, k: nat :: !LeftHanging(mods, index, before, order, failed, a, k)
  {
    if forall a: nat, k: nat :: !LeftHanging(mods, index, before, order, failed, a, k) {
      forall i, k | 0 <= i < |mods| && after[i] == Running && 0 <= k < |mods[i].deps|
        ensures mods[i].deps[k] in index && index[mods[i].deps[k]] < |after| && after[index[mods[i].deps[k]]] == Running
      {
        assert i in order;
        var a :| 0 <= a < |order| && order[a] == i;
        assert !LeftHanging(mods, index, before, order, failed, a, k);
        UnvisitedIsUnchanged(before, after, order, failed, i);
        UnvisitedIsUnchanged(before, after, order, failed, index[mods[i].deps[k]]);
      }
    }
    if a: nat, k: nat :| LeftHanging(mods, index, before, order, failed, a, k) {
      UnvisitedIsUnchanged(before, after, order, failed, order[a]);
      UnvisitedIsUnchanged(before, after, order, failed, index[mods[order[a]].deps[k]]);
    }
  }

  /** The modules up to the failing one do not run afterwards; the others are as they were. */
  lemma UnvisitedIsUnchanged(before: seq<ModuleState>, after: seq<ModuleState>, order: seq<nat>, failed: nat, i: nat)
    requires failed < |order| && Distinct(order) && Advanced(before, after, order, failed, Initialized)
    requires i < |before| && i in order && forall a :: 0 <= a < |order| ==> order[a] < |before|
    ensures i < |after| && if i in order[..failed + 1] then after[i] != Running else after[i] == before[i]
  {
    var a :| 0 <= a < |order| && order[a] == i;
    assert a <= failed ==> order[..failed + 1][a] == i;
  }

  lemma FirstStopErrorAppend(mods: seq<Module>, stopped: seq<nat>, ok: seq<bool>, i: nat)
    requires i < |mods| && i < |ok| && forall k :: 0 <= k < |stopped| ==> stopped[k] < |mods| && stopped[k] < |ok|
    ensures FirstStopError(mods, stopped + [i], ok)
         == if FirstStopError(mods, stopped, ok).None? && !ok[i] then Some(StopFailed(mods[i].name)) else FirstStopError(mods, stopped, ok)
  {
    if stopped != [] {
      FirstStopErrorAppend(mods, stopped[1..], ok, i);
      assert (stopped + [i])[1..] == stopped[1..] + [i];
    }
  }

  /** A boot order over all modules lists every module. */
  lemma Complete(mods: seq<Module>, index: map<string, nat>, order: seq<nat>)
    requires AllRegistered(mods, index) && IsBootOrder(GraphOf(mods, index), order)
    ensures forall i :: 0 <= i < |mods| ==> i in order
  {
    forall i | 0 <= i < |mods| ensures i in order {
      InOrder(GraphOf(mods, index), order, i);
    }
  }

  /** What a start over a boot order leaves behind. */
  ghost predicate Outcome(mods: seq<Module>, before: seq<ModuleState>, after: seq<ModuleState>, order: seq<nat>,
                          initOk: seq<bool>, startOk: seq<bool>, r: Option<BootError>) {
    && (forall k :: 0 <= k < |order| ==> order[k] < |mods|) && |initOk| == |startOk| == |mods|
    && var i, s := FirstFailure(order, initOk, 0), FirstFailure(order, startOk, 0);
       if i < |order| then
         Advanced(before, after, order, i, Initialized) && r == Some(InitFailed(mods[order[i]].name))
       else
         && |after| == |before| == |mods|
         && (forall k :: 0 <= k < |order| ==> after[order[k]] == if k < s then Running else if k == s then Failed else Initialized)
         && r == if s < |order| then Some(StartFailed(mods[order[s]].name)) else None
  }

  /** Whether all calls succeed. */
  predicate AllOk(initOk: seq<bool>, startOk: seq<bool>) {
    (forall i :: 0 <= i < |initOk| ==> initOk[i]) && (forall i :: 0 <= i < |startOk| ==> startOk[i])
  }

  /** Module `i` is the one that the error is about: its call failed, and it is marked as failed. */
  ghost predicate Blames(mods: seq<Module>, after: seq<ModuleState>, initOk: seq<bool>, startOk: seq<bool>, e: BootError, i: nat) {
    && i < |mods| == |after| == |initOk| == |startOk| && after[i] == Failed
    && ((e == InitFailed(mods[i].name) && !initOk[i])
        || (e == StartFailed(mods[i].name) && !startOk[i] && forall j :: 0 <= j < |initOk| ==> initOk[j]))
  }

  /** What a start says, whatever the order: no error exactly if every call succeeds, and then everything runs;
      otherwise the error is about a module whose call failed. If an Init fails, no module is started, and if a Start
      fails, every module is at least initialised, or is the one that failed. */
  ghost predicate Reports(mods: seq<Module>, before: seq<ModuleState>, after: seq<ModuleState>, initOk: seq<bool>, startOk: seq<bool>, r: Option<BootError>) {
    && |after| == |mods| && (r.None? <==> AllOk(initOk, startOk))
    && (r.None? ==> forall i :: 0 <= i < |after| ==> after[i] == Running)
    && (r.Some? ==> exists i :: Blames(mods, after, initOk, startOk, r.value, i))
    && (r.Some? && r.value.InitFailed? ==> forall i :: 0 <= i < |after| <= |before| ==> after[i] == Initialized || after[i] == Failed || after[i] == before[i])
    && (r.Some? && r.value.StartFailed? ==> forall i :: 0 <= i < |after| ==> after[i] == Running || after[i] == Initialized || after[i] == Failed)
  }

  lemma OutcomeReports(mods: seq<Module>, index: map<string, nat>, before: seq<ModuleState>, after: seq<ModuleState>, order: seq<nat>,
                       initOk: seq<bool>, startOk: seq<bool>, r: Option<BootError>)
    requires AllRegistered(mods, index) && IsBootOrder(GraphOf(mods, index), order) && |before| == |mods|
    requires Outcome(mods, before, after, order, initOk, startOk, r)
    ensures Reports(mods, before, after, initOk, startOk, r)
  {
    Complete(mods, index, order);
    var i, s := FirstFailure(order, initOk, 0), FirstFailure(order, startOk, 0);
    if i < |order| {
      assert Blames(mods, after, initOk, startOk, r.value, order[i]);
    } else {
      forall j | 0 <= j < |mods| ensures initOk[j] {
        assert j in order;
        var k :| 0 <= k < |order| && order[k] == j;
      }
      if s < |order| {
        assert Blames(mods, after, initOk, startOk, r.value, order[s]);
        forall j | 0 <= j < |mods| ensures after[j] == Running || after[j] == Initialized || after[j] == Failed {
          assert j in order;
          var k :| 0 <= k < |order| && order[k] == j;
        }
      } else {
        forall j | 0 <= j < |mods| ensures startOk[j] && after[j] == Running {
          assert j in order;
          var k :| 0 <= k < |order| && order[k] == j;
        }
      }
    }
  }
}
