/** Dependency graphs, boot orders and cycles: what kernel/kernel.go:239-281 has to decide. */
module Dependencies {
  import opened Common

  /** `g[i]` lists the modules that module `i` depends on, with repetitions as declared. */
  type Graph = seq<seq<nat>>

  ghost predicate Closed(g: Graph) {
    forall i, k :: 0 <= i < |g| && 0 <= k < |g[i]| ==> g[i][k] < |g|
  }

  /** Every module once, each after everything it depends on. */
  ghost predicate IsBootOrder(g: Graph, order: seq<nat>) {
    && |order| == |g| && Distinct(order) && (forall i :: i in order ==> i < |g|)
    && DependenciesFirst(g, order)
  }

  ghost predicate DependenciesFirst(g: Graph, order: seq<nat>) {
    forall a :: 0 <= a < |order| && order[a] < |g| ==> forall d :: d in g[order[a]] ==> d in order[..a]
  }

  ghost predicate IsCycle(g: Graph, path: seq<nat>) {
    && |path| >= 2 && path[0] == path[|path| - 1]
    && IsChain(g, path)
  }

  ghost predicate IsChain(g: Graph, path: seq<nat>) {
    && (forall k :: 0 <= k < |path| ==> path[k] < |g|)
    && (forall k :: 0 <= k < |path| - 1 ==> path[k + 1] in g[path[k]])
  }

  ghost predicate HasCycle(g: Graph) {
    exists path :: IsCycle(g, path)
  }

  lemma {:induction false} ChainGoesBack(g: Graph, order: seq<nat>, path: seq<nat>, a: nat) returns (b: nat)
    requires DependenciesFirst(g, order) && IsChain(g, path) && |path| >= 1
    requires a < |order| && order[a] == path[0]
    ensures b <= a && order[b] == path[|path| - 1] && (|path| >= 2 ==> b < a)
    decreases |path|
  {
    b := a;
    if |path| >= 2 {
      assert path[1] in g[order[a]];
      var c :| 0 <= c < |order[..a]| && order[..a][c] == path[1];
      b := ChainGoesBack(g, order, path[1..], c);
    }
  }

  /** A complete boot order rules out every dependency cycle. */
  lemma BootOrderExcludesCycles(g: Graph, order: seq<nat>)
    requires IsBootOrder(g, order)
    ensures !HasCycle(g)
  {
    forall path | IsCycle(g, path) ensures false {
      InOrder(g, order, path[0]);
      var a :| 0 <= a < |order| && order[a] == path[0];
      var b := ChainGoesBack(g, order, path, a);
    }
  }

  lemma InOrder(g: Graph, order: seq<nat>, i: nat)
    requires |order| == |g| && Distinct(order) && (forall j :: j in order ==> j < |g|) && i < |g|
    ensures i in order
  {
    if i !in order {
      DistinctWithin(order, UpTo(|g|) - {i});
    }
  }

  ghost predicate AllStuck(g: Graph, stuck: set<nat>) {
    forall i {:trigger StuckAt(g, stuck, i)} :: i in stuck ==> StuckAt(g, stuck, i)
  }

  ghost predicate StuckAt(g: Graph, stuck: set<nat>, i: nat) {
    i < |g| && exists d :: d in g[i] && d in stuck
  }

  ghost function StuckDependency(g: Graph, stuck: set<nat>, i: nat): (d: nat)
    requires StuckAt(g, stuck, i)
    ensures d in g[i] && d in stuck
  {
    var d :| d in g[i] && d in stuck;
    d
  }

  /** If everything in a set of modules depends on something in the set, following dependencies
      must come back to a module already seen. */
  lemma StuckModulesHaveCycle(g: Graph, stuck: set<nat>)
    requires AllStuck(g, stuck) && stuck != {}
    ensures HasCycle(g)
  {
    var next := map i | i in stuck :: StuckDependency(g, stuck, i);
    assert forall i :: i in stuck ==> StuckAt(g, stuck, i);
    var start :| start in stuck;
    FollowDependencies(g, next, [start]);
  }

  lemma {:induction false} FollowDependencies(g: Graph, next: map<nat, nat>, path: seq<nat>)
    requires forall i {:trigger next[i]} :: i in next ==> i < |g| && next[i] in g[i] && next[i] in next.Keys
    requires |path| >= 1 && Distinct(path) && IsChain(g, path) && forall i :: i in path ==> i in next.Keys
    ensures HasCycle(g)
    decreases |next| - |path|
  {
    var last := path[|path| - 1];
    assert last in next.Keys;
    var d := next[last];
    var longer := path + [d];
    assert d < |g| by {
      var further := next[d];
    }
    ExtendChain(g, path, d);
    if d in path {
      var k :| 0 <= k < |path| && path[k] == d;
      ChainSuffix(g, longer, k);
      assert longer[k..][0] == d && longer[k..][|longer[k..]| - 1] == d;
      assert IsCycle(g, longer[k..]);
    } else {
      DistinctWithin(longer, next.Keys);
      FollowDependencies(g, next, longer);
    }
  }

  lemma ExtendChain(g: Graph, path: seq<nat>, d: nat)
    requires IsChain(g, path) && |path| >= 1 && d < |g| && d in g[path[|path| - 1]]
    ensures IsChain(g, path + [d])
  {
  }

  lemma ChainSuffix(g: Graph, path: seq<nat>, k: nat)
    requires IsChain(g, path) && k <= |path|
    ensures IsChain(g, path[k..])
  {
  }

  /** How many entries of a dependency list are not in `done`. */
  ghost function Waiting(deps: seq<nat>, done: set<nat>): nat {
    if deps == [] then 0
    else Waiting(deps[..|deps| - 1], done) + if deps[|deps| - 1] in done then 0 else 1
  }

  lemma {:induction false} WaitingNone(deps: seq<nat>)
    ensures Waiting(deps, {}) == |deps|
  {
    if deps != [] {
      WaitingNone(deps[..|deps| - 1]);
    }
  }

  lemma {:induction false} WaitingDone(deps: seq<nat>, done: set<nat>)
    ensures Waiting(deps, done) == 0 <==> forall d :: d in deps ==> d in done
  {
    if deps != [] {
      WaitingDone(deps[..|deps| - 1], done);
      assert deps == deps[..|deps| - 1] + [deps[|deps| - 1]];
    }
  }

  /** Finishing `j` takes away as many waits as the list names `j`. */
  lemma {:induction false} WaitingFinish(deps: seq<nat>, done: set<nat>, j: nat)
    requires j !in done
    ensures Waiting(deps, done) == Waiting(deps, done + {j}) + multiset(deps)[j]
  {
    if deps != [] {
      WaitingFinish(deps[..|deps| - 1], done, j);
      assert deps == deps[..|deps| - 1] + [deps[|deps| - 1]];
    }
  }
}
