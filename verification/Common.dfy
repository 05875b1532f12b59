/** Types and counting lemmas shared by the models. */
module Common {

  datatype Option<+T> = None | Some(value: T)

  datatype Result<+T, +E> = Ok(value: T) | Err(error: E)

  function Max(a: int, b: int): int {
    if a < b then b else a
  }

  function Min(a: int, b: int): int {
    if a < b then a else b
  }

  ghost predicate Distinct<T>(s: seq<T>) {
    forall i, j :: 0 <= i < j < |s| ==> s[i] != s[j]
  }

  lemma DistinctSetSize<T>(s: seq<T>)
    requires Distinct(s)
    ensures |set x | x in s| == |s|
  {
    if s == [] {
      assert (set x | x in s) == {};
    } else {
      var front := s[..|s| - 1];
      DistinctSetSize(front);
      assert (set x | x in s) == (set x | x in front) + {s[|s| - 1]};
    }
  }

  /** A sequence of distinct elements of a finite set is no longer than the set. */
  lemma DistinctWithin<T>(s: seq<T>, all: set<T>)
    requires Distinct(s)
    requires forall x :: x in s ==> x in all
    ensures |s| <= |all|
  {
    DistinctSetSize(s);
    SubsetSize((set x | x in s), all);
  }

  /** The first `n` natural numbers. */
  function UpTo(n: nat): (s: set<nat>)
    ensures |s| == n && forall i: nat :: i in s <==> i < n
  {
    if n == 0 then {} else UpTo(n - 1) + {n - 1}
  }

  lemma LargerSetHasMore<T>(a: set<T>, b: set<T>)
    requires |b| < |a|
    ensures a - b != {}
  {
    SubsetSize(a * b, b);
    assert a == (a * b) + (a - b);
  }

  lemma FreshNat(used: set<nat>) returns (k: nat)
    ensures k !in used
  {
    LargerSetHasMore(UpTo(|used| + 1), used);
    k :| k in UpTo(|used| + 1) - used;
  }

  lemma SubsetSize<T>(a: set<T>, b: set<T>)
    requires a <= b
    ensures |a| <= |b|
  {
    assert b == a + (b - a);
  }
}

/** Go's int64 arithmetic and durations in nanoseconds. */
module Int64 {

  const SECOND: int := 1_000_000_000
  const MINUTE: int := 60 * SECOND
  const TWO_63: int := 0x8000_0000_0000_0000
  const TWO_64: int := 0x1_0000_0000_0000_0000

  /** The int64 that a mathematical integer wraps around to. */
  function Wrap64(x: int): (w: int)
    ensures -TWO_63 <= w < TWO_63
    ensures -TWO_63 <= x < TWO_63 ==> w == x
  {
    (x + TWO_63) % TWO_64 - TWO_63
  }

  /** Go's `/`, which rounds towards zero. */
  function TruncDiv(a: int, b: int): int
    requires b > 0
  {
    if a >= 0 then a / b else -(-a / b)
  }
}

/** Maps from keys to counts, with zero meaning "absent", and counting in maps. */
module Counters {

  function Get<K>(m: map<K, nat>, k: K): nat {
    if k in m then m[k] else 0
  }

  /** `m[k]++` on a Go map. */
  function Bump<K>(m: map<K, nat>, k: K): map<K, nat> {
    m[k := Get(m, k) + 1]
  }

  /** The guarded decrement: nothing at zero, and the key is deleted when it reaches zero. */
  function Drop<K>(m: map<K, nat>, k: K): map<K, nat> {
    if Get(m, k) == 0 then m
    else if Get(m, k) == 1 then m - {k}
    else m[k := Get(m, k) - 1]
  }

  ghost function Sum<K>(m: map<K, nat>): nat {
    if m == map[] then 0
    else
      var k :| k in m;
      m[k] + Sum(m - {k})
  }

  /** The sum does not depend on the order in which keys are taken out. */
  lemma {:induction false} SumRemove<K>(m: map<K, nat>, k: K)
    ensures Sum(m) == Get(m, k) + Sum(m - {k})
    decreases |m|
  {
    if k !in m {
      assert m - {k} == m;
    } else {
      var j :| j in m && Sum(m) == m[j] + Sum(m - {j});
      if j != k {
        SumRemove(m - {j}, k);
        SumRemove(m - {k}, j);
        assert m - {j} - {k} == m - {k} - {j};
      }
    }
  }

  lemma SumBump<K>(m: map<K, nat>, k: K)
    ensures Sum(Bump(m, k)) == Sum(m) + 1
  {
    SumRemove(m, k);
    SumRemove(Bump(m, k), k);
    assert Bump(m, k) - {k} == m - {k};
  }

  lemma SumDrop<K>(m: map<K, nat>, k: K)
    requires Get(m, k) > 0
    ensures Sum(Drop(m, k)) == Sum(m) - 1
  {
    SumRemove(m, k);
    SumRemove(Drop(m, k), k);
    assert Drop(m, k) - {k} == m - {k};
  }

  lemma SumUpdate<K>(m: map<K, nat>, k: K, v: nat)
    ensures Sum(m[k := v]) == Sum(m) - Get(m, k) + v
  {
    SumRemove(m, k);
    SumRemove(m[k := v], k);
    assert m[k := v] - {k} == m - {k};
  }

  /** `n` times `b`, by repeated addition. */
  ghost function Times(n: nat, b: nat): nat {
    if n == 0 then 0 else Times(n - 1, b) + b
  }

  lemma {:induction false} TimesIsProduct(n: nat, b: nat)
    ensures Times(n, b) == n * b
  {
    if n > 0 {
      TimesIsProduct(n - 1, b);
      assert n * b == (n - 1) * b + b;
    }
  }

  lemma {:induction false} SumWithinTimes<K>(m: map<K, nat>, b: nat)
    requires forall k :: k in m ==> m[k] <= b
    ensures Sum(m) <= Times(|m|, b)
    decreases |m|
  {
    if m != map[] {
      var k :| k in m;
      SumRemove(m, k);
      SumWithinTimes(m - {k}, b);
      assert (m - {k}).Keys == m.Keys - {k};
    }
  }

  lemma SumWithin<K>(m: map<K, nat>, b: nat)
    requires forall k :: k in m ==> m[k] <= b
    ensures Sum(m) <= |m| * b
  {
    SumWithinTimes(m, b);
    TimesIsProduct(|m|, b);
  }

  /** The keys whose value satisfies `f`. */
  ghost function Matching<K, V>(m: map<K, V>, f: V -> bool): set<K> {
    set k | k in m && f(m[k])
  }

  ghost function One(b: bool): nat {
    if b then 1 else 0
  }

  lemma MatchingUpdate<K, V>(m: map<K, V>, k: K, v: V, f: V -> bool)
    ensures |Matching(m[k := v], f)| == |Matching(m, f)| - One(k in m && f(m[k])) + One(f(v))
  {
    var before, after := Matching(m, f), Matching(m[k := v], f);
    assert after - {k} == before - {k};
    assert |before| == |before - {k}| + One(k in before);
    assert |after| == |after - {k}| + One(k in after);
  }

  lemma MatchingRemove<K, V>(m: map<K, V>, k: K, f: V -> bool)
    ensures |Matching(m - {k}, f)| == |Matching(m, f)| - One(k in m && f(m[k]))
  {
    var before, after := Matching(m, f), Matching(m - {k}, f);
    assert after == before - {k};
    assert k in before <==> k in m && f(m[k]);
  }
}
