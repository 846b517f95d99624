/**
  The kernel contract that the two priority-inheritance tests rely on: mutexes that
  are handed to the most urgent waiter, and effective priorities that are maintained
  incrementally (raised along the waiting chain by an obtain, recomputed by each single
  release).  The contract is generic in the tasks and the mutexes.

  The main results: on acyclic waiting graphs the incrementally maintained priorities
  always satisfy one local equation per task, and that equation has exactly one solution,
  the declarative one (the most urgent base priority among the tasks that wait, directly or
  transitively, for the task).

  A smaller number is more urgent, as in RTEMS.
*/
module PriorityInheritance {

  /** `owner` holds the locked mutexes only, `waits` the blocked tasks only. */
  datatype Kernel<T, M> = Kernel(
    base: map<T, int>,
    eff: map<T, int>,
    owner: map<M, T>,
    waits: map<T, M>)

  ghost predicate WellFormed<T(!new), M(!new)>(k: Kernel<T, M>) {
    && k.eff.Keys == k.base.Keys
    && (forall m :: m in k.owner ==> k.owner[m] in k.base)
    && (forall t :: t in k.waits ==> t in k.base && k.waits[t] in k.owner)
  }

  /** Task `u` is blocked on a mutex that `v` owns. */
  predicate Blocks<T(==), M(==)>(k: Kernel<T, M>, u: T, v: T) {
    u in k.waits && k.waits[u] in k.owner && k.owner[k.waits[u]] == v
  }

  /** The waiting graph has no cycle: owners rank strictly above the tasks they block. */
  ghost predicate RankedBy<T(!new), M(!new)>(k: Kernel<T, M>, rank: map<T, nat>) {
    && rank.Keys == k.base.Keys
    && forall u, v :: Blocks(k, u, v) && u in rank && v in rank ==> rank[u] < rank[v]
  }

  ghost predicate Acyclic<T(!new), M(!new)>(k: Kernel<T, M>) {
    exists rank: map<T, nat> :: RankedBy(k, rank)
  }

  /** The equation one task's effective priority has to satisfy. */
  ghost predicate Settled<T(!new), M(!new)>(k: Kernel<T, M>, t: T)
    requires WellFormed(k) && t in k.base
  {
    && k.eff[t] <= k.base[t]
    && (forall w :: Blocks(k, w, t) ==> k.eff[t] <= k.eff[w])
    && (k.eff[t] == k.base[t] || exists w :: Blocks(k, w, t) && k.eff[t] == k.eff[w])
  }

  ghost predicate Consistent<T(!new), M(!new)>(k: Kernel<T, M>) {
    && WellFormed(k)
    && forall t {:trigger Settled(k, t)} :: t in k.base ==> Settled(k, t)
  }

  // ---------- Incremental maintenance ----------

  function Above<T(==)>(eff: map<T, int>, p: int): set<T> {
    set t | t in eff && p < eff[t]
  }

  /** Raises `t` to `p` and passes the change on along the chain of owners. */
  ghost function Raise<T(!new), M(!new)>(k: Kernel<T, M>, t: T, p: int): (r: Kernel<T, M>)
    requires WellFormed(k) && t in k.base
    ensures r == k.(eff := r.eff) && WellFormed(r)
    decreases |Above(k.eff, p)|
  {
    if k.eff[t] <= p then k
    else
      var k' := k.(eff := k.eff[t := p]);
      assert Above(k'.eff, p) == Above(k.eff, p) - {t};
      assert t in Above(k.eff, p);
      if t in k.waits then Raise(k', k.owner[k.waits[t]], p) else k'
  }

  /** Obtain: take a free mutex, or block on its owner and raise the owner's priority. */
  ghost function Obtain<T(!new), M(!new)>(k: Kernel<T, M>, t: T, m: M): (r: Kernel<T, M>)
    requires WellFormed(k) && t in k.base && t !in k.waits
    ensures WellFormed(r) && r.base == k.base
    ensures r.owner == if m in k.owner then k.owner else k.owner[m := t]
    ensures r.waits == if m in k.owner then k.waits[t := m] else k.waits
  {
    if m !in k.owner then k.(owner := k.owner[m := t])
    else Raise(k.(waits := k.waits[t := m]), k.owner[m], k.eff[t])
  }

  /** `w` is a waiter of `m` and no waiter of `m` is more urgent. */
  ghost predicate BestWaiter<T(!new), M(!new)>(k: Kernel<T, M>, m: M, w: T)
    requires WellFormed(k)
  {
    && w in k.waits && k.waits[w] == m
    && forall u :: u in k.waits && k.waits[u] == m ==> k.eff[w] <= k.eff[u]
  }

  ghost predicate NoWaiter<T(!new), M(!new)>(k: Kernel<T, M>, m: M) {
    forall u :: u in k.waits ==> k.waits[u] != m
  }

  /** The kernel after `t` gives `m` away, its priority recomputed from what it still owns. */
  ghost predicate Recomputed<T(!new), M(!new)>(k: Kernel<T, M>, k': Kernel<T, M>, t: T)
    requires WellFormed(k) && t in k.base
  {
    && WellFormed(k')
    && k' == k.(eff := k'.eff)
    && t in k'.eff && k'.eff == k.eff[t := k'.eff[t]]
    && Settled(k', t)
  }

  /** Release: hand over to a most urgent waiter if there is one, then recompute. */
  ghost predicate Released<T(!new), M(!new)>(k: Kernel<T, M>, t: T, m: M, k': Kernel<T, M>)
    requires WellFormed(k) && t in k.base && m in k.owner && k.owner[m] == t
  {
    if NoWaiter(k, m) then Recomputed(k.(owner := k.owner - {m}), k', t)
    else exists w :: BestWaiter(k, m, w) && Recomputed(HandOver(k, m, w), k', t)
  }

  ghost function HandOver<T(!new), M(!new)>(k: Kernel<T, M>, m: M, w: T): (r: Kernel<T, M>)
    requires WellFormed(k) && m in k.owner && w in k.base
    ensures WellFormed(r)
  {
    k.(owner := k.owner[m := w], waits := k.waits - {w})
  }

  // ---------- The local equations are kept ----------

  /** Everything settled but `t`, which still has to take over the priority of a waiter. */
  ghost predicate SettledBut<T(!new), M(!new)>(k: Kernel<T, M>, t: T, p: int) {
    && WellFormed(k) && t in k.base
    && (forall u {:trigger Settled(k, u)} :: u in k.base && u != t ==> Settled(k, u))
    && k.eff[t] <= k.base[t]
    && (exists w :: Blocks(k, w, t) && k.eff[w] == p)
    && (forall w :: Blocks(k, w, t) ==> k.eff[t] <= k.eff[w] || p <= k.eff[w])
    && (p < k.eff[t] || k.eff[t] == k.base[t] || exists w :: Blocks(k, w, t) && k.eff[t] == k.eff[w])
  }

  lemma {:induction false} RaiseSettles<T(!new), M(!new)>(k: Kernel<T, M>, t: T, p: int, rank: map<T, nat>)
    requires SettledBut(k, t, p) && RankedBy(k, rank)
    ensures Consistent(Raise(k, t, p))
    decreases |Above(k.eff, p)|
  {
    if k.eff[t] <= p {
      assert Settled(k, t);
    } else {
      var k' := k.(eff := k.eff[t := p]);
      assert Above(k'.eff, p) == Above(k.eff, p) - {t};
      assert t in Above(k.eff, p);
      assert forall u, v :: Blocks(k', u, v) == Blocks(k, u, v);
      RaiseOneStep(k, t, p, rank);
      if t in k.waits {
        RaiseSettles(k', k.owner[k.waits[t]], p, rank);
      }
    }
  }

  /** A task whose blockers and their priorities did not change stays settled. */
  lemma SettledFrame<T(!new), M(!new)>(k: Kernel<T, M>, k': Kernel<T, M>, u: T)
    requires WellFormed(k) && WellFormed(k') && k'.base == k.base && u in k.base && Settled(k, u)
    requires k'.eff[u] == k.eff[u]
    requires forall x :: Blocks(k', x, u) <==> Blocks(k, x, u)
    requires forall x :: Blocks(k, x, u) ==> k'.eff[x] == k.eff[x]
    ensures Settled(k', u)
  {
    if k.eff[u] != k.base[u] {
      var x :| Blocks(k, x, u) && k.eff[u] == k.eff[x];
      assert Blocks(k', x, u);
    }
  }

  lemma RaiseOneStep<T(!new), M(!new)>(k: Kernel<T, M>, t: T, p: int, rank: map<T, nat>)
    requires SettledBut(k, t, p) && RankedBy(k, rank) && p < k.eff[t]
    ensures var k' := k.(eff := k.eff[t := p]);
            if t in k.waits then SettledBut(k', k.owner[k.waits[t]], p) else Consistent(k')
  {
    var k' := k.(eff := k.eff[t := p]);
    assert !Blocks(k, t, t);
    RaisedSettled(k, t, p);
    forall u {:trigger Settled(k', u)} | u in k.base && u != t && !Blocks(k, t, u) ensures Settled(k', u) {
      SettledFrame(k, k', u);
    }
    if t in k.waits {
      RaisePending(k, t, p, k.owner[k.waits[t]]);
    }
  }

  lemma RaisedSettled<T(!new), M(!new)>(k: Kernel<T, M>, t: T, p: int)
    requires SettledBut(k, t, p) && p < k.eff[t] && !Blocks(k, t, t)
    ensures Settled(k.(eff := k.eff[t := p]), t)
  {
    var k' := k.(eff := k.eff[t := p]);
    var w :| Blocks(k, w, t) && k.eff[w] == p;
    assert Blocks(k', w, t) && k'.eff[w] == p;
    forall x | Blocks(k', x, t) ensures p <= k'.eff[x] {
      assert Blocks(k, x, t);
    }
  }

  /** The owner `v` above the raised task `t` is the only one left to adjust. */
  lemma RaisePending<T(!new), M(!new)>(k: Kernel<T, M>, t: T, p: int, v: T)
    requires WellFormed(k) && t in k.base && v in k.base && v != t
    requires p < k.eff[t] && Blocks(k, t, v) && Settled(k, v)
    ensures var k' := k.(eff := k.eff[t := p]);
            && WellFormed(k')
            && k'.eff[v] <= k'.base[v]
            && (exists w :: Blocks(k', w, v) && k'.eff[w] == p)
            && (forall w :: Blocks(k', w, v) ==> k'.eff[v] <= k'.eff[w] || p <= k'.eff[w])
            && (p < k'.eff[v] || k'.eff[v] == k'.base[v] || exists w :: Blocks(k', w, v) && k'.eff[v] == k'.eff[w])
  {
    var k' := k.(eff := k.eff[t := p]);
    assert Blocks(k', t, v) && k'.eff[t] == p;
    forall w | Blocks(k', w, v) ensures k'.eff[v] <= k'.eff[w] || p <= k'.eff[w] {
      assert Blocks(k, w, v);
    }
    if k.eff[v] <= p && k.eff[v] != k.base[v] {
      var x :| Blocks(k, x, v) && k.eff[v] == k.eff[x];
      assert x != t;
      assert Blocks(k', x, v) && k'.eff[v] == k'.eff[x];
    }
  }

  /** An obtain keeps every effective priority right, blocked or not. */
  lemma ObtainConsistent<T(!new), M(!new)>(k: Kernel<T, M>, t: T, m: M)
    requires Consistent(k) && t in k.base && t !in k.waits
    requires Acyclic(Obtain(k, t, m))
    ensures Consistent(Obtain(k, t, m))
  {
    if m !in k.owner {
      var k' := k.(owner := k.owner[m := t]);
      forall u | u in k.base ensures Settled(k', u) {
        SettledFrame(k, k', u);
      }
    } else {
      var k' := k.(waits := k.waits[t := m]);
      var r := Raise(k', k.owner[m], k.eff[t]);
      var rank :| RankedBy(r, rank);
      assert forall x, y :: Blocks(r, x, y) == Blocks(k', x, y);
      BlockedSettledBut(k, t, m);
      RaiseSettles(k', k.owner[m], k.eff[t], rank);
    }
  }

  lemma BlockedSettledBut<T(!new), M(!new)>(k: Kernel<T, M>, t: T, m: M)
    requires Consistent(k) && t in k.base && t !in k.waits && m in k.owner
    ensures SettledBut(k.(waits := k.waits[t := m]), k.owner[m], k.eff[t])
  {
    var k' := k.(waits := k.waits[t := m]);
    forall u | u in k.base && u != k.owner[m] ensures Settled(k', u) {
      SettledFrame(k, k', u);
    }
    BlockedPending(k, t, m, k');
  }

  /** The owner of the mutex has one more waiter, the others still bound its priority. */
  lemma BlockedPending<T(!new), M(!new)>(k: Kernel<T, M>, t: T, m: M, k': Kernel<T, M>)
    requires Consistent(k) && t in k.base && t !in k.waits && m in k.owner
    requires k' == k.(waits := k.waits[t := m])
    ensures var v, p := k.owner[m], k.eff[t];
            && k'.eff[v] <= k'.base[v]
            && (exists w :: Blocks(k', w, v) && k'.eff[w] == p)
            && (forall w :: Blocks(k', w, v) ==> k'.eff[v] <= k'.eff[w] || p <= k'.eff[w])
            && (k'.eff[v] == k'.base[v] || exists w :: Blocks(k', w, v) && k'.eff[v] == k'.eff[w])
  {
    var v := k.owner[m];
    assert Settled(k, v);
    assert Blocks(k', t, v);
    forall w | Blocks(k', w, v) ensures k'.eff[v] <= k'.eff[w] || k.eff[t] <= k'.eff[w] {
      assert w == t || Blocks(k, w, v);
    }
    if k.eff[v] != k.base[v] {
      var x :| Blocks(k, x, v) && k.eff[v] == k.eff[x];
      assert Blocks(k', x, v);
    }
  }

  /** A release keeps every effective priority right, also while other mutexes stay owned. */
  lemma ReleaseConsistent<T(!new), M(!new)>(k: Kernel<T, M>, t: T, m: M, k': Kernel<T, M>)
    requires Consistent(k) && t in k.base && t !in k.waits
    requires m in k.owner && k.owner[m] == t && Released(k, t, m, k')
    ensures Consistent(k')
  {
    if NoWaiter(k, m) {
      forall u | u in k.base && u != t ensures Settled(k', u) {
        SettledFrame(k, k', u);
      }
    } else {
      var w :| BestWaiter(k, m, w) && Recomputed(HandOver(k, m, w), k', t);
      forall u | u in k.base && u != t ensures Settled(k', u) {
        HandOverSettled(k, t, m, w, k', u);
      }
    }
  }

  /** What a release does apart from priorities. */
  lemma ReleaseEffect<T(!new), M(!new)>(k: Kernel<T, M>, t: T, m: M, k': Kernel<T, M>) returns (w: T)
    requires WellFormed(k) && t in k.base && m in k.owner && k.owner[m] == t && Released(k, t, m, k')
    ensures WellFormed(k') && k'.base == k.base
    ensures NoWaiter(k, m) ==> k'.owner == k.owner - {m} && k'.waits == k.waits
    ensures !NoWaiter(k, m) ==>
              w in k.waits && k.waits[w] == m && k'.owner == k.owner[m := w] && k'.waits == k.waits - {w}
  {
    if NoWaiter(k, m) {
      w := t;
    } else {
      w :| BestWaiter(k, m, w) && Recomputed(HandOver(k, m, w), k', t);
    }
  }

  lemma HandOverSettled<T(!new), M(!new)>(k: Kernel<T, M>, t: T, m: M, w: T, k': Kernel<T, M>, u: T)
    requires Consistent(k) && t in k.base && t !in k.waits && m in k.owner && k.owner[m] == t
    requires BestWaiter(k, m, w) && WellFormed(k') && k'.base == k.base
    requires k'.owner == k.owner[m := w] && k'.waits == k.waits - {w}
    requires forall x :: x in k.base && x != t ==> k'.eff[x] == k.eff[x]
    requires u in k.base && u != t
    ensures Settled(k', u)
  {
    assert Settled(k, u);
    assert Blocks(k, w, t);
    forall x | Blocks(k', x, u) ensures x != t && k'.eff[u] <= k'.eff[x] {
      assert x != w;
      if k.waits[x] == m {
        assert u == w;
      } else {
        assert Blocks(k, x, u);
      }
    }
    if k.eff[u] != k.base[u] {
      var x :| Blocks(k, x, u) && k.eff[u] == k.eff[x];
      assert x != w && k.waits[x] != m;
      assert Blocks(k', x, u);
    }
  }

  // ---------- A release is always possible ----------

  lemma {:induction false} MostUrgent<T(!new)>(eff: map<T, int>, s: set<T>) returns (w: T)
    requires s != {} && s <= eff.Keys
    ensures w in s && forall u :: u in s ==> eff[w] <= eff[u]
  {
    var x :| x in s;
    w := x;
    if s != {x} {
      assert s == {x} + (s - {x});
      var v := MostUrgent(eff, s - {x});
      w := if eff[v] < eff[x] then v else x;
    }
  }

  lemma RecomputeExists<T(!new), M(!new)>(k: Kernel<T, M>, t: T) returns (k': Kernel<T, M>)
    requires WellFormed(k) && t in k.base && !Blocks(k, t, t)
    ensures Recomputed(k, k', t)
  {
    var blocked := set u | u in k.waits && Blocks(k, u, t);
    var p := k.base[t];
    if blocked != {} {
      var w := MostUrgent(k.eff, blocked);
      assert Blocks(k, w, t);
      if k.eff[w] < p {
        p := k.eff[w];
      }
    }
    k' := k.(eff := k.eff[t := p]);
    forall x | Blocks(k', x, t) ensures p <= k'.eff[x] {
      assert x in blocked;
    }
    if p != k.base[t] {
      var w :| w in blocked && k.eff[w] == p;
      assert Blocks(k', w, t);
    }
  }

  lemma ReleaseExists<T(!new), M(!new)>(k: Kernel<T, M>, t: T, m: M) returns (k': Kernel<T, M>)
    requires WellFormed(k) && t in k.base && t !in k.waits && m in k.owner && k.owner[m] == t
    ensures Released(k, t, m, k')
  {
    if NoWaiter(k, m) {
      k' := RecomputeExists(k.(owner := k.owner - {m}), t);
    } else {
      var waiters := set u | u in k.waits && k.waits[u] == m;
      var x :| x in k.waits && k.waits[x] == m;
      assert x in waiters;
      var w := MostUrgent(k.eff, waiters);
      assert BestWaiter(k, m, w);
      k' := RecomputeExists(HandOver(k, m, w), t);
    }
  }

  // ---------- The local equations determine the declarative meaning ----------

  /** `t` is reached from `u` by following `n` waits-for edges. */
  ghost predicate WaitsFor<T(!new), M(!new)>(k: Kernel<T, M>, u: T, t: T, n: nat) {
    if n == 0 then u == t
    else exists v :: Blocks(k, u, v) && WaitsFor(k, v, t, n - 1)
  }

  ghost predicate Boosts<T(!new), M(!new)>(k: Kernel<T, M>, u: T, t: T) {
    u in k.base && exists n: nat :: WaitsFor(k, u, t, n)
  }

  /** `p` is the most urgent base priority of `t` and of all tasks that wait for `t`. */
  ghost predicate Inherits<T(!new), M(!new)>(k: Kernel<T, M>, t: T, p: int) {
    && (forall u :: Boosts(k, u, t) ==> p <= k.base[u])
    && exists u :: Boosts(k, u, t) && k.base[u] == p
  }

  lemma WaitingLowers<T(!new), M(!new)>(k: Kernel<T, M>, u: T, t: T, n: nat)
    requires Consistent(k) && u in k.base && WaitsFor(k, u, t, n)
    ensures t in k.base && k.eff[t] <= k.base[u]
  {
    assert Settled(k, u);
    ChainLowers(k, u, t, n);
  }

  lemma {:induction false} ChainLowers<T(!new), M(!new)>(k: Kernel<T, M>, u: T, t: T, n: nat)
    requires Consistent(k) && u in k.base && WaitsFor(k, u, t, n)
    ensures t in k.base && k.eff[t] <= k.eff[u]
    decreases n
  {
    if n == 0 {
    } else {
      var v :| Blocks(k, u, v) && WaitsFor(k, v, t, n - 1);
      assert Settled(k, v);
      ChainLowers(k, v, t, n - 1);
    }
  }

  lemma {:induction false} ChainExtends<T(!new), M(!new)>(k: Kernel<T, M>, u: T, v: T, t: T, n: nat)
    requires WaitsFor(k, u, v, n) && Blocks(k, v, t)
    ensures WaitsFor(k, u, t, n + 1)
    decreases n
  {
    if n == 0 {
      assert WaitsFor(k, t, t, 0);
    } else {
      var x :| Blocks(k, u, x) && WaitsFor(k, x, v, n - 1);
      ChainExtends(k, x, v, t, n - 1);
    }
  }

  lemma {:induction false} SomeoneBoosts<T(!new), M(!new)>(k: Kernel<T, M>, t: T, rank: map<T, nat>)
    returns (u: T, n: nat)
    requires Consistent(k) && RankedBy(k, rank) && t in k.base
    ensures u in k.base && WaitsFor(k, u, t, n) && k.base[u] == k.eff[t]
    decreases rank[t]
  {
    assert Settled(k, t);
    if k.eff[t] == k.base[t] {
      u, n := t, 0;
    } else {
      var w :| Blocks(k, w, t) && k.eff[t] == k.eff[w];
      u, n := SomeoneBoosts(k, w, rank);
      ChainExtends(k, u, w, t, n);
      n := n + 1;
    }
  }

  /** Incremental inheritance computes the declarative priorities. */
  lemma EffectiveIsInherited<T(!new), M(!new)>(k: Kernel<T, M>, t: T)
    requires Consistent(k) && Acyclic(k) && t in k.base
    ensures Inherits(k, t, k.eff[t])
  {
    var rank :| RankedBy(k, rank);
    forall u | Boosts(k, u, t) ensures k.eff[t] <= k.base[u] {
      var n: nat :| WaitsFor(k, u, t, n);
      WaitingLowers(k, u, t, n);
    }
    var u, n := SomeoneBoosts(k, t, rank);
    assert Boosts(k, u, t);
  }

  /** Conversely the declarative priorities are the only ones that satisfy the equations. */
  lemma ConsistentUnique<T(!new), M(!new)>(k: Kernel<T, M>, k': Kernel<T, M>)
    requires Consistent(k) && Consistent(k') && Acyclic(k)
    requires k' == k.(eff := k'.eff)
    ensures k'.eff == k.eff
  {
    var rank :| RankedBy(k, rank);
    forall t | t in k.base ensures k.eff[t] == k'.eff[t] {
      UniqueAt(k, k', t, rank);
    }
  }

  lemma {:induction false} UniqueAt<T(!new), M(!new)>(k: Kernel<T, M>, k': Kernel<T, M>, t: T, rank: map<T, nat>)
    requires Consistent(k) && Consistent(k') && RankedBy(k, rank) && t in k.base
    requires k' == k.(eff := k'.eff)
    ensures k.eff[t] == k'.eff[t]
    decreases rank[t]
  {
    assert Settled(k, t) && Settled(k', t);
    forall w | Blocks(k, w, t) ensures Blocks(k', w, t) && k.eff[w] == k'.eff[w] {
      UniqueAt(k, k', w, rank);
    }
    forall w | Blocks(k', w, t) ensures Blocks(k, w, t) {}
  }

  /** A ranked waiting graph has no task that waits for itself: nothing is deadlocked. */
  lemma {:induction false} RankedNoCycle<T(!new), M(!new)>(k: Kernel<T, M>, u: T, t: T, n: nat, rank: map<T, nat>)
    requires WellFormed(k) && RankedBy(k, rank) && u in k.base && WaitsFor(k, u, t, n)
    ensures t in k.base && rank[u] + n <= rank[t]
    decreases n
  {
    if n == 0 {
    } else {
      var v :| Blocks(k, u, v) && WaitsFor(k, v, t, n - 1);
      RankedNoCycle(k, v, t, n - 1, rank);
    }
  }
}
