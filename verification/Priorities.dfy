/**
  The priority every task runs at in every reachable state, and the strict-priority dispatching
  rule that follows from it.
*/
module Priorities {
  import opened PriorityInheritance
  import opened Scenario
  import opened AnyScheduler

  // ---------- Exact priorities ----------

  /** The priority every task runs at, from who waits for whom alone. */
  function Table(f: Flavour, v: View, t: Task): int {
    if t == TASK1 && v.waits.hi == On(SHI) && v.shi == By(TASK1) then BaseOf(f, THI)
    else if t == TLO && v.waits.one == On(SLO) && v.slo == By(TLO) then BaseOf(f, TASK1)
    else BaseOf(f, t)
  }

  lemma BlocksView(k: Kernel<Task, Mutex>, u: Task, t: Task)
    ensures Blocks(k, u, t) <==> InView(ViewOf(k), u, t)
  {
    assert ViewOf(k).waits.At(u) == WaitingOf(k, u);
    if u in k.waits {
      match k.waits[u] case SHI => case SLO =>
    }
  }

  /** `u` waits for `t`, read off the view. */
  predicate InView(v: View, u: Task, t: Task) {
    (v.waits.At(u) == On(SHI) && v.shi == By(t)) || (v.waits.At(u) == On(SLO) && v.slo == By(t))
  }

  lemma BaseValue(f: Flavour, k: Kernel<Task, Mutex>, t: Task)
    requires k.base == Base(f)
    ensures t in k.base && k.base[t] == BaseOf(f, t)
  {
  }

  /** The only tasks that can ever block one another. */
  lemma BlockingPairs(f: Flavour, v: View, s: Sys, u: Task, t: Task)
    requires Shape(f, v, s) && InView(v, u, t)
    ensures (u == THI && t == TASK1) || (u == TLO && t == TASK1) || (u == TASK1 && t == TLO) || (u == TASK1 && t == THI)
  {
  }

  /** While Task_1 waits it is neither waited for by its owner nor boosted on SLO's account. */
  lemma NoMutualWait(f: Flavour, v: View, s: Sys)
    requires Shape(f, v, s)
    ensures InView(v, TASK1, TLO) ==> !InView(v, TLO, TASK1) && !InView(v, THI, TASK1)
    ensures InView(v, THI, TASK1) <==> v.waits.hi == On(SHI) && v.shi == By(TASK1)
    ensures InView(v, TASK1, TLO) <==> v.waits.one == On(SLO) && v.slo == By(TLO)
  {
  }

  lemma InheritedInRange(f: Flavour, k: Kernel<Task, Mutex>, t: Task, p: int)
    requires k.base == Base(f) && Inherits(k, t, p)
    ensures BaseOf(f, THI) <= p <= BaseOf(f, t)
  {
    var u :| Boosts(k, u, t) && k.base[u] == p;
    BaseValue(f, k, u);
    BaseValue(f, k, t);
    assert WaitsFor(k, t, t, 0);
    assert Boosts(k, t, t);
  }

  lemma NeverAboveHi(f: Flavour, s: Sys, t: Task)
    requires Control(f, s)
    ensures t in s.k.eff && BaseOf(f, THI) <= s.k.eff[t] <= BaseOf(f, t)
  {
    BaseValue(f, s.k, t);
    ShapeRanked(f, s);
    EffectiveIsInherited(s.k, t);
    InheritedInRange(f, s.k, t, s.k.eff[t]);
  }

  lemma UnboostedHasBase(f: Flavour, s: Sys, t: Task)
    requires Control(f, s) && forall u: Task :: !InView(ViewOf(s.k), u, t)
    ensures t in s.k.eff && s.k.eff[t] == BaseOf(f, t)
  {
    BaseValue(f, s.k, t);
    assert Settled(s.k, t);
    forall u: Task | Blocks(s.k, u, t) ensures false {
      BlocksView(s.k, u, t);
    }
  }

  lemma BlockerBounds(f: Flavour, s: Sys, u: Task, t: Task)
    requires Control(f, s) && InView(ViewOf(s.k), u, t)
    ensures u in s.k.eff && t in s.k.eff && s.k.eff[t] <= s.k.eff[u]
  {
    BaseValue(f, s.k, u);
    BaseValue(f, s.k, t);
    BlocksView(s.k, u, t);
    assert Settled(s.k, t);
  }

  lemma BoostedBySomeone(f: Flavour, s: Sys, t: Task) returns (u: Task)
    requires Control(f, s)
    ensures t in s.k.eff && u in s.k.eff
    ensures s.k.eff[t] != BaseOf(f, t) ==> InView(ViewOf(s.k), u, t) && s.k.eff[t] == s.k.eff[u]
  {
    BaseValue(f, s.k, t);
    assert Settled(s.k, t);
    u := t;
    if s.k.eff[t] != BaseOf(f, t) {
      u :| Blocks(s.k, u, t) && s.k.eff[t] == s.k.eff[u];
      BlocksView(s.k, u, t);
    }
  }

  lemma LowWhileBlocked(f: Flavour, s: Sys)
    requires Control(f, s) && InView(ViewOf(s.k), TLO, TASK1)
    ensures TLO in s.k.eff && s.k.eff[TLO] == BaseOf(f, TLO)
  {
    forall u: Task | InView(ViewOf(s.k), u, TLO) ensures false {
      BlockingPairs(f, ViewOf(s.k), s, u, TLO);
      NoMutualWait(f, ViewOf(s.k), s);
    }
    UnboostedHasBase(f, s, TLO);
  }

  lemma OnePriority(f: Flavour, s: Sys)
    requires Control(f, s)
    ensures TASK1 in s.k.eff && s.k.eff[TASK1] == Table(f, ViewOf(s.k), TASK1)
  {
    var v := ViewOf(s.k);
    NeverAboveHi(f, s, TASK1);
    NoMutualWait(f, v, s);
    if InView(v, THI, TASK1) {
      BlockerBounds(f, s, THI, TASK1);
      NeverAboveHi(f, s, THI);
    } else {
      var u := BoostedBySomeone(f, s, TASK1);
      if s.k.eff[TASK1] != BaseOf(f, TASK1) {
        BlockingPairs(f, v, s, u, TASK1);
        LowWhileBlocked(f, s);
      }
    }
  }

  lemma LowPriority(f: Flavour, s: Sys)
    requires Control(f, s)
    ensures TLO in s.k.eff && s.k.eff[TLO] == Table(f, ViewOf(s.k), TLO)
  {
    var v := ViewOf(s.k);
    NoMutualWait(f, v, s);
    OnePriority(f, s);
    NeverAboveHi(f, s, TLO);
    if InView(v, TASK1, TLO) {
      BlockerBounds(f, s, TASK1, TLO);
    }
    var u := BoostedBySomeone(f, s, TLO);
    if s.k.eff[TLO] != BaseOf(f, TLO) {
      BlockingPairs(f, v, s, u, TLO);
    }
  }

  /**
    In every state that satisfies the control invariant, so in every reachable state of every
    interleaving: THI and TMID run at their own priorities, Task_1 at THI's exactly while THI
    waits for it, and TLO at Task_1's exactly while Task_1 waits for it.
  */
  lemma PriorityTable(f: Flavour, s: Sys, t: Task)
    requires Control(f, s)
    ensures t in s.k.eff && s.k.eff[t] == Table(f, ViewOf(s.k), t)
  {
    match t
    case THI => NeverAboveHi(f, s, THI);
    case TMID =>
      forall u: Task | InView(ViewOf(s.k), u, TMID) ensures false {
        BlockingPairs(f, ViewOf(s.k), s, u, TMID);
      }
      UnboostedHasBase(f, s, TMID);
    case TASK1 => OnePriority(f, s);
    case TLO => LowPriority(f, s);
  }

  // ---------- Who is dispatched ----------

  /** The strict-priority rule read off the view. */
  predicate Dispatch(v: View, s: Sys, t: Task) {
    match t
    case THI => true
    case TMID => !Ready(v, s, THI) && !(Ready(v, s, TASK1) && v.waits.hi == On(SHI))
    case TASK1 => !Ready(v, s, THI) && (v.waits.hi == On(SHI) || !Ready(v, s, TMID))
    case TLO => !Ready(v, s, THI) && !Ready(v, s, TMID) && !Ready(v, s, TASK1)
  }

  lemma TableDispatch(f: Flavour, v: View, s: Sys, t: Task)
    requires Shape(f, v, s) && Ready(v, s, t)
    ensures (forall u: Task :: Ready(v, s, u) ==> Table(f, v, t) <= Table(f, v, u)) <==> Dispatch(v, s, t)
  {
    assert v.waits.hi == On(SHI) && Ready(v, s, TASK1) ==> v.shi == By(TASK1);
    if Dispatch(v, s, t) {
      forall u: Task | Ready(v, s, u) ensures Table(f, v, t) <= Table(f, v, u) {}
    }
  }

  /** The most urgent ready task is the one the rule names. */
  lemma UrgentDispatch(f: Flavour, s: Sys, t: Task)
    requires Control(f, s) && Ready(ViewOf(s.k), s, t)
    ensures Urgent(s, t) <==> Dispatch(ViewOf(s.k), s, t)
  {
    TableDispatch(f, ViewOf(s.k), s, t);
    forall u: Task ensures u in s.k.eff && s.k.eff[u] == Table(f, ViewOf(s.k), u) {
      PriorityTable(f, s, u);
    }
  }
}
