/**
  What the four tasks keep under arbitrary interleaving: the control invariant that ties
  program counters, owners, waiters, tokens and effective priorities together, mutual
  exclusion, correct inheritance in every reachable state, and freedom from deadlock.
*/
module AnyScheduler {
  import opened PriorityInheritance
  import opened Scenario

  // ---------- The control invariant ----------

  /** Where Task_1 is inside its SHI section, the SHI release included. */
  predicate HiSection(pc: Pc) {
    pc.PostHi? || pc.Nap? || pc.Read1? || pc.PostMid? || pc.Work1? || pc.UnlockHi?
  }

  predicate LoSection(pc: Pc) {
    HiSection(pc) || pc.PostLo? || pc.LockHi? || pc.Read2? || pc.Work2? || pc.UnlockLo?
  }

  /** THI with SHI, or TLO with SLO. */
  predicate GuestShape(t: Task, m: Mutex, v: View, pc: Pc, parked: bool, spin: Spin) {
    && (pc.Dormant? || pc.AwaitToken? || pc.Enter? || pc.Work? || pc.Leave?)
    && (v.waits.At(t).No? || (v.waits.At(t) == On(m) && pc.Work?))
    && (parked ==> pc.Enter?)
    && (v.Of(m) == By(t) <==> (pc.Work? || pc.Leave?) && v.waits.At(t).No?)
    && (spin == Outer(DELAY) || (pc.Work? && v.waits.At(t).No?))
  }

  predicate MidShape(w: Waiting, pc: Pc, parked: bool, spin: Spin) {
    && (pc.Dormant? || pc.AwaitToken? || pc.Work?)
    && w.No?
    && (parked ==> pc.Work?)
    && (spin == Outer(DELAY) || (pc.Work? && !parked))
  }

  predicate OneShape(f: Flavour, v: View, pc: Pc, spin: Spin, asleep: bool) {
    && !(pc.Dormant? || pc.AwaitToken? || pc.Enter? || pc.Work? || pc.Leave?)
    && (v.shi == By(TASK1) <==> HiSection(pc) && v.waits.one != On(SHI))
    && (v.slo == By(TASK1) <==> LoSection(pc) && v.waits.one != On(SLO))
    && (v.waits.one.No? || (pc.PostLo? && v.waits.one == On(SLO)) || (pc.PostHi? && v.waits.one == On(SHI)))
    && (asleep ==> pc.LockLo? || pc.Read1? || pc.PostMid?)
    && (spin == Outer(DELAY) || pc.Work1? || pc.Work2? || pc.Work3?)
    && (f.Posix? ==> !(pc.Read1? || pc.Read2? || pc.Read3?))
    && (f.Rtems? ==> !pc.Settle?)
  }

  predicate StartShape(pc: Per<Pc>) {
    && (pc.hi.Dormant? <==> pc.one.StartHi?)
    && (pc.mid.Dormant? <==> pc.one.StartHi? || pc.one.StartMid?)
    && (pc.lo.Dormant? <==> pc.one.StartHi? || pc.one.StartMid? || pc.one.StartLo?)
  }

  predicate OwnerShape(v: View) {
    && (v.shi.Free? || v.shi == By(THI) || v.shi == By(TASK1))
    && (v.slo.Free? || v.slo == By(TLO) || v.slo == By(TASK1))
    && (v.waits.hi == On(SHI) || v.waits.one == On(SHI) ==> !v.shi.Free?)
    && (v.waits.lo == On(SLO) || v.waits.one == On(SLO) ==> !v.slo.Free?)
  }

  /** Every post is taken, still counted, or (binary semaphores only) lost. */
  predicate Accounted(f: Flavour, c: Count, parked: bool) {
    && c.posts == c.takes + c.value + c.lost
    && (f.Rtems? ==> c.value <= 1)
    && (f.Posix? ==> c.lost == 0)
    && (parked ==> c.value == 0)
  }

  predicate TokenShape(f: Flavour, tokens: Tokens, parked: Per<bool>) {
    && Accounted(f, tokens.hi, parked.hi)
    && Accounted(f, tokens.mid, parked.mid)
    && Accounted(f, tokens.lo, parked.lo)
    && !parked.one
  }

  predicate Shape(f: Flavour, v: View, s: Sys) {
    && GuestShape(THI, SHI, v, s.pc.hi, s.parked.hi, s.spin.hi)
    && GuestShape(TLO, SLO, v, s.pc.lo, s.parked.lo, s.spin.lo)
    && MidShape(v.waits.mid, s.pc.mid, s.parked.mid, s.spin.mid)
    && OneShape(f, v, s.pc.one, s.spin.one, s.asleep)
    && StartShape(s.pc) && OwnerShape(v)
    && TokenShape(f, s.tokens, s.parked)
    && !s.fault
  }

  ghost predicate Control(f: Flavour, s: Sys) {
    Typed(f, s) && Shape(f, ViewOf(s.k), s) && Consistent(s.k)
  }

  // ---------- Every statement keeps the shape ----------

  lemma SpinShape(f: Flavour, v: View, s: Sys, t: Task, op: Op, prio: int, v': View, s': Sys)
    requires Shape(f, v, s) && Acts(f, v, s, t, op, prio, v', s') && Spins(s, t, op)
    ensures Shape(f, v', s')
  {
  }

  lemma HiTakeShape(f: Flavour, v: View, s: Sys, op: Op, prio: int, v': View, s': Sys)
    requires Shape(f, v, s) && Acts(f, v, s, THI, op, prio, v', s') && op.Take? && s.tokens.hi.value > 0
    ensures Shape(f, v', s')
  {
  }

  lemma HiParkShape(f: Flavour, v: View, s: Sys, op: Op, prio: int, v': View, s': Sys)
    requires Shape(f, v, s) && Acts(f, v, s, THI, op, prio, v', s') && op.Take? && s.tokens.hi.value == 0
    ensures Shape(f, v', s')
  {
  }

  lemma HiMutexShape(f: Flavour, v: View, s: Sys, op: Op, prio: int, v': View, s': Sys)
    requires Shape(f, v, s) && Acts(f, v, s, THI, op, prio, v', s') && (op.Lock? || op.Unlock?)
    ensures Shape(f, v', s')
  {
  }

  lemma HiWorkShape(f: Flavour, v: View, s: Sys, op: Op, prio: int, v': View, s': Sys)
    requires Shape(f, v, s) && Acts(f, v, s, THI, op, prio, v', s') && op.Delay? && !Spins(s, THI, op)
    ensures Shape(f, v', s')
  {
  }

  lemma LoTakeShape(f: Flavour, v: View, s: Sys, op: Op, prio: int, v': View, s': Sys)
    requires Shape(f, v, s) && Acts(f, v, s, TLO, op, prio, v', s') && op.Take? && s.tokens.lo.value > 0
    ensures Shape(f, v', s')
  {
  }

  lemma LoParkShape(f: Flavour, v: View, s: Sys, op: Op, prio: int, v': View, s': Sys)
    requires Shape(f, v, s) && Acts(f, v, s, TLO, op, prio, v', s') && op.Take? && s.tokens.lo.value == 0
    ensures Shape(f, v', s')
  {
  }

  lemma LoMutexShape(f: Flavour, v: View, s: Sys, op: Op, prio: int, v': View, s': Sys)
    requires Shape(f, v, s) && Acts(f, v, s, TLO, op, prio, v', s') && (op.Lock? || op.Unlock?)
    ensures Shape(f, v', s')
  {
  }

  lemma LoWorkShape(f: Flavour, v: View, s: Sys, op: Op, prio: int, v': View, s': Sys)
    requires Shape(f, v, s) && Acts(f, v, s, TLO, op, prio, v', s') && op.Delay? && !Spins(s, TLO, op)
    ensures Shape(f, v', s')
  {
  }

  lemma MidTakeShape(f: Flavour, v: View, s: Sys, op: Op, prio: int, v': View, s': Sys)
    requires Shape(f, v, s) && Acts(f, v, s, TMID, op, prio, v', s') && op.Take? && s.tokens.mid.value > 0
    ensures Shape(f, v', s')
  {
  }

  lemma MidParkShape(f: Flavour, v: View, s: Sys, op: Op, prio: int, v': View, s': Sys)
    requires Shape(f, v, s) && Acts(f, v, s, TMID, op, prio, v', s') && op.Take? && s.tokens.mid.value == 0
    ensures Shape(f, v', s')
  {
  }

  lemma MidWorkShape(f: Flavour, v: View, s: Sys, op: Op, prio: int, v': View, s': Sys)
    requires Shape(f, v, s) && Acts(f, v, s, TMID, op, prio, v', s') && op.Delay? && !Spins(s, TMID, op)
    ensures Shape(f, v', s')
  {
  }

  lemma OneStartShape(f: Flavour, v: View, s: Sys, op: Op, prio: int, v': View, s': Sys)
    requires Shape(f, v, s) && Acts(f, v, s, TASK1, op, prio, v', s') && op.Start?
    ensures Shape(f, v', s')
  {
  }

  lemma OneLockHiShape(f: Flavour, v: View, s: Sys, prio: int, v': View, s': Sys)
    requires Shape(f, v, s) && Acts(f, v, s, TASK1, Lock(SHI), prio, v', s')
    ensures Shape(f, v', s')
  {
  }

  lemma OneLockLoShape(f: Flavour, v: View, s: Sys, prio: int, v': View, s': Sys)
    requires Shape(f, v, s) && Acts(f, v, s, TASK1, Lock(SLO), prio, v', s')
    ensures Shape(f, v', s')
  {
  }

  lemma PostAccounted(f: Flavour, c: Count, parked: bool)
    requires Accounted(f, c, parked)
    ensures Accounted(f, Posted(f, c, parked), false)
  {
  }

  lemma PostTokens(f: Flavour, s: Sys, r: Token)
    requires TokenShape(f, s.tokens, s.parked)
    ensures TokenShape(f, PostTo(f, s, r).tokens, PostTo(f, s, r).parked)
  {
    PostAccounted(f, s.tokens.At(r), s.parked.At(Consumer(r)));
  }

  lemma OnePostShape(f: Flavour, v: View, s: Sys, op: Op, prio: int, v': View, s': Sys)
    requires Shape(f, v, s) && Acts(f, v, s, TASK1, op, prio, v', s') && op.Post?
    ensures Shape(f, v', s')
  {
    PostTokens(f, Advance(f, s, TASK1), op.r);
  }

  lemma OneUnlockHiShape(f: Flavour, v: View, s: Sys, prio: int, v': View, s': Sys)
    requires Shape(f, v, s) && Acts(f, v, s, TASK1, Unlock(SHI), prio, v', s')
    ensures Shape(f, v', s')
  {
  }

  lemma OneUnlockLoShape(f: Flavour, v: View, s: Sys, prio: int, v': View, s': Sys)
    requires Shape(f, v, s) && Acts(f, v, s, TASK1, Unlock(SLO), prio, v', s')
    ensures Shape(f, v', s')
  {
  }

  lemma OneSleepShape(f: Flavour, v: View, s: Sys, op: Op, prio: int, v': View, s': Sys)
    requires Shape(f, v, s) && Acts(f, v, s, TASK1, op, prio, v', s') && (op.Sleep? || op.ReadPrio?)
    ensures Shape(f, v', s')
  {
  }

  lemma OneWorkShape(f: Flavour, v: View, s: Sys, op: Op, prio: int, v': View, s': Sys)
    requires Shape(f, v, s) && Acts(f, v, s, TASK1, op, prio, v', s') && op.Delay? && !Spins(s, TASK1, op)
    ensures Shape(f, v', s')
  {
  }

  lemma ActsShape(f: Flavour, v: View, s: Sys, t: Task, op: Op, prio: int, v': View, s': Sys)
    requires Shape(f, v, s) && Acts(f, v, s, t, op, prio, v', s')
    ensures Shape(f, v', s')
  {
    if Spins(s, t, op) {
      SpinShape(f, v, s, t, op, prio, v', s');
    } else {
      match t
      case THI =>
        if op.Take? && s.tokens.hi.value > 0 { HiTakeShape(f, v, s, op, prio, v', s'); }
        else if op.Take? { HiParkShape(f, v, s, op, prio, v', s'); }
        else if op.Delay? { HiWorkShape(f, v, s, op, prio, v', s'); }
        else { HiMutexShape(f, v, s, op, prio, v', s'); }
      case TLO =>
        if op.Take? && s.tokens.lo.value > 0 { LoTakeShape(f, v, s, op, prio, v', s'); }
        else if op.Take? { LoParkShape(f, v, s, op, prio, v', s'); }
        else if op.Delay? { LoWorkShape(f, v, s, op, prio, v', s'); }
        else { LoMutexShape(f, v, s, op, prio, v', s'); }
      case TMID =>
        if op.Take? && s.tokens.mid.value > 0 { MidTakeShape(f, v, s, op, prio, v', s'); }
        else if op.Take? { MidParkShape(f, v, s, op, prio, v', s'); }
        else { MidWorkShape(f, v, s, op, prio, v', s'); }
      case TASK1 =>
        match op {
          case Start(_) => OneStartShape(f, v, s, op, prio, v', s');
          case Lock(m) =>
            if m == SHI { OneLockHiShape(f, v, s, prio, v', s'); } else { OneLockLoShape(f, v, s, prio, v', s'); }
          case Post(_) => OnePostShape(f, v, s, op, prio, v', s');
          case Unlock(m) =>
            if m == SHI { OneUnlockHiShape(f, v, s, prio, v', s'); } else { OneUnlockLoShape(f, v, s, prio, v', s'); }
          case Delay => OneWorkShape(f, v, s, op, prio, v', s');
          case _ => OneSleepShape(f, v, s, op, prio, v', s');
        }
    }
  }

  lemma NoMisuse(f: Flavour, v: View, s: Sys, t: Task)
    requires Shape(f, v, s) && Ready(v, s, t)
    ensures !Misuse(v, t, OpAt(t, s.pc.At(t)))
  {
  }

  // ---------- Acyclic waiting ----------

  function RankOf(v: View): map<Task, nat> {
    map[THI := if v.waits.hi.No? then 2 else 0, TMID := 0, TASK1 := 1, TLO := if v.waits.lo.No? then 2 else 0]
  }

  lemma ShapeRanked(f: Flavour, s: Sys)
    requires Typed(f, s) && Shape(f, ViewOf(s.k), s)
    ensures RankedBy(s.k, RankOf(ViewOf(s.k))) && Acyclic(s.k)
  {
    var rank := RankOf(ViewOf(s.k));
    assert rank.Keys == s.k.base.Keys;
    forall u: Task, t: Task | Blocks(s.k, u, t) ensures rank[u] < rank[t] {
      BlocksRanked(f, ViewOf(s.k), s, u, s.k.waits[u], t);
    }
    assert RankedBy(s.k, rank);
  }

  lemma BlocksRanked(f: Flavour, v: View, s: Sys, u: Task, m: Mutex, t: Task)
    requires Shape(f, v, s) && v.waits.At(u) == On(m) && v.Of(m) == By(t)
    ensures RankOf(v)[u] < RankOf(v)[t]
  {
  }

  // ---------- The invariant over runs ----------

  lemma ServedConsistent(f: Flavour, s: Sys, t: Task, op: Op, s': Sys)
    requires Control(f, s) && t !in s.k.waits && Served(s.k, t, op, s'.k)
    requires Typed(f, s') && Shape(f, ViewOf(s'.k), s')
    ensures Control(f, s')
  {
    match op
    case Lock(m) =>
      ShapeRanked(f, s');
      ObtainConsistent(s.k, t, m);
    case Unlock(m) => ReleaseConsistent(s.k, t, m, s'.k);
    case _ =>
  }

  lemma ServedTyped(f: Flavour, s: Sys, t: Task, op: Op, s': Sys)
    requires Typed(f, s) && t !in s.k.waits && Served(s.k, t, op, s'.k)
    ensures Typed(f, s')
  {
    match op
    case Unlock(m) => var _ := ReleaseEffect(s.k, t, m, s'.k);
    case _ =>
  }

  lemma NextActs(f: Flavour, s: Sys, t: Task, op: Op, s': Sys)
    requires Control(f, s) && Next(f, s, Do(t, op), s')
    ensures !Misuse(ViewOf(s.k), t, op) && t !in s.k.waits && t in s.k.eff
    ensures Acts(f, ViewOf(s.k), s, t, op, s.k.eff[t], ViewOf(s'.k), s') && Served(s.k, t, op, s'.k)
  {
    NoMisuse(f, ViewOf(s.k), s, t);
    PerformActs(f, s, t, op, s');
  }

  lemma ActsControl(f: Flavour, s: Sys, t: Task, op: Op, s': Sys)
    requires Control(f, s) && t !in s.k.waits && t in s.k.eff && Served(s.k, t, op, s'.k)
    requires Acts(f, ViewOf(s.k), s, t, op, s.k.eff[t], ViewOf(s'.k), s')
    ensures Control(f, s')
  {
    ActsShape(f, ViewOf(s.k), s, t, op, s.k.eff[t], ViewOf(s'.k), s');
    ServedTyped(f, s, t, op, s');
    ServedConsistent(f, s, t, op, s');
  }

  lemma ControlStep(f: Flavour, s: Sys, l: Label, s': Sys)
    requires Control(f, s) && Next(f, s, l, s')
    ensures Control(f, s')
    ensures l.Do? ==> !Misuse(ViewOf(s.k), l.t, l.op) && l.t in s.k.eff
    ensures l.Do? ==> Acts(f, ViewOf(s.k), s, l.t, l.op, s.k.eff[l.t], ViewOf(s'.k), s')
  {
    if l.Do? {
      NextActs(f, s, l.t, l.op, s');
      ActsControl(f, s, l.t, l.op, s');
    }
  }

  lemma ControlInit(f: Flavour)
    ensures Control(f, Init(f))
  {
    var k := Init(f).k;
    forall t: Task ensures t in k.base { match t case THI => case TMID => case TASK1 => case TLO => }
    forall t: Task | t in k.base ensures Settled(k, t) {}
  }

  lemma {:induction false} ControlPath(f: Flavour, c: Sched, ss: seq<Sys>, ls: seq<Label>, i: nat)
    requires Path(f, c, ss, ls) && Control(f, ss[0]) && i < |ss|
    ensures Control(f, ss[i])
    decreases i
  {
    if i == 0 {
    } else {
      ControlPath(f, c, ss, ls, i - 1);
      assert StepFrom(f, c, ss, ls, i - 1);
      ControlStep(f, ss[i - 1], ls[i - 1], ss[i]);
    }
  }

  lemma ControlRun(f: Flavour, c: Sched, ss: seq<Sys>, ls: seq<Label>, i: nat)
    requires Run(f, c, ss, ls) && i < |ss|
    ensures Control(f, ss[i])
  {
    ControlInit(f);
    ControlPath(f, c, ss, ls, i);
  }

  /** A step of a run, as the program text has it. */
  lemma StepActs(f: Flavour, c: Sched, ss: seq<Sys>, ls: seq<Label>, i: nat)
    requires Run(f, c, ss, ls) && i < |ls|
    ensures ls[i].Do? ==> ls[i].t in ss[i].k.eff
    ensures var s, l, s' := ss[i], ls[i], ss[i + 1];
            if l.Do? then Acts(f, ViewOf(s.k), s, l.t, l.op, s.k.eff[l.t], ViewOf(s'.k), s')
            else s' == s.(asleep := false)
  {
    ControlRun(f, c, ss, ls, i);
    assert StepFrom(f, c, ss, ls, i);
    ControlStep(f, ss[i], ls[i], ss[i + 1]);
  }

  // ---------- Mutual exclusion ----------

  /** By its program counter and what it waits for, `t` is between obtaining and releasing `m`. */
  predicate InSection(v: View, s: Sys, t: Task, m: Mutex) {
    match t
    case THI => m == SHI && (s.pc.hi.Work? || s.pc.hi.Leave?) && v.waits.hi.No?
    case TLO => m == SLO && (s.pc.lo.Work? || s.pc.lo.Leave?) && v.waits.lo.No?
    case TMID => false
    case TASK1 => (if m == SHI then HiSection(s.pc.one) else LoSection(s.pc.one)) && v.waits.one != On(m)
  }

  lemma SectionOwned(f: Flavour, v: View, s: Sys, t: Task, m: Mutex)
    requires Shape(f, v, s)
    ensures InSection(v, s, t, m) <==> v.Of(m) == By(t)
  {
  }

  /** In every state of every interleaving the sections of one mutex exclude each other. */
  lemma MutualExclusion(f: Flavour, c: Sched, ss: seq<Sys>, ls: seq<Label>, i: nat, t: Task, u: Task, m: Mutex)
    requires Run(f, c, ss, ls) && i < |ss|
    requires InSection(ViewOf(ss[i].k), ss[i], t, m) && InSection(ViewOf(ss[i].k), ss[i], u, m)
    ensures t == u && m in ss[i].k.owner && ss[i].k.owner[m] == t
  {
    ControlRun(f, c, ss, ls, i);
    SectionOwned(f, ViewOf(ss[i].k), ss[i], t, m);
    SectionOwned(f, ViewOf(ss[i].k), ss[i], u, m);
  }

  /** Only owners release; a waiter, if any, is inside its section right after the release. */
  lemma ReleaseHandsOver(f: Flavour, c: Sched, ss: seq<Sys>, ls: seq<Label>, i: nat, t: Task, m: Mutex)
    requires Run(f, c, ss, ls) && i < |ls| && ls[i] == Do(t, Unlock(m))
    ensures m in ss[i].k.owner && ss[i].k.owner[m] == t && !ss[i + 1].fault
    ensures var v, v' := ViewOf(ss[i].k), ViewOf(ss[i + 1].k);
            && !InSection(v', ss[i + 1], t, m)
            && (!v.Waited(m) ==> v'.Of(m) == Free)
            && (v.Waited(m) ==> exists w: Task :: v.waits.At(w) == On(m) && InSection(v', ss[i + 1], w, m))
  {
    ControlRun(f, c, ss, ls, i);
    assert StepFrom(f, c, ss, ls, i);
    ControlStep(f, ss[i], ls[i], ss[i + 1]);
    var v, v' := ViewOf(ss[i].k), ViewOf(ss[i + 1].k);
    SectionOwned(f, v', ss[i + 1], t, m);
    if v.Waited(m) {
      var w: Task :| v.waits.At(w) == On(m) && v' == v.Set(m, By(w)).Wait(w, No);
      SectionOwned(f, v', ss[i + 1], w, m);
    }
  }

  // ---------- Inheritance ----------

  /**
    In every reachable state, under every scheduler, the incrementally kept priority of
    every task is the most urgent base priority among the tasks that wait for it, directly
    or through other blocked owners.
  */
  lemma InheritanceHolds(f: Flavour, c: Sched, ss: seq<Sys>, ls: seq<Label>, i: nat, t: Task)
    requires Run(f, c, ss, ls) && i < |ss|
    ensures t in ss[i].k.eff && Inherits(ss[i].k, t, ss[i].k.eff[t])
  {
    ControlRun(f, c, ss, ls, i);
    ShapeRanked(f, ss[i]);
    EffectiveIsInherited(ss[i].k, t);
  }

  // ---------- No deadlock ----------

  lemma SomeoneReady(f: Flavour, v: View, s: Sys)
    requires Shape(f, v, s) && !s.asleep
    ensures exists t: Task :: Ready(v, s, t)
  {
    assert Ready(v, s, TASK1) || Ready(v, s, TLO) || Ready(v, s, THI);
  }

  lemma CanPerform(f: Flavour, s: Sys, t: Task) returns (s': Sys)
    requires Control(f, s) && Ready(ViewOf(s.k), s, t)
    ensures Next(f, s, Do(t, OpAt(t, s.pc.At(t))), s')
  {
    var op := OpAt(t, s.pc.At(t));
    NoMisuse(f, ViewOf(s.k), s, t);
    HasStatement(f, ViewOf(s.k), s, t);
    var k' := s.k;
    match op {
      case Lock(m) => k' := Obtain(s.k, t, m);
      case Unlock(m) => k' := ReleaseExists(s.k, t, m);
      case _ =>
    }
    s' := Effect(f, s, t, op, s.k.eff[t]).(k := k');
  }

  lemma HasStatement(f: Flavour, v: View, s: Sys, t: Task)
    requires Shape(f, v, s) && Ready(v, s, t)
    ensures !OpAt(t, s.pc.At(t)).Nop?
  {
  }

  lemma UrgentExists(f: Flavour, s: Sys) returns (t: Task)
    requires Control(f, s) && exists u: Task :: Ready(ViewOf(s.k), s, u)
    ensures Ready(ViewOf(s.k), s, t) && Urgent(s, t)
  {
    var u: Task :| Ready(ViewOf(s.k), s, u);
    var all := set x | x in s.k.eff && Ready(ViewOf(s.k), s, x);
    assert u in s.k.base && u in all;
    t := MostUrgent(s.k.eff, all);
  }

  /** Under each scheduler every state has a next step. */
  lemma Progress(f: Flavour, c: Sched, s: Sys) returns (l: Label, s': Sys)
    requires Control(f, s)
    ensures Step(f, c, s, l, s')
  {
    if t: Task :| Ready(ViewOf(s.k), s, t) {
      var u := UrgentExists(f, s);
      l := Do(u, OpAt(u, s.pc.At(u)));
      s' := CanPerform(f, s, u);
    } else {
      if !s.asleep {
        SomeoneReady(f, ViewOf(s.k), s);
      }
      l, s' := Timer, s.(asleep := false);
    }
  }

  /**
    No reachable state is deadlocked: no task waits for itself through a chain of owners,
    and while Task_1 is not asleep some task is ready to run.
  */
  lemma NoDeadlock(f: Flavour, c: Sched, ss: seq<Sys>, ls: seq<Label>, i: nat)
    requires Run(f, c, ss, ls) && i < |ss|
    ensures forall t: Task, n: nat :: n > 0 ==> !WaitsFor(ss[i].k, t, t, n)
    ensures ss[i].asleep || exists t: Task :: Ready(ViewOf(ss[i].k), ss[i], t)
    ensures exists l, s' :: Step(f, c, ss[i], l, s')
  {
    ControlRun(f, c, ss, ls, i);
    ShapeRanked(f, ss[i]);
    var rank :| RankedBy(ss[i].k, rank);
    forall t: Task, n: nat | n > 0 && WaitsFor(ss[i].k, t, t, n) ensures false {
      RankedNoCycle(ss[i].k, t, t, n, rank);
    }
    if !ss[i].asleep {
      SomeoneReady(f, ViewOf(ss[i].k), ss[i]);
    }
    var l, s' := Progress(f, c, ss[i]);
  }

  // ---------- Release tokens ----------

  /**
    Posts are conserved: each was taken, is still counted, or was lost on a binary
    semaphore that already stood at 1; the counting version loses none.
  */
  lemma TokensConserved(f: Flavour, c: Sched, ss: seq<Sys>, ls: seq<Label>, i: nat, r: Token)
    requires Run(f, c, ss, ls) && i < |ss|
    ensures var n := ss[i].tokens.At(r);
            && n.posts == n.takes + n.value + n.lost
            && (f.Posix? ==> n.lost == 0)
            && (f.Rtems? ==> n.value <= 1)
  {
    ControlRun(f, c, ss, ls, i);
  }
}
