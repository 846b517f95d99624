/**
  What the four tasks achieve on one CPU with strict priorities and inheritance, for every
  timing of the timer wakeups: no uncontrolled priority inversion, the priorities Task_1
  reads, no lost release of THI and TMID, and a bound on how long THI stays blocked.
*/
module StrictScheduler {
  import opened PriorityInheritance
  import opened Scenario
  import opened AnyScheduler
  import opened Priorities
  import opened Turns

  // ---------- The strict-priority invariant ----------

  /** Where THI is, by where Task_1 is; `w` is what THI waits for. */
  predicate HiPhase(one: Pc, w: Waiting, pc: Pc, parked: bool) {
    match one
    case StartHi => true
    case StartMid => pc.AwaitToken? || parked
    case Nap => (pc.Enter? && !parked) || w == On(SHI)
    case Read1 | PostMid | Work1 | UnlockHi => w == On(SHI)
    case Read2 | Work2 => w.No? && !(pc.Enter? && !parked)
    case _ => parked
  }

  /** TMID is away from its RMID wait only from the RMID post until Task_1 goes on after SHI. */
  predicate MidPhase(one: Pc, pc: Pc, parked: bool) {
    match one
    case StartHi | StartMid | Read2 | Work2 => true
    case StartLo => pc.AwaitToken? || parked
    case Work1 | UnlockHi => pc.Work? && !parked
    case _ => parked
  }

  predicate NoneLeft(c: Count) {
    c.value == 0 && c.lost == 0
  }

  predicate StrictShape(v: View, s: Sys) {
    && HiPhase(s.pc.one, v.waits.hi, s.pc.hi, s.parked.hi)
    && MidPhase(s.pc.one, s.pc.mid, s.parked.mid)
    && NoneLeft(s.tokens.hi) && NoneLeft(s.tokens.mid)
    && v.waits.one != On(SHI)
  }

  predicate StrictActs(f: Flavour, v: View, s: Sys, t: Task, op: Op, prio: int, v': View, s': Sys) {
    && Shape(f, v, s) && StrictShape(v, s)
    && Acts(f, v, s, t, op, prio, v', s') && Dispatch(v, s, t)
  }

  lemma SpinStrict(f: Flavour, v: View, s: Sys, t: Task, op: Op, prio: int, v': View, s': Sys)
    requires StrictActs(f, v, s, t, op, prio, v', s') && Spins(s, t, op)
    ensures StrictShape(v', s')
  {
  }

  lemma HiStrict(f: Flavour, v: View, s: Sys, op: Op, prio: int, v': View, s': Sys)
    requires StrictActs(f, v, s, THI, op, prio, v', s') && !Spins(s, THI, op)
    ensures StrictShape(v', s')
  {
  }

  lemma MidStrict(f: Flavour, v: View, s: Sys, op: Op, prio: int, v': View, s': Sys)
    requires StrictActs(f, v, s, TMID, op, prio, v', s') && !Spins(s, TMID, op)
    ensures StrictShape(v', s')
  {
  }

  lemma LoMutexStrict(f: Flavour, v: View, s: Sys, op: Op, prio: int, v': View, s': Sys)
    requires StrictActs(f, v, s, TLO, op, prio, v', s') && (op.Lock? || op.Unlock?)
    ensures StrictShape(v', s')
  {
  }

  lemma LoWorkStrict(f: Flavour, v: View, s: Sys, op: Op, prio: int, v': View, s': Sys)
    requires StrictActs(f, v, s, TLO, op, prio, v', s') && !Spins(s, TLO, op) && !op.Lock? && !op.Unlock?
    ensures StrictShape(v', s')
  {
  }

  lemma OneStartStrict(f: Flavour, v: View, s: Sys, op: Op, prio: int, v': View, s': Sys)
    requires StrictActs(f, v, s, TASK1, op, prio, v', s') && op.Start?
    ensures StrictShape(v', s')
  {
  }

  lemma OnePostStrict(f: Flavour, v: View, s: Sys, op: Op, prio: int, v': View, s': Sys)
    requires StrictActs(f, v, s, TASK1, op, prio, v', s') && op.Post?
    ensures StrictShape(v', s')
  {
  }

  lemma OneLockStrict(f: Flavour, v: View, s: Sys, op: Op, prio: int, v': View, s': Sys)
    requires StrictActs(f, v, s, TASK1, op, prio, v', s') && op.Lock?
    ensures StrictShape(v', s')
  {
  }

  lemma OneUnlockStrict(f: Flavour, v: View, s: Sys, op: Op, prio: int, v': View, s': Sys)
    requires StrictActs(f, v, s, TASK1, op, prio, v', s') && op.Unlock?
    ensures StrictShape(v', s')
  {
  }

  lemma OneSleepStrict(f: Flavour, v: View, s: Sys, op: Op, prio: int, v': View, s': Sys)
    requires StrictActs(f, v, s, TASK1, op, prio, v', s') && (op.Sleep? || op.ReadPrio?)
    ensures StrictShape(v', s')
  {
  }

  lemma OneWorkStrict(f: Flavour, v: View, s: Sys, op: Op, prio: int, v': View, s': Sys)
    requires StrictActs(f, v, s, TASK1, op, prio, v', s') && op.Delay? && !Spins(s, TASK1, op)
    ensures StrictShape(v', s')
  {
  }

  lemma ActsStrict(f: Flavour, v: View, s: Sys, t: Task, op: Op, prio: int, v': View, s': Sys)
    requires StrictActs(f, v, s, t, op, prio, v', s')
    ensures StrictShape(v', s')
  {
    if Spins(s, t, op) {
      SpinStrict(f, v, s, t, op, prio, v', s');
    } else {
      match t
      case THI => HiStrict(f, v, s, op, prio, v', s');
      case TMID => MidStrict(f, v, s, op, prio, v', s');
      case TLO =>
        if op.Lock? || op.Unlock? { LoMutexStrict(f, v, s, op, prio, v', s'); }
        else { LoWorkStrict(f, v, s, op, prio, v', s'); }
      case TASK1 =>
        match op {
          case Start(_) => OneStartStrict(f, v, s, op, prio, v', s');
          case Post(_) => OnePostStrict(f, v, s, op, prio, v', s');
          case Lock(_) => OneLockStrict(f, v, s, op, prio, v', s');
          case Unlock(_) => OneUnlockStrict(f, v, s, op, prio, v', s');
          case Delay => OneWorkStrict(f, v, s, op, prio, v', s');
          case _ => OneSleepStrict(f, v, s, op, prio, v', s');
        }
    }
  }

  // ---------- The priorities Task_1 reads ----------

  /** How many of an iteration's three reads are behind Task_1. */
  function ReadsDone(pc: Pc): nat {
    match pc
    case PostMid | Work1 | UnlockHi | Read2 => 1
    case Work2 | UnlockLo | Read3 => 2
    case Work3 | Rest => 3
    case _ => 0
  }

  /** The j-th read of a run. */
  function ExpectedRead(f: Flavour, j: nat): int {
    if j % 3 == 0 then BaseOf(f, THI) else BaseOf(f, TASK1)
  }

  predicate ReadShape(f: Flavour, s: Sys) {
    var r := s.log.readings;
    && (f.Rtems? ==> |r| == 3 * s.log.cycles.one + ReadsDone(s.pc.one))
    && forall j :: 0 <= j < |r| ==> r[j] == ExpectedRead(f, j)
  }

  lemma ReadValue(f: Flavour, v: View, s: Sys)
    requires Shape(f, v, s) && StrictShape(v, s) && OpAt(TASK1, s.pc.one) == ReadPrio
    ensures Table(f, v, TASK1) == BaseOf(f, if s.pc.one.Read1? then THI else TASK1)
    ensures f.Rtems?
  {
  }

  lemma ReadActs(f: Flavour, v: View, s: Sys, t: Task, op: Op, prio: int, v': View, s': Sys)
    requires Acts(f, v, s, t, op, prio, v', s') && op.ReadPrio?
    ensures t == TASK1 && s'.log == s.log.(readings := s.log.readings + [prio])
    ensures ReadsDone(s'.pc.one) == ReadsDone(s.pc.one) + 1
    ensures if s.pc.one.Read1? then ReadsDone(s.pc.one) == 0 else 1 <= ReadsDone(s.pc.one) <= 2
  {
  }

  lemma ReadKeeps(f: Flavour, v: View, s: Sys, t: Task, op: Op, v': View, s': Sys)
    requires Shape(f, v, s) && StrictShape(v, s) && Acts(f, v, s, t, op, Table(f, v, t), v', s')
    requires ReadShape(f, s) && op.ReadPrio?
    ensures ReadShape(f, s')
  {
    ReadActs(f, v, s, t, op, Table(f, v, t), v', s');
    ReadValue(f, v, s);
  }

  lemma GuestsKeepReads(f: Flavour, v: View, s: Sys, t: Task, op: Op, prio: int, v': View, s': Sys)
    requires Acts(f, v, s, t, op, prio, v', s') && t != TASK1
    ensures s'.log.readings == s.log.readings && s'.log.cycles.one == s.log.cycles.one && s'.pc.one == s.pc.one
  {
  }

  lemma OneKeepsReads(f: Flavour, v: View, s: Sys, op: Op, prio: int, v': View, s': Sys)
    requires Acts(f, v, s, TASK1, op, prio, v', s') && !op.ReadPrio?
    ensures s'.log.readings == s.log.readings
    ensures f.Rtems? ==> 3 * s'.log.cycles.one + ReadsDone(s'.pc.one) == 3 * s.log.cycles.one + ReadsDone(s.pc.one)
  {
  }

  lemma OtherKeepsReads(f: Flavour, v: View, s: Sys, t: Task, op: Op, prio: int, v': View, s': Sys)
    requires Acts(f, v, s, t, op, prio, v', s') && ReadShape(f, s) && !op.ReadPrio?
    ensures ReadShape(f, s')
  {
    if t == TASK1 {
      OneKeepsReads(f, v, s, op, prio, v', s');
    } else {
      GuestsKeepReads(f, v, s, t, op, prio, v', s');
    }
  }

  // ---------- The invariant over runs ----------

  ghost predicate StrictInv(f: Flavour, s: Sys) {
    Control(f, s) && StrictShape(ViewOf(s.k), s) && ReadShape(f, s)
  }

  lemma StrictStep(f: Flavour, c: Sched, s: Sys, l: Label, s': Sys)
    requires StrictInv(f, s) && c != Any && Step(f, c, s, l, s')
    ensures StrictInv(f, s')
    ensures l.Do? ==> StrictActs(f, ViewOf(s.k), s, l.t, l.op, Table(f, ViewOf(s.k), l.t), ViewOf(s'.k), s')
  {
    ControlStep(f, s, l, s');
    if l.Do? {
      UrgentDispatch(f, s, l.t);
      PriorityTable(f, s, l.t);
      var v, v', prio := ViewOf(s.k), ViewOf(s'.k), s.k.eff[l.t];
      ActsStrict(f, v, s, l.t, l.op, prio, v', s');
      if l.op.ReadPrio? {
        ReadKeeps(f, v, s, l.t, l.op, v', s');
      } else {
        OtherKeepsReads(f, v, s, l.t, l.op, prio, v', s');
      }
    }
  }

  lemma {:induction false} StrictPath(f: Flavour, c: Sched, ss: seq<Sys>, ls: seq<Label>, i: nat)
    requires Path(f, c, ss, ls) && c != Any && StrictInv(f, ss[0]) && i < |ss|
    ensures StrictInv(f, ss[i])
    decreases i
  {
    if i == 0 {
    } else {
      StrictPath(f, c, ss, ls, i - 1);
      assert StepFrom(f, c, ss, ls, i - 1);
      StrictStep(f, c, ss[i - 1], ls[i - 1], ss[i]);
    }
  }

  lemma StrictRun(f: Flavour, c: Sched, ss: seq<Sys>, ls: seq<Label>, i: nat)
    requires Run(f, c, ss, ls) && c != Any && i < |ss|
    ensures StrictInv(f, ss[i])
  {
    ControlInit(f);
    StrictPath(f, c, ss, ls, i);
  }

  // ---------- Main results ----------

  /** TMID never runs while THI is blocked on SHI, whenever the timers fire. */
  lemma NoInversion(f: Flavour, c: Sched, ss: seq<Sys>, ls: seq<Label>, i: nat)
    requires Run(f, c, ss, ls) && c != Any && i < |ls|
    requires THI in ss[i].k.waits && ls[i].Do?
    ensures ls[i].t != TMID
    ensures ls[i].t == TLO ==> ss[i].asleep
  {
    StrictRun(f, c, ss, ls, i);
    assert StepFrom(f, c, ss, ls, i);
    StrictStep(f, c, ss[i], ls[i], ss[i + 1]);
    BlockedHiFacts(f, ViewOf(ss[i].k), ss[i]);
  }

  /** While THI waits, Task_1 holds SHI and TMID still waits for its release or has just got it. */
  lemma BlockedHiFacts(f: Flavour, v: View, s: Sys)
    requires Shape(f, v, s) && StrictShape(v, s) && !v.waits.hi.No?
    ensures v.waits.hi == On(SHI) && v.shi == By(TASK1) && v.waits.one.No?
    ensures s.pc.one.Nap? || s.pc.one.Read1? || s.pc.one.PostMid? || s.pc.one.Work1? || s.pc.one.UnlockHi?
    ensures Ready(v, s, TASK1) || (s.asleep && !Ready(v, s, TMID))
  {
  }

  /**
    The reads of a run are 40, 50, 50, 40, 50, 50, ... and each finished iteration made
    exactly three: inheritance is undone as soon as SHI is released, while SLO is still held.
  */
  lemma ReadsAre405050(c: Sched, ss: seq<Sys>, ls: seq<Label>, i: nat)
    requires Run(Rtems, c, ss, ls) && c != Any && i < |ss|
    ensures var r := ss[i].log.readings;
            && |r| == 3 * ss[i].log.cycles.one + ReadsDone(ss[i].pc.one)
            && forall j :: 0 <= j < |r| ==> r[j] == if j % 3 == 0 then 40 else 50
  {
    StrictRun(Rtems, c, ss, ls, i);
  }

  /** Task_1 gets SHI without waiting. */
  lemma LockHiNeverBlocks(f: Flavour, c: Sched, ss: seq<Sys>, ls: seq<Label>, i: nat)
    requires Run(f, c, ss, ls) && c != Any && i < |ls| && ls[i] == Do(TASK1, Lock(SHI))
    ensures SHI !in ss[i].k.owner && SHI in ss[i + 1].k.owner && ss[i + 1].k.owner[SHI] == TASK1
    ensures TASK1 !in ss[i + 1].k.waits
  {
    StrictRun(f, c, ss, ls, i);
    assert StepFrom(f, c, ss, ls, i);
    StrictStep(f, c, ss[i], ls[i], ss[i + 1]);
    FreeForOne(f, ViewOf(ss[i].k), ss[i]);
  }

  lemma FreeForOne(f: Flavour, v: View, s: Sys)
    requires Shape(f, v, s) && StrictShape(v, s) && Ready(v, s, TASK1) && OpAt(TASK1, s.pc.one) == Lock(SHI)
    ensures v.shi.Free?
  {
  }

  /** The only waits ever reached, and the priority of TLO while Task_1 waits for it. */
  lemma BlockingEdges(f: Flavour, c: Sched, ss: seq<Sys>, ls: seq<Label>, i: nat, u: Task, t: Task)
    requires Run(f, c, ss, ls) && c != Any && i < |ss| && Blocks(ss[i].k, u, t)
    ensures || (u == THI && t == TASK1 && ss[i].k.waits[u] == SHI)
            || (u == TLO && t == TASK1 && ss[i].k.waits[u] == SLO)
            || (u == TASK1 && t == TLO && ss[i].k.waits[u] == SLO
                && TLO in ss[i].k.eff && ss[i].k.eff[TLO] == BaseOf(f, TASK1))
  {
    var s := ss[i];
    StrictRun(f, c, ss, ls, i);
    BlocksView(s.k, u, t);
    BlockingPairs(f, ViewOf(s.k), s, u, t);
    PriorityTable(f, s, TLO);
    EdgeMutex(f, ViewOf(s.k), s, u, t);
  }

  lemma EdgeMutex(f: Flavour, v: View, s: Sys, u: Task, t: Task)
    requires Shape(f, v, s) && StrictShape(v, s) && InView(v, u, t)
    ensures v.waits.At(u) == On(if u == THI then SHI else SLO) && (u == TASK1 ==> t == TLO && v.slo == By(TLO))
  {
  }

  lemma PostPoint(f: Flavour, v: View, s: Sys, r: Token)
    requires Shape(f, v, s) && StrictShape(v, s) && TurnShape(s)
    requires OpAt(TASK1, s.pc.one) == Post(r) && r != RLO
    ensures s.parked.At(Consumer(r)) && s.log.cycles.At(Consumer(r)) == s.log.cycles.one
    ensures var n := s.tokens.At(r); n.value == 0 && n.posts == n.takes == s.log.cycles.one
  {
  }

  lemma PostEffect(f: Flavour, v: View, s: Sys, r: Token, prio: int, v': View, s': Sys)
    requires Acts(f, v, s, TASK1, Post(r), prio, v', s')
    ensures s'.tokens.At(r) == Posted(f, s.tokens.At(r), s.parked.At(Consumer(r)))
  {
  }

  /**
    Posts to RHI and RMID find value 0 and are taken at once; between them THI and TMID
    complete exactly one turn for each iteration of Task_1.
  */
  lemma ReleasesNotLost(f: Flavour, c: Sched, ss: seq<Sys>, ls: seq<Label>, i: nat, r: Token)
    requires Run(f, c, ss, ls) && c != Any && i < |ls| && ls[i] == Do(TASK1, Post(r)) && r != RLO
    ensures var n, n' := ss[i].tokens.At(r), ss[i + 1].tokens.At(r);
            && n.value == 0 && n.posts == n.takes == ss[i].log.cycles.one
            && n'.value == 0 && n'.posts == n'.takes == ss[i].log.cycles.one + 1
            && ss[i].log.cycles.At(Consumer(r)) == ss[i].log.cycles.one
  {
    StrictRun(f, c, ss, ls, i);
    TurnsRun(f, c, ss, ls, i);
    assert StepFrom(f, c, ss, ls, i);
    ControlStep(f, ss[i], ls[i], ss[i + 1]);
    PostPoint(f, ViewOf(ss[i].k), ss[i], r);
    PostEffect(f, ViewOf(ss[i].k), ss[i], r, ss[i].k.eff[TASK1], ViewOf(ss[i + 1].k), ss[i + 1]);
  }

  lemma OneTurnPerIteration(f: Flavour, c: Sched, ss: seq<Sys>, ls: seq<Label>, i: nat)
    requires Run(f, c, ss, ls) && c != Any && i < |ss|
    requires ss[i].pc.one == LockLo
    ensures ss[i].log.cycles.hi == ss[i].log.cycles.one && ss[i].log.cycles.mid == ss[i].log.cycles.one
    ensures ss[i].parked.hi && ss[i].parked.mid
  {
    StrictRun(f, c, ss, ls, i);
    TurnsRun(f, c, ss, ls, i);
  }

  // ---------- Bounded blocking ----------

  lemma SpinCounts(sp: Spin)
    requires sp != Outer(0)
    ensures SpinLeft(SpinNext(sp)) == SpinLeft(sp) - 1
  {
  }

  /** Task_1 steps left until it releases SHI, once it is past its nap. */
  function StepsToRelease(s: Sys): nat {
    match s.pc.one
    case Read1 => SpinLeft(s.spin.one) + 3
    case PostMid => SpinLeft(s.spin.one) + 2
    case Work1 => SpinLeft(s.spin.one) + 1
    case UnlockHi => 1
    case _ => 0
  }

  predicate HiBlockedAwake(s: Sys) {
    ViewOf(s.k).waits.hi == On(SHI) && !s.asleep && !s.pc.one.Nap?
  }

  /** From its wakeup Task_1 needs a fixed number of steps: one whole block_delay and three more. */
  lemma StepsFromWakeup(f: Flavour, s: Sys)
    requires Control(f, s) && (s.pc.one.Read1? || s.pc.one.PostMid?)
    ensures StepsToRelease(s) == DELAY * (INNER + 2) + (if s.pc.one.Read1? then 4 else 3)
  {
  }

  lemma BlockedStep(f: Flavour, c: Sched, s: Sys, l: Label, s': Sys)
    requires StrictInv(f, s) && c != Any && Step(f, c, s, l, s') && HiBlockedAwake(s)
    ensures l.Do? && l.t == TASK1 && StrictInv(f, s')
    ensures StepsToRelease(s) > 1 ==> HiBlockedAwake(s') && StepsToRelease(s') == StepsToRelease(s) - 1
    ensures StepsToRelease(s) <= 1 ==> HolderOf(s'.k, SHI) == By(THI) && Ready(ViewOf(s'.k), s', THI)
    ensures StepsToRelease(s) >= 1
  {
    StrictStep(f, c, s, l, s');
    BlockedHiFacts(f, ViewOf(s.k), s);
    BlockedWho(f, ViewOf(s.k), s, l.t);
    if s.pc.one.UnlockHi? {
      ReleaseActs(f, ViewOf(s.k), s, l.op, Table(f, ViewOf(s.k), l.t), ViewOf(s'.k), s');
    } else if s.pc.one.Work1? {
      BlockedWorks(f, ViewOf(s.k), s, l.op, Table(f, ViewOf(s.k), l.t), ViewOf(s'.k), s');
    } else {
      BlockedActs(f, ViewOf(s.k), s, l.op, Table(f, ViewOf(s.k), l.t), ViewOf(s'.k), s');
    }
  }

  /** Only Task_1 may run, and it stands at one of the statements counted. */
  lemma BlockedWho(f: Flavour, v: View, s: Sys, t: Task)
    requires Shape(f, v, s) && StrictShape(v, s) && Ready(v, s, t) && Dispatch(v, s, t)
    requires v.waits.hi == On(SHI) && !s.asleep && !s.pc.one.Nap?
    ensures t == TASK1 && v.shi == By(TASK1) && StepsToRelease(s) >= 1
    ensures s.pc.one.Read1? || s.pc.one.PostMid? || s.pc.one.Work1? || s.pc.one.UnlockHi?
  {
  }

  /** Up to its release of SHI each statement of Task_1 takes one step off. */
  lemma BlockedActs(f: Flavour, v: View, s: Sys, op: Op, prio: int, v': View, s': Sys)
    requires Shape(f, v, s) && Acts(f, v, s, TASK1, op, prio, v', s') && v.waits.hi == On(SHI) && !s.asleep
    requires s.pc.one.Read1? || s.pc.one.PostMid?
    ensures v'.waits.hi == On(SHI) && !s'.asleep && !s'.pc.one.Nap? && StepsToRelease(s') == StepsToRelease(s) - 1
  {
  }

  lemma BlockedWorks(f: Flavour, v: View, s: Sys, op: Op, prio: int, v': View, s': Sys)
    requires Shape(f, v, s) && Acts(f, v, s, TASK1, op, prio, v', s') && v.waits.hi == On(SHI) && !s.asleep
    requires s.pc.one.Work1?
    ensures v'.waits.hi == On(SHI) && !s'.asleep && !s'.pc.one.Nap? && StepsToRelease(s') == StepsToRelease(s) - 1
  {
  }

  lemma ReleaseActs(f: Flavour, v: View, s: Sys, op: Op, prio: int, v': View, s': Sys)
    requires Shape(f, v, s) && Acts(f, v, s, TASK1, op, prio, v', s') && v.waits.hi == On(SHI) && s.pc.one.UnlockHi?
    ensures v'.shi == By(THI) && Ready(v', s', THI)
  {
  }

  /** After `i` such steps, each of Task_1, `i` fewer are left. */
  lemma {:induction false} BlockedFor(f: Flavour, c: Sched, ss: seq<Sys>, ls: seq<Label>, i: nat)
    requires Path(f, c, ss, ls) && c != Any && StrictInv(f, ss[0]) && HiBlockedAwake(ss[0])
    requires i <= |ls| && i < StepsToRelease(ss[0])
    ensures StrictInv(f, ss[i]) && HiBlockedAwake(ss[i]) && StepsToRelease(ss[i]) == StepsToRelease(ss[0]) - i
    decreases i
  {
    if i == 0 {
    } else {
      BlockedFor(f, c, ss, ls, i - 1);
      assert StepFrom(f, c, ss, ls, i - 1);
      BlockedStep(f, c, ss[i - 1], ls[i - 1], ss[i]);
    }
  }

  /**
    Once THI is blocked on SHI and Task_1 is past its nap, only Task_1 runs, and THI owns
    SHI after exactly StepsToRelease steps, whatever the timers do.
  */
  lemma BoundedBlocking(f: Flavour, c: Sched, ss: seq<Sys>, ls: seq<Label>, i: nat)
    requires Path(f, c, ss, ls) && c != Any && StrictInv(f, ss[0]) && HiBlockedAwake(ss[0])
    requires i < |ls| && i < StepsToRelease(ss[0])
    ensures ls[i].Do? && ls[i].t == TASK1
    ensures i + 1 == StepsToRelease(ss[0]) ==>
              HolderOf(ss[i + 1].k, SHI) == By(THI) && Ready(ViewOf(ss[i + 1].k), ss[i + 1], THI)
  {
    BlockedFor(f, c, ss, ls, i);
    assert StepFrom(f, c, ss, ls, i);
    BlockedStep(f, c, ss[i], ls[i], ss[i + 1]);
  }

  lemma SpinStep(f: Flavour, v: View, s: Sys, t: Task, op: Op, prio: int, v': View, s': Sys, u: Task)
    requires Acts(f, v, s, t, op, prio, v', s') && SpinLeft(s.spin.At(u)) <= SpinLeft(Outer(DELAY))
    ensures SpinLeft(s'.spin.At(u)) <= SpinLeft(Outer(DELAY))
  {
    if op.Delay? {
      SpinWithin(f, s, t, u);
    }
  }

  lemma SpinWithin(f: Flavour, s: Sys, t: Task, u: Task)
    requires SpinLeft(s.spin.At(u)) <= SpinLeft(Outer(DELAY))
    ensures SpinLeft(DelayStep(f, s, t).spin.At(u)) <= SpinLeft(Outer(DELAY))
  {
    if s.spin.At(t) != Outer(0) {
      SpinCounts(s.spin.At(t));
    }
  }

  /** No counting loop ever has more to do than a whole block_delay. */
  lemma {:induction false} SpinBound(f: Flavour, c: Sched, ss: seq<Sys>, ls: seq<Label>, i: nat, u: Task)
    requires Run(f, c, ss, ls) && i < |ss|
    ensures SpinLeft(ss[i].spin.At(u)) <= SpinLeft(Outer(DELAY))
    decreases i
  {
    if i == 0 {
    } else {
      SpinBound(f, c, ss, ls, i - 1, u);
      StepActs(f, c, ss, ls, i - 1);
      var s, l, s' := ss[i - 1], ls[i - 1], ss[i];
      if l.Do? {
        SpinStep(f, ViewOf(s.k), s, l.t, l.op, s.k.eff[l.t], ViewOf(s'.k), s', u);
      }
    }
  }

  /** In every run, from any state where THI is blocked on SHI and Task_1 past its nap. */
  lemma HiServedInTime(f: Flavour, c: Sched, ss: seq<Sys>, ls: seq<Label>, i: nat)
    requires Run(f, c, ss, ls) && c != Any && i < |ss| && HiBlockedAwake(ss[i])
    requires i + StepsToRelease(ss[i]) <= |ls|
    ensures 1 <= StepsToRelease(ss[i]) <= DELAY * (INNER + 2) + 4
    ensures forall j :: i <= j < i + StepsToRelease(ss[i]) ==> ls[j].Do? && ls[j].t == TASK1
    ensures var s := ss[i + StepsToRelease(ss[i])]; HolderOf(s.k, SHI) == By(THI) && Ready(ViewOf(s.k), s, THI)
  {
    StrictRun(f, c, ss, ls, i);
    BlockedHiFacts(f, ViewOf(ss[i].k), ss[i]);
    SpinBound(f, c, ss, ls, i, TASK1);
    Suffix(f, c, ss, ls, i);
    var n := StepsToRelease(ss[i]);
    BoundedBlocking(f, c, ss[i..], ls[i..], n - 1);
    forall j | i <= j < i + n ensures ls[j].Do? && ls[j].t == TASK1 {
      BoundedBlocking(f, c, ss[i..], ls[i..], j - i);
    }
  }

  lemma Suffix(f: Flavour, c: Sched, ss: seq<Sys>, ls: seq<Label>, i: nat)
    requires Path(f, c, ss, ls) && i < |ss|
    ensures Path(f, c, ss[i..], ls[i..])
  {
    forall k | 0 <= k < |ls[i..]| ensures StepFrom(f, c, ss[i..], ls[i..], k) {
      assert StepFrom(f, c, ss, ls, i + k);
    }
  }
}
