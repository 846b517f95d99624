/**
  RLO under strict priority when a sleep ends only once no other task is ready: then no post
  is lost.  Without that LostToken has a run that loses one, and says exactly when it happens.
*/
module PatientScheduler {
  import opened Scenario
  import opened AnyScheduler
  import opened Priorities
  import opened Turns
  import opened StrictScheduler

  /** TLO has a token to work on: counted while it is on its way to RLO, or already taken. */
  predicate LoReleased(pc: Pc, parked: bool, value: nat) {
    (pc.AwaitToken? && value == 1) || (pc.Enter? && !parked && value == 0)
  }

  /** TLO is done with its last release. */
  predicate LoIdle(pc: Pc, parked: bool, value: nat) {
    value == 0 && (pc.AwaitToken? || parked)
  }

  /** Where TLO is, by where Task_1 is; `w` is what TLO waits for. */
  predicate LoPhase(one: Pc, asleep: bool, w: Waiting, pc: Pc, parked: bool, value: nat) {
    match one
    case StartHi | StartMid | StartLo => value == 0
    case Settle | PostLo => LoIdle(pc, parked, value)
    case LockLo => LoIdle(pc, parked, value) || (asleep && value == 0 && w.No? && (pc.Work? || pc.Leave?))
    case LockHi | PostHi | Nap => LoReleased(pc, parked, value)
    case Read1 | PostMid => (w == On(SLO) && value == 0) || (asleep && LoReleased(pc, parked, value))
    case Work1 | UnlockHi | Read2 | Work2 | UnlockLo => w == On(SLO) && value == 0
    case _ => w.No? && pc.Work? && value == 0
  }

  predicate PatientShape(v: View, s: Sys) {
    && LoPhase(s.pc.one, s.asleep, v.waits.lo, s.pc.lo, s.parked.lo, s.tokens.lo.value)
    && s.tokens.lo.lost == 0
    && v.waits.one.No?
  }

  predicate PatientActs(f: Flavour, v: View, s: Sys, t: Task, op: Op, prio: int, v': View, s': Sys) {
    PatientShape(v, s) && Shape(f, v, s) && Acts(f, v, s, t, op, prio, v', s') && Dispatch(v, s, t)
  }

  lemma SpinPatient(f: Flavour, v: View, s: Sys, t: Task, op: Op, prio: int, v': View, s': Sys)
    requires PatientActs(f, v, s, t, op, prio, v', s') && Spins(s, t, op)
    ensures PatientShape(v', s')
  {
  }

  lemma HiMutexPatient(f: Flavour, v: View, s: Sys, op: Op, prio: int, v': View, s': Sys)
    requires PatientActs(f, v, s, THI, op, prio, v', s') && (op.Lock? || op.Unlock?)
    ensures PatientShape(v', s')
  {
  }

  lemma HiWorkPatient(f: Flavour, v: View, s: Sys, op: Op, prio: int, v': View, s': Sys)
    requires PatientActs(f, v, s, THI, op, prio, v', s') && !Spins(s, THI, op) && !op.Lock? && !op.Unlock?
    ensures PatientShape(v', s')
  {
  }

  lemma MidPatient(f: Flavour, v: View, s: Sys, op: Op, prio: int, v': View, s': Sys)
    requires PatientActs(f, v, s, TMID, op, prio, v', s') && !Spins(s, TMID, op)
    ensures PatientShape(v', s')
  {
  }

  lemma LoMutexPatient(f: Flavour, v: View, s: Sys, op: Op, prio: int, v': View, s': Sys)
    requires PatientActs(f, v, s, TLO, op, prio, v', s') && (op.Lock? || op.Unlock?)
    ensures PatientShape(v', s')
  {
  }

  lemma LoTakePatient(f: Flavour, v: View, s: Sys, op: Op, prio: int, v': View, s': Sys)
    requires PatientActs(f, v, s, TLO, op, prio, v', s') && op.Take?
    ensures PatientShape(v', s')
  {
  }

  lemma LoWorkPatient(f: Flavour, v: View, s: Sys, op: Op, prio: int, v': View, s': Sys)
    requires PatientActs(f, v, s, TLO, op, prio, v', s') && op.Delay? && !Spins(s, TLO, op)
    ensures PatientShape(v', s')
  {
  }

  lemma OneStartPatient(f: Flavour, v: View, s: Sys, op: Op, prio: int, v': View, s': Sys)
    requires PatientActs(f, v, s, TASK1, op, prio, v', s') && op.Start?
    ensures PatientShape(v', s')
  {
  }

  lemma OnePostHiPatient(f: Flavour, v: View, s: Sys, prio: int, v': View, s': Sys)
    requires PatientActs(f, v, s, TASK1, Post(RHI), prio, v', s')
    ensures PatientShape(v', s')
  {
  }

  lemma OnePostMidPatient(f: Flavour, v: View, s: Sys, prio: int, v': View, s': Sys)
    requires PatientActs(f, v, s, TASK1, Post(RMID), prio, v', s')
    ensures PatientShape(v', s')
  {
  }

  lemma OnePostLoPatient(f: Flavour, v: View, s: Sys, prio: int, v': View, s': Sys)
    requires PatientActs(f, v, s, TASK1, Post(RLO), prio, v', s')
    ensures PatientShape(v', s')
  {
  }

  lemma OneLockPatient(f: Flavour, v: View, s: Sys, op: Op, prio: int, v': View, s': Sys)
    requires PatientActs(f, v, s, TASK1, op, prio, v', s') && op.Lock? && StrictShape(v, s)
    ensures PatientShape(v', s')
  {
  }

  lemma OneUnlockPatient(f: Flavour, v: View, s: Sys, op: Op, prio: int, v': View, s': Sys)
    requires PatientActs(f, v, s, TASK1, op, prio, v', s') && op.Unlock? && StrictShape(v, s)
    ensures PatientShape(v', s')
  {
  }

  lemma OneSleepPatient(f: Flavour, v: View, s: Sys, op: Op, prio: int, v': View, s': Sys)
    requires PatientActs(f, v, s, TASK1, op, prio, v', s') && op.Sleep?
    ensures PatientShape(v', s')
  {
  }

  lemma OneReadPatient(f: Flavour, v: View, s: Sys, op: Op, prio: int, v': View, s': Sys)
    requires PatientActs(f, v, s, TASK1, op, prio, v', s') && op.ReadPrio?
    ensures PatientShape(v', s')
  {
  }

  lemma OneWorkPatient(f: Flavour, v: View, s: Sys, op: Op, prio: int, v': View, s': Sys)
    requires PatientActs(f, v, s, TASK1, op, prio, v', s') && op.Delay? && !Spins(s, TASK1, op)
    ensures PatientShape(v', s')
  {
  }

  lemma ActsPatient(f: Flavour, v: View, s: Sys, t: Task, op: Op, prio: int, v': View, s': Sys)
    requires PatientActs(f, v, s, t, op, prio, v', s') && StrictShape(v, s)
    ensures PatientShape(v', s')
  {
    if Spins(s, t, op) {
      SpinPatient(f, v, s, t, op, prio, v', s');
    } else {
      match t
      case THI =>
        if op.Lock? || op.Unlock? { HiMutexPatient(f, v, s, op, prio, v', s'); }
        else { HiWorkPatient(f, v, s, op, prio, v', s'); }
      case TMID => MidPatient(f, v, s, op, prio, v', s');
      case TLO =>
        if op.Lock? || op.Unlock? { LoMutexPatient(f, v, s, op, prio, v', s'); }
        else if op.Take? { LoTakePatient(f, v, s, op, prio, v', s'); }
        else { LoWorkPatient(f, v, s, op, prio, v', s'); }
      case TASK1 =>
        match op {
          case Start(_) => OneStartPatient(f, v, s, op, prio, v', s');
          case Post(r) =>
            if r == RHI { OnePostHiPatient(f, v, s, prio, v', s'); }
            else if r == RMID { OnePostMidPatient(f, v, s, prio, v', s'); }
            else { OnePostLoPatient(f, v, s, prio, v', s'); }
          case Lock(_) => OneLockPatient(f, v, s, op, prio, v', s');
          case Unlock(_) => OneUnlockPatient(f, v, s, op, prio, v', s');
          case Delay => OneWorkPatient(f, v, s, op, prio, v', s');
          case Sleep => OneSleepPatient(f, v, s, op, prio, v', s');
          case _ => OneReadPatient(f, v, s, op, prio, v', s');
        }
    }
  }

  lemma WakeupPatient(f: Flavour, v: View, s: Sys)
    requires Shape(f, v, s) && PatientShape(v, s) && s.asleep && forall t: Task :: !Ready(v, s, t)
    ensures PatientShape(v, s.(asleep := false))
  {
    assert !Ready(v, s, TLO);
  }

  lemma PatientStep(f: Flavour, s: Sys, l: Label, s': Sys)
    requires StrictInv(f, s) && PatientShape(ViewOf(s.k), s) && Step(f, Patient, s, l, s')
    ensures StrictInv(f, s') && PatientShape(ViewOf(s'.k), s')
  {
    StrictStep(f, Patient, s, l, s');
    if l.Do? {
      ActsPatient(f, ViewOf(s.k), s, l.t, l.op, Table(f, ViewOf(s.k), l.t), ViewOf(s'.k), s');
    } else {
      WakeupPatient(f, ViewOf(s.k), s);
    }
  }

  lemma {:induction false} PatientRun(f: Flavour, ss: seq<Sys>, ls: seq<Label>, i: nat)
    requires Run(f, Patient, ss, ls) && i < |ss|
    ensures StrictInv(f, ss[i]) && PatientShape(ViewOf(ss[i].k), ss[i])
    decreases i
  {
    if i == 0 {
      StrictRun(f, Patient, ss, ls, 0);
    } else {
      PatientRun(f, ss, ls, i - 1);
      assert StepFrom(f, Patient, ss, ls, i - 1);
      PatientStep(f, ss[i - 1], ls[i - 1], ss[i]);
    }
  }

  lemma LoPostPoint(f: Flavour, v: View, s: Sys)
    requires Shape(f, v, s) && PatientShape(v, s) && TurnShape(s) && s.pc.one == PostLo
    ensures var n := s.tokens.lo; n.value == 0 && n.posts == n.takes == s.log.cycles.one
    ensures s.log.cycles.lo == s.log.cycles.one
  {
  }

  /** Every post to RLO finds value 0, and TLO has completed one turn per earlier iteration. */
  lemma LoReleasesNotLost(f: Flavour, ss: seq<Sys>, ls: seq<Label>, i: nat)
    requires Run(f, Patient, ss, ls) && i < |ls| && ls[i] == Do(TASK1, Post(RLO))
    ensures var n := ss[i].tokens.lo; n.value == 0 && n.lost == 0 && n.posts == n.takes == ss[i].log.cycles.one
    ensures ss[i].log.cycles.lo == ss[i].log.cycles.one
  {
    PatientRun(f, ss, ls, i);
    TurnsRun(f, Patient, ss, ls, i);
    assert StepFrom(f, Patient, ss, ls, i);
    ControlStep(f, ss[i], ls[i], ss[i + 1]);
    OnlyPostLo(ss[i].pc.one);
    LoPostPoint(f, ViewOf(ss[i].k), ss[i]);
  }

  lemma OnlyPostLo(pc: Pc)
    ensures OpAt(TASK1, pc) == Post(RLO) ==> pc == PostLo
  {
  }

  // ---------- The head of the loop ----------

  predicate Starting(pc: Pc) {
    pc.StartHi? || pc.StartMid? || pc.StartLo? || pc.Settle?
  }

  /** Task_1 is awake at the head of its loop after a sleep. */
  predicate AtHead(f: Flavour, s: Sys) {
    s.pc.one.LockLo? && !s.asleep && (f.Posix? || s.log.cycles.one > 0)
  }

  predicate HeadShape(f: Flavour, s: Sys) {
    (Starting(s.pc.one) ==> s.log.cycles.one == 0) && (AtHead(f, s) ==> s.parked.lo)
  }

  lemma GuestKeepsHead(f: Flavour, v: View, s: Sys, t: Task, op: Op, prio: int, v': View, s': Sys)
    requires HeadShape(f, s) && Acts(f, v, s, t, op, prio, v', s') && t != TASK1
    ensures HeadShape(f, s')
  {
  }

  lemma OneKeepsHead(f: Flavour, v: View, s: Sys, op: Op, prio: int, v': View, s': Sys)
    requires HeadShape(f, s) && Acts(f, v, s, TASK1, op, prio, v', s')
    ensures HeadShape(f, s')
  {
  }

  lemma WakeupKeepsHead(f: Flavour, v: View, s: Sys)
    requires Shape(f, v, s) && PatientShape(v, s) && HeadShape(f, s) && forall t: Task :: !Ready(v, s, t)
    ensures HeadShape(f, s.(asleep := false))
  {
    assert !Ready(v, s, TLO);
  }

  lemma HeadStep(f: Flavour, ss: seq<Sys>, ls: seq<Label>, i: nat)
    requires Run(f, Patient, ss, ls) && i < |ls| && HeadShape(f, ss[i])
    ensures HeadShape(f, ss[i + 1])
  {
    var s, l, s' := ss[i], ls[i], ss[i + 1];
    StepActs(f, Patient, ss, ls, i);
    if l == Timer {
      PatientRun(f, ss, ls, i);
      assert StepFrom(f, Patient, ss, ls, i);
      WakeupKeepsHead(f, ViewOf(s.k), s);
    } else if l.t == TASK1 {
      OneKeepsHead(f, ViewOf(s.k), s, l.op, s.k.eff[l.t], ViewOf(s'.k), s');
    } else {
      GuestKeepsHead(f, ViewOf(s.k), s, l.t, l.op, s.k.eff[l.t], ViewOf(s'.k), s');
    }
  }

  lemma {:induction false} HeadRun(f: Flavour, ss: seq<Sys>, ls: seq<Label>, i: nat)
    requires Run(f, Patient, ss, ls) && i < |ss|
    ensures HeadShape(f, ss[i])
    decreases i
  {
    if i == 0 {
    } else {
      HeadRun(f, ss, ls, i - 1);
      HeadStep(f, ss, ls, i - 1);
    }
  }

  /**
    When Task_1 comes to the head of its loop all other tasks wait for their release: in the
    POSIX program from the first time on, because it sleeps once before it starts the loop, and
    in the RTEMS program from the second.
  */
  lemma AllParkedAtHead(f: Flavour, ss: seq<Sys>, ls: seq<Label>, i: nat)
    requires Run(f, Patient, ss, ls) && i < |ss|
    requires ss[i].pc.one.LockLo? && !ss[i].asleep && (f.Posix? || ss[i].log.cycles.one > 0)
    ensures ss[i].parked.hi && ss[i].parked.mid && ss[i].parked.lo
  {
    HeadRun(f, ss, ls, i);
    OneTurnPerIteration(f, Patient, ss, ls, i);
  }
}
