/**
  Turns of the endless loops, counted: under every scheduler the posts of each release
  semaphore follow Task_1's iterations and the takes follow the turns of the released task.
*/
module Turns {
  import opened Scenario
  import opened AnyScheduler

  function One(b: bool): nat {
    if b then 1 else 0
  }

  /** THI or TLO has taken a token and not yet finished the turn it was released for. */
  predicate GuestBusy(pc: Pc, parked: bool) {
    (pc.Enter? && !parked) || pc.Work? || pc.Leave?
  }

  predicate MidBusy(pc: Pc, parked: bool) {
    pc.Work? && !parked
  }

  /** Task_1 has posted the semaphore in its current iteration. */
  predicate LoPosted(pc: Pc) {
    pc.LockHi? || pc.PostHi? || HiPosted(pc)
  }

  predicate HiPosted(pc: Pc) {
    pc.Nap? || pc.Read1? || pc.PostMid? || MidPosted(pc)
  }

  predicate MidPosted(pc: Pc) {
    pc.Work1? || pc.UnlockHi? || pc.Read2? || pc.Work2? || pc.UnlockLo? || pc.Read3? || pc.Work3? || pc.Rest?
  }

  predicate TakeTurns(s: Sys) {
    && s.tokens.hi.takes == s.log.cycles.hi + One(GuestBusy(s.pc.hi, s.parked.hi))
    && s.tokens.mid.takes == s.log.cycles.mid + One(MidBusy(s.pc.mid, s.parked.mid))
    && s.tokens.lo.takes == s.log.cycles.lo + One(GuestBusy(s.pc.lo, s.parked.lo))
  }

  predicate PostTurns(s: Sys) {
    && s.tokens.hi.posts == s.log.cycles.one + One(HiPosted(s.pc.one))
    && s.tokens.mid.posts == s.log.cycles.one + One(MidPosted(s.pc.one))
    && s.tokens.lo.posts == s.log.cycles.one + One(LoPosted(s.pc.one))
  }

  predicate TurnShape(s: Sys) {
    TakeTurns(s) && PostTurns(s)
  }

  /** A task parked at its semaphore stands right after the statement that parked it. */
  predicate ParkedShape(s: Sys) {
    && (s.parked.hi ==> s.pc.hi.Enter?)
    && (s.parked.mid ==> s.pc.mid.Work?)
    && (s.parked.lo ==> s.pc.lo.Enter?)
  }

  lemma SpinTurns(f: Flavour, v: View, s: Sys, t: Task, op: Op, prio: int, v': View, s': Sys)
    requires TurnShape(s) && Acts(f, v, s, t, op, prio, v', s') && Spins(s, t, op)
    ensures TurnShape(s')
  {
  }

  lemma HiMutexTurns(f: Flavour, v: View, s: Sys, op: Op, prio: int, v': View, s': Sys)
    requires TurnShape(s) && Acts(f, v, s, THI, op, prio, v', s') && (op.Lock? || op.Unlock?)
    ensures TurnShape(s')
  {
  }

  lemma HiTakeTurns(f: Flavour, v: View, s: Sys, op: Op, prio: int, v': View, s': Sys)
    requires TurnShape(s) && Acts(f, v, s, THI, op, prio, v', s') && op.Take?
    ensures TurnShape(s')
  {
  }

  lemma HiWorkTurns(f: Flavour, v: View, s: Sys, op: Op, prio: int, v': View, s': Sys)
    requires TurnShape(s) && Acts(f, v, s, THI, op, prio, v', s') && op.Delay? && !Spins(s, THI, op)
    ensures TurnShape(s')
  {
  }

  lemma LoMutexTurns(f: Flavour, v: View, s: Sys, op: Op, prio: int, v': View, s': Sys)
    requires TurnShape(s) && Acts(f, v, s, TLO, op, prio, v', s') && (op.Lock? || op.Unlock?)
    ensures TurnShape(s')
  {
  }

  lemma LoTakeTurns(f: Flavour, v: View, s: Sys, op: Op, prio: int, v': View, s': Sys)
    requires TurnShape(s) && Acts(f, v, s, TLO, op, prio, v', s') && op.Take?
    ensures TurnShape(s')
  {
  }

  lemma LoWorkTurns(f: Flavour, v: View, s: Sys, op: Op, prio: int, v': View, s': Sys)
    requires TurnShape(s) && Acts(f, v, s, TLO, op, prio, v', s') && op.Delay? && !Spins(s, TLO, op)
    ensures TurnShape(s')
  {
  }

  lemma MidTurns(f: Flavour, v: View, s: Sys, op: Op, prio: int, v': View, s': Sys)
    requires TurnShape(s) && Acts(f, v, s, TMID, op, prio, v', s') && !Spins(s, TMID, op)
    ensures TurnShape(s')
  {
  }

  lemma OnePostTurns(f: Flavour, v: View, s: Sys, op: Op, prio: int, v': View, s': Sys)
    requires ParkedShape(s) && TurnShape(s) && Acts(f, v, s, TASK1, op, prio, v', s')
    requires op == Post(RHI) || op == Post(RMID)
    ensures TurnShape(s')
  {
  }

  lemma OnePostLoTurns(f: Flavour, v: View, s: Sys, op: Op, prio: int, v': View, s': Sys)
    requires ParkedShape(s) && TurnShape(s) && Acts(f, v, s, TASK1, op, prio, v', s')
    requires op == Post(RLO)
    ensures TurnShape(s')
  {
  }

  lemma OneStartTurns(f: Flavour, v: View, s: Sys, op: Op, prio: int, v': View, s': Sys)
    requires StartShape(s.pc) && TurnShape(s) && Acts(f, v, s, TASK1, op, prio, v', s') && !Spins(s, TASK1, op)
    requires op.Start?
    ensures TurnShape(s')
  {
  }

  lemma OneSleepTurns(f: Flavour, v: View, s: Sys, op: Op, prio: int, v': View, s': Sys)
    requires TurnShape(s) && Acts(f, v, s, TASK1, op, prio, v', s') && !Spins(s, TASK1, op)
    requires op.Sleep? || op.ReadPrio?
    ensures TurnShape(s')
  {
  }

  lemma OneMutexTurns(f: Flavour, v: View, s: Sys, op: Op, prio: int, v': View, s': Sys)
    requires TurnShape(s) && Acts(f, v, s, TASK1, op, prio, v', s') && !Spins(s, TASK1, op)
    requires op.Lock? || op.Unlock?
    ensures TurnShape(s')
  {
  }

  lemma OneWorkTurns(f: Flavour, v: View, s: Sys, op: Op, prio: int, v': View, s': Sys)
    requires TurnShape(s) && Acts(f, v, s, TASK1, op, prio, v', s') && !Spins(s, TASK1, op)
    requires op.Delay?
    ensures TurnShape(s')
  {
  }

  lemma ActsTurns(f: Flavour, v: View, s: Sys, t: Task, op: Op, prio: int, v': View, s': Sys)
    requires Shape(f, v, s) && TurnShape(s) && Acts(f, v, s, t, op, prio, v', s')
    ensures TurnShape(s')
  {
    if Spins(s, t, op) {
      SpinTurns(f, v, s, t, op, prio, v', s');
    } else {
      match t
      case THI =>
        if op.Lock? || op.Unlock? { HiMutexTurns(f, v, s, op, prio, v', s'); }
        else if op.Take? { HiTakeTurns(f, v, s, op, prio, v', s'); }
        else { HiWorkTurns(f, v, s, op, prio, v', s'); }
      case TMID => MidTurns(f, v, s, op, prio, v', s');
      case TLO =>
        if op.Lock? || op.Unlock? { LoMutexTurns(f, v, s, op, prio, v', s'); }
        else if op.Take? { LoTakeTurns(f, v, s, op, prio, v', s'); }
        else { LoWorkTurns(f, v, s, op, prio, v', s'); }
      case TASK1 =>
        match op {
          case Post(r) =>
            if r == RLO { OnePostLoTurns(f, v, s, op, prio, v', s'); }
            else { OnePostTurns(f, v, s, op, prio, v', s'); }
          case Start(_) => OneStartTurns(f, v, s, op, prio, v', s');
          case Lock(_) => OneMutexTurns(f, v, s, op, prio, v', s');
          case Unlock(_) => OneMutexTurns(f, v, s, op, prio, v', s');
          case Delay => OneWorkTurns(f, v, s, op, prio, v', s');
          case _ => OneSleepTurns(f, v, s, op, prio, v', s');
        }
    }
  }

  lemma TurnsStep(f: Flavour, c: Sched, ss: seq<Sys>, ls: seq<Label>, i: nat)
    requires Run(f, c, ss, ls) && i < |ls| && TurnShape(ss[i])
    ensures TurnShape(ss[i + 1])
  {
    ControlRun(f, c, ss, ls, i);
    StepActs(f, c, ss, ls, i);
    var s, l, s' := ss[i], ls[i], ss[i + 1];
    if l.Do? {
      ActsTurns(f, ViewOf(s.k), s, l.t, l.op, s.k.eff[l.t], ViewOf(s'.k), s');
    }
  }

  /** The counts hold in every state of every run. */
  lemma {:induction false} TurnsRun(f: Flavour, c: Sched, ss: seq<Sys>, ls: seq<Label>, i: nat)
    requires Run(f, c, ss, ls) && i < |ss|
    ensures TurnShape(ss[i])
    decreases i
  {
    if i == 0 {
    } else {
      TurnsRun(f, c, ss, ls, i - 1);
      TurnsStep(f, c, ss, ls, i - 1);
    }
  }
}
