/**
  How many statements the four tasks execute: exactly, for each turn of each of them in any
  run; how long they can go on without Task_1 finishing an iteration, under every scheduler;
  and within how many statements each of them finishes a turn.
*/
module Recurrence {
  import opened Scenario
  import opened AnyScheduler
  import opened Turns
  import opened StrictScheduler
  import opened PatientScheduler

  // ---------- What a statement is worth ----------

  /** The loop tests of one block_delay. */
  const TESTS: nat := 10_000_201

  lemma TestsOfDelay()
    ensures SpinLeft(Outer(DELAY)) == TESTS
  {
  }

  /** How far THI or TLO is into a turn, of TESTS + 3 statements. */
  function GuestAt(pc: Pc, spin: Spin): int {
    match pc
    case Enter => 1
    case Work => 2 + TESTS - SpinLeft(spin)
    case Leave => 2 + TESTS
    case _ => 0
  }

  /** How far TMID is into a turn, of TESTS + 1 statements. */
  function MidAt(pc: Pc, spin: Spin): int {
    match pc
    case Work => 1 + TESTS - SpinLeft(spin)
    case _ => 0
  }

  /** How far Task_1 is, the start included; a sleep counts for two, itself and its end. */
  function OneAt(f: Flavour, pc: Pc, spin: Spin): int {
    var head, read := if f.Rtems? then 3 else 5, if f.Rtems? then 1 else 0;
    match pc
    case StartHi => 0
    case StartMid => 1
    case StartLo => 2
    case Settle => 3
    case LockLo => head
    case PostLo => head + 1
    case LockHi => head + 2
    case PostHi => head + 3
    case Nap => head + 4
    case Read1 => head + 6
    case PostMid => head + 6 + read
    case Work1 => head + 7 + read + TESTS - SpinLeft(spin)
    case UnlockHi => head + 7 + read + TESTS
    case Read2 => head + 8 + read + TESTS
    case Work2 => head + 8 + 2 * read + 2 * TESTS - SpinLeft(spin)
    case UnlockLo => head + 8 + 2 * read + 2 * TESTS
    case Read3 => head + 9 + 2 * read + 2 * TESTS
    case Work3 => head + 9 + 3 * read + 3 * TESTS - SpinLeft(spin)
    case Rest => head + 9 + 3 * read + 3 * TESTS
    case _ => 0
  }

  /** The statements behind each task, and behind the timer if Task_1 is awake. */
  function HiBehind(s: Sys): int {
    (TESTS + 3) * s.log.cycles.hi + GuestAt(s.pc.hi, s.spin.hi)
  }

  function MidBehind(s: Sys): int {
    (TESTS + 1) * s.log.cycles.mid + MidAt(s.pc.mid, s.spin.mid)
  }

  function OneBehind(f: Flavour, s: Sys): int {
    (if f.Rtems? then (3 * TESTS + 14) * s.log.cycles.one else (3 * TESTS + 11) * s.log.cycles.one)
    + OneAt(f, s.pc.one, s.spin.one) - if s.asleep then 1 else 0
  }

  function LoBehind(s: Sys): int {
    (TESTS + 3) * s.log.cycles.lo + GuestAt(s.pc.lo, s.spin.lo)
  }

  function BehindOf(f: Flavour, s: Sys, t: Task): int {
    match t
    case THI => HiBehind(s)
    case TMID => MidBehind(s)
    case TASK1 => OneBehind(f, s)
    case TLO => LoBehind(s)
  }

  function Behind(f: Flavour, s: Sys): int {
    BehindOf(f, s, THI) + BehindOf(f, s, TMID) + BehindOf(f, s, TASK1) + BehindOf(f, s, TLO)
  }

  // ---------- Every step counts ----------

  predicate SpinsWithin(s: Sys) {
    && SpinLeft(s.spin.hi) <= TESTS && SpinLeft(s.spin.mid) <= TESTS
    && SpinLeft(s.spin.one) <= TESTS && SpinLeft(s.spin.lo) <= TESTS
  }

  /** Outside block_delay no counting loop has begun, and each program has its own statements. */
  predicate Clocked(f: Flavour, s: Sys) {
    && StartShape(s.pc)
    && (s.pc.hi.Work? || s.spin.hi == Outer(DELAY))
    && (s.pc.mid.Work? || s.spin.mid == Outer(DELAY))
    && (s.pc.lo.Work? || s.spin.lo == Outer(DELAY))
    && (s.pc.one.Work1? || s.pc.one.Work2? || s.pc.one.Work3? || s.spin.one == Outer(DELAY))
    && (f.Rtems? ==> !s.pc.one.Settle?)
    && (f.Posix? ==> !(s.pc.one.Read1? || s.pc.one.Read2? || s.pc.one.Read3?))
  }

  lemma ShapeClocked(f: Flavour, v: View, s: Sys)
    requires Shape(f, v, s)
    ensures Clocked(f, s)
  {
  }

  lemma GuestStays(f: Flavour, v: View, s: Sys, t: Task, op: Op, prio: int, v': View, s': Sys)
    requires Acts(f, v, s, t, op, prio, v', s') && t != TASK1
    ensures forall u :: u != t ==> s'.pc.At(u) == s.pc.At(u) && s'.spin.At(u) == s.spin.At(u)
    ensures forall u :: u != t ==> s'.log.cycles.At(u) == s.log.cycles.At(u)
    ensures s'.asleep == s.asleep
  {
  }

  /** A task's statements count by where it stands. */
  lemma StandingStays(f: Flavour, s: Sys, s': Sys, u: Task)
    requires s'.pc.At(u) == s.pc.At(u) && s'.spin.At(u) == s.spin.At(u) && s'.asleep == s.asleep
    requires s'.log.cycles.At(u) == s.log.cycles.At(u)
    ensures BehindOf(f, s', u) == BehindOf(f, s, u)
  {
  }

  lemma PostStays(f: Flavour, v: View, s: Sys, op: Op, prio: int, v': View, s': Sys, u: Task)
    requires Acts(f, v, s, TASK1, op, prio, v', s') && u != TASK1 && op.Post?
    ensures BehindOf(f, s', u) == BehindOf(f, s, u)
  {
  }

  lemma OneStays(f: Flavour, v: View, s: Sys, op: Op, prio: int, v': View, s': Sys, u: Task)
    requires Acts(f, v, s, TASK1, op, prio, v', s') && u != TASK1 && !op.Start? && !op.Post?
    ensures BehindOf(f, s', u) == BehindOf(f, s, u)
  {
  }

  lemma StartStays(f: Flavour, v: View, s: Sys, op: Op, prio: int, v': View, s': Sys, u: Task)
    requires Clocked(f, s) && Acts(f, v, s, TASK1, op, prio, v', s') && op.Start? && u != TASK1
    ensures BehindOf(f, s', u) == BehindOf(f, s, u)
  {
  }

  lemma SpinRises(f: Flavour, v: View, s: Sys, t: Task, op: Op, prio: int, v': View, s': Sys)
    requires Acts(f, v, s, t, op, prio, v', s') && Spins(s, t, op)
    ensures BehindOf(f, s', t) == BehindOf(f, s, t) + 1
  {
    SpinCounts(s.spin.At(t));
  }

  lemma HiRises(f: Flavour, v: View, s: Sys, op: Op, prio: int, v': View, s': Sys)
    requires Clocked(f, s) && Acts(f, v, s, THI, op, prio, v', s') && !Spins(s, THI, op)
    ensures BehindOf(f, s', THI) == BehindOf(f, s, THI) + 1
  {
  }

  lemma MidRises(f: Flavour, v: View, s: Sys, op: Op, prio: int, v': View, s': Sys)
    requires Clocked(f, s) && Acts(f, v, s, TMID, op, prio, v', s') && !Spins(s, TMID, op)
    ensures BehindOf(f, s', TMID) == BehindOf(f, s, TMID) + 1
  {
  }

  lemma LoRises(f: Flavour, v: View, s: Sys, op: Op, prio: int, v': View, s': Sys)
    requires Clocked(f, s) && Acts(f, v, s, TLO, op, prio, v', s') && !Spins(s, TLO, op)
    ensures BehindOf(f, s', TLO) == BehindOf(f, s, TLO) + 1
  {
  }

  lemma OneMutexRises(f: Flavour, v: View, s: Sys, op: Op, prio: int, v': View, s': Sys)
    requires Clocked(f, s) && Acts(f, v, s, TASK1, op, prio, v', s') && (op.Lock? || op.Unlock?)
    ensures BehindOf(f, s', TASK1) == BehindOf(f, s, TASK1) + 1
  {
  }

  lemma OneWorkRises(f: Flavour, v: View, s: Sys, op: Op, prio: int, v': View, s': Sys)
    requires Clocked(f, s) && Acts(f, v, s, TASK1, op, prio, v', s') && op.Delay? && !Spins(s, TASK1, op)
    ensures BehindOf(f, s', TASK1) == BehindOf(f, s, TASK1) + 1
  {
  }

  lemma OneSleepRises(f: Flavour, v: View, s: Sys, op: Op, prio: int, v': View, s': Sys)
    requires Clocked(f, s) && Acts(f, v, s, TASK1, op, prio, v', s') && (op.Sleep? || op.ReadPrio?)
    ensures BehindOf(f, s', TASK1) == BehindOf(f, s, TASK1) + 1
  {
  }

  lemma OneStartRises(f: Flavour, v: View, s: Sys, op: Op, prio: int, v': View, s': Sys)
    requires Clocked(f, s) && Acts(f, v, s, TASK1, op, prio, v', s') && op.Start?
    ensures BehindOf(f, s', TASK1) == BehindOf(f, s, TASK1) + 1
  {
  }

  lemma OnePostRises(f: Flavour, v: View, s: Sys, op: Op, prio: int, v': View, s': Sys)
    requires Clocked(f, s) && Acts(f, v, s, TASK1, op, prio, v', s') && op.Post?
    ensures BehindOf(f, s', TASK1) == BehindOf(f, s, TASK1) + 1
  {
  }

  lemma OneRises(f: Flavour, v: View, s: Sys, op: Op, prio: int, v': View, s': Sys)
    requires Clocked(f, s) && Acts(f, v, s, TASK1, op, prio, v', s') && !Spins(s, TASK1, op)
    ensures BehindOf(f, s', TASK1) == BehindOf(f, s, TASK1) + 1
  {
    match op
    case Lock(_) => OneMutexRises(f, v, s, op, prio, v', s');
    case Unlock(_) => OneMutexRises(f, v, s, op, prio, v', s');
    case Delay => OneWorkRises(f, v, s, op, prio, v', s');
    case Start(_) => OneStartRises(f, v, s, op, prio, v', s');
    case Post(_) => OnePostRises(f, v, s, op, prio, v', s');
    case _ => OneSleepRises(f, v, s, op, prio, v', s');
  }

  predicate Raised(f: Flavour, s: Sys, t: Task, s': Sys) {
    && BehindOf(f, s', t) == BehindOf(f, s, t) + 1
    && forall u: Task :: u != t ==> BehindOf(f, s', u) == BehindOf(f, s, u)
  }

  lemma RaisedAll(f: Flavour, s: Sys, t: Task, s': Sys)
    requires Raised(f, s, t, s')
    ensures Behind(f, s') == Behind(f, s) + 1
  {
  }

  lemma ActsRaise(f: Flavour, v: View, s: Sys, t: Task, op: Op, prio: int, v': View, s': Sys)
    requires Clocked(f, s) && Acts(f, v, s, t, op, prio, v', s')
    ensures Raised(f, s, t, s')
  {
    forall u: Task | u != t ensures BehindOf(f, s', u) == BehindOf(f, s, u) {
      if t != TASK1 {
        GuestStays(f, v, s, t, op, prio, v', s');
        StandingStays(f, s, s', u);
      } else if op.Start? {
        StartStays(f, v, s, op, prio, v', s', u);
      } else if op.Post? {
        PostStays(f, v, s, op, prio, v', s', u);
      } else {
        OneStays(f, v, s, op, prio, v', s', u);
      }
    }
    if Spins(s, t, op) {
      SpinRises(f, v, s, t, op, prio, v', s');
    } else {
      match t
      case THI => HiRises(f, v, s, op, prio, v', s');
      case TMID => MidRises(f, v, s, op, prio, v', s');
      case TASK1 => OneRises(f, v, s, op, prio, v', s');
      case TLO => LoRises(f, v, s, op, prio, v', s');
    }
  }

  predicate LostWithin(a: Tokens, b: Tokens) {
    a.hi.lost <= b.hi.lost && a.mid.lost <= b.mid.lost && a.lo.lost <= b.lo.lost
  }

  lemma LostGrows(f: Flavour, v: View, s: Sys, t: Task, op: Op, prio: int, v': View, s': Sys)
    requires Acts(f, v, s, t, op, prio, v', s')
    ensures LostWithin(s.tokens, s'.tokens)
  {
  }

  lemma StateFacts(f: Flavour, c: Sched, ss: seq<Sys>, ls: seq<Label>, i: nat)
    requires Run(f, c, ss, ls) && i < |ss|
    ensures StateShape(f, ss[i])
  {
    ControlRun(f, c, ss, ls, i);
    TurnsRun(f, c, ss, ls, i);
    TestsOfDelay();
    SpinBound(f, c, ss, ls, i, THI);
    SpinBound(f, c, ss, ls, i, TMID);
    SpinBound(f, c, ss, ls, i, TASK1);
    SpinBound(f, c, ss, ls, i, TLO);
  }

  /** The task a step counts for; the end of its sleep counts for Task_1. */
  function Whose(l: Label): Task {
    if l.Do? then l.t else TASK1
  }

  lemma StepRaises(f: Flavour, c: Sched, ss: seq<Sys>, ls: seq<Label>, i: nat)
    requires Run(f, c, ss, ls) && i < |ls|
    ensures Raised(f, ss[i], Whose(ls[i]), ss[i + 1])
  {
    var s, l, s' := ss[i], ls[i], ss[i + 1];
    StepActs(f, c, ss, ls, i);
    if l.Do? {
      ControlRun(f, c, ss, ls, i);
      ShapeClocked(f, ViewOf(s.k), s);
      ActsRaise(f, ViewOf(s.k), s, l.t, l.op, s.k.eff[l.t], ViewOf(s'.k), s');
    } else {
      assert StepFrom(f, c, ss, ls, i);
      assert s.asleep && s' == s.(asleep := false);
    }
  }

  /** Each step of any run, the timer's too, is one more statement behind. */
  lemma StepCounts(f: Flavour, c: Sched, ss: seq<Sys>, ls: seq<Label>, i: nat)
    requires Run(f, c, ss, ls) && i < |ls|
    ensures Behind(f, ss[i + 1]) == Behind(f, ss[i]) + 1 && LostWithin(ss[i].tokens, ss[i + 1].tokens)
  {
    var s, l, s' := ss[i], ls[i], ss[i + 1];
    StepRaises(f, c, ss, ls, i);
    RaisedAll(f, s, Whose(l), s');
    StepActs(f, c, ss, ls, i);
    if l.Do? {
      LostGrows(f, ViewOf(s.k), s, l.t, l.op, s.k.eff[l.t], ViewOf(s'.k), s');
    }
  }

  /** The statements and loop tests a task has executed, for Task_1 the ends of its sleeps too. */
  function Executed(ls: seq<Label>, t: Task): nat {
    if ls == [] then 0
    else Executed(ls[..|ls| - 1], t) + if Whose(ls[|ls| - 1]) == t then 1 else 0
  }

  lemma {:induction false} ExecutedIsBehind(f: Flavour, c: Sched, ss: seq<Sys>, ls: seq<Label>, i: nat, t: Task)
    requires Run(f, c, ss, ls) && i < |ss|
    ensures Executed(ls[..i], t) == BehindOf(f, ss[i], t)
    decreases i
  {
    if i == 0 {
    } else {
      ExecutedIsBehind(f, c, ss, ls, i - 1, t);
      assert ls[..i][..i - 1] == ls[..i - 1];
      StepRaises(f, c, ss, ls, i - 1);
    }
  }

  /**
    In every run, whatever the interleaving and the timers: a turn of THI or TLO is 10000204
    statements and loop tests, one of TMID 10000202, and an iteration of Task_1 30000617, or
    30000614 without the three reads, after 3 of its start, or 5 with the sleep there.
  */
  lemma TurnsExact(f: Flavour, c: Sched, ss: seq<Sys>, ls: seq<Label>, i: nat)
    requires Run(f, c, ss, ls) && i < |ss|
    ensures ss[i].pc.hi.AwaitToken? ==> Executed(ls[..i], THI) == 10_000_204 * ss[i].log.cycles.hi
    ensures ss[i].pc.mid.AwaitToken? ==> Executed(ls[..i], TMID) == 10_000_202 * ss[i].log.cycles.mid
    ensures ss[i].pc.lo.AwaitToken? ==> Executed(ls[..i], TLO) == 10_000_204 * ss[i].log.cycles.lo
    ensures ss[i].pc.one.LockLo? && !ss[i].asleep ==>
              Executed(ls[..i], TASK1) ==
              if f.Rtems? then 3 + 30_000_617 * ss[i].log.cycles.one else 5 + 30_000_614 * ss[i].log.cycles.one
  {
    ExecutedIsBehind(f, c, ss, ls, i, THI);
    ExecutedIsBehind(f, c, ss, ls, i, TMID);
    ExecutedIsBehind(f, c, ss, ls, i, TLO);
    ExecutedIsBehind(f, c, ss, ls, i, TASK1);
  }

  lemma {:induction false} StepsCount(f: Flavour, c: Sched, ss: seq<Sys>, ls: seq<Label>, i: nat, j: nat)
    requires Run(f, c, ss, ls) && i <= j < |ss|
    ensures Behind(f, ss[j]) == Behind(f, ss[i]) + j - i && LostWithin(ss[i].tokens, ss[j].tokens)
    decreases j
  {
    if i == j {
    } else {
      StepsCount(f, c, ss, ls, i, j - 1);
      StepCounts(f, c, ss, ls, j - 1);
    }
  }

  // ---------- What is behind lies within the turns ----------

  predicate StateShape(f: Flavour, s: Sys) {
    Shape(f, ViewOf(s.k), s) && SpinsWithin(s) && TurnShape(s)
  }

  lemma HiWithin(f: Flavour, v: View, s: Sys)
    requires Shape(f, v, s) && SpinsWithin(s) && TakeTurns(s)
    ensures (TESTS + 3) * (s.tokens.hi.takes - 1) <= HiBehind(s) <= (TESTS + 3) * s.tokens.hi.takes + 1
  {
  }

  lemma MidWithin(f: Flavour, v: View, s: Sys)
    requires Shape(f, v, s) && SpinsWithin(s) && TakeTurns(s)
    ensures (TESTS + 1) * (s.tokens.mid.takes - 1) <= MidBehind(s) <= (TESTS + 1) * s.tokens.mid.takes + 1
  {
  }

  lemma LoWithin(f: Flavour, v: View, s: Sys)
    requires Shape(f, v, s) && SpinsWithin(s) && TakeTurns(s)
    ensures (TESTS + 3) * (s.tokens.lo.takes - 1) <= LoBehind(s) <= (TESTS + 3) * s.tokens.lo.takes + 1
  {
  }

  lemma OneWithin(f: Flavour, s: Sys)
    requires SpinsWithin(s)
    ensures var n := s.log.cycles.one;
            if f.Rtems? then (3 * TESTS + 14) * n - 1 <= OneBehind(f, s) <= (3 * TESTS + 14) * (n + 1) + 3
            else (3 * TESTS + 11) * n - 1 <= OneBehind(f, s) <= (3 * TESTS + 11) * (n + 1) + 3
  {
  }

  /** What is taken in a while was posted then, or counted before. */
  lemma TakesWithin(f: Flavour, s: Sys, s': Sys, r: Token)
    requires TokenShape(f, s.tokens, s.parked) && TokenShape(f, s'.tokens, s'.parked)
    requires PostTurns(s) && PostTurns(s') && LostWithin(s.tokens, s'.tokens)
    ensures var n := s'.log.cycles.one - s.log.cycles.one;
            s'.tokens.At(r).takes - s.tokens.At(r).takes <= n + 1 + s.tokens.At(r).value
  {
  }

  // ---------- Main results ----------

  /** The statements of one iteration of Task_1 and one turn of each other task, timers included. */
  function Iteration(f: Flavour): nat {
    if f.Rtems? then 6 * TESTS + 21 else 6 * TESTS + 18
  }

  /** The statements still owed to posts that were counted and not yet taken. */
  function Backlog(s: Sys): nat {
    (TESTS + 3) * s.tokens.hi.value + (TESTS + 1) * s.tokens.mid.value + (TESTS + 3) * s.tokens.lo.value
  }

  lemma HiGrows(f: Flavour, s: Sys, s': Sys)
    requires StateShape(f, s) && StateShape(f, s') && LostWithin(s.tokens, s'.tokens)
    ensures var n := s'.log.cycles.one - s.log.cycles.one;
            HiBehind(s') - HiBehind(s) <= (TESTS + 3) * (n + 2 + s.tokens.hi.value) + 1
  {
    HiWithin(f, ViewOf(s.k), s);
    HiWithin(f, ViewOf(s'.k), s');
    TakesWithin(f, s, s', RHI);
  }

  lemma MidGrows(f: Flavour, s: Sys, s': Sys)
    requires StateShape(f, s) && StateShape(f, s') && LostWithin(s.tokens, s'.tokens)
    ensures var n := s'.log.cycles.one - s.log.cycles.one;
            MidBehind(s') - MidBehind(s) <= (TESTS + 1) * (n + 2 + s.tokens.mid.value) + 1
  {
    MidWithin(f, ViewOf(s.k), s);
    MidWithin(f, ViewOf(s'.k), s');
    TakesWithin(f, s, s', RMID);
  }

  lemma LoGrows(f: Flavour, s: Sys, s': Sys)
    requires StateShape(f, s) && StateShape(f, s') && LostWithin(s.tokens, s'.tokens)
    ensures var n := s'.log.cycles.one - s.log.cycles.one;
            LoBehind(s') - LoBehind(s) <= (TESTS + 3) * (n + 2 + s.tokens.lo.value) + 1
  {
    LoWithin(f, ViewOf(s.k), s);
    LoWithin(f, ViewOf(s'.k), s');
    TakesWithin(f, s, s', RLO);
  }

  lemma OneGrows(f: Flavour, s: Sys, s': Sys)
    requires StateShape(f, s) && StateShape(f, s')
    ensures var n := s'.log.cycles.one - s.log.cycles.one;
            OneBehind(f, s') - OneBehind(f, s) <=
            if f.Rtems? then (3 * TESTS + 14) * (n + 1) + 4 else (3 * TESTS + 11) * (n + 1) + 4
  {
    OneWithin(f, s);
    OneWithin(f, s');
  }

  lemma Sum(f: Flavour, n: int, hi: int, mid: int, one: int, lo: int, x: nat, y: nat, z: nat)
    requires hi <= (TESTS + 3) * (n + 2 + x) + 1 && mid <= (TESTS + 1) * (n + 2 + y) + 1
    requires lo <= (TESTS + 3) * (n + 2 + z) + 1
    requires one <= if f.Rtems? then (3 * TESTS + 14) * (n + 1) + 4 else (3 * TESTS + 11) * (n + 1) + 4
    ensures hi + mid + one + lo <=
            (n + 2) * Iteration(f) + ((TESTS + 3) * x + (TESTS + 1) * y + (TESTS + 3) * z)
  {
    if f.Rtems? {
      assert Iteration(f) == 6 * TESTS + 21;
    } else {
      assert Iteration(f) == 6 * TESTS + 18;
    }
  }

  /** What is behind grows by no more than the iterations finished allow. */
  lemma BehindWithin(f: Flavour, s: Sys, s': Sys)
    requires StateShape(f, s) && StateShape(f, s') && LostWithin(s.tokens, s'.tokens)
    ensures Behind(f, s') - Behind(f, s) <= (s'.log.cycles.one - s.log.cycles.one + 2) * Iteration(f) + Backlog(s)
  {
    HiGrows(f, s, s');
    MidGrows(f, s, s');
    LoGrows(f, s, s');
    OneGrows(f, s, s');
    var n := s'.log.cycles.one - s.log.cycles.one;
    Sum(f, n, HiBehind(s') - HiBehind(s), MidBehind(s') - MidBehind(s), OneBehind(f, s') - OneBehind(f, s),
        LoBehind(s') - LoBehind(s), s.tokens.hi.value, s.tokens.mid.value, s.tokens.lo.value);
  }

  /**
    Under every scheduler, fair or not: from any point of a run the tasks can execute only so
    many statements for each further iteration of Task_1, and what counted posts still allow.
  */
  lemma StatementBudget(f: Flavour, c: Sched, ss: seq<Sys>, ls: seq<Label>, i: nat, j: nat)
    requires Run(f, c, ss, ls) && i <= j < |ss|
    ensures j - i <= (ss[j].log.cycles.one - ss[i].log.cycles.one + 2) * Iteration(f) + Backlog(ss[i])
  {
    StepsCount(f, c, ss, ls, i, j);
    StateFacts(f, c, ss, ls, i);
    StateFacts(f, c, ss, ls, j);
    BehindWithin(f, ss[i], ss[j]);
  }

  lemma Enough(f: Flavour, n: int, k: int, backlog: int, steps: int)
    requires steps <= (n + 2) * Iteration(f) + backlog && (k + 1) * Iteration(f) + backlog < steps
    ensures n >= k
  {
    if f.Rtems? {
      assert Iteration(f) == 6 * TESTS + 21;
    } else {
      assert Iteration(f) == 6 * TESTS + 18;
    }
  }

  /** So Task_1 goes on for ever in every run: after so many steps it has finished `k` iterations. */
  lemma IterationsGoOn(f: Flavour, c: Sched, ss: seq<Sys>, ls: seq<Label>, i: nat, k: nat)
    requires Run(f, c, ss, ls) && i < |ss| && i > (k + 1) * Iteration(f)
    ensures ss[i].log.cycles.one >= k
  {
    StatementBudget(f, c, ss, ls, 0, i);
    assert Backlog(ss[0]) == 0;
    Enough(f, ss[i].log.cycles.one, k, 0, i);
  }

  /** The turns THI and TMID have completed follow Task_1's iterations under strict priority. */
  lemma UrgentTurns(f: Flavour, v: View, s: Sys)
    requires Shape(f, v, s) && StrictShape(v, s) && TurnShape(s)
    ensures s.log.cycles.one <= s.log.cycles.hi <= s.log.cycles.one + 1
    ensures s.log.cycles.one <= s.log.cycles.mid <= s.log.cycles.one + 1
  {
  }

  lemma LoTurns(f: Flavour, v: View, s: Sys)
    requires Shape(f, v, s) && PatientShape(v, s) && TurnShape(s)
    ensures s.log.cycles.one - 1 <= s.log.cycles.lo <= s.log.cycles.one && s.tokens.lo.value <= 1
  {
  }

  /** No task is ever more than one turn away from Task_1's iterations. */
  lemma TurnsFollow(f: Flavour, c: Sched, ss: seq<Sys>, ls: seq<Label>, i: nat)
    requires Run(f, c, ss, ls) && c != Any && i < |ss|
    ensures var n := ss[i].log.cycles; n.one <= n.hi <= n.one + 1 && n.one <= n.mid <= n.one + 1
    ensures c == Patient ==> var n := ss[i].log.cycles; n.one - 1 <= n.lo <= n.one
    ensures f.Rtems? || c == Patient ==> ss[i].tokens.lo.value <= 1
    ensures ss[i].tokens.hi.value == 0 && ss[i].tokens.mid.value == 0
  {
    StrictRun(f, c, ss, ls, i);
    TurnsRun(f, c, ss, ls, i);
    UrgentTurns(f, ViewOf(ss[i].k), ss[i]);
    if c == Patient {
      PatientRun(f, ss, ls, i);
      LoTurns(f, ViewOf(ss[i].k), ss[i]);
    }
  }

  /**
    With binary semaphores, whenever the timers fire: Task_1, THI and TMID each finish a turn
    within any stretch of so many steps, from wherever in the run it is counted.
  */
  lemma UrgentTurnsRecur(c: Sched, ss: seq<Sys>, ls: seq<Label>, i: nat, j: nat, t: Task)
    requires Run(Rtems, c, ss, ls) && c != Any && i <= j < |ss| && j - i > 4 * Iteration(Rtems) && t != TLO
    ensures ss[j].log.cycles.At(t) > ss[i].log.cycles.At(t)
  {
    StatementBudget(Rtems, c, ss, ls, i, j);
    TurnsFollow(Rtems, c, ss, ls, i);
    TurnsFollow(Rtems, c, ss, ls, j);
    Enough(Rtems, ss[j].log.cycles.one - ss[i].log.cycles.one, 2, Iteration(Rtems), j - i);
  }

  /** In both versions, if a sleep outlasts all ready work, all four tasks do. */
  lemma AllTurnsRecur(f: Flavour, ss: seq<Sys>, ls: seq<Label>, i: nat, j: nat, t: Task)
    requires Run(f, Patient, ss, ls) && i <= j < |ss| && j - i > 4 * Iteration(f)
    ensures ss[j].log.cycles.At(t) > ss[i].log.cycles.At(t)
  {
    StatementBudget(f, Patient, ss, ls, i, j);
    TurnsFollow(f, Patient, ss, ls, i);
    TurnsFollow(f, Patient, ss, ls, j);
    Enough(f, ss[j].log.cycles.one - ss[i].log.cycles.one, 2, Iteration(f), j - i);
  }
}
