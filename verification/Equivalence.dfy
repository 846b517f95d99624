/**
  The RTEMS and the POSIX test are the same protocol up to stuttering: started from all four
  loop heads, and as long as no release semaphore is posted while it already stands at 1,
  each run of one has a run of the other with the same trace.  The priority reads of the
  RTEMS test are the only extra steps, priorities correspond in reversed order.
*/
module Equivalence {
  import opened PriorityInheritance
  import opened Scenario
  import opened AnyScheduler
  import opened Priorities

  /** All four tasks at the head of their endless loops. */
  function Heads(f: Flavour): Sys {
    Init(f).(pc := Per(AwaitToken, AwaitToken, LockLo, AwaitToken))
  }

  function SkipRead(pc: Pc): Pc {
    match pc case Read1 => PostMid case Read2 => Work2 case Read3 => Work3 case _ => pc
  }

  predicate Started(s: Sys) {
    var pc := s.pc.one;
    !(pc.StartHi? || pc.StartMid? || pc.StartLo? || pc.Settle?)
  }

  /** Equal apart from Task_1's reads and from the scale of the priorities. */
  predicate Alike(s: Sys, p: Sys) {
    && p.pc == s.pc.(one := SkipRead(s.pc.one))
    && p.spin == s.spin && p.tokens == s.tokens && p.parked == s.parked
    && p.asleep == s.asleep && p.fault == s.fault && p.log.cycles == s.log.cycles
  }

  ghost predicate Similar(min: int, s: Sys, p: Sys) {
    && Control(Rtems, s) && Control(Posix(min), p) && Started(s)
    && ViewOf(p.k) == ViewOf(s.k) && Alike(s, p)
  }

  /** No release semaphore is posted while nobody waits and it already stands at 1. */
  predicate Lossless(s: Sys, l: Label) {
    l.Do? && l.op.Post? ==> s.parked.At(Consumer(l.op.r)) || s.tokens.At(l.op.r).value == 0
  }

  predicate IsRead(l: Label) {
    l.Do? && l.op.ReadPrio?
  }

  function Trace(ls: seq<Label>): seq<Label> {
    if ls == [] then [] else
      var l := ls[|ls| - 1];
      Trace(ls[..|ls| - 1]) + if IsRead(l) then [] else [l]
  }

  // ---------- One step ----------

  /** Priorities correspond: 40, 45, 50, 60 to 13, 12, 11, 10 above the FIFO minimum. */
  function Reversed(min: int, prio: int): int {
    if prio == 40 then min + 13 else if prio == 45 then min + 12 else if prio == 50 then min + 11 else min + 10
  }

  lemma PrioritiesCorrespond(min: int, s: Sys, p: Sys, t: Task)
    requires Similar(min, s, p)
    ensures t in s.k.eff && t in p.k.eff && -p.k.eff[t] == Reversed(min, s.k.eff[t])
    ensures s.k.eff[t] in {40, 45, 50, 60}
  {
    PriorityTable(Rtems, s, t);
    PriorityTable(Posix(min), p, t);
  }

  lemma ReadyAlike(v: View, s: Sys, p: Sys, t: Task)
    requires Alike(s, p)
    ensures Ready(v, s, t) == Ready(v, p, t)
  {
  }

  lemma AllowedAlike(min: int, c: Sched, s: Sys, p: Sys, t: Task, op: Op)
    requires Similar(min, s, p) && Ready(ViewOf(s.k), s, t)
    ensures Allowed(c, s, Do(t, op)) == Allowed(c, p, Do(t, op))
  {
    forall u: Task { ReadyAlike(ViewOf(s.k), s, p, u); }
    UrgentDispatch(Rtems, s, t);
    UrgentDispatch(Posix(min), p, t);
  }

  lemma TimerAlike(min: int, c: Sched, s: Sys, p: Sys)
    requires Similar(min, s, p)
    ensures Allowed(c, s, Timer) == Allowed(c, p, Timer)
    ensures s.asleep ==> Similar(min, s.(asleep := false), p.(asleep := false))
  {
    forall u: Task { ReadyAlike(ViewOf(s.k), s, p, u); }
  }

  /** The two programs do the same outside the kernel, apart from the reads. */
  predicate SameEffect(min: int, s: Sys, p: Sys, t: Task, op: Op, prio: int, prio': int) {
    && Alike(Effect(Rtems, s, t, op, prio), Effect(Posix(min), p, t, op, prio'))
    && Started(Effect(Rtems, s, t, op, prio))
  }

  lemma GuestTakes(min: int, s: Sys, p: Sys, t: Task, r: Token, prio: int, prio': int)
    requires Alike(s, p) && Started(s) && Take(r) == OpAt(t, s.pc.At(t)) && t != TASK1
    ensures SameEffect(min, s, p, t, Take(r), prio, prio')
  {
  }

  lemma GuestEffect(min: int, s: Sys, p: Sys, t: Task, op: Op, prio: int, prio': int)
    requires Alike(s, p) && Started(s) && op == OpAt(t, s.pc.At(t)) && !op.Nop? && !op.Take? && t != TASK1
    ensures SameEffect(min, s, p, t, op, prio, prio')
  {
  }

  lemma OneEffect(min: int, s: Sys, p: Sys, op: Op, prio: int, prio': int)
    requires Alike(s, p) && Started(s) && Lossless(s, Do(TASK1, op)) && op == OpAt(TASK1, s.pc.one)
    requires !op.ReadPrio? && !op.Nop?
    ensures SameEffect(min, s, p, TASK1, op, prio, prio')
  {
  }

  lemma SeenForced(v: View, s: Sys, t: Task, op: Op, v1: View, v2: View)
    requires Shape(Rtems, v, s) && Ready(v, s, t) && op == OpAt(t, s.pc.At(t))
    requires Seen(v, t, op, v1) && Seen(v, t, op, v2)
    ensures v1 == v2
  {
  }

  /** What is left to show once both sides have performed the same statement. */
  lemma StillSimilar(min: int, s: Sys, p: Sys, t: Task, op: Op, s': Sys, p': Sys)
    requires Similar(min, s, p) && Lossless(s, Do(t, op)) && !op.ReadPrio?
    requires Next(Rtems, s, Do(t, op), s') && Next(Posix(min), p, Do(t, op), p')
    ensures Similar(min, s', p')
  {
    ControlStep(Rtems, s, Do(t, op), s');
    ControlStep(Posix(min), p, Do(t, op), p');
    SeenForced(ViewOf(s.k), s, t, op, ViewOf(s'.k), ViewOf(p'.k));
    if t == TASK1 {
      OneEffect(min, s, p, op, s.k.eff[t], p.k.eff[t]);
    } else if op.Take? {
      GuestTakes(min, s, p, t, op.r, s.k.eff[t], p.k.eff[t]);
    } else {
      GuestEffect(min, s, p, t, op, s.k.eff[t], p.k.eff[t]);
    }
  }

  lemma SameStatement(s: Sys, p: Sys, t: Task)
    requires Alike(s, p) && (t == TASK1 ==> !OpAt(TASK1, s.pc.one).ReadPrio?)
    ensures OpAt(t, p.pc.At(t)) == OpAt(t, s.pc.At(t))
  {
  }

  /** POSIX follows every RTEMS step that is not a read. */
  lemma PosixFollows(min: int, c: Sched, s: Sys, p: Sys, l: Label, s': Sys) returns (p': Sys)
    requires Similar(min, s, p) && Step(Rtems, c, s, l, s') && Lossless(s, l) && !IsRead(l)
    ensures Step(Posix(min), c, p, l, p') && Similar(min, s', p')
  {
    match l
    case Timer =>
      TimerAlike(min, c, s, p);
      p' := p.(asleep := false);
    case Do(t, op) =>
      SameStatement(s, p, t);
      ReadyAlike(ViewOf(s.k), s, p, t);
      AllowedAlike(min, c, s, p, t, op);
      p' := CanPerform(Posix(min), p, t);
      StillSimilar(min, s, p, t, op, s', p');
  }

  /** RTEMS follows every POSIX step once Task_1's pending read is done. */
  lemma RtemsFollows(min: int, c: Sched, s: Sys, p: Sys, l: Label, p': Sys) returns (s': Sys)
    requires Similar(min, s, p) && Step(Posix(min), c, p, l, p') && Lossless(p, l)
    requires l.Do? && l.t == TASK1 ==> !OpAt(TASK1, s.pc.one).ReadPrio?
    ensures Step(Rtems, c, s, l, s') && Similar(min, s', p') && !IsRead(l)
  {
    match l
    case Timer =>
      TimerAlike(min, c, s, p);
      s' := s.(asleep := false);
    case Do(t, op) =>
      SameStatement(s, p, t);
      ReadyAlike(ViewOf(s.k), s, p, t);
      AllowedAlike(min, c, s, p, t, op);
      OnlyOneReads(t, p.pc.At(t));
      s' := CanPerform(Rtems, s, t);
      StillSimilar(min, s, p, t, op, s', p');
  }

  lemma OnlyOneReads(t: Task, pc: Pc)
    ensures OpAt(t, pc).ReadPrio? <==> t == TASK1 && (pc.Read1? || pc.Read2? || pc.Read3?)
  {
  }

  lemma ReadAlike(s: Sys, p: Sys, prio: int)
    requires Alike(s, p) && OpAt(TASK1, s.pc.one).ReadPrio?
    ensures var e := Effect(Rtems, s, TASK1, ReadPrio, prio);
            Alike(e, p) && Started(e) && !OpAt(TASK1, e.pc.one).ReadPrio?
  {
  }

  /** A read is a step POSIX does not see. */
  lemma ReadStutters(min: int, c: Sched, s: Sys, p: Sys, s': Sys)
    requires Similar(min, s, p) && Step(Rtems, c, s, Do(TASK1, ReadPrio), s')
    ensures Similar(min, s', p) && !OpAt(TASK1, s'.pc.one).ReadPrio?
  {
    ControlStep(Rtems, s, Do(TASK1, ReadPrio), s');
    ReadAlike(s, p, s.k.eff[TASK1]);
  }

  // ---------- Runs ----------

  lemma HeadsSimilar(min: int)
    ensures Similar(min, Heads(Rtems), Heads(Posix(min)))
  {
    HeadsControl(Rtems);
    HeadsControl(Posix(min));
  }

  lemma HeadsControl(f: Flavour)
    ensures Control(f, Heads(f))
  {
    ControlInit(f);
  }

  lemma PathExtend(f: Flavour, c: Sched, ss: seq<Sys>, ls: seq<Label>, l: Label, s': Sys)
    requires Path(f, c, ss, ls) && Step(f, c, ss[|ls|], l, s')
    ensures Path(f, c, ss + [s'], ls + [l])
    ensures Trace(ls + [l]) == Trace(ls) + if IsRead(l) then [] else [l]
  {
    var ss', ls' := ss + [s'], ls + [l];
    assert ls'[..|ls|] == ls;
    forall i | 0 <= i < |ls'| ensures StepFrom(f, c, ss', ls', i) {
      if i < |ls| {
        assert StepFrom(f, c, ss, ls, i);
      }
    }
  }

  ghost predicate LosslessPath(ss: seq<Sys>, ls: seq<Label>) {
    |ss| == |ls| + 1 && forall i :: 0 <= i < |ls| ==> Lossless(ss[i], ls[i])
  }

  /** The last step of a path, and the path before it. */
  lemma LastStep(f: Flavour, c: Sched, ss: seq<Sys>, ls: seq<Label>)
    returns (before: seq<Sys>, labels: seq<Label>, l: Label, s': Sys)
    requires Path(f, c, ss, ls) && LosslessPath(ss, ls) && ls != []
    ensures ss == before + [s'] && ls == labels + [l] && before != [] && before[0] == ss[0]
    ensures Path(f, c, before, labels) && LosslessPath(before, labels)
    ensures Step(f, c, before[|labels|], l, s') && Lossless(before[|labels|], l)
  {
    var n := |ls| - 1;
    before, labels, l, s' := ss[..n + 1], ls[..n], ls[n], ss[n + 1];
    assert StepFrom(f, c, ss, ls, n);
    forall i | 0 <= i < n ensures StepFrom(f, c, before, labels, i) {
      assert StepFrom(f, c, ss, ls, i);
    }
  }

  /** A pair of runs with the same trace that end in similar states. */
  ghost predicate Matched(min: int, c: Sched, ss: seq<Sys>, ls: seq<Label>, ps: seq<Sys>, ms: seq<Label>) {
    && Path(Rtems, c, ss, ls) && ss[0] == Heads(Rtems)
    && Path(Posix(min), c, ps, ms) && ps[0] == Heads(Posix(min))
    && ms == Trace(ls) && Similar(min, ss[|ls|], ps[|ms|])
  }

  lemma MatchRtemsStep(min: int, c: Sched, ss: seq<Sys>, ls: seq<Label>, ps: seq<Sys>, ms: seq<Label>,
        l: Label, s': Sys)
    returns (ps': seq<Sys>, ms': seq<Label>)
    requires Matched(min, c, ss, ls, ps, ms) && Step(Rtems, c, ss[|ls|], l, s') && Lossless(ss[|ls|], l)
    ensures Matched(min, c, ss + [s'], ls + [l], ps', ms')
  {
    var s, p := ss[|ls|], ps[|ms|];
    PathExtend(Rtems, c, ss, ls, l, s');
    if IsRead(l) {
      OnlyOneReads(l.t, s.pc.At(l.t));
      ReadStutters(min, c, s, p, s');
      ps', ms' := ps, ms;
    } else {
      var p' := PosixFollows(min, c, s, p, l, s');
      PathExtend(Posix(min), c, ps, ms, l, p');
      ps', ms' := ps + [p'], ms + [l];
    }
  }

  /** RTEMS first performs the read that POSIX does not have, if Task_1 stands at one. */
  lemma CatchUp(min: int, c: Sched, ss: seq<Sys>, ls: seq<Label>, ps: seq<Sys>, ms: seq<Label>, l: Label)
    returns (ss': seq<Sys>, ls': seq<Label>)
    requires Matched(min, c, ss, ls, ps, ms) && Allowed(c, ps[|ms|], l)
    requires l.Do? ==> Ready(ViewOf(ps[|ms|].k), ps[|ms|], l.t)
    ensures Matched(min, c, ss', ls', ps, ms)
    ensures l.Do? && l.t == TASK1 ==> !OpAt(TASK1, ss'[|ls'|].pc.one).ReadPrio?
  {
    ss', ls' := ss, ls;
    if l.Do? && l.t == TASK1 && OpAt(TASK1, ss[|ls|].pc.one).ReadPrio? {
      var s1 := DoPendingRead(min, c, ss[|ls|], ps[|ms|], l);
      PathExtend(Rtems, c, ss, ls, Do(TASK1, ReadPrio), s1);
      ss', ls' := ss + [s1], ls + [Do(TASK1, ReadPrio)];
    }
  }

  lemma MatchPosixStep(min: int, c: Sched, ss: seq<Sys>, ls: seq<Label>, ps: seq<Sys>, ms: seq<Label>,
        l: Label, p': Sys)
    returns (ss': seq<Sys>, ls': seq<Label>)
    requires Matched(min, c, ss, ls, ps, ms) && Step(Posix(min), c, ps[|ms|], l, p') && Lossless(ps[|ms|], l)
    ensures Matched(min, c, ss', ls', ps + [p'], ms + [l])
  {
    ss', ls' := CatchUp(min, c, ss, ls, ps, ms, l);
    var s' := RtemsFollows(min, c, ss'[|ls'|], ps[|ms|], l, p');
    PathExtend(Rtems, c, ss', ls', l, s');
    PathExtend(Posix(min), c, ps, ms, l, p');
    ss', ls' := ss' + [s'], ls' + [l];
  }

  /** Every RTEMS run from the loop heads has a POSIX run with the same trace. */
  lemma {:induction false} RtemsRunIsPosixRun(min: int, c: Sched, ss: seq<Sys>, ls: seq<Label>)
    returns (ps: seq<Sys>, ms: seq<Label>)
    requires Path(Rtems, c, ss, ls) && ss[0] == Heads(Rtems) && LosslessPath(ss, ls)
    ensures Matched(min, c, ss, ls, ps, ms)
    decreases |ls|
  {
    if ls == [] {
      HeadsSimilar(min);
      ps, ms := [Heads(Posix(min))], [];
    } else {
      var before, labels, l, s' := LastStep(Rtems, c, ss, ls);
      ps, ms := RtemsRunIsPosixRun(min, c, before, labels);
      ps, ms := MatchRtemsStep(min, c, before, labels, ps, ms, l, s');
    }
  }

  /** Every POSIX run from the loop heads is the trace of an RTEMS run. */
  lemma {:induction false} PosixRunIsRtemsTrace(min: int, c: Sched, ps: seq<Sys>, ms: seq<Label>)
    returns (ss: seq<Sys>, ls: seq<Label>)
    requires Path(Posix(min), c, ps, ms) && ps[0] == Heads(Posix(min)) && LosslessPath(ps, ms)
    ensures Matched(min, c, ss, ls, ps, ms)
    decreases |ms|
  {
    if ms == [] {
      HeadsSimilar(min);
      ss, ls := [Heads(Rtems)], [];
    } else {
      var before, labels, l, p' := LastStep(Posix(min), c, ps, ms);
      ss, ls := PosixRunIsRtemsTrace(min, c, before, labels);
      ss, ls := MatchPosixStep(min, c, ss, ls, before, labels, l, p');
    }
  }

  lemma DoPendingRead(min: int, c: Sched, s: Sys, p: Sys, l: Label) returns (s': Sys)
    requires Similar(min, s, p) && OpAt(TASK1, s.pc.one).ReadPrio?
    requires l.Do? && l.t == TASK1 && Allowed(c, p, l) && Ready(ViewOf(p.k), p, TASK1)
    ensures Step(Rtems, c, s, Do(TASK1, ReadPrio), s')
    ensures Similar(min, s', p) && !OpAt(TASK1, s'.pc.one).ReadPrio?
  {
    ReadyAlike(ViewOf(s.k), s, p, TASK1);
    AllowedAlike(min, c, s, p, TASK1, l.op);
    s' := CanPerform(Rtems, s, TASK1);
    ReadStutters(min, c, s, p, s');
  }
}
