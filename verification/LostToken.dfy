/**
  When a release is lost.  A binary semaphore loses a post exactly if the token of the previous
  post has not been taken.  For RLO that happens under strict priority: if Task_1's sleeps end
  at once TLO never runs, and Task_1's second post to RLO finds the first one's token.
*/
module LostToken {
  import opened Scenario
  import opened AnyScheduler
  import opened Priorities
  import opened Types
  import Equivalence

  // ---------- Exactly when a post is lost ----------

  predicate IsPost(l: Label, r: Token) {
    l == Do(TASK1, Post(r))
  }

  /** Only posts and takes move tokens, and a take moves one from the value to the takes. */
  lemma TokenKept(f: Flavour, v: View, s: Sys, t: Task, op: Op, prio: int, v': View, s': Sys, r: Token)
    requires Acts(f, v, s, t, op, prio, v', s') && op != Post(r)
    ensures var n, n' := s.tokens.At(r), s'.tokens.At(r);
            n'.takes + n'.value == n.takes + n.value && n'.posts == n.posts && n'.lost == n.lost
  {
  }

  lemma PostMoves(f: Flavour, v: View, s: Sys, t: Task, prio: int, v': View, s': Sys, r: Token)
    requires Acts(f, v, s, t, Post(r), prio, v', s')
    ensures t == TASK1 && s'.tokens.At(r) == Posted(f, s.tokens.At(r), s.parked.At(Consumer(r)))
  {
  }

  lemma StepTokens(f: Flavour, c: Sched, ss: seq<Sys>, ls: seq<Label>, i: nat, r: Token)
    requires Run(f, c, ss, ls) && i < |ls|
    ensures var n, n' := ss[i].tokens.At(r), ss[i + 1].tokens.At(r);
            if IsPost(ls[i], r) then n' == Posted(f, n, ss[i].parked.At(Consumer(r)))
            else n'.takes + n'.value == n.takes + n.value && n'.posts == n.posts && n'.lost == n.lost
    ensures Accounted(f, ss[i].tokens.At(r), ss[i].parked.At(Consumer(r)))
  {
    ControlRun(f, c, ss, ls, i);
    StepActs(f, c, ss, ls, i);
    var s, l, s' := ss[i], ls[i], ss[i + 1];
    if l.Do? {
      if l.op == Post(r) {
        PostMoves(f, ViewOf(s.k), s, l.t, s.k.eff[l.t], ViewOf(s'.k), s', r);
      } else {
        TokenKept(f, ViewOf(s.k), s, l.t, l.op, s.k.eff[l.t], ViewOf(s'.k), s', r);
      }
    }
  }

  /** Since the post at `j` there is one token, in the value or taken. */
  lemma {:induction false} OneToken(c: Sched, ss: seq<Sys>, ls: seq<Label>, j: nat, i: nat, r: Token)
    requires Run(Rtems, c, ss, ls) && j < i < |ss| && IsPost(ls[j], r)
    requires forall k :: j < k < i ==> !IsPost(ls[k], r)
    ensures ss[i].tokens.At(r).takes + ss[i].tokens.At(r).value == ss[j].tokens.At(r).takes + 1
    decreases i
  {
    StepTokens(Rtems, c, ss, ls, i - 1, r);
    if i == j + 1 {
    } else {
      OneToken(c, ss, ls, j, i - 1, r);
    }
  }

  /**
    Under every scheduler: of two successive posts to a release semaphore of the RTEMS test the
    second is lost exactly if nothing was taken from it in between.
  */
  lemma LostIffNotTaken(c: Sched, ss: seq<Sys>, ls: seq<Label>, j: nat, i: nat, r: Token)
    requires Run(Rtems, c, ss, ls) && j < i < |ls| && IsPost(ls[j], r) && IsPost(ls[i], r)
    requires forall k :: j < k < i ==> !IsPost(ls[k], r)
    ensures ss[i + 1].tokens.At(r).lost > ss[i].tokens.At(r).lost <==>
              ss[i].tokens.At(r).takes == ss[j].tokens.At(r).takes
    ensures ss[i].tokens.At(r).lost <= ss[i + 1].tokens.At(r).lost <= ss[i].tokens.At(r).lost + 1
  {
    OneToken(c, ss, ls, j, i, r);
    StepTokens(Rtems, c, ss, ls, i, r);
  }

  lemma {:induction false} NoneYet(f: Flavour, c: Sched, ss: seq<Sys>, ls: seq<Label>, i: nat, r: Token)
    requires Run(f, c, ss, ls) && i < |ss| && forall k :: 0 <= k < i ==> !IsPost(ls[k], r)
    ensures var n := ss[i].tokens.At(r); n.posts == n.takes == n.value == n.lost == 0
    decreases i
  {
    if i == 0 {
    } else {
      NoneYet(f, c, ss, ls, i - 1, r);
      StepTokens(f, c, ss, ls, i - 1, r);
    }
  }

  /** The first post is never lost. */
  lemma FirstNotLost(c: Sched, ss: seq<Sys>, ls: seq<Label>, i: nat, r: Token)
    requires Run(Rtems, c, ss, ls) && i < |ls| && IsPost(ls[i], r) && forall k :: 0 <= k < i ==> !IsPost(ls[k], r)
    ensures ss[i + 1].tokens.At(r).lost == 0
  {
    NoneYet(Rtems, c, ss, ls, i, r);
    StepTokens(Rtems, c, ss, ls, i, r);
  }

  // ---------- Building a strict-priority run ----------

  /** `z` is `s` apart from kernel and record, and `v` is what `s` shows of its kernel. */
  ghost predicate Shadows(s: Sys, v: View, z: Sys) {
    Control(Rtems, s) && ViewOf(s.k) == v && s.(k := z.k, log := z.log) == z
  }

  /** A run that ends in a state shadowed by `z`. */
  ghost predicate EndsIn(ss: seq<Sys>, ls: seq<Label>, v: View, z: Sys) {
    Run(Rtems, Strict, ss, ls) && Shadows(ss[|ls|], v, z)
  }

  /** Nobody waits for the mutex, or THI alone. */
  predicate OnlyHiWaits(v: View, m: Mutex) {
    v.waits.mid != On(m) && v.waits.one != On(m) && v.waits.lo != On(m)
  }

  function NextView(v: View, t: Task, op: Op): View {
    match op
    case Lock(m) => if v.Of(m).Free? then v.Set(m, By(t)) else v.Wait(t, On(m))
    case Unlock(m) => if v.Waited(m) then v.Set(m, By(THI)).Wait(THI, No) else v.Set(m, Free)
    case _ => v
  }

  function NextShadow(z: Sys, t: Task): Sys {
    Effect(Rtems, z, t, OpAt(t, z.pc.At(t)), 0).(k := z.k, log := z.log)
  }

  lemma EffectShadow(s: Sys, z: Sys, t: Task, op: Op, prio: int)
    requires s.(k := z.k, log := z.log) == z
    ensures Effect(Rtems, s, t, op, prio).(k := z.k, log := z.log)
            == Effect(Rtems, z, t, op, 0).(k := z.k, log := z.log)
  {
  }

  lemma SeenNext(v: View, t: Task, op: Op, v': View)
    requires Seen(v, t, op, v') && (op.Unlock? ==> OnlyHiWaits(v, op.m))
    ensures v' == NextView(v, t, op)
  {
    if op.Unlock? && v.Waited(op.m) {
      var w: Task :| v.waits.At(w) == On(op.m) && v' == v.Set(op.m, By(w)).Wait(w, No);
      assert w == THI;
    }
  }

  lemma Performs(s: Sys, v: View, z: Sys, t: Task) returns (l: Label, s': Sys)
    requires Shadows(s, v, z) && Ready(v, z, t) && Dispatch(v, z, t)
    requires OpAt(t, z.pc.At(t)).Unlock? ==> OnlyHiWaits(v, OpAt(t, z.pc.At(t)).m)
    ensures l == Do(t, OpAt(t, z.pc.At(t))) && Step(Rtems, Strict, s, l, s')
    ensures Shadows(s', NextView(v, t, l.op), NextShadow(z, t))
  {
    UrgentDispatch(Rtems, s, t);
    s' := CanPerform(Rtems, s, t);
    l := Do(t, OpAt(t, s.pc.At(t)));
    ControlStep(Rtems, s, l, s');
    SeenNext(v, t, l.op, ViewOf(s'.k));
    EffectShadow(s, z, t, l.op, s.k.eff[t]);
  }

  /** The run goes on with the statement of a task that strict priority lets run. */
  lemma Goes(ss: seq<Sys>, ls: seq<Label>, v: View, z: Sys, t: Task, v': View, z': Sys)
    returns (ss': seq<Sys>, ls': seq<Label>)
    requires EndsIn(ss, ls, v, z) && Ready(v, z, t) && Dispatch(v, z, t)
    requires OpAt(t, z.pc.At(t)).Unlock? ==> OnlyHiWaits(v, OpAt(t, z.pc.At(t)).m)
    requires v' == NextView(v, t, OpAt(t, z.pc.At(t))) && z' == NextShadow(z, t)
    ensures EndsIn(ss', ls', v', z') && ls' == ls + [Do(t, OpAt(t, z.pc.At(t)))] && ss' == ss + [ss'[|ls'|]]
  {
    var l, s' := Performs(ss[|ls|], v, z, t);
    Equivalence.PathExtend(Rtems, Strict, ss, ls, l, s');
    ss', ls' := ss + [s'], ls + [l];
  }

  /** The timer fires at once. */
  lemma Wakes(ss: seq<Sys>, ls: seq<Label>, v: View, z: Sys) returns (ss': seq<Sys>, ls': seq<Label>)
    requires EndsIn(ss, ls, v, z) && z.asleep
    ensures EndsIn(ss', ls', v, z.(asleep := false))
  {
    var s := ss[|ls|];
    var s' := s.(asleep := false);
    ControlStep(Rtems, s, Timer, s');
    Equivalence.PathExtend(Rtems, Strict, ss, ls, Timer, s');
    ss', ls' := ss + [s'], ls + [Timer];
  }

  /** The shadow after a whole block_delay. */
  function Delayed(z: Sys, t: Task): Sys {
    z.(pc := z.pc.With(t, After(Rtems, t, z.pc.At(t))), spin := z.spin.With(t, Outer(DELAY)))
  }

  /** A whole block_delay, test by test. */
  lemma {:induction false} Delays(ss: seq<Sys>, ls: seq<Label>, v: View, z: Sys, t: Task)
    returns (ss': seq<Sys>, ls': seq<Label>)
    requires EndsIn(ss, ls, v, z) && Ready(v, z, t) && Dispatch(v, z, t) && OpAt(t, z.pc.At(t)).Delay?
    ensures EndsIn(ss', ls', v, Delayed(z, t))
    decreases SpinLeft(z.spin.At(t))
  {
    var z1 := NextShadow(z, t);
    ss', ls' := Goes(ss, ls, v, z, t, v, z1);
    if z.spin.At(t) == Outer(0) {
    } else {
      assert z1 == z.(spin := z.spin.With(t, SpinNext(z.spin.At(t))));
      SpinSame(v, z, t, z1);
      ss', ls' := Delays(ss', ls', v, z1, t);
    }
  }

  lemma SpinSame(v: View, z: Sys, t: Task, z1: Sys)
    requires z.spin.At(t) != Outer(0) && z1 == z.(spin := z.spin.With(t, SpinNext(z.spin.At(t))))
    ensures SpinLeft(z1.spin.At(t)) < SpinLeft(z.spin.At(t))
    ensures Ready(v, z, t) ==> Ready(v, z1, t)
    ensures Dispatch(v, z, t) ==> Dispatch(v, z1, t)
    ensures z1.spin.With(t, Outer(DELAY)) == z.spin.With(t, Outer(DELAY))
  {
  }

  // ---------- Scripts ----------

  datatype Scene = Scene(v: View, z: Sys)

  datatype Move = Act(t: Task) | WorkOff(t: Task) | Wake

  /** A statement, a whole block_delay, or a timer, if strict priority allows it. */
  function Moved(x: Scene, mv: Move): Option<Scene> {
    match mv
    case Act(t) =>
      var op := OpAt(t, x.z.pc.At(t));
      if Ready(x.v, x.z, t) && Dispatch(x.v, x.z, t) && (op.Unlock? ==> OnlyHiWaits(x.v, op.m))
      then Some(Scene(NextView(x.v, t, op), NextShadow(x.z, t))) else None
    case WorkOff(t) =>
      if Ready(x.v, x.z, t) && Dispatch(x.v, x.z, t) && OpAt(t, x.z.pc.At(t)).Delay?
      then Some(Scene(x.v, Delayed(x.z, t)))
      else None
    case Wake => if x.z.asleep then Some(x.(z := x.z.(asleep := false))) else None
  }

  lemma MovedRun(ss: seq<Sys>, ls: seq<Label>, x: Scene, mv: Move, w: Scene) returns (ss': seq<Sys>, ls': seq<Label>)
    requires EndsIn(ss, ls, x.v, x.z) && Moved(x, mv) == Some(w)
    ensures EndsIn(ss', ls', w.v, w.z)
  {
    match mv {
      case Act(t) => ss', ls' := Goes(ss, ls, x.v, x.z, t, w.v, w.z);
      case WorkOff(t) => ss', ls' := Delays(ss, ls, x.v, x.z, t);
      case Wake => ss', ls' := Wakes(ss, ls, x.v, x.z);
    }
  }

  // ---------- The run ----------

  const NOBODY: Per<Waiting> := Per(No, No, No, No)
  const FRESH: Per<Spin> := Per(Outer(DELAY), Outer(DELAY), Outer(DELAY), Outer(DELAY))
  const TAKEN: Count := Count(0, 1, 1, 0)
  const UNUSED: Count := Count(0, 0, 0, 0)
  const POSTED: Count := Count(1, 1, 0, 0)

  const IDLE: View := View(Free, Free, NOBODY)
  const LO: View := View(Free, By(TASK1), NOBODY)
  const BOTH: View := View(By(TASK1), By(TASK1), NOBODY)
  const WAITING: View := View(By(TASK1), By(TASK1), Per(On(SHI), No, No, No))
  const GIVEN: View := View(By(THI), By(TASK1), NOBODY)

  /** A scene with the counting loops at their start and TLO before its first wait. */
  function Stage(v: View, hi: Pc, mid: Pc, one: Pc, tokens: Tokens, hiParked: bool, midParked: bool, asleep: bool)
    : Scene
  {
    Scene(v, Init(Rtems).(pc := Per(hi, mid, one, AwaitToken), spin := FRESH, tokens := tokens,
                          parked := Per(hiParked, midParked, false, false), asleep := asleep))
  }

  /** A scene of the startup. */
  function Opening(hi: Pc, mid: Pc, one: Pc, hiParked: bool, midParked: bool): Scene {
    Scene(IDLE, Init(Rtems).(pc := Per(hi, mid, one, Dormant), parked := Per(hiParked, midParked, false, false)))
  }

  const NONE: Tokens := Tokens(UNUSED, UNUSED, UNUSED)
  const ONE: Tokens := Tokens(UNUSED, UNUSED, POSTED)
  const TWO: Tokens := Tokens(TAKEN, UNUSED, POSTED)
  const ALL: Tokens := Tokens(TAKEN, TAKEN, POSTED)

  /**
    The scenes of the run: startup; the first post, which TLO has no time to take; THI waits
    for SHI over a nap that ends at once; THI's and TMID's turns; the rest of the iteration,
    and after another short sleep the post again.
  */
  function SceneAt(i: nat): Scene {
    match i
    case 0 => Scene(IDLE, Init(Rtems))
    case 1 => Opening(AwaitToken, Dormant, StartMid, false, false)
    case 2 => Opening(Enter, Dormant, StartMid, true, false)
    case 3 => Opening(Enter, AwaitToken, StartLo, true, false)
    case 4 => Opening(Enter, Work, StartLo, true, true)
    case 5 => Stage(IDLE, Enter, Work, LockLo, NONE, true, true, false)
    case 6 => Stage(LO, Enter, Work, PostLo, NONE, true, true, false)
    case 7 => Stage(LO, Enter, Work, LockHi, ONE, true, true, false)
    case 8 => Stage(BOTH, Enter, Work, PostHi, ONE, true, true, false)
    case 9 => Stage(BOTH, Enter, Work, Nap, TWO, false, true, false)
    case 10 => Stage(WAITING, Work, Work, Nap, TWO, false, true, false)
    case 11 => Stage(WAITING, Work, Work, Read1, TWO, false, true, true)
    case 12 => Stage(WAITING, Work, Work, Read1, TWO, false, true, false)
    case 13 => Stage(WAITING, Work, Work, PostMid, TWO, false, true, false)
    case 14 => Stage(WAITING, Work, Work, Work1, ALL, false, false, false)
    case 15 => Stage(WAITING, Work, Work, UnlockHi, ALL, false, false, false)
    case 16 => Stage(GIVEN, Work, Work, Read2, ALL, false, false, false)
    case 17 => Stage(GIVEN, Leave, Work, Read2, ALL, false, false, false)
    case 18 => Stage(LO, AwaitToken, Work, Read2, ALL, false, false, false)
    case 19 => Stage(LO, Enter, Work, Read2, ALL, true, false, false)
    case 20 => Stage(LO, Enter, AwaitToken, Read2, ALL, true, false, false)
    case 21 => Stage(LO, Enter, Work, Read2, ALL, true, true, false)
    case 22 => Stage(LO, Enter, Work, Work2, ALL, true, true, false)
    case 23 => Stage(LO, Enter, Work, UnlockLo, ALL, true, true, false)
    case 24 => Stage(IDLE, Enter, Work, Read3, ALL, true, true, false)
    case 25 => Stage(IDLE, Enter, Work, Work3, ALL, true, true, false)
    case 26 => Stage(IDLE, Enter, Work, Rest, ALL, true, true, false)
    case 27 => Stage(IDLE, Enter, Work, LockLo, ALL, true, true, true)
    case 28 => Stage(IDLE, Enter, Work, LockLo, ALL, true, true, false)
    case _ => Stage(LO, Enter, Work, PostLo, ALL, true, true, false)
  }

  function MoveAt(i: nat): Move {
    match i
    case 1 => Act(THI)
    case 3 => Act(TMID)
    case 9 => Act(THI)
    case 11 => Wake
    case 14 => WorkOff(TASK1)
    case 16 => WorkOff(THI)
    case 17 => Act(THI)
    case 18 => Act(THI)
    case 19 => WorkOff(TMID)
    case 20 => Act(TMID)
    case 22 => WorkOff(TASK1)
    case 25 => WorkOff(TASK1)
    case 27 => Wake
    case _ => Act(TASK1)
  }

  predicate Linked(i: nat) {
    Moved(SceneAt(i), MoveAt(i)) == Some(SceneAt(i + 1))
  }

  /** All tasks start; THI and TMID wait for their release. */
  lemma StartupLinked(i: nat)
    requires 0 <= i < 5
    ensures Linked(i)
  {
    if i == 0 { } else if i == 1 { } else if i == 2 { } else if i == 3 { }
  }

  /** Task_1 posts RLO, which TLO has no time to take, and releases THI, which blocks on SHI. */
  lemma FirstPostLinked(i: nat)
    requires 5 <= i < 10
    ensures Linked(i)
  {
    if i == 5 { } else if i == 6 { } else if i == 7 { } else if i == 8 { }
  }

  /** The nap ends at once; Task_1 releases TMID, works and gives SHI to THI. */
  lemma SectionLinked(i: nat)
    requires 10 <= i < 16
    ensures Linked(i)
  {
    if i == 10 { } else if i == 11 { } else if i == 12 { } else if i == 13 { } else if i == 14 { }
  }

  /** THI and TMID complete their turns. */
  lemma GuestsLinked(i: nat)
    requires 16 <= i < 21
    ensures Linked(i)
  {
    if i == 16 { } else if i == 17 { } else if i == 18 { } else if i == 19 { }
  }

  /** Task_1 finishes its iteration. */
  lemma RestLinked(i: nat)
    requires 21 <= i < 25
    ensures Linked(i)
  {
    if i == 21 { } else if i == 22 { } else if i == 23 { }
  }

  /** Its sleep ends at once, and it is back at its post to RLO. */
  lemma ReturnLinked(i: nat)
    requires 25 <= i < 29
    ensures Linked(i)
  {
    if i == 25 { } else if i == 26 { } else if i == 27 { }
  }

  lemma AllLinked(i: nat)
    requires i < 29
    ensures Linked(i)
  {
    if i < 5 {
      StartupLinked(i);
    } else if i < 10 {
      FirstPostLinked(i);
    } else if i < 16 {
      SectionLinked(i);
    } else if i < 21 {
      GuestsLinked(i);
    } else if i < 25 {
      RestLinked(i);
    } else {
      ReturnLinked(i);
    }
  }

  /** Where each move leads to the next scene a strict-priority run leads to the last. */
  lemma {:induction false} Reaches(scene: nat -> Scene, move: nat -> Move, n: nat)
    returns (ss: seq<Sys>, ls: seq<Label>)
    requires scene(0) == Scene(IDLE, Init(Rtems))
    requires forall i: nat :: i < n ==> Moved(scene(i), move(i)) == Some(scene(i + 1))
    ensures EndsIn(ss, ls, scene(n).v, scene(n).z)
  {
    if n == 0 {
      ss, ls := [Init(Rtems)], [];
      ControlInit(Rtems);
    } else {
      ss, ls := Reaches(scene, move, n - 1);
      ss, ls := MovedRun(ss, ls, scene(n - 1), move(n - 1), scene(n));
    }
  }

  /** Task_1 is about to post RLO, whose token of the previous post TLO has not taken. */
  predicate AtSecondPost(x: Scene) {
    && OpAt(TASK1, x.z.pc.one) == Post(RLO) && Ready(x.v, x.z, TASK1) && Dispatch(x.v, x.z, TASK1)
    && x.z.tokens.lo.value == 1 && x.z.tokens.lo.lost == 0 && !x.z.parked.lo
  }

  lemma SecondPost(x: Scene)
    requires AtSecondPost(x)
    ensures NextView(x.v, TASK1, Post(RLO)) == x.v && NextShadow(x.z, TASK1).tokens.lo.lost == 1
  {
  }

  lemma ShadowTokens(ss: seq<Sys>, ls: seq<Label>, v: View, z: Sys)
    requires EndsIn(ss, ls, v, z)
    ensures |ss| == |ls| + 1 && ss[|ls|].tokens == z.tokens
  {
  }

  lemma PostLoses(ss: seq<Sys>, ls: seq<Label>, x: Scene) returns (ss': seq<Sys>, ls': seq<Label>)
    requires EndsIn(ss, ls, x.v, x.z) && AtSecondPost(x)
    ensures Run(Rtems, Strict, ss', ls') && |ls'| > 0 && ls'[|ls'| - 1] == Do(TASK1, Post(RLO))
    ensures ss'[|ls'| - 1].tokens.lo.lost == 0 && ss'[|ls'|].tokens.lo.lost == 1
  {
    SecondPost(x);
    ShadowTokens(ss, ls, x.v, x.z);
    ss', ls' := Goes(ss, ls, x.v, x.z, TASK1, x.v, NextShadow(x.z, TASK1));
    ShadowTokens(ss', ls', x.v, NextShadow(x.z, TASK1));
  }

  lemma ReachesAndLoses(scene: nat -> Scene, move: nat -> Move, n: nat) returns (ss: seq<Sys>, ls: seq<Label>)
    requires scene(0) == Scene(IDLE, Init(Rtems)) && AtSecondPost(scene(n))
    requires forall i: nat :: i < n ==> Moved(scene(i), move(i)) == Some(scene(i + 1))
    ensures Run(Rtems, Strict, ss, ls) && |ls| > 0 && ls[|ls| - 1] == Do(TASK1, Post(RLO))
    ensures ss[|ls| - 1].tokens.lo.lost == 0 && ss[|ls|].tokens.lo.lost == 1
  {
    ss, ls := Reaches(scene, move, n);
    ss, ls := PostLoses(ss, ls, scene(n));
  }

  lemma LastScene()
    ensures SceneAt(0) == Scene(IDLE, Init(Rtems)) && AtSecondPost(SceneAt(29))
  {
  }

  /** Under strict priority a token for RLO can be lost: a run ends with a lost post. */
  lemma LosesToken() returns (ss: seq<Sys>, ls: seq<Label>)
    ensures Run(Rtems, Strict, ss, ls) && |ls| > 0 && ls[|ls| - 1] == Do(TASK1, Post(RLO))
    ensures ss[|ls| - 1].tokens.lo.lost == 0 && ss[|ls|].tokens.lo.lost == 1
  {
    LastScene();
    forall i: nat | i < 29 ensures Moved(SceneAt(i), MoveAt(i)) == Some(SceneAt(i + 1)) {
      AllLinked(i);
    }
    ss, ls := ReachesAndLoses(SceneAt, MoveAt, 29);
  }
}
