/**
  The four tasks of the priority-inheritance tests as one step system, in the RTEMS flavour
  (binary release semaphores, priority readback) and the POSIX flavour (counting release
  semaphores, no readback, one more sleep at startup).

  A task that blocks inside a call already stands at the statement after the call; it is
  not ready while the kernel lists it as a waiter (`k.waits`, `parked`) or as sleeping.
*/
module Scenario {
  import opened PriorityInheritance

  datatype Task = THI | TMID | TASK1 | TLO
  datatype Mutex = SHI | SLO
  datatype Token = RHI | RMID | RLO

  /** `fifoMin` is what sched_get_priority_min(SCHED_FIFO) returns. */
  datatype Flavour = Rtems | Posix(fifoMin: int)

  /** POSIX priorities count upwards, so they are negated: smaller is more urgent. */
  function BaseOf(f: Flavour, t: Task): int {
    match f
    case Rtems => (match t case THI => 40 case TMID => 45 case TASK1 => 50 case TLO => 60)
    case Posix(min) =>
      (match t case THI => -(min + 13) case TMID => -(min + 12) case TASK1 => -(min + 11) case TLO => -(min + 10))
  }

  function Base(f: Flavour): map<Task, int> {
    map[THI := BaseOf(f, THI), TMID := BaseOf(f, TMID), TASK1 := BaseOf(f, TASK1), TLO := BaseOf(f, TLO)]
  }

  datatype Per<X> = Per(hi: X, mid: X, one: X, lo: X) {
    function At(t: Task): X {
      match t case THI => hi case TMID => mid case TASK1 => one case TLO => lo
    }
    function With(t: Task, x: X): Per<X> {
      match t
      case THI => this.(hi := x)
      case TMID => this.(mid := x)
      case TASK1 => this.(one := x)
      case TLO => this.(lo := x)
    }
  }

  /** One release semaphore: its value, and a record of its posts, takes and lost posts. */
  datatype Count = Count(value: nat, posts: nat, takes: nat, lost: nat)

  datatype Tokens = Tokens(hi: Count, mid: Count, lo: Count) {
    function At(r: Token): Count {
      match r case RHI => hi case RMID => mid case RLO => lo
    }
    function With(r: Token, c: Count): Tokens {
      match r case RHI => this.(hi := c) case RMID => this.(mid := c) case RLO => this.(lo := c)
    }
  }

  // ---------- block_delay ----------

  /** Where the nested counting loops stand: before the outer test, or before the inner one. */
  datatype Spin = Outer(delay: nat) | Inner(delay: nat, l: nat)

  const DELAY: nat := 100
  const INNER: nat := 100000

  function SpinNext(sp: Spin): Spin
    requires sp != Outer(0)
  {
    match sp
    case Outer(d) => Inner(d - 1, INNER)
    case Inner(d, l) => if l == 0 then Outer(d) else Inner(d, l - 1)
  }

  /** Loop tests left until the outer loop ends, the failing one included. */
  function SpinLeft(sp: Spin): nat {
    match sp
    case Outer(d) => d * (INNER + 2) + 1
    case Inner(d, l) => d * (INNER + 2) + 1 + l + 1
  }

  // ---------- Programs ----------

  datatype Pc =
    | Dormant
    | AwaitToken | Enter | Work | Leave
    | StartHi | StartMid | StartLo | Settle
    | LockLo | PostLo | LockHi | PostHi | Nap | Read1 | PostMid | Work1
    | UnlockHi | Read2 | Work2 | UnlockLo | Read3 | Work3 | Rest

  datatype Op = Nop | Start(t: Task) | Lock(m: Mutex) | Unlock(m: Mutex) | Take(r: Token) | Post(r: Token)
              | Sleep | ReadPrio | Delay

  /** The statement a task stands at. */
  function OpAt(t: Task, pc: Pc): Op {
    match t
    case THI => match pc {
      case AwaitToken => Take(RHI) case Enter => Lock(SHI) case Work => Delay case Leave => Unlock(SHI) case _ => Nop }
    case TMID => match pc {
      case AwaitToken => Take(RMID) case Work => Delay case _ => Nop }
    case TLO => match pc {
      case AwaitToken => Take(RLO) case Enter => Lock(SLO) case Work => Delay case Leave => Unlock(SLO) case _ => Nop }
    case TASK1 => match pc {
      case StartHi => Start(THI) case StartMid => Start(TMID) case StartLo => Start(TLO) case Settle => Sleep
      case LockLo => Lock(SLO) case PostLo => Post(RLO) case LockHi => Lock(SHI) case PostHi => Post(RHI)
      case Nap => Sleep case Read1 => ReadPrio case PostMid => Post(RMID) case Work1 => Delay
      case UnlockHi => Unlock(SHI) case Read2 => ReadPrio case Work2 => Delay
      case UnlockLo => Unlock(SLO) case Read3 => ReadPrio case Work3 => Delay case Rest => Sleep case _ => Nop }
  }

  /** The statement that follows in the program text. */
  function After(f: Flavour, t: Task, pc: Pc): Pc {
    if t != TASK1 then
      match pc {
        case AwaitToken => if t == TMID then Work else Enter
        case Enter => Work
        case Work => if t == TMID then AwaitToken else Leave
        case _ => AwaitToken
      }
    else
      match pc {
        case StartHi => StartMid case StartMid => StartLo
        case StartLo => if f.Rtems? then LockLo else Settle
        case Settle => LockLo
        case LockLo => PostLo case PostLo => LockHi case LockHi => PostHi case PostHi => Nap
        case Nap => if f.Rtems? then Read1 else PostMid
        case Read1 => PostMid case PostMid => Work1 case Work1 => UnlockHi
        case UnlockHi => if f.Rtems? then Read2 else Work2
        case Read2 => Work2 case Work2 => UnlockLo
        case UnlockLo => if f.Rtems? then Read3 else Work3
        case Read3 => Work3 case Work3 => Rest
        case _ => LockLo
      }
  }

  /** The statements whose completion ends one turn of a task's endless loop. */
  predicate EndsCycle(t: Task, pc: Pc) {
    pc == Leave || pc == Rest || (t == TMID && pc == Work)
  }

  function Consumer(r: Token): Task {
    match r case RHI => THI case RMID => TMID case RLO => TLO
  }

  // ---------- States ----------

  /** What has happened so far: only recorded, never read by a step. */
  datatype History = History(readings: seq<int>, cycles: Per<nat>)

  /** `fault`: a mutex was released by a task that does not own it, or obtained twice. */
  datatype Sys = Sys(
    k: Kernel<Task, Mutex>,
    pc: Per<Pc>,
    spin: Per<Spin>,
    tokens: Tokens,
    parked: Per<bool>,
    asleep: bool,
    fault: bool,
    log: History)

  function Init(f: Flavour): Sys {
    var zero := Count(0, 0, 0, 0);
    Sys(Kernel(Base(f), Base(f), map[], map[]),
        Per(Dormant, Dormant, StartHi, Dormant),
        Per(Outer(DELAY), Outer(DELAY), Outer(DELAY), Outer(DELAY)),
        Tokens(zero, zero, zero), Per(false, false, false, false), false, false,
        History([], Per(0, 0, 0, 0)))
  }

  ghost predicate Typed(f: Flavour, s: Sys) {
    WellFormed(s.k) && s.k.base == Base(f) && forall t: Task :: t in s.k.base
  }

  // ---------- Who holds and who waits ----------

  datatype Holder = Free | By(t: Task)
  datatype Waiting = No | On(m: Mutex)

  /** The part of the kernel state that does not mention priorities. */
  datatype View = View(shi: Holder, slo: Holder, waits: Per<Waiting>) {
    function Of(m: Mutex): Holder {
      match m case SHI => shi case SLO => slo
    }
    function Set(m: Mutex, h: Holder): View {
      match m case SHI => this.(shi := h) case SLO => this.(slo := h)
    }
    predicate Waited(m: Mutex) {
      waits.hi == On(m) || waits.mid == On(m) || waits.one == On(m) || waits.lo == On(m)
    }
    function Wait(t: Task, w: Waiting): View {
      this.(waits := waits.With(t, w))
    }
  }

  function HolderOf(k: Kernel<Task, Mutex>, m: Mutex): Holder {
    if m in k.owner then By(k.owner[m]) else Free
  }

  function WaitingOf(k: Kernel<Task, Mutex>, t: Task): Waiting {
    if t in k.waits then On(k.waits[t]) else No
  }

  function ViewOf(k: Kernel<Task, Mutex>): View {
    View(HolderOf(k, SHI), HolderOf(k, SLO),
         Per(WaitingOf(k, THI), WaitingOf(k, TMID), WaitingOf(k, TASK1), WaitingOf(k, TLO)))
  }

  predicate Ready(v: View, s: Sys, t: Task) {
    && !s.pc.At(t).Dormant?
    && v.waits.At(t).No?
    && !s.parked.At(t)
    && !(t.TASK1? && s.asleep)
  }

  // ---------- Steps ----------

  function Advance(f: Flavour, s: Sys, t: Task): Sys {
    s.(pc := s.pc.With(t, After(f, t, s.pc.At(t))),
       log := if EndsCycle(t, s.pc.At(t)) then s.log.(cycles := s.log.cycles.With(t, s.log.cycles.At(t) + 1))
              else s.log)
  }

  /** A post: handed to a parked taker, else counted; a binary semaphore saturates at 1. */
  function Posted(f: Flavour, c: Count, parked: bool): Count {
    if parked then c.(posts := c.posts + 1, takes := c.takes + 1)
    else if f.Rtems? && c.value >= 1 then c.(posts := c.posts + 1, lost := c.lost + 1)
    else c.(posts := c.posts + 1, value := c.value + 1)
  }

  function PostTo(f: Flavour, s: Sys, r: Token): Sys {
    var u := Consumer(r);
    s.(tokens := s.tokens.With(r, Posted(f, s.tokens.At(r), s.parked.At(u))), parked := s.parked.With(u, false))
  }

  function TakeFrom(s: Sys, t: Task, r: Token): Sys {
    var c := s.tokens.At(r);
    if c.value > 0 then s.(tokens := s.tokens.With(r, c.(value := c.value - 1, takes := c.takes + 1)))
    else s.(parked := s.parked.With(t, true))
  }

  function DelayStep(f: Flavour, s: Sys, t: Task): Sys {
    if s.spin.At(t) == Outer(0) then Advance(f, s, t).(spin := s.spin.With(t, Outer(DELAY)))
    else s.(spin := s.spin.With(t, SpinNext(s.spin.At(t))))
  }

  /** What a statement of `t` does outside the kernel's mutexes; `prio` is the priority read. */
  function Effect(f: Flavour, s: Sys, t: Task, op: Op, prio: int): Sys {
    var adv := Advance(f, s, t);
    match op
    case Nop => s
    case Start(u) => adv.(pc := adv.pc.With(u, AwaitToken))
    case Lock(_) => adv
    case Unlock(_) => adv
    case Take(r) => TakeFrom(adv, t, r)
    case Post(r) => PostTo(f, adv, r)
    case Sleep => adv.(asleep := true)
    case ReadPrio => adv.(log := adv.log.(readings := adv.log.readings + [prio]))
    case Delay => DelayStep(f, s, t)
  }

  ghost predicate Served(k: Kernel<Task, Mutex>, t: Task, op: Op, k': Kernel<Task, Mutex>)
    requires WellFormed(k) && t in k.base && t !in k.waits
  {
    match op
    case Lock(m) => k' == Obtain(k, t, m)
    case Unlock(m) => HolderOf(k, m) == By(t) && Released(k, t, m, k')
    case _ => k' == k
  }

  /** A mutex obtained twice or released by a task that does not own it. */
  predicate Misuse(v: View, t: Task, op: Op) {
    (op.Lock? && v.Of(op.m) == By(t)) || (op.Unlock? && v.Of(op.m) != By(t))
  }

  /** One statement of task `t`. */
  ghost predicate Perform(f: Flavour, s: Sys, t: Task, op: Op, s': Sys)
    requires Typed(f, s) && t !in s.k.waits
  {
    if Misuse(ViewOf(s.k), t, op) then s' == s.(fault := true)
    else Served(s.k, t, op, s'.k) && s' == Effect(f, s, t, op, s.k.eff[t]).(k := s'.k)
  }

  datatype Label = Do(t: Task, op: Op) | Timer

  ghost predicate Next(f: Flavour, s: Sys, l: Label, s': Sys) {
    && Typed(f, s)
    && match l
       case Timer => s.asleep && s' == s.(asleep := false)
       case Do(t, op) =>
         Ready(ViewOf(s.k), s, t) && op == OpAt(t, s.pc.At(t)) && !op.Nop? && Perform(f, s, t, op, s')
  }

  // ---------- What a statement does to the view ----------

  predicate Seen(v: View, t: Task, op: Op, v': View) {
    match op
    case Lock(m) => v' == if v.Of(m).Free? then v.Set(m, By(t)) else v.Wait(t, On(m))
    case Unlock(m) =>
      if !v.Waited(m) then v' == v.Set(m, Free)
      else exists w: Task :: v.waits.At(w) == On(m) && v' == v.Set(m, By(w)).Wait(w, No)
    case _ => v' == v
  }

  /** A statement of `t` as the view sees it; `prio` is the priority `t` runs at. */
  predicate Acts(f: Flavour, v: View, s: Sys, t: Task, op: Op, prio: int, v': View, s': Sys) {
    && Ready(v, s, t) && op == OpAt(t, s.pc.At(t)) && !op.Nop?
    && Seen(v, t, op, v')
    && s' == Effect(f, s, t, op, prio).(k := s'.k)
  }

  /** A test of a counting loop that does not end the delay. */
  predicate Spins(s: Sys, t: Task, op: Op) {
    op.Delay? && s.spin.At(t) != Outer(0)
  }

  lemma PerformActs(f: Flavour, s: Sys, t: Task, op: Op, s': Sys)
    requires Typed(f, s) && Ready(ViewOf(s.k), s, t) && op == OpAt(t, s.pc.At(t)) && !op.Nop?
    requires !Misuse(ViewOf(s.k), t, op) && Perform(f, s, t, op, s')
    ensures Acts(f, ViewOf(s.k), s, t, op, s.k.eff[t], ViewOf(s'.k), s')
  {
    match op
    case Lock(m) => LockSeen(s.k, t, m, s'.k);
    case Unlock(m) => UnlockSeen(s.k, t, m, s'.k);
    case _ =>
  }

  lemma LockSeen(k: Kernel<Task, Mutex>, t: Task, m: Mutex, k': Kernel<Task, Mutex>)
    requires WellFormed(k) && t in k.base && t !in k.waits && k' == Obtain(k, t, m)
    ensures Seen(ViewOf(k), t, Lock(m), ViewOf(k'))
  {
  }

  lemma UnlockSeen(k: Kernel<Task, Mutex>, t: Task, m: Mutex, k': Kernel<Task, Mutex>)
    requires WellFormed(k) && t in k.base && t !in k.waits && HolderOf(k, m) == By(t) && Released(k, t, m, k')
    ensures Seen(ViewOf(k), t, Unlock(m), ViewOf(k'))
  {
    var w := ReleaseEffect(k, t, m, k');
    ReleaseSeen(k, t, m, w, k');
  }

  lemma ReleaseSeen(k: Kernel<Task, Mutex>, t: Task, m: Mutex, w: Task, k': Kernel<Task, Mutex>)
    requires NoWaiter(k, m) ==> k'.owner == k.owner - {m} && k'.waits == k.waits
    requires !NoWaiter(k, m) ==>
              w in k.waits && k.waits[w] == m && k'.owner == k.owner[m := w] && k'.waits == k.waits - {w}
    ensures Seen(ViewOf(k), t, Unlock(m), ViewOf(k'))
  {
    if NoWaiter(k, m) {
      FreedView(k, m, k');
    } else {
      HandedView(k, m, w, k');
      assert ViewOf(k).waits.At(w) == On(m);
    }
  }

  lemma FreedView(k: Kernel<Task, Mutex>, m: Mutex, k': Kernel<Task, Mutex>)
    requires NoWaiter(k, m) && k'.owner == k.owner - {m} && k'.waits == k.waits
    ensures !ViewOf(k).Waited(m) && ViewOf(k') == ViewOf(k).Set(m, Free)
  {
  }

  lemma HandedView(k: Kernel<Task, Mutex>, m: Mutex, w: Task, k': Kernel<Task, Mutex>)
    requires w in k.waits && k.waits[w] == m && k'.owner == k.owner[m := w] && k'.waits == k.waits - {w}
    ensures ViewOf(k).Waited(m) && ViewOf(k') == ViewOf(k).Set(m, By(w)).Wait(w, No)
  {
  }

  // ---------- Schedulers and runs ----------

  /**
    Any: arbitrary interleaving.  Strict: one CPU, only a most urgent ready task runs, timers
    may fire at any moment.  Patient: strict, and a sleep ends only when no task is ready.
  */
  datatype Sched = Any | Strict | Patient

  predicate Urgent(s: Sys, t: Task) {
    forall u: Task :: t in s.k.eff && u in s.k.eff && Ready(ViewOf(s.k), s, u) ==> s.k.eff[t] <= s.k.eff[u]
  }

  predicate Allowed(c: Sched, s: Sys, l: Label) {
    && (c != Any && l.Do? ==> Urgent(s, l.t))
    && (c == Patient && l.Timer? ==> forall u: Task :: !Ready(ViewOf(s.k), s, u))
  }

  ghost predicate Step(f: Flavour, c: Sched, s: Sys, l: Label, s': Sys) {
    Allowed(c, s, l) && Next(f, s, l, s')
  }

  ghost predicate StepFrom(f: Flavour, c: Sched, ss: seq<Sys>, ls: seq<Label>, i: nat)
    requires |ss| == |ls| + 1 && i < |ls|
  {
    Step(f, c, ss[i], ls[i], ss[i + 1])
  }

  /** `ss` is a path of the step system under `ls`. */
  ghost predicate Path(f: Flavour, c: Sched, ss: seq<Sys>, ls: seq<Label>) {
    && |ss| == |ls| + 1
    && forall i :: 0 <= i < |ls| ==> StepFrom(f, c, ss, ls, i)
  }

  ghost predicate Run(f: Flavour, c: Sched, ss: seq<Sys>, ls: seq<Label>) {
    Path(f, c, ss, ls) && ss[0] == Init(f)
  }
}
