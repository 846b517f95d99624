/**
  The step system in its imperative form: one object whose fields the tasks update in place,
  with the loops of the kernel contract and of block_delay written out, and one method that
  executes a statement of a task.
*/
module Board {
  import opened PriorityInheritance
  import opened Scenario
  import opened AnyScheduler

  /** The nested counting loops; `tests` counts how often a loop condition is evaluated. */
  method BlockDelay(delay: nat) returns (tests: nat)
    ensures tests == SpinLeft(Outer(delay))
  {
    var d: int, l: int := delay, 0;
    tests := 1;
    while d != 0
      invariant 0 <= d
      invariant tests + SpinLeft(Outer(d)) == 1 + SpinLeft(Outer(delay))
    {
      d := d - 1;
      l := INNER;
      tests := tests + 1;
      while l != 0
        invariant 0 <= l
        invariant tests + l + 1 + SpinLeft(Outer(d)) == 1 + SpinLeft(Outer(delay))
      {
        l := l - 1;
        tests := tests + 1;
      }
      l := l - 1;
      tests := tests + 1;
    }
    d := d - 1;
  }

  /** The order in which loops over the tasks visit them. */
  function Index(t: Task): nat {
    match t case THI => 0 case TMID => 1 case TASK1 => 2 case TLO => 3
  }

  function TaskAt(i: nat): (t: Task)
    requires i < 4
    ensures Index(t) == i && forall u: Task :: Index(u) == i ==> u == t
  {
    if i == 0 then THI else if i == 1 then TMID else if i == 2 then TASK1 else TLO
  }

  class Machine {
    const flavour: Flavour
    var eff: map<Task, int>
    var owner: map<Mutex, Task>
    var waits: map<Task, Mutex>
    var pc: Per<Pc>
    var spin: Per<Spin>
    var tokens: Tokens
    var parked: Per<bool>
    var asleep: bool
    var fault: bool
    var log: History

    function Kern(): Kernel<Task, Mutex>
      reads this
    {
      Kernel(Base(flavour), eff, owner, waits)
    }

    function State(): Sys
      reads this
    {
      Sys(Kern(), pc, spin, tokens, parked, asleep, fault, log)
    }

    constructor (f: Flavour)
      ensures flavour == f && State() == Init(f)
    {
      var s := Init(f);
      flavour := f;
      eff, owner, waits := s.k.eff, s.k.owner, s.k.waits;
      pc, spin, tokens, parked := s.pc, s.spin, s.tokens, s.parked;
      asleep, fault, log := s.asleep, s.fault, s.log;
    }

    method RaiseChain(t: Task, p: int)
      requires WellFormed(Kern()) && t in Base(flavour)
      modifies this`eff
      ensures Kern() == Raise(old(Kern()), t, p)
    {
      var u, more := t, true;
      while more && p < eff[u]
        invariant WellFormed(Kern()) && u in Base(flavour)
        invariant owner == old(owner) && waits == old(waits)
        invariant more ==> Raise(Kern(), u, p) == Raise(old(Kern()), t, p)
        invariant !more ==> Kern() == Raise(old(Kern()), t, p)
        decreases |Above(eff, p)|, more
      {
        ghost var was := eff;
        eff := eff[u := p];
        assert Above(eff, p) == Above(was, p) - {u} && u in Above(was, p);
        if u in waits {
          u := owner[waits[u]];
        } else {
          more := false;
        }
      }
    }

    method Obtain(t: Task, m: Mutex)
      requires WellFormed(Kern()) && t in Base(flavour) && t !in waits
      modifies this`eff, this`owner, this`waits
      ensures Kern() == PriorityInheritance.Obtain(old(Kern()), t, m)
    {
      if m !in owner {
        owner := owner[m := t];
      } else {
        waits := waits[t := m];
        RaiseChain(owner[m], eff[t]);
      }
    }

    method PickWaiter(m: Mutex) returns (found: bool, w: Task)
      requires WellFormed(Kern())
      ensures found ==> BestWaiter(Kern(), m, w)
      ensures !found ==> NoWaiter(Kern(), m)
    {
      found, w := false, THI;
      for i := 0 to 4
        invariant found ==> w in waits && waits[w] == m
        invariant forall x: Task :: Index(x) < i && x in waits && waits[x] == m ==> found && eff[w] <= eff[x]
      {
        var u := TaskAt(i);
        if u in waits && waits[u] == m && (!found || eff[u] < eff[w]) {
          found, w := true, u;
        }
      }
    }

    /** Recomputes the priority of `t` from its own and those of the tasks it still blocks. */
    method Recompute(t: Task)
      requires WellFormed(Kern()) && t in Base(flavour) && !Blocks(Kern(), t, t)
      modifies this`eff
      ensures Recomputed(old(Kern()), Kern(), t)
    {
      ghost var k := Kern();
      var p := Base(flavour)[t];
      ghost var from := t;
      for i := 0 to 4
        invariant Kern() == k && p <= Base(flavour)[t]
        invariant p != Base(flavour)[t] ==> Blocks(k, from, t) && eff[from] == p
        invariant forall x: Task :: Index(x) < i && Blocks(k, x, t) ==> p <= eff[x]
      {
        var u := TaskAt(i);
        if Blocks(Kern(), u, t) && eff[u] < p {
          p := eff[u];
          from := u;
        }
      }
      eff := eff[t := p];
      RecomputedSettled(k, Kern(), t, p, from);
    }

    method Release(t: Task, m: Mutex)
      requires WellFormed(Kern()) && t in Base(flavour) && t !in waits && m in owner && owner[m] == t
      modifies this`eff, this`owner, this`waits
      ensures Released(old(Kern()), t, m, Kern())
    {
      var found, w := PickWaiter(m);
      if found {
        owner := owner[m := w];
        waits := waits - {w};
      } else {
        owner := owner - {m};
      }
      Recompute(t);
    }

    method Serve(t: Task, op: Op)
      requires WellFormed(Kern()) && t in Base(flavour) && t !in waits
      requires op.Unlock? ==> HolderOf(Kern(), op.m) == By(t)
      modifies this`eff, this`owner, this`waits
      ensures Served(old(Kern()), t, op, Kern())
    {
      match op {
        case Lock(m) => Obtain(t, m);
        case Unlock(m) => Release(t, m);
        case _ =>
      }
    }

    /** The program counter of `t` moves on; a turn of its loop may be complete. */
    method Proceed(t: Task)
      modifies this`pc, this`log
      ensures State() == Advance(flavour, old(State()), t)
    {
      if EndsCycle(t, pc.At(t)) {
        log := log.(cycles := log.cycles.With(t, log.cycles.At(t) + 1));
      }
      pc := pc.With(t, After(flavour, t, pc.At(t)));
    }

    /** A wait for a release semaphore: count down, or park. */
    method TakeToken(t: Task, r: Token)
      modifies this`tokens, this`parked
      ensures State() == TakeFrom(old(State()), t, r)
    {
      var c := tokens.At(r);
      if c.value > 0 {
        tokens := tokens.With(r, c.(value := c.value - 1, takes := c.takes + 1));
      } else {
        parked := parked.With(t, true);
      }
    }

    /** A post: wake the parked task, or count, or lose the token. */
    method PostToken(r: Token)
      modifies this`tokens, this`parked
      ensures State() == PostTo(flavour, old(State()), r)
    {
      var u, c := Consumer(r), tokens.At(r);
      c := c.(posts := c.posts + 1);
      if parked.At(u) {
        c := c.(takes := c.takes + 1);
      } else if flavour.Rtems? && c.value >= 1 {
        c := c.(lost := c.lost + 1);
      } else {
        c := c.(value := c.value + 1);
      }
      tokens := tokens.With(r, c);
      parked := parked.With(u, false);
    }

    /** One test of the counting loops, with the decrement it makes. */
    method TestDelay(t: Task)
      modifies this`pc, this`spin, this`log
      ensures State() == DelayStep(flavour, old(State()), t)
    {
      match spin.At(t) {
        case Outer(d) =>
          if d == 0 {
            Proceed(t);
            spin := spin.With(t, Outer(DELAY));
          } else {
            spin := spin.With(t, Inner(d - 1, INNER));
          }
        case Inner(d, l) =>
          if l == 0 {
            spin := spin.With(t, Outer(d));
          } else {
            spin := spin.With(t, Inner(d, l - 1));
          }
      }
    }

    /** What a statement does outside the mutexes, field by field. */
    method Act(t: Task, op: Op, prio: int)
      requires !op.Nop?
      modifies this`pc, this`spin, this`tokens, this`parked, this`asleep, this`log
      ensures State() == Effect(flavour, old(State()), t, op, prio)
    {
      if op.Delay? {
        TestDelay(t);
        return;
      }
      Proceed(t);
      match op {
        case Start(u) => pc := pc.With(u, AwaitToken);
        case Take(r) => TakeToken(t, r);
        case Post(r) => PostToken(r);
        case Sleep => asleep := true;
        case ReadPrio => log := log.(readings := log.readings + [prio]);
        case _ =>
      }
    }

    /** Executes the statement task `t` stands at. */
    method Execute(t: Task)
      requires Control(flavour, State()) && Ready(ViewOf(Kern()), State(), t)
      modifies this
      ensures Next(flavour, old(State()), Do(t, OpAt(t, old(pc).At(t))), State())
      ensures Control(flavour, State())
    {
      ghost var s := State();
      var op := OpAt(t, pc.At(t));
      CanServe(flavour, s, t);
      Act(t, op, eff[t]);
      Serve(t, op);
      ServedNext(flavour, s, t, op, State());
    }

    /** A most urgent ready task, if any task is ready. */
    method PickReady() returns (found: bool, t: Task)
      requires Typed(flavour, State())
      ensures found ==> Ready(ViewOf(Kern()), State(), t) && Urgent(State(), t)
      ensures !found ==> forall u: Task :: !Ready(ViewOf(Kern()), State(), u)
    {
      var s := State();
      found, t := false, THI;
      for i := 0 to 4
        invariant found ==> Ready(ViewOf(s.k), s, t)
        invariant forall u: Task :: Index(u) < i && Ready(ViewOf(s.k), s, u) ==>
                    found && (t in eff && u in eff ==> eff[t] <= eff[u])
      {
        var u := TaskAt(i);
        assert t in s.k.base && u in s.k.base;
        if Ready(ViewOf(s.k), s, u) && (!found || eff[u] < eff[t]) {
          found, t := true, u;
        }
      }
    }

    /** One strict-priority scheduling decision: a most urgent ready task, else the timer. */
    method Tick() returns (l: Label)
      requires Control(flavour, State())
      modifies this
      ensures Step(flavour, Strict, old(State()), l, State()) && Control(flavour, State())
    {
      ghost var s := State();
      var found, t := PickReady();
      if found {
        l := Do(t, OpAt(t, pc.At(t)));
        Execute(t);
      } else {
        l := Timer;
        asleep := false;
        TimerNext(flavour, s);
        assert State() == s.(asleep := false);
      }
    }
  }

  lemma TimerNext(f: Flavour, s: Sys)
    requires Control(f, s) && forall u: Task :: !Ready(ViewOf(s.k), s, u)
    ensures Step(f, Strict, s, Timer, s.(asleep := false)) && Control(f, s.(asleep := false))
  {
    if !s.asleep {
      SomeoneReady(f, ViewOf(s.k), s);
    }
    ControlStep(f, s, Timer, s.(asleep := false));
  }

  lemma CanServe(f: Flavour, s: Sys, t: Task)
    requires Control(f, s) && Ready(ViewOf(s.k), s, t)
    ensures WellFormed(s.k) && t in s.k.base && t in s.k.eff && t !in s.k.waits
    ensures OpAt(t, s.pc.At(t)).Unlock? ==> HolderOf(s.k, OpAt(t, s.pc.At(t)).m) == By(t)
    ensures !OpAt(t, s.pc.At(t)).Nop?
  {
    HasStatement(f, ViewOf(s.k), s, t);
    NoMisuse(f, ViewOf(s.k), s, t);
    assert t in s.k.base;
  }

  lemma ServedNext(f: Flavour, s: Sys, t: Task, op: Op, s': Sys)
    requires Control(f, s) && Ready(ViewOf(s.k), s, t) && op == OpAt(t, s.pc.At(t))
    requires t in s.k.base && t in s.k.eff && t !in s.k.waits && Served(s.k, t, op, s'.k)
    requires s' == Effect(f, s, t, op, s.k.eff[t]).(k := s'.k)
    ensures Next(f, s, Do(t, op), s') && Control(f, s')
  {
    NoMisuse(f, ViewOf(s.k), s, t);
    HasStatement(f, ViewOf(s.k), s, t);
    assert Perform(f, s, t, op, s');
    ControlStep(f, s, Do(t, op), s');
  }

  lemma RecomputedSettled(k: Kernel<Task, Mutex>, k': Kernel<Task, Mutex>, t: Task, p: int, from: Task)
    requires WellFormed(k) && t in k.base && !Blocks(k, t, t)
    requires k' == k.(eff := k.eff[t := p]) && p <= k.base[t]
    requires p != k.base[t] ==> Blocks(k, from, t) && k.eff[from] == p
    requires forall u :: Blocks(k, u, t) ==> p <= k.eff[u]
    ensures Recomputed(k, k', t)
  {
    if p != k.base[t] {
      assert Blocks(k', from, t) && k'.eff[from] == p;
    }
    forall u | Blocks(k', u, t) ensures p <= k'.eff[u] {
      assert Blocks(k, u, t);
    }
  }
}
