/**
  Concrete runs of the socket layer with three tasks.  A script names the task and the result
  of each step; what a script plays is a run.  Two scripts show what the code lets happen.
*/
module SocketScripts {
  import opened Types
  import opened Libio
  import opened SocketLayer
  import opened SocketOwnership

  datatype Move =
    | Begins(call: Call)   // a call of the glue
    | Closes(d: nat)       // libio admits a close
    | Serves(x: nat)       // the echo server gets its socket
    | Does(r: int)         // the next statement, with result r

  /** The state with tasks 0, 1 and 2; `holder` has the mutex once. */
  datatype Trio = Trio(
    table: seq<Iop>,
    closing: set<nat>,
    open: set<nat>,
    leaked: set<nat>,
    c0: Call,
    c1: Call,
    c2: Call,
    holder: Option<Tid>)
  {
    function Of(t: Tid): Call {
      if t == 0 then c0 else if t == 1 then c1 else c2
    }
    function With(t: Tid, c: Call): Trio {
      if t == 0 then this.(c0 := c) else if t == 1 then this.(c1 := c) else this.(c2 := c)
    }
    function State(): Layer {
      Layer(table, closing, open, leaked, map[0 := Thread(c0, 0), 1 := Thread(c1, 0), 2 := Thread(c2, 0)],
            holder, if holder.None? then 0 else 1, false, false)
    }
  }

  /** The state after an operation of `t` with result `r`, if it can give that. */
  function Effected(x: Trio, t: Tid, op: Op, r: int): Option<Trio> {
    match op
    case Acquire => if x.holder.None? then Some(x.(holder := Some(t))) else None
    case Drop => if x.holder == Some(t) then Some(x.(holder := None)) else None
    case LwipOpen => if r >= 0 && r !in x.open then Some(x.(open := x.open + {r})) else None
    case AcceptClient =>
      if r == 0 && 0 !in x.open then Some(x.(open := x.open + {0}, leaked := x.leaked + {0})) else None
    case LwipClose(y) => if y in x.open then Some(x.(open := x.open - {y})) else None
    case Outcome => Some(x)
    case Lookup(fd) => if IsInt(fd) && r == SysfdToLwipfd(x.table, fd).lwipfd then Some(x) else None
    case LookupIop(d) => if d < |x.table| && r == IopToLwipfd(x.table, Some(d)).lwipfd then Some(x) else None
    case Make(y) =>
      if 0 <= r < |x.table| && !x.table[r].inUse then
        Some(x.(table := x.table[r := Iop(true, SocketHandlers, y)])) else None
    case _ => None
  }

  function Apply(x: Trio, t: Tid, mv: Move): Option<Trio> {
    if t >= 3 then None
    else match mv
      case Does(r) =>
        (match Effected(x, t, OpOf(x.Of(t)), r)
         case None => None
         case Some(y) => Some(y.With(t, Continue(x.Of(t), r))))
      case Begins(call) => if x.Of(t).Idle? && IsEntry(call) then Some(x.With(t, call)) else None
      case Closes(d) =>
        if x.Of(t).Idle? && IsLive(x.State(), d) then
          Some(x.(closing := x.closing + {d}).With(t, CloseEnter(d))) else None
      case Serves(y) =>
        if x.Of(t).Idle? && y !in x.open then Some(x.(open := x.open + {y}).With(t, ServerBind(y))) else None
  }

  lemma WithGoes(x: Trio, t: Tid, c: Call)
    requires t < 3
    ensures x.With(t, c).State() == Goto(x.State(), t, c)
    ensures t in x.State().threads && x.State().threads[t] == Thread(x.Of(t), 0)
  {
    assert x.With(t, c).State().threads == Goto(x.State(), t, c).threads;
  }

  lemma EffectedEffect(x: Trio, t: Tid, op: Op, r: int)
    requires t < 3 && Effected(x, t, op, r).Some?
    ensures Effect(x.State(), t, op, r, Effected(x, t, op, r).value.State())
  {
    var y := Effected(x, t, op, r).value;
    if op.Make? {
      assert Made(x.table, op.x, r, y.table, None);
    }
  }

  lemma DoesStep(x: Trio, t: Tid, r: int)
    requires Apply(x, t, Does(r)).Some?
    ensures Step(x.State(), Apply(x, t, Does(r)).value.State())
  {
    var s, call := x.State(), x.Of(t);
    var y := Effected(x, t, OpOf(call), r).value;
    WithGoes(x, t, call);
    WithGoes(y, t, Continue(call, r));
    EffectedEffect(x, t, OpOf(call), r);
    assert Executes(s, t, r, y.State(), y.With(t, Continue(call, r)).State());
    assert Next(s, t, y.With(t, Continue(call, r)).State());
  }

  lemma ApplyStep(x: Trio, t: Tid, mv: Move)
    requires Apply(x, t, mv).Some?
    ensures Step(x.State(), Apply(x, t, mv).value.State())
  {
    var s' := Apply(x, t, mv).value.State();
    WithGoes(x, t, x.Of(t));
    match mv {
      case Does(r) => DoesStep(x, t, r);
      case Begins(call) =>
        WithGoes(x, t, call);
        assert Calls(x.State(), t, s') && Next(x.State(), t, s');
      case Closes(d) =>
        WithGoes(x.(closing := x.closing + {d}), t, CloseEnter(d));
        assert Calls(x.State(), t, s') && Next(x.State(), t, s');
      case Serves(y) =>
        WithGoes(x.(open := x.open + {y}), t, ServerBind(y));
        assert Calls(x.State(), t, s') && Next(x.State(), t, s');
    }
  }

  ghost predicate EndsIn(states: seq<Layer>, x: Trio) {
    Run(states) && states[|states| - 1] == x.State()
  }

  /** A run goes on with a move. */
  lemma Plays(states: seq<Layer>, x: Trio, t: Tid, mv: Move, y: Trio) returns (longer: seq<Layer>)
    requires EndsIn(states, x) && Apply(x, t, mv) == Some(y)
    ensures longer == states + [y.State()] && EndsIn(longer, y)
  {
    ApplyStep(x, t, mv);
    longer := states + [y.State()];
    forall k | 0 <= k < |longer| ensures StepAt(longer, k) {
      assert k < |states| ==> StepAt(states, k);
    }
  }

  /** Two free entries, and three tasks between calls. */
  function Begin(): Trio {
    Trio([FREE, FREE], {}, {}, {}, Idle, Idle, Idle, None)
  }

  lemma BeginRun() returns (states: seq<Layer>)
    ensures EndsIn(states, Begin())
  {
    states := [Begin().State()];
    assert Init(states[0]);
    assert StepAt(states, 0);
  }

  // ---------- A client is lost ----------

  lemma BindPlays() returns (states: seq<Layer>)
    ensures EndsIn(states, Begin().(open := {1}, c0 := ServerListen(1)))
  {
    var x0 := Begin();
    var x1 := x0.(open := {1}, c0 := ServerBind(1));
    assert {} + {1} == {1};
    states := BeginRun();
    states := Plays(states, x0, 0, Serves(1), x1);
    states := Plays(states, x1, 0, Does(0), x1.(c0 := ServerListen(1)));
  }

  lemma ServerPlays() returns (states: seq<Layer>)
    ensures EndsIn(states, Begin().(open := {1}, c0 := ServerAccept(1)))
  {
    var x := Begin().(open := {1}, c0 := ServerListen(1));
    states := BindPlays();
    states := Plays(states, x, 0, Does(0), x.(c0 := ServerAccept(1)));
  }

  /** The server listens on socket 1 and its first client gets socket 0: open, but nobody's. */
  lemma ClientZeroLost() returns (states: seq<Layer>)
    ensures Run(states)
    ensures var s := states[|states| - 1];
            0 in s.open && s.leaked == {0} && forall c :: ClaimedBy(s, c, 0) ==> c == Lost
  {
    var x := Begin().(open := {1}, c0 := ServerAccept(1));
    assert {1} + {0} == {0, 1} && {} + {0} == {0};
    states := ServerPlays();
    states := Plays(states, x, 0, Does(0), x.(open := {0, 1}, leaked := {0}));
  }

  // ---------- A socket changes hands under a call ----------

  const SOCKET: Iop := Iop(true, SocketHandlers, 0)

  /** Task 1 opens descriptor 0 for socket 0. */
  lemma OpenPlays() returns (states: seq<Layer>)
    ensures EndsIn(states, Begin().(table := [SOCKET, FREE], open := {0}))
  {
    var x0 := Begin();
    var x1 := x0.(c1 := SocketEnter);
    var x2 := x1.(c1 := SocketCreate, holder := Some(1));
    var x3 := x2.(c1 := SocketMake(0), open := {0});
    assert {} + {0} == {0};
    states := BeginRun();
    states := Plays(states, x0, 1, Begins(SocketEnter), x1);
    states := Plays(states, x1, 1, Does(0), x2);
    states := Plays(states, x2, 1, Does(0), x3);
    states := OpenEnds(states, x3);
  }

  lemma OpenEnds(states: seq<Layer>, x3: Trio) returns (longer: seq<Layer>)
    requires x3 == Begin().(c1 := SocketMake(0), open := {0}, holder := Some(1)) && EndsIn(states, x3)
    ensures EndsIn(longer, Begin().(table := [SOCKET, FREE], open := {0}))
  {
    var x4 := x3.(c1 := SocketLeave(0), table := [SOCKET, FREE]);
    var x5 := x4.(c1 := Returned(0), holder := None);
    var x6 := x5.(c1 := Idle);
    assert [FREE, FREE][0 := SOCKET] == [SOCKET, FREE];
    longer := Plays(states, x3, 1, Does(0), x4);
    longer := Plays(longer, x4, 1, Does(0), x5);
    longer := Plays(longer, x5, 1, Does(0), x6);
  }

  /** Task 0 looks descriptor 0 up and leaves the mutex to use socket 0. */
  lemma UsePlays(states: seq<Layer>, x: Trio) returns (longer: seq<Layer>)
    requires x == Begin().(table := [SOCKET, FREE], open := {0}) && EndsIn(states, x)
    ensures EndsIn(longer, x.(c0 := UseCall(0))) && |longer| == |states| + 4
    ensures longer[|states| + 1] == x.(c0 := UseLookup(0), holder := Some(0)).State()
    ensures longer[|states| + 2] == x.(c0 := UseDrop(0), holder := Some(0)).State()
  {
    var x1 := x.(c0 := UseEnter(0));
    var x2 := x.(c0 := UseLookup(0), holder := Some(0));
    var x3 := x.(c0 := UseDrop(0), holder := Some(0));
    var x4 := x.(c0 := UseCall(0));
    longer := Plays(states, x, 0, Begins(UseEnter(0)), x1);
    longer := Plays(longer, x1, 0, Does(0), x2);
    longer := Plays(longer, x2, 0, Does(0), x3);
    longer := Plays(longer, x3, 0, Does(0), x4);
  }

  /** Task 1 starts to close descriptor 0. */
  lemma ClosingPlays(states: seq<Layer>, x: Trio) returns (longer: seq<Layer>)
    requires x == Begin().(table := [SOCKET, FREE], open := {0}, c0 := UseCall(0)) && EndsIn(states, x)
    ensures EndsIn(longer, x.(closing := {0}, c1 := CloseDrop(0, 0), holder := Some(1))) && states <= longer
  {
    var x1 := x.(closing := {0}, c1 := CloseEnter(0));
    var x2 := x1.(c1 := CloseLookup(0), holder := Some(1));
    assert {} + {0} == {0};
    longer := Plays(states, x, 1, Closes(0), x1);
    longer := Plays(longer, x1, 1, Does(0), x2);
    longer := Plays(longer, x2, 1, Does(0), x2.(c1 := CloseDrop(0, 0)));
  }

  /** It gets as far as closing the socket. */
  lemma ClosePlays(states: seq<Layer>, x: Trio) returns (longer: seq<Layer>)
    requires x == Begin().(table := [SOCKET, FREE], open := {0}, c0 := UseCall(0)) && EndsIn(states, x)
    ensures EndsIn(longer, x.(closing := {0}, open := {}, c1 := CloseRetake(0, 0))) && states <= longer
  {
    var x3 := x.(closing := {0}, c1 := CloseDrop(0, 0), holder := Some(1));
    var x4 := x3.(c1 := CloseSocket(0, 0), holder := None);
    assert {0} - {0} == {};
    longer := ClosingPlays(states, x);
    longer := Plays(longer, x3, 1, Does(0), x4);
    longer := Plays(longer, x4, 1, Does(0), x4.(c1 := CloseRetake(0, 0), open := {}));
  }

  /** Task 2 gets socket 0 again, for descriptor 1. */
  lemma ReopenPlays(states: seq<Layer>, x: Trio) returns (longer: seq<Layer>)
    requires EndsIn(states, x)
    requires x == Trio([SOCKET, FREE], {0}, {}, {}, UseCall(0), CloseRetake(0, 0), Idle, None)
    ensures EndsIn(longer, x.(table := [SOCKET, SOCKET], open := {0}, c2 := SocketLeave(1), holder := Some(2)))
    ensures states <= longer
  {
    var x1 := x.(c2 := SocketEnter);
    var x2 := x1.(c2 := SocketCreate, holder := Some(2));
    var x3 := x2.(c2 := SocketMake(0), open := {0});
    var x4 := x3.(c2 := SocketLeave(1), table := [SOCKET, SOCKET]);
    assert {} + {0} == {0} && [SOCKET, FREE][1 := SOCKET] == [SOCKET, SOCKET];
    longer := Plays(states, x, 2, Begins(SocketEnter), x1);
    longer := Plays(longer, x1, 2, Does(0), x2);
    longer := Plays(longer, x2, 2, Does(0), x3);
    longer := Plays(longer, x3, 2, Does(1), x4);
  }

  lemma StalePlays() returns (states: seq<Layer>, i: nat)
    ensures EndsIn(states, Trio([SOCKET, SOCKET], {0}, {0}, {}, UseCall(0), CloseRetake(0, 0), SocketLeave(1), Some(2)))
    ensures var x := Begin().(table := [SOCKET, FREE], open := {0}, holder := Some(0));
            && 0 < i < |states|
            && states[i - 1] == x.(c0 := UseLookup(0)).State() && states[i] == x.(c0 := UseDrop(0)).State()
  {
    var x := Begin().(table := [SOCKET, FREE], open := {0});
    var first := OpenPlays();
    var used := UsePlays(first, x);
    var closed := ClosePlays(used, x.(c0 := UseCall(0)));
    states := ReopenPlays(closed, Trio([SOCKET, FREE], {0}, {}, {}, UseCall(0), CloseRetake(0, 0), Idle, None));
    i := |first| + 2;
    assert states[i - 1] == used[i - 1] && states[i] == used[i];
  }

  /**
    A task looks descriptor 0 up and drops the mutex; before it makes its lwIP call the
    descriptor is closed and its socket number handed out for descriptor 1.
  */
  lemma StaleSocket() returns (states: seq<Layer>, i: nat)
    ensures Run(states) && 0 < i < |states|
    ensures 0 in states[i - 1].threads && states[i - 1].threads[0].call == UseLookup(0)
    ensures 0 in states[i].threads && states[i].threads[0].call == UseDrop(0)
    ensures var s := states[|states| - 1];
            && 0 in s.threads && s.threads[0].call == UseCall(0)
            && !IsLive(s, 0) && ClaimedBy(s, Desc(1), 0)
  {
    states, i := StalePlays();
  }
}
