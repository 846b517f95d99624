/**
  Who owns the open lwIP sockets, over all interleavings: each belongs to exactly one live
  descriptor or one call in progress, or is the client socket 0 the echo server dropped.
*/
module SocketOwnership {
  import opened Types
  import opened Libio
  import opened SocketLayer
  import opened SocketClosing

  datatype Claim =
    | Desc(d: nat)    // a live descriptor that is not being closed
    | Task(t: Tid)    // a call in progress
    | Lost            // nobody: the echo server ignores client socket 0

  /** The call has to turn socket `x` into a descriptor, close it or hand it on. */
  predicate HeldBy(table: seq<Iop>, call: Call, x: nat) {
    match call
    case SocketMake(y) => y == x
    case SocketUndo(y) => y == x
    case AcceptRetake(r) => r == x
    case AcceptLeave(r) => r == x
    case AcceptFamily(y) => y == x
    case AcceptReject(y) => y == x
    case AcceptReenter(y) => y == x
    case AcceptMake(y) => y == x
    case AcceptFull(y) => y == x
    case AcceptUndo(y) => y == x
    case CloseEnter(d) => d < |table| && table[d].data0 == x
    case CloseLookup(d) => d < |table| && table[d].data0 == x
    case CloseDrop(_, y) => y == x
    case CloseSocket(_, y) => y == x
    case ServerBind(y) => y == x
    case ServerListen(y) => y == x
    case ServerGiveUp(y) => y == x
    case ServerAccept(y) => y == x
    case ServerCreate(y, c) => y == x || c == x
    case ServerLaunch(y, c) => y == x || c == x
    case ServerDrop(y, c) => y == x || c == x
    case EchoRecv(y) => y == x
    case EchoSend(y) => y == x
    case EchoClose(y) => y == x
    case _ => false
  }

  predicate ClaimedBy(s: Layer, c: Claim, x: nat) {
    match c
    case Desc(d) => IsLive(s, d) && s.table[d].data0 == x
    case Task(t) => t in s.threads && HeldBy(s.table, s.threads[t].call, x)
    case Lost => x in s.leaked
  }

  /** The open sockets are divided among the claims, and none was closed that was not open. */
  ghost predicate Partition(s: Layer) {
    && !s.badClose
    && (forall x: nat, c, c' :: ClaimedBy(s, c, x) && ClaimedBy(s, c', x) ==> c == c')
    && (forall x: nat, c :: ClaimedBy(s, c, x) ==> x in s.open)
    && (forall x: nat :: x in s.open ==> exists c :: ClaimedBy(s, c, x))
  }

  predicate TwoSockets(call: Call) {
    call.ServerCreate? || call.ServerLaunch? || call.ServerDrop?
  }

  /** The server's own socket and the client's are two. */
  ghost predicate ServersOk(s: Layer) {
    forall t :: t in s.threads && TwoSockets(s.threads[t].call) ==> s.threads[t].call.x != s.threads[t].call.c
  }

  ghost predicate OwnInv(s: Layer) {
    ClosingInv(s) && Partition(s) && ServersOk(s) && s.leaked <= {0}
  }

  // ---------- How claims move ----------

  /** Every socket stays with its claim. */
  ghost predicate Stays(s: Layer, s': Layer) {
    && (forall y: nat, c :: ClaimedBy(s', c, y) <==> ClaimedBy(s, c, y))
    && s'.open == s.open && s'.badClose == s.badClose
  }

  /** So does every socket but `x`, which goes to `to` alone, or is closed. */
  ghost predicate Moves(s: Layer, s': Layer, x: nat, to: Option<Claim>) {
    && (forall y: nat, c :: y != x ==> (ClaimedBy(s', c, y) <==> ClaimedBy(s, c, y)))
    && (forall c :: ClaimedBy(s', c, x) <==> to.Some? && c == to.value)
    && s'.open == (if to.Some? then s.open + {x} else s.open - {x})
    && s'.badClose == s.badClose
  }

  lemma StaysKeeps(s: Layer, s': Layer)
    requires Partition(s) && Stays(s, s')
    ensures Partition(s')
  {
    forall x: nat | x in s'.open ensures exists c :: ClaimedBy(s', c, x) {
      var c :| ClaimedBy(s, c, x);
      assert ClaimedBy(s', c, x);
    }
  }

  lemma MovesKeeps(s: Layer, s': Layer, x: nat, to: Option<Claim>)
    requires Partition(s) && Moves(s, s', x, to)
    ensures Partition(s')
  {
    forall y: nat | y in s'.open ensures exists c :: ClaimedBy(s', c, y) {
      if y == x {
        assert ClaimedBy(s', to.value, x);
      } else {
        var c :| ClaimedBy(s, c, y);
        assert ClaimedBy(s', c, y);
      }
    }
  }

  /** Only task `t` moved, and table and descriptors are as they were. */
  ghost predicate OnlyTask(s: Layer, t: Tid, s': Layer) {
    && s'.table == s.table && s'.closing == s.closing && s'.leaked == s.leaked && s'.badClose == s.badClose
    && t in s.threads
    && forall u :: u != t ==>
         (u in s'.threads <==> u in s.threads) && (u in s.threads ==> s'.threads[u].call == s.threads[u].call)
  }

  lemma OthersStay(s: Layer, t: Tid, s': Layer)
    requires OnlyTask(s, t, s')
    ensures forall y: nat, c :: c != Task(t) ==> (ClaimedBy(s', c, y) <==> ClaimedBy(s, c, y))
  {
  }

  /** If `t` holds what it held, every socket stays with its claim. */
  lemma TaskStays(s: Layer, t: Tid, s': Layer)
    requires Partition(s) && OnlyTask(s, t, s') && s'.open == s.open
    requires forall y: nat :: ClaimedBy(s', Task(t), y) <==> ClaimedBy(s, Task(t), y)
    ensures Partition(s')
  {
    OthersStay(s, t, s');
    StaysKeeps(s, s');
  }

  /** `t` gets a socket that was not open. */
  lemma TaskGains(s: Layer, t: Tid, x: nat, s': Layer)
    requires Partition(s) && OnlyTask(s, t, s') && x !in s.open && s'.open == s.open + {x}
    requires forall y: nat :: ClaimedBy(s', Task(t), y) <==> ClaimedBy(s, Task(t), y) || y == x
    ensures Partition(s')
  {
    OthersStay(s, t, s');
    MovesKeeps(s, s', x, Some(Task(t)));
  }

  /** `t` closes a socket it held. */
  lemma TaskCloses(s: Layer, t: Tid, x: nat, s': Layer)
    requires Partition(s) && OnlyTask(s, t, s') && ClaimedBy(s, Task(t), x) && s'.open == s.open - {x}
    requires forall y: nat :: ClaimedBy(s', Task(t), y) <==> ClaimedBy(s, Task(t), y) && y != x
    ensures Partition(s')
  {
    OthersStay(s, t, s');
    MovesKeeps(s, s', x, None);
  }

  // ---------- The statements of the programs ----------

  /** Mutex, lookups and lwIP calls other than open and close leave a task's sockets alone. */
  lemma ProgramKeeps(table: seq<Iop>, call: Call, r: int, y: nat)
    requires OpOf(call).Acquire? || OpOf(call).Drop? || OpOf(call).Outcome? || OpOf(call).Lookup? || OpOf(call).FreeIop?
    ensures HeldBy(table, Continue(call, r), y) <==> HeldBy(table, call, y)
  {
  }

  lemma ProgramLooksUp(table: seq<Iop>, call: Call, y: nat)
    requires OpOf(call).LookupIop? && OpOf(call).d < |table| && table[OpOf(call).d].data0 >= 0
    ensures HeldBy(table, Continue(call, table[OpOf(call).d].data0), y) <==> HeldBy(table, call, y)
  {
  }

  lemma ProgramOpens(table: seq<Iop>, call: Call, r: int, y: nat)
    requires OpOf(call).LwipOpen? || (OpOf(call).AcceptClient? && r != 0)
    ensures HeldBy(table, Continue(call, r), y) <==> HeldBy(table, call, y) || (r >= 0 && y == r)
  {
  }

  lemma ProgramCloses(table: seq<Iop>, call: Call, r: int, y: nat)
    requires OpOf(call).LwipClose? && (TwoSockets(call) ==> call.x != call.c)
    ensures HeldBy(table, call, OpOf(call).x)
    ensures HeldBy(table, Continue(call, r), y) <==> HeldBy(table, call, y) && y != OpOf(call).x
  {
  }

  lemma ProgramMakes(table: seq<Iop>, call: Call, r: int, y: nat)
    requires OpOf(call).Make?
    ensures HeldBy(table, call, y) <==> y == OpOf(call).x
    ensures HeldBy(table, Continue(call, r), y) <==> r < 0 && y == OpOf(call).x
  {
  }

  lemma ProgramLaunches(table: seq<Iop>, call: Call, r: int, y: nat)
    requires OpOf(call).Launch? && (TwoSockets(call) ==> call.x != call.c)
    ensures HeldBy(table, call, OpOf(call).c)
    ensures HeldBy(table, Continue(call, r), y) <==> HeldBy(table, call, y) && (r == 0 ==> y != OpOf(call).c)
  {
  }

  // ---------- Steps ----------

  lemma QuietKeeps(s: Layer, t: Tid, r: int, m: Layer, s': Layer)
    requires OwnInv(s) && t in s.threads && Executes(s, t, r, m, s')
    requires var op := OpOf(s.threads[t].call); op.Acquire? || op.Drop? || op.Outcome? || op.Lookup? || op.LookupIop?
    ensures Partition(s')
  {
    var call := s.threads[t].call;
    if OpOf(call).LookupIop? {
      assert IsClosing(s, t, OpOf(call).d);
      forall y: nat ensures HeldBy(s.table, Continue(call, r), y) <==> HeldBy(s.table, call, y) {
        ProgramLooksUp(s.table, call, y);
      }
    } else {
      forall y: nat ensures HeldBy(s.table, Continue(call, r), y) <==> HeldBy(s.table, call, y) {
        ProgramKeeps(s.table, call, r, y);
      }
    }
    TaskStays(s, t, s');
  }

  lemma OpenKeeps(s: Layer, t: Tid, r: int, m: Layer, s': Layer)
    requires OwnInv(s) && t in s.threads && Executes(s, t, r, m, s')
    requires var op := OpOf(s.threads[t].call); op.LwipOpen? || (op.AcceptClient? && r != 0)
    ensures Partition(s')
  {
    var call := s.threads[t].call;
    forall y: nat ensures HeldBy(s.table, Continue(call, r), y) <==> HeldBy(s.table, call, y) || (r >= 0 && y == r) {
      ProgramOpens(s.table, call, r, y);
    }
    if r >= 0 {
      TaskGains(s, t, r, s');
    } else {
      TaskStays(s, t, s');
    }
  }

  /** The echo server takes client socket 0 for a failure and forgets it. */
  lemma ForgetKeeps(s: Layer, t: Tid, m: Layer, s': Layer)
    requires OwnInv(s) && t in s.threads && OpOf(s.threads[t].call).AcceptClient? && Executes(s, t, 0, m, s')
    ensures Partition(s')
  {
    forall y: nat, c ensures ClaimedBy(s', c, y) <==> ClaimedBy(s, c, y) || (c == Lost && y == 0) {
    }
    MovesKeeps(s, s', 0, Some(Lost));
  }

  lemma CloseKeeps(s: Layer, t: Tid, r: int, m: Layer, s': Layer)
    requires OwnInv(s) && t in s.threads && OpOf(s.threads[t].call).LwipClose? && Executes(s, t, r, m, s')
    ensures Partition(s')
  {
    var call := s.threads[t].call;
    var x := OpOf(call).x;
    forall y: nat ensures HeldBy(s.table, Continue(call, r), y) <==> HeldBy(s.table, call, y) && y != x {
      ProgramCloses(s.table, call, r, y);
    }
    ProgramCloses(s.table, call, r, x);
    assert ClaimedBy(s, Task(t), x);
    TaskCloses(s, t, x, s');
  }

  lemma ExitKeeps(s: Layer, t: Tid, s': Layer)
    requires OwnInv(s) && t in s.threads && Exits(s, t, s')
    ensures Partition(s')
  {
    assert ClaimedBy(s, Task(t), s.threads[t].call.x);
    TaskCloses(s, t, s.threads[t].call.x, s');
  }

  /** What a task at a close holds does not change with other entries of the table. */
  lemma HeldInTable(s: Layer, table: seq<Iop>, u: Tid, y: nat)
    requires ClosingInv(s) && u in s.threads && |table| == |s.table|
    requires forall d :: d in s.closing && d < |s.table| ==> table[d] == s.table[d]
    ensures HeldBy(table, s.threads[u].call, y) <==> HeldBy(s.table, s.threads[u].call, y)
  {
    var call := s.threads[u].call;
    if call.CloseEnter? || call.CloseLookup? {
      assert IsClosing(s, u, call.d);
    }
  }

  lemma MakeFailsKeeps(s: Layer, t: Tid, r: int, m: Layer, s': Layer)
    requires OwnInv(s) && t in s.threads && OpOf(s.threads[t].call).Make? && Executes(s, t, r, m, s') && r < 0
    ensures Partition(s')
  {
    var call := s.threads[t].call;
    forall y: nat ensures HeldBy(s.table, Continue(call, r), y) <==> HeldBy(s.table, call, y) {
      ProgramMakes(s.table, call, r, y);
    }
    TaskStays(s, t, s');
  }

  /** The socket goes from the call to the descriptor made for it. */
  lemma MakeKeeps(s: Layer, t: Tid, r: int, m: Layer, s': Layer)
    requires OwnInv(s) && t in s.threads && OpOf(s.threads[t].call).Make? && Executes(s, t, r, m, s') && r >= 0
    ensures Partition(s') && ClaimedBy(s', Desc(r), OpOf(s.threads[t].call).x)
    ensures Moves(s, s', OpOf(s.threads[t].call).x, Some(Desc(r)))
  {
    var call := s.threads[t].call;
    var x := OpOf(call).x;
    ProgramMakes(s.table, call, r, x);
    assert ClaimedBy(s, Task(t), x);
    forall y: nat, c ensures ClaimedBy(s', c, y) <==> (ClaimedBy(s, c, y) && c != Task(t)) || (c == Desc(r) && y == x) {
      ProgramMakes(s.table, call, r, y);
      ProgramMakes(s'.table, call, r, y);
      if c.Task? && c.t in s.threads {
        HeldInTable(s, s'.table, c.t, y);
      }
    }
    forall y: nat ensures ClaimedBy(s, Task(t), y) <==> y == x {
      ProgramMakes(s.table, call, r, y);
    }
    MovesKeeps(s, s', x, Some(Desc(r)));
  }

  /** libio takes the entry back when the socket is long closed. */
  lemma FreeKeeps(s: Layer, t: Tid, r: int, m: Layer, s': Layer)
    requires OwnInv(s) && t in s.threads && OpOf(s.threads[t].call).FreeIop? && Executes(s, t, r, m, s')
    ensures Partition(s')
  {
    var call := s.threads[t].call;
    assert IsClosing(s, t, call.d);
    forall y: nat, c ensures ClaimedBy(s', c, y) <==> ClaimedBy(s, c, y) {
      if c.Task? && c.t != t && c.t in s.threads {
        var other := s.threads[c.t].call;
        if other.CloseEnter? || other.CloseLookup? {
          assert IsClosing(s, c.t, other.d);
        }
      }
    }
    StaysKeeps(s, s');
  }

  lemma LaunchClaims(s: Layer, t: Tid, m: Layer, s': Layer, c: nat, u: Tid)
    requires t in s.threads && u !in s.threads && m == Spawn(s, u, c)
    requires s' == Goto(m, t, Continue(s.threads[t].call, 0))
    requires forall y: nat :: HeldBy(s.table, s'.threads[t].call, y) <==>
                              HeldBy(s.table, s.threads[t].call, y) && y != c
    ensures forall y: nat, b :: ClaimedBy(s', b, y) <==>
              (ClaimedBy(s, b, y) && (b == Task(t) ==> y != c)) || (b == Task(u) && y == c)
  {
  }

  /** The client's socket goes from the server to the echo task it starts. */
  lemma LaunchKeeps(s: Layer, t: Tid, r: int, m: Layer, s': Layer)
    requires OwnInv(s) && t in s.threads && OpOf(s.threads[t].call).Launch? && Executes(s, t, r, m, s')
    ensures Partition(s')
  {
    var call := s.threads[t].call;
    var c := OpOf(call).c;
    ProgramLaunches(s.table, call, r, c);
    assert ClaimedBy(s, Task(t), c);
    forall y: nat ensures HeldBy(s.table, Continue(call, r), y) <==> HeldBy(s.table, call, y) && (r == 0 ==> y != c) {
      ProgramLaunches(s.table, call, r, y);
    }
    if r == 0 {
      var u: Tid :| u !in s.threads && m == Spawn(s, u, c);
      LaunchClaims(s, t, m, s', c, u);
      MovesKeeps(s, s', c, Some(Task(u)));
    } else {
      TaskStays(s, t, s');
    }
  }

  lemma FileKeeps(s: Layer, s': Layer)
    requires OwnInv(s) && FileStep(s, s')
    ensures Partition(s')
  {
    forall y: nat, c ensures ClaimedBy(s', c, y) <==> ClaimedBy(s, c, y) {
      if c.Task? && c.t in s.threads {
        HeldInTable(s, s'.table, c.t, y);
      }
    }
    StaysKeeps(s, s');
  }

  /** The socket goes from the descriptor to the call that closes it. */
  lemma CloseBeginKeeps(s: Layer, t: Tid, d: nat, s': Layer)
    requires OwnInv(s) && t in s.threads && s.threads[t].call.Idle? && IsLive(s, d)
    requires s' == Goto(s.(closing := s.closing + {d}), t, CloseEnter(d))
    ensures Partition(s') && s.table[d].data0 >= 0 && ClaimedBy(s', Task(t), s.table[d].data0)
    ensures Moves(s, s', s.table[d].data0, Some(Task(t)))
  {
    var x: nat := s.table[d].data0;
    assert ClaimedBy(s, Desc(d), x);
    forall y: nat, c ensures ClaimedBy(s', c, y) <==> (ClaimedBy(s, c, y) && c != Desc(d)) || (c == Task(t) && y == x) {
    }
    MovesKeeps(s, s', x, Some(Task(t)));
  }

  lemma EntryKeeps(s: Layer, t: Tid, call: Call, s': Layer)
    requires OwnInv(s) && t in s.threads && s.threads[t].call.Idle? && IsEntry(call) && s' == Goto(s, t, call)
    ensures Partition(s')
  {
    TaskStays(s, t, s');
  }

  lemma ServerBeginKeeps(s: Layer, t: Tid, x: nat, s': Layer)
    requires OwnInv(s) && t in s.threads && s.threads[t].call.Idle?
    requires x !in s.open && s' == Goto(s.(open := s.open + {x}), t, ServerBind(x))
    ensures Partition(s')
  {
    TaskGains(s, t, x, s');
  }

  lemma CallKeeps(s: Layer, t: Tid, s': Layer)
    requires OwnInv(s) && t in s.threads && s.threads[t].call.Idle? && Calls(s, t, s')
    ensures Partition(s')
  {
    if d: nat :| IsLive(s, d) && s' == Goto(s.(closing := s.closing + {d}), t, CloseEnter(d)) {
      CloseBeginKeeps(s, t, d, s');
    } else if x: nat :| x !in s.open && s' == Goto(s.(open := s.open + {x}), t, ServerBind(x)) {
      ServerBeginKeeps(s, t, x, s');
    } else {
      var call :| IsEntry(call) && s' == Goto(s, t, call);
      EntryKeeps(s, t, call, s');
    }
  }

  lemma ExecutesKeeps(s: Layer, t: Tid, r: int, m: Layer, s': Layer)
    requires OwnInv(s) && t in s.threads && Executes(s, t, r, m, s')
    ensures Partition(s')
  {
    match OpOf(s.threads[t].call) {
      case LwipOpen => OpenKeeps(s, t, r, m, s');
      case AcceptClient => if r == 0 { ForgetKeeps(s, t, m, s'); } else { OpenKeeps(s, t, r, m, s'); }
      case LwipClose(_) => CloseKeeps(s, t, r, m, s');
      case Make(_) => if r < 0 { MakeFailsKeeps(s, t, r, m, s'); } else { MakeKeeps(s, t, r, m, s'); }
      case FreeIop(_) => FreeKeeps(s, t, r, m, s');
      case Launch(_) => LaunchKeeps(s, t, r, m, s');
      case _ => QuietKeeps(s, t, r, m, s');
    }
  }

  lemma NextKeeps(s: Layer, t: Tid, s': Layer)
    requires OwnInv(s) && t in s.threads && Next(s, t, s')
    ensures Partition(s')
  {
    if s.threads[t].call.Idle? && Calls(s, t, s') {
      CallKeeps(s, t, s');
    } else if s.threads[t].call.Idle? && Brackets(s, t, s') {
      TaskStays(s, t, s');
    } else if Exits(s, t, s') {
      ExitKeeps(s, t, s');
    } else {
      var r: int, m: Layer :| Executes(s, t, r, m, s');
      ExecutesKeeps(s, t, r, m, s');
    }
  }

  lemma EffectTasks(s: Layer, t: Tid, op: Op, r: int, m: Layer)
    requires s.leaked <= {0} && Effect(s, t, op, r, m)
    ensures forall u :: u in m.threads && u !in s.threads ==> m.threads[u].call.EchoRecv?
    ensures forall u :: u in m.threads && u in s.threads ==> m.threads[u] == s.threads[u]
    ensures m.leaked <= {0}
  {
  }

  lemma ProgramServers(call: Call, r: int)
    requires TwoSockets(Continue(call, r))
    ensures var next := Continue(call, r);
            || (TwoSockets(call) && next.x == call.x && next.c == call.c)
            || (OpOf(call).AcceptClient? && r > 0 && next.x == call.x && next.c == r)
  {
  }

  /** A client's socket is fresh while the server's is open, so the two differ. */
  lemma ExecutesServers(s: Layer, t: Tid, r: int, m: Layer, s': Layer)
    requires OwnInv(s) && t in s.threads && Executes(s, t, r, m, s')
    ensures ServersOk(s') && s'.leaked <= {0}
  {
    var call := s.threads[t].call;
    EffectTasks(s, t, OpOf(call), r, m);
    if TwoSockets(Continue(call, r)) {
      ProgramServers(call, r);
      assert call.ServerAccept? ==> ClaimedBy(s, Task(t), call.x);
    }
  }

  lemma ServersStep(s: Layer, t: Tid, s': Layer)
    requires OwnInv(s) && t in s.threads && Next(s, t, s')
    ensures ServersOk(s') && s'.leaked <= {0}
  {
    if s.threads[t].call.Idle? && (Calls(s, t, s') || Brackets(s, t, s')) {
    } else if Exits(s, t, s') {
    } else {
      var r: int, m: Layer :| Executes(s, t, r, m, s');
      ExecutesServers(s, t, r, m, s');
    }
  }

  lemma OwnStep(s: Layer, s': Layer)
    requires OwnInv(s) && Step(s, s')
    ensures OwnInv(s')
  {
    ClosingStep(s, s');
    if FileStep(s, s') {
      FileKeeps(s, s');
    } else {
      var t: Tid :| t in s.threads && Next(s, t, s');
      NextKeeps(s, t, s');
      ServersStep(s, t, s');
    }
  }

  lemma {:induction false} OwnRun(states: seq<Layer>, k: nat)
    requires Run(states) && k < |states|
    ensures OwnInv(states[k])
  {
    assert StepAt(states, k);
    if k == 0 {
    } else {
      OwnRun(states, k - 1);
      OwnStep(states[k - 1], states[k]);
    }
  }

  // ---------- What follows in every run ----------

  /** Every open socket has exactly one owner, and none has ever been closed twice. */
  lemma OneOwner(states: seq<Layer>, k: nat, x: nat)
    requires Run(states) && k < |states|
    ensures !states[k].badClose
    ensures x in states[k].open <==> exists c :: ClaimedBy(states[k], c, x)
    ensures forall c, c' :: ClaimedBy(states[k], c, x) && ClaimedBy(states[k], c', x) ==> c == c'
    ensures ClaimedBy(states[k], Lost, x) ==> x == 0
  {
    OwnRun(states, k);
  }

  /** Two live descriptors never stand for the same socket, and none stands for a closed one. */
  lemma DescriptorsInjective(states: seq<Layer>, k: nat, d: nat, e: nat)
    requires Run(states) && k < |states| && IsLive(states[k], d) && IsLive(states[k], e)
    ensures var table := states[k].table;
            && IsInt(d) && SysfdToLwipfd(table, d).lwipfd == table[d].data0 && table[d].data0 in states[k].open
            && (table[d].data0 == table[e].data0 ==> d == e)
  {
    OwnRun(states, k);
    var s := states[k];
    assert ClaimedBy(s, Desc(d), s.table[d].data0) && ClaimedBy(s, Desc(e), s.table[e].data0);
  }

  lemma CloserOwns(s: Layer, t: Tid, s': Layer, x: nat)
    requires OwnInv(s) && t in s.threads && Next(s, t, s') && x in s.open && x !in s'.open
    ensures ClaimedBy(s, Task(t), x)
  {
    if !Exits(s, t, s') {
      var r: int, m: Layer :| Executes(s, t, r, m, s');
      ProgramCloses(s.table, s.threads[t].call, r, x);
    }
  }

  /** A socket is closed only by the task that owns it. */
  lemma OnlyOwnerCloses(s: Layer, s': Layer, x: nat)
    requires OwnInv(s) && Step(s, s') && x in s.open && x !in s'.open
    ensures exists t :: ClaimedBy(s, Task(t), x) && Next(s, t, s')
  {
    var t: Tid :| t in s.threads && Next(s, t, s');
    CloserOwns(s, t, s', x);
  }

  // ---------- recvfrom ----------

  /** A lost socket that is closed or gets a descriptor is no longer lost. */
  function Found(s: Layer, x: nat): Layer {
    s.(leaked := s.leaked - {x})
  }

  /**
    recvfrom with a name buffer, after lwip_recvfrom returned `n`: the code takes the byte
    count for a socket, makes a descriptor of it, or closes it if the family is unknown or
    there is no free descriptor.
  */
  ghost predicate RecvfromEnds(s: Layer, n: int, familyKnown: bool, s': Layer) {
    if n < 0 then s' == s
    else if !familyKnown then s' == Found(CloseLwip(s, n), n)
    else exists fd: int, table', errno: Option<Errno> ::
           && Made(s.table, n, fd, table', errno)
           && s' == Found(if fd < 0 then CloseLwip(s, n) else s.(table := table'), n)
  }

  lemma ClosedByNumber(s: Layer, n: nat)
    requires OwnInv(s)
    ensures Partition(Found(CloseLwip(s, n), n)) <==> n in s.leaked
  {
    var s' := Found(CloseLwip(s, n), n);
    if n in s.leaked {
      assert ClaimedBy(s, Lost, n);
      forall y: nat, c ensures ClaimedBy(s', c, y) <==> ClaimedBy(s, c, y) && y != n {
      }
      MovesKeeps(s, s', n, None);
    } else if n in s.open {
      var c :| ClaimedBy(s, c, n);
      assert ClaimedBy(s', c, n);
    }
  }

  lemma MadeByNumber(s: Layer, n: nat, fd: nat, table': seq<Iop>)
    requires OwnInv(s) && Made(s.table, n, fd, table', None)
    ensures Partition(Found(s.(table := table'), n)) <==> n in s.leaked
  {
    var s' := Found(s.(table := table'), n);
    forall y: nat, c ensures ClaimedBy(s', c, y) <==>
      (ClaimedBy(s, c, y) && !(c == Lost && y == n)) || (c == Desc(fd) && y == n)
    {
      if c.Task? && c.t in s.threads {
        HeldInTable(s, table', c.t, y);
      }
    }
    assert ClaimedBy(s', Desc(fd), n);
    if n in s.leaked {
      assert ClaimedBy(s, Lost, n);
      MovesKeeps(s, s', n, Some(Desc(fd)));
    } else if n in s.open {
      var c :| ClaimedBy(s, c, n);
      assert ClaimedBy(s', c, n) && c != Desc(fd);
    }
  }

  /**
    As written, recvfrom with a name buffer keeps the ownership of sockets exactly when lwIP
    fails, or when the byte count happens to be the number of a lost socket.
  */
  lemma RecvfromBreaks(s: Layer, n: int, familyKnown: bool, s': Layer)
    requires OwnInv(s) && RecvfromEnds(s, n, familyKnown, s')
    ensures Partition(s') <==> n < 0 || n in s.leaked
  {
    if n >= 0 {
      ClosedByNumber(s, n);
      if familyKnown {
        var fd: int, table', errno: Option<Errno> :|
          && Made(s.table, n, fd, table', errno)
          && s' == Found(if fd < 0 then CloseLwip(s, n) else s.(table := table'), n);
        if fd >= 0 {
          MadeByNumber(s, n, fd, table');
        }
      }
    }
  }
}
