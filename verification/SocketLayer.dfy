/**
  The BSD calls of the lwIP glue and the echo server as interleaved atomic steps, split where
  the recursive mutex is taken and dropped.  Any number of tasks runs any number of calls.

  SocketMutex, SocketClosing and SocketOwnership prove what every run keeps: the depth of the
  mutex, one task per descriptor being closed, and one owner per open lwIP socket.
*/
module SocketLayer {
  import opened Types
  import opened Libio

  type Tid = nat

  /** Where a task is.  The names follow the call, the statement is the next one to execute. */
  datatype Call =
    | Idle
    | Returned(ret: int)
    // socket
    | SocketEnter | SocketCreate | SocketMake(x: nat) | SocketUndo(x: nat) | SocketLeave(ret: int)
    // accept
    | AcceptEnter(fd: int) | AcceptLookup(fd: int) | AcceptDrop(l: nat) | AcceptWait(l: nat) | AcceptRetake(r: int)
    | AcceptLeave(r: int) | AcceptFamily(x: nat) | AcceptReject(x: nat) | AcceptReenter(x: nat) | AcceptMake(x: nat)
    | AcceptFull(x: nat) | AcceptUndo(x: nat) | AcceptRelock | AcceptDone(ret: int)
    // close, from the admission by libio to the release of the descriptor
    | CloseEnter(d: nat) | CloseLookup(d: nat) | CloseDrop(d: nat, x: nat) | CloseSocket(d: nat, x: nat)
    | CloseRetake(d: nat, ret: int) | CloseLeave(d: nat, ret: int) | CloseFree(d: nat, ret: int)
    // bind, connect, listen
    | HoldEnter(fd: int) | HoldLookup(fd: int) | HoldUse(l: nat) | HoldLeave(ret: int)
    // shutdown, recv, send, sendto, read, write
    | UseEnter(fd: int) | UseLookup(fd: int) | UseDrop(l: nat) | UseCall(l: nat)
    | UseRetake(ret: int) | UseLeave(ret: int)
    // echo server
    | ServerBind(x: nat) | ServerListen(x: nat) | ServerGiveUp(x: nat) | ServerAccept(x: nat)
    | ServerCreate(x: nat, c: nat) | ServerLaunch(x: nat, c: nat) | ServerDrop(x: nat, c: nat)
    // echo task
    | EchoRecv(x: nat) | EchoSend(x: nat) | EchoClose(x: nat)

  /** `entry` is how often the task had taken the mutex before its current call. */
  datatype Thread = Thread(call: Call, entry: nat)

  /**
    `open` is lwIP's set of open sockets, `closing` the descriptors libio has admitted to
    close, `leaked` the sockets that no code refers to any more.  `badClose`: a socket was
    closed that is not open; `badUnlock`: the mutex was dropped by a task not holding it.
  */
  datatype Layer = Layer(
    table: seq<Iop>,
    closing: set<nat>,
    open: set<nat>,
    leaked: set<nat>,
    threads: map<Tid, Thread>,
    holder: Option<Tid>,
    depth: nat,
    badClose: bool,
    badUnlock: bool)

  // ---------- Programs ----------

  /** What the statement a task stands at does to the shared state. */
  datatype Op =
    | Begin                  // a task between calls
    | Acquire | Drop         // the recursive mutex
    | LwipOpen               // lwip_socket or lwip_accept: a fresh socket, or negative
    | AcceptClient           // lwip_accept of the echo server, which forgets socket 0
    | LwipClose(x: nat)
    | Outcome                // any other lwIP call or test; the environment decides the result
    | Lookup(fd: int) | LookupIop(d: nat)
    | Make(x: nat)
    | FreeIop(d: nat)
    | Launch(c: nat)         // rtems_task_start of an echo task; 0 is success
    | Exit

  function OpOf(call: Call): Op {
    match call
    case Idle => Begin
    case SocketEnter | AcceptEnter(_) | AcceptRetake(_) | AcceptReenter(_) | AcceptRelock => Acquire
    case CloseEnter(_) | CloseRetake(_, _) | HoldEnter(_) | UseEnter(_) | UseRetake(_) => Acquire
    case SocketLeave(_) | AcceptDrop(_) | AcceptLeave(_) | AcceptFull(_) | AcceptDone(_) => Drop
    case CloseDrop(_, _) | CloseLeave(_, _) | HoldLeave(_) | UseDrop(_) | UseLeave(_) => Drop
    case SocketCreate | AcceptWait(_) => LwipOpen
    case ServerAccept(_) => AcceptClient
    case SocketUndo(x) => LwipClose(x)
    case AcceptReject(x) => LwipClose(x)
    case AcceptUndo(x) => LwipClose(x)
    case CloseSocket(_, x) => LwipClose(x)
    case ServerGiveUp(x) => LwipClose(x)
    case ServerDrop(_, c) => LwipClose(c)
    case AcceptLookup(fd) => Lookup(fd)
    case HoldLookup(fd) => Lookup(fd)
    case UseLookup(fd) => Lookup(fd)
    case CloseLookup(d) => LookupIop(d)
    case SocketMake(x) => Make(x)
    case AcceptMake(x) => Make(x)
    case CloseFree(d, _) => FreeIop(d)
    case ServerLaunch(_, c) => Launch(c)
    case EchoClose(_) => Exit
    case _ => Outcome
  }

  /** The statement that follows, by the result of the one executed. */
  function Continue(call: Call, r: int): Call {
    match call
    case Idle => Idle
    case Returned(_) => Idle
    case SocketEnter => SocketCreate
    case SocketCreate => if r < 0 then SocketLeave(-1) else SocketMake(r)
    case SocketMake(x) => if r < 0 then SocketUndo(x) else SocketLeave(r)
    case SocketUndo(_) => SocketLeave(-1)
    case SocketLeave(ret) => Returned(ret)
    case AcceptEnter(fd) => AcceptLookup(fd)
    case AcceptLookup(_) => if r < 0 then AcceptLeave(r) else AcceptDrop(r)
    case AcceptDrop(l) => AcceptWait(l)
    case AcceptWait(_) => AcceptRetake(r)
    case AcceptRetake(l) => AcceptLeave(l)
    case AcceptLeave(l) => if l < 0 then Returned(l) else AcceptFamily(l)
    case AcceptFamily(x) => if r < 0 then AcceptReject(x) else AcceptReenter(x)
    case AcceptReject(_) => Returned(-1)
    case AcceptReenter(x) => AcceptMake(x)
    case AcceptMake(x) => if r < 0 then AcceptFull(x) else AcceptDone(r)
    case AcceptFull(x) => AcceptUndo(x)
    case AcceptUndo(_) => AcceptRelock
    case AcceptRelock => AcceptDone(-1)
    case AcceptDone(ret) => Returned(ret)
    case CloseEnter(d) => CloseLookup(d)
    case CloseLookup(d) => if r < 0 then CloseLeave(d, -1) else CloseDrop(d, r)
    case CloseDrop(d, x) => CloseSocket(d, x)
    case CloseSocket(d, _) => CloseRetake(d, r)
    case CloseRetake(d, ret) => CloseLeave(d, ret)
    case CloseLeave(d, ret) => CloseFree(d, ret)
    case CloseFree(_, ret) => Returned(ret)
    case HoldEnter(fd) => HoldLookup(fd)
    case HoldLookup(_) => if r < 0 then HoldLeave(-1) else HoldUse(r)
    case HoldUse(_) => HoldLeave(r)
    case HoldLeave(ret) => Returned(ret)
    case UseEnter(fd) => UseLookup(fd)
    case UseLookup(_) => if r < 0 then UseLeave(-1) else UseDrop(r)
    case UseDrop(l) => UseCall(l)
    case UseCall(_) => UseRetake(r)
    case UseRetake(ret) => UseLeave(ret)
    case UseLeave(ret) => Returned(ret)
    case ServerBind(x) => if r < 0 then ServerGiveUp(x) else ServerListen(x)
    case ServerListen(x) => if r != 0 then ServerGiveUp(x) else ServerAccept(x)
    case ServerGiveUp(_) => Idle
    case ServerAccept(x) => if r > 0 then ServerCreate(x, r) else ServerAccept(x)
    case ServerCreate(x, c) => if r != 0 then ServerDrop(x, c) else ServerLaunch(x, c)
    case ServerLaunch(x, c) => if r != 0 then ServerDrop(x, c) else ServerAccept(x)
    case ServerDrop(x, _) => ServerAccept(x)
    case EchoRecv(x) => if r > 0 then EchoSend(x) else EchoClose(x)
    case EchoSend(x) => EchoRecv(x)
    case EchoClose(_) => Idle
  }

  // ---------- Steps ----------

  function Goto(s: Layer, t: Tid, call: Call): Layer
    requires t in s.threads
  {
    s.(threads := s.threads[t := s.threads[t].(call := call)])
  }

  predicate Lockable(s: Layer, t: Tid) {
    s.holder.None? || s.holder == Some(t)
  }

  function Lock(s: Layer, t: Tid): Layer {
    s.(holder := Some(t), depth := s.depth + 1)
  }

  function Unlock(s: Layer, t: Tid): Layer {
    if s.holder != Some(t) || s.depth == 0 then s.(badUnlock := true)
    else s.(holder := if s.depth == 1 then None else s.holder, depth := s.depth - 1)
  }

  function CloseLwip(s: Layer, x: nat): Layer {
    s.(open := s.open - {x}, badClose := s.badClose || x !in s.open)
  }

  /** lwIP hands out a socket number that is not in use. */
  predicate Opened(s: Layer, r: int, s': Layer) {
    if r < 0 then s' == s else r !in s.open && s' == s.(open := s.open + {r})
  }

  function Spawn(s: Layer, u: Tid, c: nat): Layer {
    s.(threads := s.threads[u := Thread(EchoRecv(c), 0)])
  }

  /** A socket descriptor that is not being closed. */
  predicate IsLive(s: Layer, d: nat) {
    d < |s.table| && s.table[d].handlers == SocketHandlers && d !in s.closing
  }

  /** The shared state after an operation of `t` with result `r`, before `t` moves on. */
  ghost predicate Effect(s: Layer, t: Tid, op: Op, r: int, s': Layer) {
    match op
    case Begin => false
    case Acquire => Lockable(s, t) && s' == Lock(s, t)
    case Drop => s' == Unlock(s, t)
    case LwipOpen => Opened(s, r, s')
    case AcceptClient =>
      if r == 0 then 0 !in s.open && s' == s.(open := s.open + {0}, leaked := s.leaked + {0}) else Opened(s, r, s')
    case LwipClose(x) => s' == CloseLwip(s, x)
    case Outcome => s' == s
    case Lookup(fd) => IsInt(fd) && r == SysfdToLwipfd(s.table, fd).lwipfd && s' == s
    case LookupIop(d) => d < |s.table| && r == IopToLwipfd(s.table, Some(d)).lwipfd && s' == s
    case Make(x) =>
      s' == s.(table := s'.table) && exists errno: Option<Errno> :: Made(s.table, x, r, s'.table, errno)
    case FreeIop(d) => d < |s.table| && s' == s.(table := s.table[d := FREE], closing := s.closing - {d})
    case Launch(c) =>
      if r == 0 then exists u: Tid :: u !in s.threads && s' == Spawn(s, u, c) else s' == s
    case Exit => false
  }

  /** A task between calls starts one: of the glue, libio's close of a live descriptor, or the server. */
  ghost predicate Calls(s: Layer, t: Tid, s': Layer)
    requires t in s.threads
  {
    || (exists call :: IsEntry(call) && s' == Goto(s, t, call))
    || (exists d: nat :: IsLive(s, d) && s' == Goto(s.(closing := s.closing + {d}), t, CloseEnter(d)))
    || (exists x: nat :: x !in s.open && s' == Goto(s.(open := s.open + {x}), t, ServerBind(x)))
  }

  /** A task between calls takes the mutex on its own account, or drops what it took so. */
  predicate Brackets(s: Layer, t: Tid, s': Layer)
    requires t in s.threads
  {
    var entry := s.threads[t].entry;
    || (Lockable(s, t) && s' == Lock(s, t).(threads := s.threads[t := Thread(Idle, entry + 1)]))
    || (entry > 0 && s' == Unlock(s, t).(threads := s.threads[t := Thread(Idle, entry - 1)]))
  }

  /** The first statements of the calls; a bad domain, type or address returns at once. */
  predicate IsEntry(call: Call) {
    || call == Returned(-1) || call.SocketEnter?
    || (call.AcceptEnter? && IsInt(call.fd)) || (call.HoldEnter? && IsInt(call.fd))
    || (call.UseEnter? && IsInt(call.fd))
  }

  /** Task `t` executes the statement it stands at, with result `r`, and moves on. */
  ghost predicate Executes(s: Layer, t: Tid, r: int, m: Layer, s': Layer)
    requires t in s.threads
  {
    var call := s.threads[t].call;
    Effect(s, t, OpOf(call), r, m) && t in m.threads && s' == Goto(m, t, Continue(call, r))
  }

  /** An echo task closes its socket and deletes itself. */
  predicate Exits(s: Layer, t: Tid, s': Layer)
    requires t in s.threads
  {
    var call := s.threads[t].call;
    call.EchoClose? && s' == CloseLwip(s, call.x).(threads := s.threads - {t})
  }

  ghost predicate Next(s: Layer, t: Tid, s': Layer)
    requires t in s.threads
  {
    || (s.threads[t].call.Idle? && (Calls(s, t, s') || Brackets(s, t, s')))
    || Exits(s, t, s')
    || exists r: int, m: Layer :: Executes(s, t, r, m, s')
  }

  /** libio serves other files from the same table. */
  ghost predicate FileStep(s: Layer, s': Layer) {
    exists d: nat, iop: Iop ::
      && d < |s.table| && s' == s.(table := s.table[d := iop])
      && if s.table[d].inUse then s.table[d].handlers == OtherHandlers && iop == FREE
         else iop.inUse && iop.handlers == OtherHandlers
  }

  ghost predicate Step(s: Layer, s': Layer) {
    FileStep(s, s') || exists t: Tid :: t in s.threads && Next(s, t, s')
  }

  ghost predicate Init(s: Layer) {
    && |s.table| <= TWO31 && (forall d :: 0 <= d < |s.table| ==> s.table[d] == FREE)
    && s.closing == {} && s.open == {} && s.leaked == {}
    && (forall t :: t in s.threads ==> s.threads[t] == Thread(Idle, 0))
    && s.holder == None && s.depth == 0 && !s.badClose && !s.badUnlock
  }

  ghost predicate StepAt(states: seq<Layer>, k: nat)
    requires k < |states|
  {
    if k == 0 then Init(states[0]) else Step(states[k - 1], states[k])
  }

  /** A run starts between calls with empty tables and goes on by steps. */
  ghost predicate Run(states: seq<Layer>) {
    |states| > 0 && forall k :: 0 <= k < |states| ==> StepAt(states, k)
  }
}
