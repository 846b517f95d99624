/**
  The recursive mutex of the lwIP glue over all interleavings: how deep each task holds it at
  each statement, and what follows for returns, blocking lwIP calls and table updates.
*/
module SocketMutex {
  import opened Types
  import opened Libio
  import opened SocketLayer

  /** How often the current call has taken the mutex and not dropped it. */
  function LockDepth(call: Call): nat {
    match call
    case SocketCreate | SocketMake(_) | SocketUndo(_) | SocketLeave(_) => 1
    case AcceptLookup(_) | AcceptDrop(_) | AcceptLeave(_) | AcceptMake(_) | AcceptFull(_) | AcceptDone(_) => 1
    case CloseLookup(_) | CloseDrop(_, _) | CloseLeave(_, _) => 1
    case HoldLookup(_) | HoldUse(_) | HoldLeave(_) => 1
    case UseLookup(_) | UseDrop(_) | UseLeave(_) => 1
    case _ => 0
  }

  predicate IsEcho(call: Call) {
    call.EchoRecv? || call.EchoSend? || call.EchoClose?
  }

  /** Along every path of every program the depth changes by exactly what the statement does. */
  lemma ProgramDepth(call: Call, r: int)
    requires !OpOf(call).Begin? && !OpOf(call).Exit?
    ensures OpOf(call).Acquire? ==> LockDepth(call) == 0 && LockDepth(Continue(call, r)) == 1
    ensures OpOf(call).Drop? ==> LockDepth(call) == 1 && LockDepth(Continue(call, r)) == 0
    ensures !OpOf(call).Acquire? && !OpOf(call).Drop? ==> LockDepth(Continue(call, r)) == LockDepth(call)
  {
  }

  lemma ProgramEcho(call: Call, r: int)
    ensures IsEcho(Continue(call, r)) ==> IsEcho(call)
  {
  }

  function DepthOf(th: Thread): nat {
    th.entry + LockDepth(th.call)
  }

  /** Held as deep as the holder's statement says, and not at all by the others. */
  predicate ThreadOk(s: Layer, t: Tid)
    requires t in s.threads
  {
    && DepthOf(s.threads[t]) == (if s.holder == Some(t) then s.depth else 0)
    && (IsEcho(s.threads[t].call) ==> s.threads[t].entry == 0)
  }

  ghost predicate MutexInv(s: Layer) {
    && !s.badUnlock
    && (s.holder.None? <==> s.depth == 0)
    && (s.holder.Some? ==> s.holder.value in s.threads)
    && forall t {:trigger ThreadOk(s, t)} :: t in s.threads ==> ThreadOk(s, t)
  }

  /** The mutex after a statement that changes the depth of `t` by `delta`. */
  predicate MutexMoved(s: Layer, t: Tid, delta: int, s': Layer) {
    && s'.badUnlock == s.badUnlock
    && (delta == 1 ==> Lockable(s, t) && s'.holder == Some(t) && s'.depth == s.depth + 1)
    && (delta == -1 ==> s.holder == Some(t) && s.depth > 0 && s'.depth == s.depth - 1)
    && (delta == -1 ==> s'.holder == if s.depth == 1 then None else s.holder)
    && (delta == 0 ==> s'.holder == s.holder && s'.depth == s.depth)
  }

  lemma MoveKeeps(s: Layer, t: Tid, th': Thread, delta: int, s': Layer)
    requires MutexInv(s) && t in s.threads && -1 <= delta <= 1 && MutexMoved(s, t, delta, s')
    requires DepthOf(th') == DepthOf(s.threads[t]) + delta && (IsEcho(th'.call) ==> th'.entry == 0)
    requires s'.threads == s.threads[t := th']
    ensures MutexInv(s')
  {
    assert ThreadOk(s, t);
    forall u | u in s'.threads ensures ThreadOk(s', u) {
      assert u != t ==> ThreadOk(s, u);
    }
  }

  /** A task between calls starts one without touching the mutex. */
  lemma StartKeeps(s: Layer, t: Tid, call: Call, s': Layer)
    requires MutexInv(s) && t in s.threads && s.threads[t].call.Idle?
    requires LockDepth(call) == 0 && !IsEcho(call) && MutexMoved(s, t, 0, s')
    requires s'.threads == s.threads[t := s.threads[t].(call := call)]
    ensures MutexInv(s')
  {
    assert ThreadOk(s, t);
    MoveKeeps(s, t, s.threads[t].(call := call), 0, s');
  }

  lemma CallStarts(s: Layer, t: Tid, s': Layer) returns (call: Call)
    requires t in s.threads && s.threads[t].call.Idle? && Calls(s, t, s')
    ensures LockDepth(call) == 0 && !IsEcho(call) && MutexMoved(s, t, 0, s')
    ensures s'.threads == s.threads[t := s.threads[t].(call := call)]
  {
    if c :| IsEntry(c) && s' == Goto(s, t, c) {
      call := c;
    } else if d: nat :| IsLive(s, d) && s' == Goto(s.(closing := s.closing + {d}), t, CloseEnter(d)) {
      call := CloseEnter(d);
    } else {
      var x: nat :| x !in s.open && s' == Goto(s.(open := s.open + {x}), t, ServerBind(x));
      call := ServerBind(x);
    }
  }

  lemma CallKeeps(s: Layer, t: Tid, s': Layer)
    requires MutexInv(s) && t in s.threads && s.threads[t].call.Idle? && Calls(s, t, s')
    ensures MutexInv(s')
  {
    var call := CallStarts(s, t, s');
    StartKeeps(s, t, call, s');
  }

  lemma BracketKeeps(s: Layer, t: Tid, s': Layer)
    requires MutexInv(s) && t in s.threads && s.threads[t].call.Idle? && Brackets(s, t, s')
    ensures MutexInv(s')
  {
    assert ThreadOk(s, t);
    var entry := s.threads[t].entry;
    if s'.threads[t].entry == entry + 1 {
      MoveKeeps(s, t, Thread(Idle, entry + 1), 1, s');
    } else {
      MoveKeeps(s, t, Thread(Idle, entry - 1), -1, s');
    }
  }

  lemma ExitKeeps(s: Layer, t: Tid, s': Layer)
    requires MutexInv(s) && t in s.threads && Exits(s, t, s')
    ensures MutexInv(s')
  {
    assert ThreadOk(s, t);
    forall u | u in s'.threads ensures ThreadOk(s', u) {
      assert ThreadOk(s, u);
    }
  }

  lemma SpawnKeeps(s: Layer, u: Tid, c: nat)
    requires MutexInv(s) && u !in s.threads
    ensures MutexInv(Spawn(s, u, c))
  {
    var s' := Spawn(s, u, c);
    forall v | v in s'.threads ensures ThreadOk(s', v) {
      assert v == u || ThreadOk(s, v);
    }
  }

  function Change(op: Op): int {
    if op.Acquire? then 1 else if op.Drop? then -1 else 0
  }

  lemma EffectMoves(s: Layer, t: Tid, op: Op, r: int, m: Layer)
    requires MutexInv(s) && t in s.threads && Effect(s, t, op, r, m) && !op.Launch?
    requires op.Drop? ==> LockDepth(s.threads[t].call) == 1
    ensures MutexMoved(s, t, Change(op), m) && m.threads == s.threads
  {
    assert ThreadOk(s, t);
  }

  lemma LaunchKeeps(s: Layer, t: Tid, r: int, m: Layer, s': Layer)
    requires MutexInv(s) && t in s.threads && OpOf(s.threads[t].call).Launch? && Executes(s, t, r, m, s')
    ensures MutexInv(s')
  {
    var call := s.threads[t].call;
    var th' := s.threads[t].(call := Continue(call, r));
    ProgramDepth(call, r);
    ProgramEcho(call, r);
    assert ThreadOk(s, t);
    if r == 0 {
      var u: Tid :| u !in s.threads && m == Spawn(s, u, OpOf(call).c);
      SpawnKeeps(s, u, OpOf(call).c);
    }
    MoveKeeps(m, t, th', 0, s');
  }

  lemma ExecutesKeeps(s: Layer, t: Tid, r: int, m: Layer, s': Layer)
    requires MutexInv(s) && t in s.threads && !OpOf(s.threads[t].call).Launch? && Executes(s, t, r, m, s')
    ensures MutexInv(s')
  {
    var call := s.threads[t].call;
    ProgramDepth(call, r);
    ProgramEcho(call, r);
    EffectMoves(s, t, OpOf(call), r, m);
    assert ThreadOk(s, t);
    MoveKeeps(s, t, s.threads[t].(call := Continue(call, r)), Change(OpOf(call)), s');
  }

  lemma FileKeeps(s: Layer, s': Layer)
    requires MutexInv(s) && FileStep(s, s')
    ensures MutexInv(s')
  {
    forall u | u in s'.threads ensures ThreadOk(s', u) {
      assert ThreadOk(s, u);
    }
  }

  lemma NextKeeps(s: Layer, t: Tid, s': Layer)
    requires MutexInv(s) && t in s.threads && Next(s, t, s')
    ensures MutexInv(s')
  {
    if s.threads[t].call.Idle? && Calls(s, t, s') {
      CallKeeps(s, t, s');
    } else if s.threads[t].call.Idle? && Brackets(s, t, s') {
      BracketKeeps(s, t, s');
    } else if Exits(s, t, s') {
      ExitKeeps(s, t, s');
    } else {
      var r: int, m: Layer :| Executes(s, t, r, m, s');
      if OpOf(s.threads[t].call).Launch? {
        LaunchKeeps(s, t, r, m, s');
      } else {
        ExecutesKeeps(s, t, r, m, s');
      }
    }
  }

  lemma MutexStep(s: Layer, s': Layer)
    requires MutexInv(s) && Step(s, s')
    ensures MutexInv(s')
  {
    if FileStep(s, s') {
      FileKeeps(s, s');
    } else {
      var t: Tid :| t in s.threads && Next(s, t, s');
      NextKeeps(s, t, s');
    }
  }

  lemma {:induction false} MutexRun(states: seq<Layer>, k: nat)
    requires Run(states) && k < |states|
    ensures MutexInv(states[k])
  {
    assert StepAt(states, k);
    if k == 0 {
    } else {
      MutexRun(states, k - 1);
      MutexStep(states[k - 1], states[k]);
    }
  }

  // ---------- What follows in every reachable state ----------

  /** How deep task `t` holds the recursive mutex. */
  function Holds(s: Layer, t: Tid): nat {
    if s.holder == Some(t) then s.depth else 0
  }

  /** A task is in an lwIP call of accept, shutdown, recv, send, sendto, close, read or write. */
  predicate InBlockingCall(call: Call) {
    || call.AcceptWait? || call.AcceptReject? || call.AcceptUndo?
    || call.UseCall? || call.CloseSocket?
  }

  /** In those calls the mutex is as deep as the caller had it, in socket, bind, connect and listen one deeper. */
  lemma DepthInLwip(states: seq<Layer>, k: nat, t: Tid)
    requires Run(states) && k < |states| && t in states[k].threads
    ensures var call, entry := states[k].threads[t].call, states[k].threads[t].entry;
            && (InBlockingCall(call) ==> Holds(states[k], t) == entry)
            && (call.SocketCreate? || call.SocketUndo? || call.HoldUse? ==> Holds(states[k], t) == entry + 1)
  {
    MutexRun(states, k);
    assert ThreadOk(states[k], t);
  }

  /** A task is about to allocate a descriptor or reads the table to look one up. */
  predicate InTable(call: Call) {
    || OpOf(call).Make? || OpOf(call).Lookup? || OpOf(call).LookupIop?
  }

  lemma OneInTable(states: seq<Layer>, k: nat, t: Tid, u: Tid)
    requires Run(states) && k < |states| && t in states[k].threads && u in states[k].threads
    requires InTable(states[k].threads[t].call) && InTable(states[k].threads[u].call)
    ensures t == u
  {
    MutexRun(states, k);
    assert ThreadOk(states[k], t) && ThreadOk(states[k], u);
  }

  // ---------- A call restores the depth ----------

  lemma ExecutesKeepsEntry(s: Layer, u: Tid, r: int, m: Layer, s': Layer, t: Tid)
    requires t in s.threads && u in s.threads && Executes(s, u, r, m, s')
    ensures t in s'.threads && s'.threads[t].entry == s.threads[t].entry
  {
    assert OpOf(s.threads[u].call).Launch? || m.threads == s.threads;
  }

  lemma EntryKept(s: Layer, s': Layer, t: Tid)
    requires Step(s, s') && t in s.threads && t in s'.threads
    requires !s.threads[t].call.Idle? || !s'.threads[t].call.Idle?
    ensures s'.threads[t].entry == s.threads[t].entry
  {
    if !FileStep(s, s') {
      var u: Tid :| u in s.threads && Next(s, u, s');
      if !(s.threads[u].call.Idle? && (Calls(s, u, s') || Brackets(s, u, s'))) && !Exits(s, u, s') {
        var r: int, m: Layer :| Executes(s, u, r, m, s');
        ExecutesKeepsEntry(s, u, r, m, s', t);
      }
    }
  }

  /** From `i` to `k` task `t` is in one call, begun at `i`. */
  predicate OneCall(states: seq<Layer>, i: nat, k: nat, t: Tid) {
    && i < k < |states|
    && (forall j :: i <= j <= k ==> t in states[j].threads)
    && states[i].threads[t].call.Idle?
    && forall j :: i < j <= k ==> !states[j].threads[t].call.Idle?
  }

  lemma {:induction false} EntryDuringCall(states: seq<Layer>, i: nat, k: nat, t: Tid)
    requires Run(states) && OneCall(states, i, k, t)
    ensures states[k].threads[t].entry == states[i].threads[t].entry
    decreases k
  {
    if k == i + 1 {
    } else {
      EntryDuringCall(states, i, k - 1, t);
    }
    assert StepAt(states, k);
    EntryKept(states[k - 1], states[k], t);
  }

  /**
    On every path of every call, whatever the other tasks do meanwhile, the mutex is as deep
    at the return as it was at the call, and nobody drops a mutex it does not hold.
  */
  lemma CallRestoresDepth(states: seq<Layer>, i: nat, k: nat, t: Tid)
    requires Run(states) && OneCall(states, i, k, t) && states[k].threads[t].call.Returned?
    ensures Holds(states[k], t) == Holds(states[i], t)
    ensures !states[k].badUnlock
  {
    EntryDuringCall(states, i, k, t);
    MutexRun(states, i);
    MutexRun(states, k);
    assert ThreadOk(states[i], t) && ThreadOk(states[k], t);
  }
}
