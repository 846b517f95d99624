/**
  The echo server and its clients over whole runs: who has an accepted client, that nothing
  is left behind when calls end, and exactly when a client is lost.
*/
module EchoClients {
  import opened Libio
  import opened SocketLayer
  import opened SocketClosing
  import opened SocketOwnership

  // ---------- Echo tasks ----------

  /** Task `t` serves client `x`. */
  predicate Serves(s: Layer, t: Tid, x: nat) {
    t in s.threads && var call := s.threads[t].call; call == EchoRecv(x) || call == EchoSend(x) || call == EchoClose(x)
  }

  lemma OtherExecutes(s: Layer, u: Tid, r: int, m: Layer, s': Layer, t: Tid)
    requires t in s.threads && u in s.threads && u != t && Executes(s, u, r, m, s')
    ensures t in s'.threads && s'.threads[t] == s.threads[t]
  {
  }

  /** The other tasks do not move task `t`. */
  lemma OtherMoves(s: Layer, u: Tid, s': Layer, t: Tid)
    requires t in s.threads && u in s.threads && u != t && Next(s, u, s')
    ensures t in s'.threads && s'.threads[t] == s.threads[t]
  {
    if !(s.threads[u].call.Idle? && (Calls(s, u, s') || Brackets(s, u, s'))) && !Exits(s, u, s') {
      var r: int, m: Layer :| Executes(s, u, r, m, s');
      OtherExecutes(s, u, r, m, s', t);
    }
  }

  lemma ServesExecutes(s: Layer, t: Tid, r: int, m: Layer, s': Layer, x: nat)
    requires Serves(s, t, x) && Executes(s, t, r, m, s')
    ensures Serves(s', t, x)
  {
  }

  lemma ServesNext(s: Layer, s': Layer, t: Tid, x: nat)
    requires Serves(s, t, x) && Next(s, t, s')
    ensures if t in s'.threads then Serves(s', t, x) else x !in s'.open
  {
    if !Exits(s, t, s') {
      var r: int, m: Layer :| Executes(s, t, r, m, s');
      ServesExecutes(s, t, r, m, s', x);
    }
  }

  lemma ServesStep(s: Layer, s': Layer, t: Tid, x: nat)
    requires Step(s, s') && Serves(s, t, x)
    ensures if t in s'.threads then Serves(s', t, x) else x !in s'.open
  {
    if !FileStep(s, s') {
      var u: Tid :| u in s.threads && Next(s, u, s');
      if u == t {
        ServesNext(s, s', t, x);
      } else {
        OtherMoves(s, u, s', t);
      }
    }
  }

  lemma {:induction false} EchoServes(states: seq<Layer>, i: nat, k: nat, t: Tid, x: nat)
    requires Run(states) && i <= k < |states| && Serves(states[i], t, x)
    requires forall j :: i <= j <= k ==> t in states[j].threads
    ensures Serves(states[k], t, x)
    decreases k
  {
    if k == i {
    } else {
      EchoServes(states, i, k - 1, t, x);
      assert StepAt(states, k);
      ServesStep(states[k - 1], states[k], t, x);
    }
  }

  lemma ServesOpen(s: Layer, t: Tid, x: nat)
    requires OwnInv(s) && Serves(s, t, x)
    ensures x in s.open
  {
    assert ClaimedBy(s, Task(t), x);
  }

  /** An echo task has its client's socket open as long as it lives, and closes it with its last step. */
  lemma EchoClosesOnce(states: seq<Layer>, i: nat, k: nat, t: Tid, x: nat)
    requires Run(states) && i <= k < |states| - 1 && Serves(states[i], t, x)
    requires forall j :: i <= j <= k ==> t in states[j].threads
    ensures Serves(states[k], t, x) && x in states[k].open
    ensures t !in states[k + 1].threads ==> x !in states[k + 1].open
  {
    EchoServes(states, i, k, t, x);
    OwnRun(states, k);
    ServesOpen(states[k], t, x);
    assert StepAt(states, k + 1);
    ServesStep(states[k], states[k + 1], t, x);
  }

  /** The server still has the client `c` it accepted. */
  predicate Keeps(s: Layer, t: Tid, c: nat) {
    t in s.threads && TwoSockets(s.threads[t].call) && s.threads[t].call.c == c
  }

  /** A client above 0 stays open with the server until it is closed or an echo task has it. */
  lemma ServerSettles(s: Layer, t: Tid, c: nat, s': Layer)
    requires OwnInv(s) && Keeps(s, t, c) && Next(s, t, s')
    ensures c in s.open
    ensures Keeps(s', t, c) || c !in s'.open || exists u :: u !in s.threads && Serves(s', u, c) && c in s'.open
  {
    assert ClaimedBy(s, Task(t), c);
    var r: int, m: Layer :| Executes(s, t, r, m, s');
    var call := s.threads[t].call;
    if call.ServerLaunch? && r == 0 {
      var u: Tid :| u !in s.threads && m == Spawn(s, u, c);
      assert Serves(s', u, c);
    }
  }


  // ---------- The accept loop ----------

  /** The server is past listen. */
  predicate Accepting(call: Call) {
    call.ServerAccept? || TwoSockets(call)
  }

  predicate IsAccepting(s: Layer, t: Tid) {
    t in s.threads && Accepting(s.threads[t].call)
  }

  lemma ProgramAccepts(call: Call, r: int)
    requires Accepting(call)
    ensures Accepting(Continue(call, r)) && Continue(call, r).x == call.x
  {
  }

  /** It never leaves its loop, nor lets go of its own socket. */
  lemma AcceptingStep(s: Layer, s': Layer, t: Tid)
    requires Step(s, s') && IsAccepting(s, t)
    ensures IsAccepting(s', t) && s'.threads[t].call.x == s.threads[t].call.x
  {
    if !FileStep(s, s') {
      var u: Tid :| u in s.threads && Next(s, u, s');
      if u == t {
        var r: int, m: Layer :| Executes(s, t, r, m, s');
        ProgramAccepts(s.threads[t].call, r);
      } else {
        OtherMoves(s, u, s', t);
      }
    }
  }

  // ---------- Lost clients ----------

  /** Some server's lwip_accept answers 0. */
  ghost predicate Loses(s: Layer, s': Layer) {
    exists t: Tid, m: Layer :: t in s.threads && s.threads[t].call.ServerAccept? && Executes(s, t, 0, m, s')
  }

  lemma EffectLeaks(s: Layer, t: Tid, op: Op, r: int, m: Layer)
    requires Effect(s, t, op, r, m)
    ensures m.leaked == if op.AcceptClient? && r == 0 then s.leaked + {0} else s.leaked
  {
  }

  lemma ExecutesLeaks(s: Layer, t: Tid, r: int, m: Layer, s': Layer)
    requires t in s.threads && Executes(s, t, r, m, s')
    ensures s'.leaked == (if s.threads[t].call.ServerAccept? && r == 0 then s.leaked + {0} else s.leaked)
    ensures s.threads[t].call.ServerAccept? && r == 0 ==> 0 !in s.open && IsAccepting(s', t)
  {
    EffectLeaks(s, t, OpOf(s.threads[t].call), r, m);
  }

  /** A step that loses a client finds socket 0 closed and its server in the loop. */
  lemma LossLeaks(s: Layer, s': Layer)
    requires Loses(s, s')
    ensures s'.leaked == s.leaked + {0} && 0 !in s.open && exists t :: IsAccepting(s', t)
  {
    var t: Tid, m: Layer :| t in s.threads && s.threads[t].call.ServerAccept? && Executes(s, t, 0, m, s');
    ExecutesLeaks(s, t, 0, m, s');
  }

  lemma NextLeaks(s: Layer, t: Tid, s': Layer)
    requires t in s.threads && Next(s, t, s')
    ensures s'.leaked == s.leaked || Loses(s, s')
  {
    if s'.leaked != s.leaked {
      var r: int, m: Layer :| Executes(s, t, r, m, s');
      ExecutesLeaks(s, t, r, m, s');
    }
  }

  lemma LeakedStep(s: Layer, s': Layer)
    requires Step(s, s')
    ensures Loses(s, s') ==> s'.leaked == s.leaked + {0} && 0 !in s.open && exists t :: IsAccepting(s', t)
    ensures s'.leaked == s.leaked || Loses(s, s')
  {
    if Loses(s, s') {
      LossLeaks(s, s');
    } else if !FileStep(s, s') {
      var t: Tid :| t in s.threads && Next(s, t, s');
      NextLeaks(s, t, s');
    }
  }

  /** A client has been lost only if a server is in its accept loop. */
  ghost predicate LeakInv(s: Layer) {
    s.leaked != {} ==> exists t :: IsAccepting(s, t)
  }

  lemma {:induction false} LeakRun(states: seq<Layer>, k: nat)
    requires Run(states) && k < |states|
    ensures LeakInv(states[k])
  {
    assert StepAt(states, k);
    if k == 0 {
    } else {
      LeakRun(states, k - 1);
      LeakedStep(states[k - 1], states[k]);
      if states[k - 1].leaked != {} {
        var t :| IsAccepting(states[k - 1], t);
        AcceptingStep(states[k - 1], states[k], t);
      }
    }
  }

  ghost predicate LosesAt(states: seq<Layer>, j: nat)
    requires 0 < j < |states|
  {
    Loses(states[j - 1], states[j])
  }

  lemma LeakedAt(states: seq<Layer>, k: nat)
    requires Run(states) && 0 < k < |states|
    ensures states[k].leaked == if LosesAt(states, k) then states[k - 1].leaked + {0} else states[k - 1].leaked
  {
    assert StepAt(states, k);
    LeakedStep(states[k - 1], states[k]);
  }

  lemma {:induction false} LostOnce(states: seq<Layer>, k: nat) returns (j: nat)
    requires Run(states) && k < |states| && states[k].leaked != {}
    ensures 0 < j <= k && LosesAt(states, j)
  {
    assert StepAt(states, 0);
    LeakedAt(states, k);
    if states[k - 1].leaked == {} {
      j := k;
    } else {
      j := LostOnce(states, k - 1);
    }
  }

  lemma {:induction false} StaysLost(states: seq<Layer>, j: nat, k: nat)
    requires Run(states) && 0 < j <= k < |states| && LosesAt(states, j)
    ensures 0 in states[k].leaked
    decreases k
  {
    LeakedAt(states, k);
    if k == j {
    } else {
      StaysLost(states, j, k - 1);
    }
  }

  /** A client has been lost exactly if some accept of a server answered 0. */
  lemma LostIff(states: seq<Layer>, k: nat)
    requires Run(states) && k < |states|
    ensures states[k].leaked != {} <==> exists j :: 0 < j <= k && LosesAt(states, j)
  {
    if states[k].leaked != {} {
      var j := LostOnce(states, k);
    }
    forall j | 0 < j <= k && LosesAt(states, j) ensures states[k].leaked != {} {
      StaysLost(states, j, k);
    }
  }

  /** The socket is open, but no descriptor stands for it and no call in progress has to deal with it. */
  ghost predicate Unowned(s: Layer, x: nat) {
    && x in s.open
    && (forall d: nat :: IsLive(s, d) ==> s.table[d].data0 != x)
    && forall t: Tid :: t in s.threads ==> !HeldBy(s.table, s.threads[t].call, x)
  }

  lemma UnownedIsLeaked(s: Layer, x: nat)
    requires OwnInv(s)
    ensures Unowned(s, x) <==> x in s.leaked
  {
    if Unowned(s, x) {
      var c :| ClaimedBy(s, c, x);
      assert c.Lost?;
    }
    if x in s.leaked {
      assert ClaimedBy(s, Lost, x);
      forall d: nat | IsLive(s, d) ensures s.table[d].data0 != x {
        assert !ClaimedBy(s, Desc(d), x);
      }
      forall t: Tid | t in s.threads ensures !HeldBy(s.table, s.threads[t].call, x) {
        assert !ClaimedBy(s, Task(t), x);
      }
    }
  }

  /**
    Some open socket is nobody's exactly if some accept of a server has answered 0, and then
    it is socket 0: there is no other way to leave a socket behind.
  */
  lemma UnownedIff(states: seq<Layer>, k: nat)
    requires Run(states) && k < |states|
    ensures (exists x :: Unowned(states[k], x)) <==> exists j :: 0 < j <= k && LosesAt(states, j)
    ensures forall x :: Unowned(states[k], x) ==> x == 0
  {
    var s := states[k];
    OwnRun(states, k);
    LostIff(states, k);
    forall x ensures Unowned(s, x) <==> x in s.leaked {
      UnownedIsLeaked(s, x);
    }
    if s.leaked != {} {
      assert 0 in s.leaked;
    }
  }

  /** An accept can answer 0 exactly while socket 0 is closed. */
  lemma LossPossibleIff(s: Layer, t: Tid)
    requires t in s.threads && s.threads[t].call.ServerAccept?
    ensures (exists m: Layer, s': Layer :: Executes(s, t, 0, m, s')) <==> 0 !in s.open
  {
    if 0 !in s.open {
      var m := s.(open := s.open + {0}, leaked := s.leaked + {0});
      assert Executes(s, t, 0, m, Goto(m, t, s.threads[t].call));
    }
  }

  /** So no client is lost while socket 0 stays open. */
  lemma {:induction false} NoLossWhileZeroOpen(states: seq<Layer>, i: nat, k: nat)
    requires Run(states) && i <= k < |states| && forall j :: i <= j < k ==> 0 in states[j].open
    ensures states[k].leaked == states[i].leaked
    decreases k
  {
    if k == i {
    } else {
      NoLossWhileZeroOpen(states, i, k - 1);
      assert StepAt(states, k);
      LeakedStep(states[k - 1], states[k]);
    }
  }

  lemma {:induction false} KeepsListening(states: seq<Layer>, i: nat, k: nat, t: Tid)
    requires Run(states) && i <= k < |states| && IsAccepting(states[i], t)
    ensures IsAccepting(states[k], t) && states[k].threads[t].call.x == states[i].threads[t].call.x
    ensures states[k].threads[t].call.x in states[k].open
    decreases k
  {
    if k == i {
    } else {
      KeepsListening(states, i, k - 1, t);
      assert StepAt(states, k);
      AcceptingStep(states[k - 1], states[k], t);
    }
    OwnRun(states, k);
    assert ClaimedBy(states[k], Task(t), states[k].threads[t].call.x);
  }

  /** From the moment a server listens on socket 0 no client is ever lost. */
  lemma NoLossIfListeningOnZero(states: seq<Layer>, i: nat, k: nat, t: Tid)
    requires Run(states) && i <= k < |states| && IsAccepting(states[i], t) && states[i].threads[t].call.x == 0
    ensures states[k].leaked == states[i].leaked
  {
    forall j | i <= j < k ensures 0 in states[j].open {
      KeepsListening(states, i, j, t);
    }
    NoLossWhileZeroOpen(states, i, k);
  }

  // ---------- Nothing else is left behind ----------

  /**
    At any time, with any calls, servers and echo tasks under way: an open socket that is not
    a lost client has a live descriptor or a call in progress that has to deal with it.
  */
  lemma AllAccounted(states: seq<Layer>, k: nat, x: nat)
    requires Run(states) && k < |states| && x in states[k].open && x !in states[k].leaked
    ensures var s := states[k];
            || (exists d: nat :: IsLive(s, d) && s.table[d].data0 == x)
            || (exists t: Tid :: t in s.threads && HeldBy(s.table, s.threads[t].call, x))
  {
    OwnRun(states, k);
    var s := states[k];
    var c :| ClaimedBy(s, c, x);
    match c
    case Desc(d) => assert IsLive(s, d) && s.table[d].data0 == x;
    case Task(t) => assert t in s.threads && HeldBy(s.table, s.threads[t].call, x);
  }

  /** When every call has ended no socket is left behind, whichever paths the calls took. */
  lemma NoLeak(states: seq<Layer>, k: nat)
    requires Run(states) && k < |states|
    requires forall t :: t in states[k].threads ==>
               states[k].threads[t].call.Idle? || states[k].threads[t].call.Returned?
    ensures states[k].closing == {} && states[k].leaked == {}
    ensures forall x :: x in states[k].open ==>
              exists d: nat :: IsLive(states[k], d) && states[k].table[d].data0 == x
  {
    var s := states[k];
    OwnRun(states, k);
    LeakRun(states, k);
    assert forall t, d :: !IsClosing(s, t, d);
    forall x | x in s.open ensures exists d: nat :: IsLive(s, d) && s.table[d].data0 == x {
      AllAccounted(states, k, x);
    }
  }

  // ---------- One close for each client ----------

  /** The server still has client `c`, or an echo task serves it. */
  ghost predicate InCustody(s: Layer, c: nat) {
    (exists t :: Keeps(s, t, c)) || exists t :: Serves(s, t, c)
  }

  /** Some task closes socket `x`: by lwip_close, or as the end of an echo task. */
  ghost predicate Closes(s: Layer, s': Layer, x: nat) {
    exists t: Tid :: t in s.threads && (LwipCloses(s, t, s', x) || EchoCloses(s, t, s', x))
  }

  predicate EchoCloses(s: Layer, t: Tid, s': Layer, x: nat)
    requires t in s.threads
  {
    s.threads[t].call == EchoClose(x) && Exits(s, t, s')
  }

  ghost predicate LwipCloses(s: Layer, t: Tid, s': Layer, x: nat)
    requires t in s.threads
  {
    OpOf(s.threads[t].call) == Op.LwipClose(x) && exists r: int, m: Layer :: Executes(s, t, r, m, s')
  }

  /** A close, whoever does it, closes a socket that is open and that the task owns. */
  lemma ClosesOpen(s: Layer, s': Layer, x: nat)
    requires OwnInv(s) && Closes(s, s', x)
    ensures x in s.open && x !in s'.open
  {
    var t: Tid :| t in s.threads && (LwipCloses(s, t, s', x) || EchoCloses(s, t, s', x));
    if LwipCloses(s, t, s', x) {
      var r: int, m: Layer :| Executes(s, t, r, m, s');
      SocketOwnership.ProgramCloses(s.table, s.threads[t].call, r, x);
    }
    assert ClaimedBy(s, Task(t), x);
  }

  /** lwIP hands socket `x` out. */
  predicate OpensAt(states: seq<Layer>, j: nat, x: nat)
    requires 0 < j < |states|
  {
    x !in states[j - 1].open && x in states[j].open
  }

  lemma {:induction false} Reopened(states: seq<Layer>, i: nat, k: nat, x: nat)
    requires i <= k < |states| && x !in states[i].open && x in states[k].open
    ensures exists j :: i < j <= k && OpensAt(states, j, x)
    decreases k
  {
    if x in states[k - 1].open {
      Reopened(states, i, k - 1, x);
    } else {
      assert OpensAt(states, k, x);
    }
  }

  ghost predicate ClosesAt(states: seq<Layer>, j: nat, x: nat)
    requires 0 < j < |states|
  {
    Closes(states[j - 1], states[j], x)
  }

  lemma ClosesOpenAt(states: seq<Layer>, j: nat, x: nat)
    requires Run(states) && 0 < j < |states| && ClosesAt(states, j, x)
    ensures x in states[j - 1].open && x !in states[j].open
  {
    OwnRun(states, j - 1);
    ClosesOpen(states[j - 1], states[j], x);
  }

  /** Between two closes of one socket number lwIP has opened it anew: at most one close per acceptance. */
  lemma OneClosePerOpening(states: seq<Layer>, i: nat, k: nat, x: nat)
    requires Run(states) && 0 < i < k < |states| && ClosesAt(states, i, x) && ClosesAt(states, k, x)
    ensures exists j :: i < j < k && OpensAt(states, j, x)
  {
    ClosesOpenAt(states, i, x);
    ClosesOpenAt(states, k, x);
    Reopened(states, i, k - 1, x);
  }

  lemma OtherKeeps(s: Layer, u: Tid, s': Layer, t: Tid, c: nat)
    requires u in s.threads && Next(s, u, s') && u != t
    ensures Keeps(s, t, c) ==> Keeps(s', t, c)
    ensures Serves(s, t, c) ==> Serves(s', t, c)
  {
    if t in s.threads {
      OtherMoves(s, u, s', t);
    }
  }

  /** The server, at its next statement, still has the client, closes it or has started its echo task. */
  lemma KeeperStep(s: Layer, t: Tid, c: nat, s': Layer)
    requires OwnInv(s) && Keeps(s, t, c) && Next(s, t, s') && c in s'.open
    ensures InCustody(s', c)
  {
    ServerSettles(s, t, c, s');
  }

  lemma CustodyStep(s: Layer, s': Layer, c: nat)
    requires OwnInv(s) && Step(s, s') && InCustody(s, c) && c in s'.open
    ensures InCustody(s', c)
  {
    if FileStep(s, s') {
      assert forall t :: (Keeps(s, t, c) ==> Keeps(s', t, c)) && (Serves(s, t, c) ==> Serves(s', t, c));
    } else {
      var u: Tid :| u in s.threads && Next(s, u, s');
      if Keeps(s, u, c) {
        KeeperStep(s, u, c, s');
      } else if Serves(s, u, c) {
        ServesNext(s, s', u, c);
        assert Serves(s', u, c);
      } else {
        var t :| t != u && (Keeps(s, t, c) || Serves(s, t, c));
        OtherKeeps(s, u, s', t, c);
        assert Keeps(s', t, c) || Serves(s', t, c);
      }
    }
  }

  lemma CustodyOpen(s: Layer, c: nat)
    requires OwnInv(s) && InCustody(s, c)
    ensures c in s.open
  {
    if t: Tid :| Keeps(s, t, c) {
      assert ClaimedBy(s, Task(t), c);
    } else {
      var t: Tid :| Serves(s, t, c);
      assert ClaimedBy(s, Task(t), c);
    }
  }

  lemma EffectCloses(s: Layer, t: Tid, op: Op, r: int, m: Layer, x: nat)
    requires Effect(s, t, op, r, m) && x in s.open && x !in m.open
    ensures op == Op.LwipClose(x)
  {
  }

  /** What leaves lwIP's table was closed by a statement for it. */
  lemma GoneIsClosed(s: Layer, s': Layer, x: nat)
    requires Step(s, s') && x in s.open && x !in s'.open
    ensures Closes(s, s', x)
  {
    var t: Tid :| t in s.threads && Next(s, t, s');
    if Exits(s, t, s') {
      assert EchoCloses(s, t, s', x);
    } else {
      var r: int, m: Layer :| Executes(s, t, r, m, s');
      EffectCloses(s, t, OpOf(s.threads[t].call), r, m, x);
      assert LwipCloses(s, t, s', x);
    }
  }

  /** From its acceptance on a client above 0 is open and in the server's or an echo task's hands until it is closed. */
  lemma {:induction false} ClientKept(states: seq<Layer>, i: nat, k: nat, c: nat)
    requires Run(states) && i <= k < |states| && InCustody(states[i], c)
    requires forall j :: i < j <= k ==> !ClosesAt(states, j, c)
    ensures InCustody(states[k], c) && c in states[k].open
    decreases k
  {
    OwnRun(states, k);
    if k == i {
    } else {
      ClientKept(states, i, k - 1, c);
      OwnRun(states, k - 1);
      assert StepAt(states, k) && !ClosesAt(states, k, c);
      if c !in states[k].open {
        GoneIsClosed(states[k - 1], states[k], c);
      }
      CustodyStep(states[k - 1], states[k], c);
    }
    CustodyOpen(states[k], c);
  }

  /** Every accepted client above 0 starts in the server's hands. */
  lemma AcceptedInCustody(s: Layer, t: Tid, r: int, m: Layer, s': Layer)
    requires t in s.threads && s.threads[t].call.ServerAccept? && Executes(s, t, r, m, s')
    ensures r > 0 ==> r !in s.open && Keeps(s', t, r) && InCustody(s', r)
  {
    if r > 0 {
      assert Keeps(s', t, r);
    }
  }
}
