/**
  The statements an echo server and its tasks have behind them, over whole runs: a server
  accepts only once its socket is bound and listening, starts an echo task only once it was
  created, and drops a client or gives up only after a failure; an echo task hangs up only
  when there is nothing more to receive.
*/
module EchoServer {
  import opened SocketLayer
  import opened EchoClients

  /** What can be told of a result. */
  datatype Kind = Negative | NotNegative | Positive | NotPositive | Exactly(n: int) | NotZero {
    predicate Has(r: int) {
      match this
      case Negative => r < 0
      case NotNegative => r >= 0
      case Positive => r > 0
      case NotPositive => r <= 0
      case Exactly(n) => r == n
      case NotZero => r != 0
    }
  }

  /** Task `t` executes the statement it stands at. */
  ghost predicate Moves(s: Layer, t: Tid, s': Layer)
    requires t in s.threads
  {
    exists r: int, m: Layer :: Executes(s, t, r, m, s')
  }

  /** The result of that statement can only have been of the kind. */
  ghost predicate Answers(s: Layer, t: Tid, s': Layer, kind: Kind)
    requires t in s.threads
  {
    forall r: int, m: Layer :: Executes(s, t, r, m, s') ==> kind.Has(r)
  }

  /** Step `i` of the run is task `t` executing `call`, with a result of the kind. */
  ghost predicate Answered(states: seq<Layer>, i: nat, t: Tid, call: Call, kind: Kind) {
    && i + 1 < |states| && At(states[i], t, call)
    && Moves(states[i], t, states[i + 1]) && Answers(states[i], t, states[i + 1], kind)
  }

  predicate At(s: Layer, t: Tid, call: Call) {
    t in s.threads && s.threads[t].call == call
  }

  /** The statements that come only after others of the same task. */
  predicate Inner(call: Call) {
    call.ServerListen? || call.ServerGiveUp? || Accepting(call) || call.EchoSend? || call.EchoClose?
  }

  lemma NewTask(s: Layer, u: Tid, s': Layer, t: Tid)
    requires u in s.threads && Next(s, u, s') && t !in s.threads && t in s'.threads
    ensures s'.threads[t].call.EchoRecv?
  {
    var r: int, m: Layer :| Executes(s, u, r, m, s');
  }

  /** A task comes to such a statement by executing the one before. */
  lemma InnerStep(s: Layer, s': Layer, t: Tid)
    requires Step(s, s') && t in s'.threads
    requires Inner(s'.threads[t].call) || (t in s.threads && s'.threads[t].call.EchoRecv?)
    ensures t in s.threads && (s'.threads[t] == s.threads[t] || Moves(s, t, s'))
  {
    if !FileStep(s, s') {
      var u: Tid :| u in s.threads && Next(s, u, s');
      if t !in s.threads {
        NewTask(s, u, s', t);
      } else if u != t {
        OtherMoves(s, u, s', t);
      } else if !Moves(s, t, s') {
        NotByCalls(s, t, s');
      }
    }
  }

  lemma NotByCalls(s: Layer, t: Tid, s': Layer)
    requires t in s.threads && t in s'.threads && (Calls(s, t, s') || Brackets(s, t, s') || Exits(s, t, s'))
    ensures !Inner(s'.threads[t].call) && !s'.threads[t].call.EchoRecv?
  {
  }

  lemma NotAtFirst(states: seq<Layer>, t: Tid)
    requires Run(states)
    ensures t in states[0].threads ==> states[0].threads[t].call == Idle
  {
    assert StepAt(states, 0);
  }

  lemma WasThere(states: seq<Layer>, k: nat, t: Tid, call: Call)
    requires Run(states) && k < |states| && At(states[k], t, call) && Inner(call)
    ensures k > 0 && t in states[k - 1].threads
  {
    NotAtFirst(states, t);
    assert StepAt(states, k);
    InnerStep(states[k - 1], states[k], t);
  }

  /** The step that brought task `t` where it is; it has stayed there since. */
  lemma {:induction false} LastStep(states: seq<Layer>, k: nat, t: Tid, call: Call) returns (i: nat)
    requires Run(states) && k < |states| && At(states[k], t, call) && Inner(call)
    ensures i < k && t in states[i].threads && !At(states[i], t, call)
    ensures forall j :: i < j <= k ==> At(states[j], t, call)
    decreases k
  {
    WasThere(states, k, t, call);
    if At(states[k - 1], t, call) {
      i := LastStep(states, k - 1, t, call);
    } else {
      i := k - 1;
    }
  }

  lemma StepMoves(states: seq<Layer>, i: nat, t: Tid, call: Call)
    requires Run(states) && i + 1 < |states| && t in states[i].threads && !At(states[i], t, call)
    requires At(states[i + 1], t, call) && (Inner(call) || call.EchoRecv?)
    ensures Moves(states[i], t, states[i + 1])
  {
    assert StepAt(states, i + 1);
    InnerStep(states[i], states[i + 1], t);
  }

  // ---------- What is before a statement ----------

  /** The statement and result that lead to `call`. */
  predicate LeadsTo(p: Call, r: int, call: Call) {
    match call
    case ServerListen(x) => p == ServerBind(x) && r >= 0
    case ServerGiveUp(x) => (p == ServerBind(x) && r < 0) || (p == ServerListen(x) && r != 0)
    case ServerAccept(x) => (p == ServerListen(x) && r == 0) || (Accepting(p) && p.x == x)
    case ServerCreate(x, c) => p == ServerAccept(x) && r == c && c > 0
    case ServerLaunch(x, c) => p == ServerCreate(x, c) && r == 0
    case ServerDrop(x, c) => (p == ServerCreate(x, c) || p == ServerLaunch(x, c)) && r != 0
    case EchoRecv(x) => p == EchoSend(x)
    case EchoSend(x) => p == EchoRecv(x) && r > 0
    case EchoClose(x) => p == EchoRecv(x) && r <= 0
    case _ => true
  }

  lemma ProgramLeads(p: Call, r: int)
    ensures LeadsTo(p, r, Continue(p, r))
  {
  }

  lemma MovesLead(s: Layer, t: Tid, s': Layer, call: Call)
    requires t in s.threads && Moves(s, t, s') && At(s', t, call)
    ensures exists r :: LeadsTo(s.threads[t].call, r, call)
  {
    var r: int, m: Layer :| Executes(s, t, r, m, s');
    ProgramLeads(s.threads[t].call, r);
  }

  lemma AnswersBy(s: Layer, t: Tid, s': Layer, call: Call, kind: Kind)
    requires t in s.threads && At(s', t, call)
    requires forall r :: LeadsTo(s.threads[t].call, r, call) ==> kind.Has(r)
    ensures Answers(s, t, s', kind)
  {
    forall r: int, m: Layer | Executes(s, t, r, m, s') ensures kind.Has(r) {
      ProgramLeads(s.threads[t].call, r);
    }
  }

  /** The statement before. */
  lemma Before(states: seq<Layer>, k: nat, t: Tid, call: Call) returns (i: nat, p: Call)
    requires Run(states) && k < |states| && At(states[k], t, call) && Inner(call)
    ensures i < k && At(states[i], t, p) && Moves(states[i], t, states[i + 1])
    ensures exists r :: LeadsTo(p, r, call)
    ensures forall kind: Kind :: (forall r :: LeadsTo(p, r, call) ==> kind.Has(r)) ==> Answered(states, i, t, p, kind)
    ensures forall j :: i < j <= k ==> At(states[j], t, call)
  {
    i := LastStep(states, k, t, call);
    p := states[i].threads[t].call;
    StepMoves(states, i, t, call);
    MovesLead(states[i], t, states[i + 1], call);
    forall kind: Kind | forall r :: LeadsTo(p, r, call) ==> kind.Has(r) ensures Answered(states, i, t, p, kind) {
      AnswersBy(states[i], t, states[i + 1], call, kind);
    }
  }

  // ---------- The server ----------

  /** Task `t` is in the accept loop of socket `x`. */
  predicate InLoop(s: Layer, t: Tid, x: nat) {
    t in s.threads && Accepting(s.threads[t].call) && s.threads[t].call.x == x
  }

  /** It came from listen, with result 0, or was in the loop already. */
  lemma BeforeInLoop(states: seq<Layer>, k: nat, t: Tid, x: nat) returns (i: nat)
    requires Run(states) && k < |states| && InLoop(states[k], t, x)
    ensures i < k && (Answered(states, i, t, ServerListen(x), Exactly(0)) || InLoop(states[i], t, x))
    ensures forall j :: i < j <= k ==> InLoop(states[j], t, x)
  {
    var p;
    i, p := Before(states, k, t, states[k].threads[t].call);
    if p == ServerListen(x) {
      assert Answered(states, i, t, p, Exactly(0));
    }
  }

  lemma {:induction false} LoopEntered(states: seq<Layer>, k: nat, t: Tid, x: nat) returns (l: nat)
    requires Run(states) && k < |states| && InLoop(states[k], t, x)
    ensures l < k && Answered(states, l, t, ServerListen(x), Exactly(0))
    ensures forall j :: l < j <= k ==> InLoop(states[j], t, x)
    decreases k
  {
    l := BeforeInLoop(states, k, t, x);
    if InLoop(states[l], t, x) {
      l := LoopEntered(states, l, t, x);
    }
  }

  /** A server that accepts clients has bound its socket and made it listen, both with success. */
  lemma AcceptsWhenListening(states: seq<Layer>, k: nat, t: Tid, x: nat) returns (b: nat, l: nat)
    requires Run(states) && k < |states| && InLoop(states[k], t, x)
    ensures b < l < k
    ensures Answered(states, b, t, ServerBind(x), NotNegative) && Answered(states, l, t, ServerListen(x), Exactly(0))
    ensures forall j :: b < j <= l ==> At(states[j], t, ServerListen(x))
    ensures forall j :: l < j <= k ==> InLoop(states[j], t, x)
  {
    l := LoopEntered(states, k, t, x);
    var p;
    b, p := Before(states, l, t, ServerListen(x));
    assert Answered(states, b, t, p, NotNegative);
  }

  /** It gives up, and closes its socket, only after a bind or listen that failed. */
  lemma GivesUpAfterFailure(states: seq<Layer>, k: nat, t: Tid, x: nat) returns (i: nat)
    requires Run(states) && k < |states| && At(states[k], t, ServerGiveUp(x))
    ensures i < k && forall j :: i < j <= k ==> At(states[j], t, ServerGiveUp(x))
    ensures Answered(states, i, t, ServerBind(x), Negative) || Answered(states, i, t, ServerListen(x), NotZero)
  {
    var p;
    i, p := Before(states, k, t, ServerGiveUp(x));
    assert Answered(states, i, t, p, if p == ServerBind(x) then Negative else NotZero);
  }

  /** It starts an echo task only for a client accepted with that number, when the task was created. */
  lemma LaunchesWhenCreated(states: seq<Layer>, k: nat, t: Tid, x: nat, c: nat) returns (a: nat, i: nat)
    requires Run(states) && k < |states| && At(states[k], t, ServerLaunch(x, c))
    ensures a < i < k && c > 0
    ensures Answered(states, a, t, ServerAccept(x), Exactly(c))
    ensures Answered(states, i, t, ServerCreate(x, c), Exactly(0))
    ensures forall j :: a < j <= i ==> At(states[j], t, ServerCreate(x, c))
    ensures forall j :: i < j <= k ==> At(states[j], t, ServerLaunch(x, c))
  {
    var p, q;
    i, p := Before(states, k, t, ServerLaunch(x, c));
    assert Answered(states, i, t, p, Exactly(0));
    a, q := Before(states, i, t, ServerCreate(x, c));
    assert Answered(states, a, t, q, Exactly(c));
  }

  /** It drops a client only when the echo task could not be created or started. */
  lemma DropsAfterFailure(states: seq<Layer>, k: nat, t: Tid, x: nat, c: nat) returns (i: nat)
    requires Run(states) && k < |states| && At(states[k], t, ServerDrop(x, c))
    ensures i < k && forall j :: i < j <= k ==> At(states[j], t, ServerDrop(x, c))
    ensures Answered(states, i, t, ServerCreate(x, c), NotZero) || Answered(states, i, t, ServerLaunch(x, c), NotZero)
  {
    var p;
    i, p := Before(states, k, t, ServerDrop(x, c));
    assert Answered(states, i, t, p, NotZero);
  }

  // ---------- The echo tasks ----------

  /** An echo task closes its socket only after a recv that returned nothing. */
  lemma ClosesAtTheEnd(states: seq<Layer>, k: nat, t: Tid, x: nat) returns (i: nat)
    requires Run(states) && k < |states| && At(states[k], t, EchoClose(x))
    ensures i < k && Answered(states, i, t, EchoRecv(x), NotPositive)
    ensures forall j :: i < j <= k ==> At(states[j], t, EchoClose(x))
  {
    var p;
    i, p := Before(states, k, t, EchoClose(x));
    assert Answered(states, i, t, p, NotPositive);
  }

  /** It sends only what it has just received. */
  lemma SendsWhatCame(states: seq<Layer>, k: nat, t: Tid, x: nat) returns (i: nat)
    requires Run(states) && k < |states| && At(states[k], t, EchoSend(x))
    ensures i < k && Answered(states, i, t, EchoRecv(x), Positive)
    ensures forall j :: i < j <= k ==> At(states[j], t, EchoSend(x))
  {
    var p;
    i, p := Before(states, k, t, EchoSend(x));
    assert Answered(states, i, t, p, Positive);
  }

  lemma CameToReceive(states: seq<Layer>, k: nat, t: Tid, x: nat)
    requires Run(states) && 0 < k < |states| && At(states[k], t, EchoRecv(x)) && t in states[k - 1].threads
    requires !At(states[k - 1], t, EchoRecv(x))
    ensures At(states[k - 1], t, EchoSend(x)) && Moves(states[k - 1], t, states[k])
  {
    StepMoves(states, k - 1, t, EchoRecv(x));
    MovesLead(states[k - 1], t, states[k], EchoRecv(x));
  }

  lemma {:induction false} ReceivesAgain(states: seq<Layer>, i: nat, k: nat, t: Tid, x: nat) returns (j: nat)
    requires Run(states) && i < k < |states| && At(states[k], t, EchoRecv(x)) && !At(states[i], t, EchoRecv(x))
    requires forall n :: i <= n <= k ==> t in states[n].threads
    ensures i <= j < k && At(states[j], t, EchoSend(x)) && Moves(states[j], t, states[j + 1])
    decreases k
  {
    if At(states[k - 1], t, EchoRecv(x)) {
      j := ReceivesAgain(states, i, k - 1, t, x);
    } else {
      j := k - 1;
      CameToReceive(states, k, t, x);
    }
  }

  /** Between two recvs of an echo task it has sent what the first one received. */
  lemma SendsBetween(states: seq<Layer>, i: nat, k: nat, t: Tid, x: nat) returns (j: nat)
    requires Run(states) && i < k < |states| && forall n :: i <= n <= k ==> t in states[n].threads
    requires At(states[i], t, EchoRecv(x)) && Moves(states[i], t, states[i + 1]) && At(states[k], t, EchoRecv(x))
    ensures i < j < k && At(states[j], t, EchoSend(x)) && Moves(states[j], t, states[j + 1])
  {
    if At(states[i + 1], t, EchoRecv(x)) {
      MovesLead(states[i], t, states[i + 1], EchoRecv(x));
    }
    j := ReceivesAgain(states, i + 1, k, t, x);
  }
}
