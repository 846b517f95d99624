/**
  Closing a descriptor.  libio admits one close per descriptor; while it is under way the
  entry keeps its socket, and exactly one task is at it until libio takes the entry back.
*/
module SocketClosing {
  import opened Types
  import opened Libio
  import opened SocketLayer

  /** The descriptor a call is closing. */
  function ClosesOf(call: Call): Option<nat> {
    match call
    case CloseEnter(d) => Some(d)
    case CloseLookup(d) => Some(d)
    case CloseDrop(d, _) => Some(d)
    case CloseSocket(d, _) => Some(d)
    case CloseRetake(d, _) => Some(d)
    case CloseLeave(d, _) => Some(d)
    case CloseFree(d, _) => Some(d)
    case _ => None
  }

  predicate IsClosing(s: Layer, t: Tid, d: nat) {
    t in s.threads && ClosesOf(s.threads[t].call) == Some(d)
  }

  ghost predicate ClosingInv(s: Layer) {
    && TableOk(s.table)
    && (forall d :: d in s.closing ==> d < |s.table| && s.table[d].handlers == SocketHandlers)
    && (forall t, d :: IsClosing(s, t, d) ==> d in s.closing)
    && (forall t, u, d :: IsClosing(s, t, d) && IsClosing(s, u, d) ==> t == u)
    && (forall d :: d in s.closing ==> exists t :: IsClosing(s, t, d))
  }

  /** No statement but the last takes a call off its descriptor, or puts one on. */
  lemma ProgramCloses(call: Call, r: int)
    ensures !OpOf(call).Begin? && !OpOf(call).FreeIop? && !OpOf(call).Exit? ==>
              ClosesOf(Continue(call, r)) == ClosesOf(call)
    ensures OpOf(call).FreeIop? ==> ClosesOf(call) == Some(OpOf(call).d) && ClosesOf(Continue(call, r)) == None
  {
  }

  /** Table entries may change, but not those of descriptors being closed. */
  predicate TableMoved(s: Layer, s': Layer) {
    && |s'.table| == |s.table| && TableOk(s'.table)
    && forall d :: d in s.closing && d < |s.table| ==> s'.table[d] == s.table[d]
  }

  lemma SameClosing(s: Layer, s': Layer)
    requires ClosingInv(s) && TableMoved(s, s') && s'.closing == s.closing
    requires forall t, d :: IsClosing(s', t, d) <==> IsClosing(s, t, d)
    ensures ClosingInv(s')
  {
    forall d | d in s'.closing ensures exists t :: IsClosing(s', t, d) {
      var t :| IsClosing(s, t, d);
      assert IsClosing(s', t, d);
    }
  }

  lemma CloseBegins(s: Layer, t: Tid, d: nat, s': Layer)
    requires ClosingInv(s) && t in s.threads && s.threads[t].call.Idle? && IsLive(s, d)
    requires s' == Goto(s.(closing := s.closing + {d}), t, CloseEnter(d))
    ensures ClosingInv(s')
  {
    assert forall u, e :: IsClosing(s', u, e) <==> IsClosing(s, u, e) || (u == t && e == d);
    forall e | e in s'.closing ensures exists u :: IsClosing(s', u, e) {
      if e == d {
        assert IsClosing(s', t, d);
      } else {
        var u :| IsClosing(s, u, e);
        assert IsClosing(s', u, e);
      }
    }
  }

  lemma CloseEnds(s: Layer, t: Tid, d: nat, s': Layer)
    requires ClosingInv(s) && IsClosing(s, t, d) && d < |s.table|
    requires s'.table == s.table[d := FREE] && s'.closing == s.closing - {d}
    requires t in s'.threads && s'.threads == s.threads[t := s'.threads[t]] && ClosesOf(s'.threads[t].call) == None
    ensures ClosingInv(s')
  {
    assert forall u, e :: IsClosing(s', u, e) <==> IsClosing(s, u, e) && e != d;
    forall e | e in s'.closing ensures exists u :: IsClosing(s', u, e) {
      var u :| IsClosing(s, u, e);
      assert IsClosing(s', u, e);
    }
  }

  lemma CallClosing(s: Layer, t: Tid, s': Layer)
    requires ClosingInv(s) && t in s.threads && s.threads[t].call.Idle? && Calls(s, t, s')
    ensures ClosingInv(s')
  {
    if d: nat :| IsLive(s, d) && s' == Goto(s.(closing := s.closing + {d}), t, CloseEnter(d)) {
      CloseBegins(s, t, d, s');
    } else {
      assert forall u, e :: IsClosing(s', u, e) <==> IsClosing(s, u, e);
      SameClosing(s, s');
    }
  }

  lemma EffectTable(s: Layer, t: Tid, op: Op, r: int, m: Layer)
    requires ClosingInv(s) && t in s.threads && Effect(s, t, op, r, m) && !op.FreeIop?
    ensures TableMoved(s, m) && m.closing == s.closing
    ensures forall u :: u in s.threads ==> u in m.threads && m.threads[u] == s.threads[u]
    ensures forall u :: u in m.threads && u !in s.threads ==> m.threads[u].call.EchoRecv?
  {
  }

  lemma ExecutesClosing(s: Layer, t: Tid, r: int, m: Layer, s': Layer)
    requires ClosingInv(s) && t in s.threads && Executes(s, t, r, m, s')
    ensures ClosingInv(s')
  {
    var call := s.threads[t].call;
    ProgramCloses(call, r);
    if OpOf(call).FreeIop? {
      assert IsClosing(s, t, OpOf(call).d);
      CloseEnds(s, t, OpOf(call).d, s');
    } else {
      EffectTable(s, t, OpOf(call), r, m);
      assert forall u, e :: IsClosing(s', u, e) <==> IsClosing(s, u, e);
      SameClosing(s, s');
    }
  }

  lemma FileClosing(s: Layer, s': Layer)
    requires ClosingInv(s) && FileStep(s, s')
    ensures ClosingInv(s')
  {
    assert forall u, e :: IsClosing(s', u, e) <==> IsClosing(s, u, e);
    SameClosing(s, s');
  }

  lemma NextClosing(s: Layer, t: Tid, s': Layer)
    requires ClosingInv(s) && t in s.threads && Next(s, t, s')
    ensures ClosingInv(s')
  {
    if s.threads[t].call.Idle? && Calls(s, t, s') {
      CallClosing(s, t, s');
    } else if (s.threads[t].call.Idle? && Brackets(s, t, s')) || Exits(s, t, s') {
      assert forall u, e :: IsClosing(s', u, e) <==> IsClosing(s, u, e);
      SameClosing(s, s');
    } else {
      var r: int, m: Layer :| Executes(s, t, r, m, s');
      ExecutesClosing(s, t, r, m, s');
    }
  }

  lemma ClosingStep(s: Layer, s': Layer)
    requires ClosingInv(s) && Step(s, s')
    ensures ClosingInv(s')
  {
    if FileStep(s, s') {
      FileClosing(s, s');
    } else {
      var t: Tid :| t in s.threads && Next(s, t, s');
      NextClosing(s, t, s');
    }
  }

  /** In every run exactly the descriptors in `closing` have a task closing them, one each. */
  lemma {:induction false} ClosingRun(states: seq<Layer>, k: nat)
    requires Run(states) && k < |states|
    ensures ClosingInv(states[k])
  {
    assert StepAt(states, k);
    if k == 0 {
    } else {
      ClosingRun(states, k - 1);
      ClosingStep(states[k - 1], states[k]);
    }
  }
}
