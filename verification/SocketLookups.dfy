/**
  What a call does with the socket it looked up after it dropped the mutex: it is still the
  socket of that descriptor exactly as long as no close of the descriptor has been admitted.
*/
module SocketLookups {
  import opened Libio
  import opened SocketLayer
  import opened SocketClosing
  import opened SocketOwnership
  import opened EchoClients

  lemma EffectLive(s: Layer, t: Tid, op: Op, r: int, m: Layer, d: nat)
    requires IsLive(s, d) && Effect(s, t, op, r, m) && TableOk(s.table)
    requires op.FreeIop? ==> op.d in s.closing
    ensures d < |m.table| && m.table[d] == s.table[d]
  {
  }

  /** Only a close takes the socket away from a live descriptor. */
  lemma LiveStep(s: Layer, s': Layer, d: nat)
    requires ClosingInv(s) && Step(s, s') && IsLive(s, d)
    ensures d < |s'.table| && s'.table[d] == s.table[d]
  {
    if !FileStep(s, s') {
      var t: Tid :| t in s.threads && Next(s, t, s');
      if !(s.threads[t].call.Idle? && (Calls(s, t, s') || Brackets(s, t, s'))) && !Exits(s, t, s') {
        var r: int, m: Layer :| Executes(s, t, r, m, s');
        var op := OpOf(s.threads[t].call);
        if op.FreeIop? {
          SocketClosing.ProgramCloses(s.threads[t].call, r);
          assert IsClosing(s, t, op.d);
        }
        EffectLive(s, t, op, r, m, d);
      }
    }
  }

  lemma {:induction false} StillItsSocket(states: seq<Layer>, i: nat, k: nat, d: nat)
    requires Run(states) && i <= k < |states| && IsLive(states[i], d)
    requires forall j :: i < j <= k ==> d !in states[j].closing
    ensures IsLive(states[k], d) && states[k].table[d] == states[i].table[d]
    decreases k
  {
    if k == i {
    } else {
      StillItsSocket(states, i, k - 1, d);
      ClosingRun(states, k - 1);
      assert StepAt(states, k);
      LiveStep(states[k - 1], states[k], d);
    }
  }

  /** Task `t` has just looked `fd` up and found lwIP's socket `l`. */
  ghost predicate LookedUp(states: seq<Layer>, i: nat, t: Tid, fd: int, l: nat)
    requires 0 < i < |states|
  {
    var s := states[i - 1];
    t in s.threads && OpOf(s.threads[t].call) == Op.Lookup(fd) && exists m: Layer :: Executes(s, t, l, m, states[i])
  }

  /**
    From the lookup on, the socket is owned by the descriptor, so open and nobody else's,
    exactly until a close of the descriptor is admitted; a lookup of a descriptor that is
    already being closed gives no such right.
  */
  lemma SocketUntilClosed(states: seq<Layer>, i: nat, k: nat, t: Tid, fd: int, l: nat)
    requires Run(states) && 0 < i <= k < |states| && LookedUp(states, i, t, fd, l)
    ensures 0 <= fd < |states[i].table|
    ensures (forall j :: i <= j <= k ==> ClaimedBy(states[j], Desc(fd), l))
            <==> forall j :: i <= j <= k ==> fd !in states[j].closing
  {
    var m: Layer :| Executes(states[i - 1], t, l, m, states[i]);
    OwnRun(states, i - 1);
    LookupMeaning(states[i - 1].table, fd);
    assert states[i].table == states[i - 1].table;
    if forall j :: i <= j <= k ==> ClaimedBy(states[j], Desc(fd), l) {
      forall j | i <= j <= k ensures fd !in states[j].closing {
        assert ClaimedBy(states[j], Desc(fd), l);
      }
    }
    if forall j :: i <= j <= k ==> fd !in states[j].closing {
      assert IsLive(states[i], fd);
      forall j | i <= j <= k ensures ClaimedBy(states[j], Desc(fd), l) {
        StillItsSocket(states, i, j, fd);
      }
    }
  }

  /** So the lwIP call acts on an open socket that is the descriptor's alone. */
  lemma UseIsItsOwn(states: seq<Layer>, i: nat, k: nat, t: Tid, fd: int, l: nat, c: Claim)
    requires Run(states) && 0 < i <= k < |states| && LookedUp(states, i, t, fd, l)
    requires forall j :: i <= j <= k ==> fd !in states[j].closing
    ensures l in states[k].open && (ClaimedBy(states[k], c, l) <==> fd >= 0 && c == Desc(fd))
  {
    SocketUntilClosed(states, i, k, t, fd, l);
    OwnRun(states, k);
    assert ClaimedBy(states[k], Desc(fd), l);
  }

  /** The socket itself stays open exactly until a statement closes it, whatever becomes of descriptors. */
  lemma OpenUntilClosed(states: seq<Layer>, i: nat, k: nat, l: nat)
    requires Run(states) && i <= k < |states| && l in states[i].open
    ensures (forall j :: i <= j <= k ==> l in states[j].open) <==> forall j :: i < j <= k ==> !ClosesAt(states, j, l)
  {
    if forall j :: i <= j <= k ==> l in states[j].open {
      forall j | i < j <= k ensures !ClosesAt(states, j, l) {
        if ClosesAt(states, j, l) {
          ClosesOpenAt(states, j, l);
        }
      }
    }
    if forall j :: i < j <= k ==> !ClosesAt(states, j, l) {
      forall j | i <= j <= k ensures l in states[j].open {
        StaysOpen(states, i, j, l);
      }
    }
  }

  lemma {:induction false} StaysOpen(states: seq<Layer>, i: nat, k: nat, l: nat)
    requires Run(states) && i <= k < |states| && l in states[i].open
    requires forall j :: i < j <= k ==> !ClosesAt(states, j, l)
    ensures l in states[k].open
    decreases k
  {
    if k == i {
    } else {
      StaysOpen(states, i, k - 1, l);
      assert StepAt(states, k) && !ClosesAt(states, k, l);
      if l !in states[k].open {
        GoneIsClosed(states[k - 1], states[k], l);
      }
    }
  }
}
