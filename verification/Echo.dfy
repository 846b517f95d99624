/**
  The receive and send loop of an echo task: what the client gets back, for any division of
  the stream into chunks and any number of bytes each send takes.
*/
module Echo {
  import opened SockAddr

  const BUFFER: nat := 1024

  /** How much of a chunk of `n` bytes the next send takes; `takes` lists the results of the sends. */
  function Taken(n: nat, takes: seq<int>): (k: nat)
    ensures k <= n
  {
    if takes == [] || takes[0] > n then n else if takes[0] < 0 then 0 else takes[0]
  }

  function Rest(takes: seq<int>): seq<int> {
    if takes == [] then [] else takes[1..]
  }

  /** The chunks received before the first recv that returns nothing. */
  function Live(incoming: seq<Bytes>): (n: nat)
    ensures n <= |incoming| && forall k :: 0 <= k < n ==> incoming[k] != []
    ensures n < |incoming| ==> incoming[n] == []
  {
    if incoming == [] || incoming[0] == [] then 0 else 1 + Live(incoming[1..])
  }

  function Concat(chunks: seq<Bytes>): Bytes {
    if chunks == [] then [] else chunks[0] + Concat(chunks[1..])
  }

  /** What the client gets back. */
  function Echoed(incoming: seq<Bytes>, takes: seq<int>): Bytes {
    if incoming == [] || incoming[0] == [] then []
    else incoming[0][..Taken(|incoming[0]|, takes)] + Echoed(incoming[1..], Rest(takes))
  }

  /** A connection: the results of the recvs and sends to come, and what was sent back. */
  class Client {
    var incoming: seq<Bytes>
    var takes: seq<int>
    var sent: Bytes
    var open: bool

    predicate Valid()
      reads this
    {
      open && forall i :: 0 <= i < |incoming| ==> |incoming[i]| <= BUFFER
    }

    constructor (incoming: seq<Bytes>, takes: seq<int>)
      requires forall i :: 0 <= i < |incoming| ==> |incoming[i]| <= BUFFER
      ensures Valid() && this.incoming == incoming && this.takes == takes && sent == []
    {
      this.incoming, this.takes, sent, open := incoming, takes, [], true;
    }

    /** lwip_recv; after the last chunk the connection has ended. */
    method Recv(buffer: array<Byte>) returns (nbytes: int)
      requires Valid() && buffer.Length == BUFFER
      modifies this`incoming, buffer
      ensures Valid() && nbytes <= BUFFER
      ensures nbytes > 0 <==> old(incoming) != [] && old(incoming[0]) != []
      ensures nbytes > 0 ==> buffer[..nbytes] == old(incoming[0]) && incoming == old(incoming[1..])
    {
      if incoming == [] {
        return -1;
      }
      Store(buffer, 0, incoming[0]);
      nbytes := |incoming[0]|;
      incoming := incoming[1..];
    }

    /** lwip_send */
    method Send(buffer: array<Byte>, nbytes: nat) returns (k: int)
      requires Valid() && nbytes <= buffer.Length
      modifies this`takes, this`sent
      ensures Valid() && takes == Rest(old(takes))
      ensures sent == old(sent) + buffer[..Taken(nbytes, old(takes))]
    {
      k := Taken(nbytes, takes);
      sent := sent + buffer[..k];
      takes := Rest(takes);
    }

    method Close()
      requires Valid()
      modifies this`open
      ensures !open
    {
      open := false;
    }
  }

  /** One recv, and the send of what it returned. */
  method EchoOnce(client: Client, buffer: array<Byte>) returns (nbytes: int)
    requires client.Valid() && buffer.Length == BUFFER
    modifies client, buffer
    ensures client.Valid() && (nbytes > 0 ==> |client.incoming| < |old(client.incoming)|)
    ensures old(client.sent) + Echoed(old(client.incoming), old(client.takes)) ==
            client.sent + if nbytes > 0 then Echoed(client.incoming, client.takes) else []
  {
    nbytes := client.Recv(buffer);
    if nbytes > 0 {
      var _ := client.Send(buffer, nbytes);
    }
  }

  /** lwip_echo_task; the buffer is reused, and no byte of an earlier chunk is sent again. */
  method EchoTask(client: Client)
    requires client.Valid()
    modifies client
    ensures client.sent == old(client.sent) + Echoed(old(client.incoming), old(client.takes))
    ensures !client.open
  {
    var buffer := new Byte[BUFFER];
    var more := true;
    while more
      invariant client.Valid()
      invariant old(client.sent) + Echoed(old(client.incoming), old(client.takes)) ==
                client.sent + if more then Echoed(client.incoming, client.takes) else []
      decreases more, |client.incoming|
    {
      var nbytes := EchoOnce(client, buffer);
      more := nbytes > 0;
    }
    client.Close();
  }

  // ---------- What the client gets back ----------

  /** The size of what a send takes of a chunk of `n` bytes, by its result: nothing if it fails. */
  predicate TakenBy(n: nat, takes: seq<int>, k: nat, size: nat) {
    if k >= |takes| then size == n
    else && (takes[k] < 0 ==> size == 0)
         && (0 <= takes[k] <= n ==> size == takes[k])
         && (takes[k] > n ==> size == n)
  }

  /**
    What the client gets is a prefix of each chunk up to the end of the connection, in order,
    each as long as the result of its send says: no send stops the echo.
  */
  lemma {:induction false} EchoedPrefixes(incoming: seq<Bytes>, takes: seq<int>) returns (parts: seq<Bytes>)
    ensures Echoed(incoming, takes) == Concat(parts)
    ensures |parts| <= |incoming| && (|parts| == |incoming| || incoming[|parts|] == [])
    ensures forall k :: 0 <= k < |parts| ==> incoming[k] != [] && parts[k] <= incoming[k]
    ensures forall k :: 0 <= k < |parts| ==> TakenBy(|incoming[k]|, takes, k, |parts[k]|)
  {
    if incoming == [] || incoming[0] == [] {
      parts := [];
    } else {
      var rest := EchoedPrefixes(incoming[1..], Rest(takes));
      parts := [incoming[0][..Taken(|incoming[0]|, takes)]] + rest;
      assert parts[1..] == rest;
      forall k | 0 <= k < |parts|
        ensures incoming[k] != [] && parts[k] <= incoming[k] && TakenBy(|incoming[k]|, takes, k, |parts[k]|)
      {
        if k > 0 {
          assert parts[k] == rest[k - 1] && incoming[k] == incoming[1..][k - 1];
          assert TakenBy(|incoming[k]|, Rest(takes), k - 1, |rest[k - 1]|);
        }
      }
    }
  }

  lemma {:induction false} EchoedShorter(incoming: seq<Bytes>, takes: seq<int>)
    ensures |Echoed(incoming, takes)| <= |Concat(incoming[..Live(incoming)])|
  {
    if incoming == [] || incoming[0] == [] {
    } else {
      EchoedShorter(incoming[1..], Rest(takes));
      assert incoming[..Live(incoming)][1..] == incoming[1..][..Live(incoming[1..])];
    }
  }

  /** Each send took its whole chunk. */
  predicate FullSends(incoming: seq<Bytes>, takes: seq<int>) {
    forall k :: 0 <= k < Live(incoming) && k < |takes| ==> takes[k] >= |incoming[k]|
  }

  lemma FullSendsRest(incoming: seq<Bytes>, takes: seq<int>)
    requires incoming != [] && incoming[0] != []
    ensures FullSends(incoming, takes) <==>
            Taken(|incoming[0]|, takes) == |incoming[0]| && FullSends(incoming[1..], Rest(takes))
  {
    var rest := Rest(takes);
    if FullSends(incoming, takes) {
      forall k | 0 <= k < Live(incoming[1..]) && k < |rest| ensures rest[k] >= |incoming[1..][k]| {
        assert takes[k + 1] >= |incoming[k + 1]|;
      }
    }
    if Taken(|incoming[0]|, takes) == |incoming[0]| && FullSends(incoming[1..], rest) {
      forall k | 0 <= k < Live(incoming) && k < |takes| ensures takes[k] >= |incoming[k]| {
        assert k > 0 ==> rest[k - 1] >= |incoming[1..][k - 1]|;
      }
    }
  }

  /** The bytes sent are the bytes received, in order, exactly when every send took its whole chunk. */
  lemma {:induction false} EchoesAll(incoming: seq<Bytes>, takes: seq<int>)
    ensures Echoed(incoming, takes) == Concat(incoming[..Live(incoming)]) <==> FullSends(incoming, takes)
  {
    if incoming == [] || incoming[0] == [] {
    } else {
      var n, rest := Taken(|incoming[0]|, takes), Rest(takes);
      EchoesAll(incoming[1..], rest);
      EchoedShorter(incoming[1..], rest);
      FullSendsRest(incoming, takes);
      var all := incoming[..Live(incoming)];
      assert all[1..] == incoming[1..][..Live(incoming[1..])];
      if n == |incoming[0]| {
        assert Echoed(incoming, takes)[n..] == Echoed(incoming[1..], rest);
        assert Concat(all)[n..] == Concat(all[1..]);
      } else {
        assert |Echoed(incoming, takes)| < |Concat(all)|;
      }
    }
  }
}
