/**
  The BSD entry points and the close handler as one task executes them: on the descriptor
  table, the recursive mutex, errno and the caller's address buffer.  Every primitive is a
  step of the machine of SocketLayer, so each call is a run of it, from its first statement
  to its return, and what holds in all runs holds here.
*/
module Glue {
  import opened Types
  import opened Libio
  import opened SocketLayer
  import opened SockAddr
  import opened SocketOwnership

  /** The constants of one interface that socket() translates. */
  datatype Numbers = Numbers(unspec: int, inet: int, inet6: int, stream: int, dgram: int)

  function DomainIn(lwip: Numbers, rtems: Numbers, domain: int): Option<int> {
    if domain == rtems.unspec then Some(lwip.unspec)
    else if domain == rtems.inet then Some(lwip.inet)
    else if domain == rtems.inet6 then Some(lwip.inet6)
    else None
  }

  function TypeIn(lwip: Numbers, rtems: Numbers, kind: int): Option<int> {
    if kind == rtems.stream then Some(lwip.stream)
    else if kind == rtems.dgram then Some(lwip.dgram)
    else None
  }

  /** errno after a lookup of `fd`: the lookup's error, or what it was. */
  function LookupErrno(table: seq<Iop>, fd: int, was: Option<Errno>): Option<Errno>
    requires IsInt(fd)
  {
    if SysfdToLwipfd(table, fd).errno.Some? then SysfdToLwipfd(table, fd).errno else was
  }

  lemma RunExtends(states: seq<Layer>, s: Layer, s': Layer)
    requires Run(states + [s]) && Step(s, s')
    ensures Run(states + [s] + [s'])
  {
    var shorter, longer := states + [s], states + [s] + [s'];
    forall k | 0 <= k < |longer| ensures StepAt(longer, k) {
      assert k < |shorter| ==> StepAt(shorter, k);
    }
  }

  lemma RunBegins(s: Layer)
    requires Init(s)
    ensures Run([] + [s])
  {
    forall k | 0 <= k < |[] + [s]| ensures StepAt([] + [s], k) {
    }
  }

  class Glue {
    const files: Descriptors
    var depth: nat
    var open: set<nat>
    var requests: seq<(int, int, int)>   // the arguments of the calls of lwip_socket
    ghost var closing: set<nat>
    ghost var at: Call
    ghost var entry: nat
    ghost var trace: seq<Layer>

    /** The state of the machine with this one task, number 0. */
    ghost function View(): Layer
      reads this, files, files.iops
    {
      Layer(files.Table(), closing, open, {}, map[0 := Thread(at, entry)],
            if depth == 0 then None else Some(0), depth, false, false)
    }

    ghost predicate Valid()
      reads this, files, files.iops
    {
      files.Valid() && Run(trace + [View()])
    }

    constructor (n: nat)
      requires n <= TWO31
      ensures Valid() && at == Idle && depth == 0 && open == {} && requests == []
    {
      files := new Descriptors(n);
      depth, open, closing, at, entry, requests := 0, {}, {}, Idle, 0, [];
      new;
      trace := [];
      RunBegins(View());
    }

    /** Extends the trace by the state a step of the machine started from. */
    ghost method Record(s: Layer)
      requires files.Valid() && Run(trace + [s]) && Step(s, View())
      modifies this`trace
      ensures Valid()
    {
      RunExtends(trace, s, View());
      trace := trace + [s];
    }

    ghost method Enter(call: Call)
      requires Valid() && at == Idle && IsEntry(call)
      modifies this`at, this`trace
      ensures Valid() && at == call
    {
      var s := View();
      at := call;
      assert View() == Goto(s, 0, call);
      assert Calls(s, 0, View());
      assert Next(s, 0, View());
      Record(s);
    }

    /** The result of an lwIP call or a test, which changes nothing here. */
    ghost method Answer(r: int)
      requires Valid() && OpOf(at).Outcome?
      modifies this`at, this`trace
      ensures Valid() && at == Continue(old(at), r)
    {
      var s := View();
      at := Continue(at, r);
      assert Executes(s, 0, r, s, View());
      assert Next(s, 0, View());
      Record(s);
    }

    method Obtain()
      requires Valid() && OpOf(at).Acquire?
      modifies this`depth, this`at, this`trace
      ensures Valid() && depth == old(depth) + 1 && at == Continue(old(at), 0)
    {
      ghost var s := View();
      depth := depth + 1;
      at := Continue(at, 0);
      assert Executes(s, 0, 0, Lock(s, 0), View());
      assert Next(s, 0, View());
      Record(s);
    }

    method Release()
      requires Valid() && OpOf(at).Drop? && depth > 0
      modifies this`depth, this`at, this`trace
      ensures Valid() && depth == old(depth) - 1 && at == Continue(old(at), 0)
    {
      ghost var s := View();
      depth := depth - 1;
      at := Continue(at, 0);
      assert Executes(s, 0, 0, Unlock(s, 0), View());
      assert Next(s, 0, View());
      Record(s);
    }

    /** lwip_socket and lwip_accept, which answer with an unused socket or fail. */
    method LwipOpen(answer: int) returns (lwipfd: int)
      requires Valid() && OpOf(at).LwipOpen? && (answer >= 0 ==> answer !in open)
      modifies this`open, this`at, this`trace
      ensures Valid() && lwipfd == answer && at == Continue(old(at), answer)
      ensures open == if answer >= 0 then old(open) + {answer} else old(open)
    {
      ghost var s := View();
      lwipfd := answer;
      if lwipfd >= 0 {
        open := open + {lwipfd};
      }
      at := Continue(at, answer);
      assert Executes(s, 0, answer, s.(open := open), View());
      assert Next(s, 0, View());
      Record(s);
    }

    method LwipClose(lwipfd: nat, answer: int) returns (ret: int)
      requires Valid() && OpOf(at) == Op.LwipClose(lwipfd) && lwipfd in open
      modifies this`open, this`at, this`trace
      ensures Valid() && ret == answer && open == old(open) - {lwipfd} && at == Continue(old(at), answer)
    {
      ghost var s := View();
      ret := answer;
      open := open - {lwipfd};
      at := Continue(at, answer);
      assert Executes(s, 0, answer, s.(open := open), View());
      assert Next(s, 0, View());
      Record(s);
    }

    method Lookup(fd: int) returns (lwipfd: int)
      requires Valid() && IsInt(fd) && OpOf(at) == Op.Lookup(fd)
      modifies this`at, this`trace, files`errno
      ensures Valid() && at == Continue(old(at), lwipfd) && files.Table() == old(files.Table())
      ensures lwipfd == SysfdToLwipfd(files.Table(), fd).lwipfd
      ensures files.errno == LookupErrno(files.Table(), fd, old(files.errno))
    {
      ghost var s := View();
      lwipfd := files.Lookup(fd);
      at := Continue(at, lwipfd);
      assert Executes(s, 0, lwipfd, s, View());
      assert Next(s, 0, View());
      Record(s);
    }

    method Make(lwipfd: nat) returns (fd: int)
      requires Valid() && OpOf(at) == Op.Make(lwipfd)
      modifies this`at, this`trace, files`errno, files.iops
      ensures Valid() && at == Continue(old(at), fd)
      ensures Made(old(files.Table()), lwipfd, fd, files.Table(), if fd < 0 then files.errno else None)
      ensures files.errno == if fd >= 0 then old(files.errno) else Some(ENFILE)
      ensures fd >= 0 <==> !Full(old(files.Table()))
    {
      ghost var s := View();
      fd := files.Make(lwipfd);
      at := Continue(at, fd);
      assert Executes(s, 0, fd, s.(table := files.Table()), View());
      assert Next(s, 0, View());
      Record(s);
    }

    /** The start of a call and its first locking. */
    method Begin(call: Call)
      requires Valid() && at == Idle && IsEntry(call) && OpOf(call).Acquire?
      modifies this`depth, this`at, this`trace
      ensures Valid() && depth == old(depth) + 1 && at == Continue(call, 0)
    {
      Enter(call);
      Obtain();
    }

    /** The last unlocking of a call and its return. */
    method End()
      requires Valid() && OpOf(at).Drop? && Continue(at, 0).Returned? && depth > 0
      modifies this`depth, this`at, this`trace
      ensures Valid() && depth == old(depth) - 1 && at == Idle
    {
      Release();
      Answer(0);
    }

    /** The start of a call on descriptor `s`, up to the test of what its lookup found. */
    method Find(call: Call, s: int) returns (lwipfd: int)
      requires Valid() && at == Idle && IsInt(s)
      requires IsEntry(call) && OpOf(call).Acquire? && OpOf(Continue(call, 0)) == Op.Lookup(s)
      modifies this`at, this`depth, this`trace, files`errno
      ensures Valid() && depth == old(depth) + 1 && at == Continue(Continue(call, 0), lwipfd)
      ensures lwipfd == SysfdToLwipfd(files.Table(), s).lwipfd
      ensures files.errno == LookupErrno(files.Table(), s, old(files.errno))
    {
      Begin(call);
      lwipfd := Lookup(s);
    }

    /** A call with an argument the glue does not know returns at once. */
    method Refuse()
      requires Valid() && at == Idle
      modifies this`at, this`trace, files`errno
      ensures Valid() && at == Idle && files.errno == Some(EINVAL)
    {
      files.errno := Some(EINVAL);
      Enter(Returned(-1));
      Answer(0);
    }

    /** socket() with the mutex held: the socket becomes a descriptor or is closed again. */
    method OpenSocket(domain: int, kind: int, answer: int) returns (fd: int)
      requires Valid() && at == SocketCreate && depth > 0 && (answer >= 0 ==> answer !in open)
      modifies this`open, this`at, this`trace, this`requests, files`errno, files.iops
      ensures Valid() && at == SocketLeave(fd) && IsInt(fd)
      ensures fd >= 0 ==> answer >= 0 && Made(old(files.Table()), answer, fd, files.Table(), None)
      ensures fd < 0 ==> fd == -1 && files.Table() == old(files.Table())
      ensures fd >= 0 <==> answer >= 0 && !Full(old(files.Table()))
      ensures open == if fd >= 0 then old(open) + {answer} else old(open)
      ensures files.errno == if fd < 0 && answer >= 0 then Some(ENFILE) else old(files.errno)
      ensures requests == old(requests) + [(domain, kind, 0)]
    {
      requests := requests + [(domain, kind, 0)];
      var lwipfd := LwipOpen(answer);
      if lwipfd < 0 {
        fd := -1;
      } else {
        fd := KeepSocket(lwipfd);
      }
    }

    /** The new socket becomes a descriptor, or is closed. */
    method KeepSocket(lwipfd: nat) returns (fd: int)
      requires Valid() && at == SocketMake(lwipfd) && lwipfd in open
      modifies this`open, this`at, this`trace, files`errno, files.iops
      ensures Valid() && at == SocketLeave(fd) && IsInt(fd)
      ensures fd >= 0 ==> Made(old(files.Table()), lwipfd, fd, files.Table(), None) && open == old(open)
      ensures fd < 0 ==> fd == -1 && files.Table() == old(files.Table()) && open == old(open) - {lwipfd}
      ensures fd >= 0 <==> !Full(old(files.Table()))
      ensures files.errno == if fd < 0 then Some(ENFILE) else old(files.errno)
    {
      fd := Make(lwipfd);
      if fd < 0 {
        var _ := LwipClose(lwipfd, 0);
      }
    }

    /** socket() */
    method Socket(rtems: Numbers, lwip: Numbers, domain: int, kind: int, answer: int) returns (fd: int)
      requires Valid() && at == Idle && (answer >= 0 ==> answer !in open)
      modifies this, files`errno, files.iops
      ensures Valid() && at == Idle && depth == old(depth) && IsInt(fd)
      ensures fd >= 0 ==> SysfdToLwipfd(files.Table(), fd).lwipfd == answer && open == old(open) + {answer}
      ensures fd < 0 ==> fd == -1 && files.Table() == old(files.Table()) && open == old(open)
      ensures if domain in {rtems.unspec, rtems.inet, rtems.inet6} && kind in {rtems.stream, rtems.dgram} then
                && |requests| == |old(requests)| + 1 && requests[..|old(requests)|] == old(requests)
                && (var (d, k, protocol) := requests[|old(requests)|];
                    && (domain == rtems.unspec ==> d == lwip.unspec)
                    && (domain == rtems.inet != rtems.unspec ==> d == lwip.inet)
                    && (domain == rtems.inet6 != rtems.inet && domain != rtems.unspec ==> d == lwip.inet6)
                    && (kind == rtems.stream ==> k == lwip.stream)
                    && (kind == rtems.dgram != rtems.stream ==> k == lwip.dgram)
                    && protocol == 0)
                && (fd >= 0 <==> answer >= 0 && !Full(old(files.Table())))
                && files.errno == (if fd < 0 && answer >= 0 then Some(ENFILE) else old(files.errno))
              else fd < 0 && files.errno == Some(EINVAL) && requests == old(requests)
    {
      var d, k := DomainIn(lwip, rtems, domain), TypeIn(lwip, rtems, kind);
      if d.None? || k.None? {
        Refuse();
        return -1;
      }
      Begin(SocketEnter);
      fd := OpenSocket(d.value, k.value, answer);
      End();
    }

    /** The call of lwip_accept, outside the mutex; lwIP leaves the peer's name in the buffer. */
    method AwaitPeer(l: nat, name: array<Byte>, answer: int, report: Bytes) returns (lwipfd: int)
      requires Valid() && at == AcceptDrop(l) && depth > 0
      requires answer >= 0 ==> answer !in open && |report| <= name.Length
      modifies this`open, this`at, this`depth, this`trace, name
      ensures Valid() && at == AcceptLeave(answer) && depth == old(depth) && lwipfd == answer
      ensures name[..] == if answer >= 0 then Put(old(name[..]), 0, report) else old(name[..])
      ensures open == if answer >= 0 then old(open) + {answer} else old(open)
    {
      Release();
      lwipfd := Welcome(name, answer, report);
      Obtain();
    }

    /** lwip_accept itself */
    method Welcome(name: array<Byte>, answer: int, report: Bytes) returns (lwipfd: int)
      requires Valid() && OpOf(at).LwipOpen?
      requires answer >= 0 ==> answer !in open && |report| <= name.Length
      modifies this`open, this`at, this`trace, name
      ensures Valid() && at == Continue(old(at), answer) && lwipfd == answer
      ensures name[..] == if answer >= 0 then Put(old(name[..]), 0, report) else old(name[..])
      ensures open == if answer >= 0 then old(open) + {answer} else old(open)
    {
      lwipfd := LwipOpen(answer);
      if lwipfd >= 0 {
        Store(name, 0, report);
      }
    }

    /** accept() up to the return from lwIP: the mutex is dropped around lwip_accept. */
    method AcceptPeer(s: int, name: array<Byte>, answer: int, report: Bytes) returns (lwipfd: int)
      requires Valid() && at == Idle && IsInt(s)
      requires answer >= 0 ==> answer !in open && |report| <= name.Length
      modifies this`open, this`at, this`depth, this`trace, files`errno, name
      ensures Valid() && at == (if lwipfd < 0 then Returned(lwipfd) else AcceptFamily(lwipfd)) && depth == old(depth)
      ensures files.Table() == old(files.Table()) && files.errno == LookupErrno(files.Table(), s, old(files.errno))
      ensures lwipfd == if SysfdToLwipfd(files.Table(), s).lwipfd >= 0 then answer else -1
      ensures name[..] == if lwipfd >= 0 then Put(old(name[..]), 0, report) else old(name[..])
      ensures open == if lwipfd >= 0 then old(open) + {answer} else old(open)
    {
      lwipfd := FindPeer(s);
      if lwipfd >= 0 {
        lwipfd := AwaitPeer(lwipfd, name, answer, report);
      }
      Release();
    }

    /** Locks and looks the listening socket up. */
    method FindPeer(s: int) returns (lwipfd: int)
      requires Valid() && at == Idle && IsInt(s)
      modifies this`at, this`depth, this`trace, files`errno
      ensures Valid() && depth == old(depth) + 1 && lwipfd == SysfdToLwipfd(files.Table(), s).lwipfd
      ensures at == if lwipfd < 0 then AcceptLeave(lwipfd) else AcceptDrop(lwipfd)
      ensures lwipfd < 0 ==> lwipfd == -1
      ensures files.errno == LookupErrno(files.Table(), s, old(files.errno))
    {
      lwipfd := Find(AcceptEnter(s), s);
    }

    /** accept() without a free descriptor closes the socket outside the mutex. */
    method DropPeer(lwipfd: nat)
      requires Valid() && at == AcceptFull(lwipfd) && lwipfd in open && depth > 0
      modifies this`open, this`at, this`depth, this`trace
      ensures Valid() && at == AcceptDone(-1) && depth == old(depth) && open == old(open) - {lwipfd}
    {
      Release();
      var _ := LwipClose(lwipfd, 0);
      Obtain();
    }

    /** Locks again and makes the descriptor. */
    method MakePeer(lwipfd: nat) returns (fd: int)
      requires Valid() && at == AcceptReenter(lwipfd)
      modifies this`at, this`depth, this`trace, files`errno, files.iops
      ensures Valid() && depth == old(depth) + 1 && IsInt(fd)
      ensures at == if fd < 0 then AcceptFull(lwipfd) else AcceptDone(fd)
      ensures fd >= 0 ==> Made(old(files.Table()), lwipfd, fd, files.Table(), None)
      ensures fd < 0 ==> fd == -1 && files.Table() == old(files.Table())
      ensures files.errno == if fd < 0 then Some(ENFILE) else old(files.errno)
      ensures fd >= 0 <==> !Full(old(files.Table()))
    {
      Obtain();
      fd := Make(lwipfd);
    }

    /** accept() from the second locking on: the socket becomes a descriptor or is closed again. */
    method AcceptDescriptor(lwipfd: nat) returns (ret: int)
      requires Valid() && at == AcceptReenter(lwipfd) && lwipfd in open
      modifies this`open, this`at, this`depth, this`trace, files`errno, files.iops
      ensures Valid() && at == Returned(ret) && depth == old(depth) && IsInt(ret)
      ensures ret >= 0 ==> Made(old(files.Table()), lwipfd, ret, files.Table(), None) && open == old(open)
      ensures ret < 0 ==> files.Table() == old(files.Table()) && open == old(open) - {lwipfd}
      ensures ret >= 0 <==> !Full(old(files.Table()))
      ensures ret < 0 ==> ret == -1
      ensures files.errno == if ret < 0 then Some(ENFILE) else old(files.errno)
    {
      ret := MakePeer(lwipfd);
      if ret < 0 {
        DropPeer(lwipfd);
      }
      Release();
    }

    /** accept() from the test of the family on; `known` tells whether the name was translated. */
    method AcceptClient(rtems: Abi, lwip: Abi, lwipfd: nat, name: array<Byte>) returns (ret: int, known: bool)
      requires Valid() && at == AcceptFamily(lwipfd) && lwipfd in open
      requires AbiOk(rtems) && AbiOk(lwip) && Room(rtems, lwip, name[..])
      modifies this`open, this`at, this`depth, this`trace, files`errno, files.iops, name
      ensures Valid() && at == Returned(ret) && depth == old(depth) && IsInt(ret)
      ensures known <==> Inbound(rtems, lwip, old(name[..])).Some?
      ensures known ==> Inbound(rtems, lwip, old(name[..])) == Some(name[..])
      ensures !known ==> ret == -1 && name[..] == old(name[..]) && files.errno == Some(EINVAL)
      ensures ret >= 0 ==> Made(old(files.Table()), lwipfd, ret, files.Table(), None) && open == old(open)
      ensures ret < 0 ==> files.Table() == old(files.Table()) && open == old(open) - {lwipfd}
      ensures ret >= 0 <==> known && !Full(old(files.Table()))
      ensures known ==> files.errno == if ret < 0 then Some(ENFILE) else old(files.errno)
      ensures ret < 0 ==> ret == -1
    {
      known := TranslateIn(rtems, lwip, name);
      Answer(if known then 0 else -1);
      if known {
        ret := AcceptDescriptor(lwipfd);
      } else {
        ret := RefusePeer(lwipfd);
      }
    }

    /** A peer whose name cannot be translated is closed. */
    method RefusePeer(lwipfd: nat) returns (ret: int)
      requires Valid() && OpOf(at) == Op.LwipClose(lwipfd) && lwipfd in open && Continue(at, 0) == Returned(-1)
      modifies this`open, this`at, this`trace, files`errno
      ensures Valid() && at == Returned(ret) && ret == -1
      ensures files.Table() == old(files.Table()) && files.errno == Some(EINVAL) && open == old(open) - {lwipfd}
    {
      var _ := LwipClose(lwipfd, 0);
      files.errno := Some(EINVAL);
      ret := -1;
    }

    /** The length field after the translation of `heard`. */
    method NameLength(rtems: Abi, lwip: Abi, ghost heard: Bytes, name: array<Byte>) returns (namelen: nat)
      requires AbiOk(rtems) && AbiOk(lwip) && Room(rtems, lwip, heard)
      requires Inbound(rtems, lwip, heard) == Some(name[..])
      ensures var peer := Read(lwip, heard).value;
              Holds(rtems, name[..], peer) && namelen == SizeOf(rtems.layout, peer)
    {
      WriteHolds(rtems, heard, Read(lwip, heard).value);
      namelen := name[..][rtems.layout.len];
    }

    /** The translated name's length replaces the caller's. */
    method AcceptNamed(rtems: Abi, lwip: Abi, lwipfd: nat, name: array<Byte>, room: nat)
      returns (ret: int, namelen: nat)
      requires Valid() && at == AcceptFamily(lwipfd) && lwipfd in open
      requires AbiOk(rtems) && AbiOk(lwip) && Room(rtems, lwip, name[..])
      modifies this`open, this`at, this`depth, this`trace, files`errno, files.iops, name
      ensures Valid() && at == Returned(ret) && depth == old(depth) && IsInt(ret)
      ensures ret >= 0 ==> Made(old(files.Table()), lwipfd, ret, files.Table(), None) && open == old(open)
      ensures ret < 0 ==> files.Table() == old(files.Table()) && open == old(open) - {lwipfd}
      ensures var peer := Read(lwip, old(name[..]));
              if peer.Some? then Holds(rtems, name[..], peer.value) && namelen == SizeOf(rtems.layout, peer.value)
              else name[..] == old(name[..]) && namelen == room
      ensures var known := Read(lwip, old(name[..])).Some?;
              && (ret >= 0 <==> known && !Full(old(files.Table())))
              && (ret < 0 ==> ret == -1 && files.errno == Some(if known then ENFILE else EINVAL))
              && (ret >= 0 ==> files.errno == old(files.errno))
    {
      namelen := room;
      var known;
      ghost var heard := name[..];
      ret, known := AcceptClient(rtems, lwip, lwipfd, name);
      if known {
        namelen := NameLength(rtems, lwip, heard, name);
      }
    }

    /**
      accept() to its return; `room` is the length the caller passed, `namelen` what is stored in its place.
      The buffer needs to hold what the code touches, and that only if there is a peer.
    */
    method AcceptAny(rtems: Abi, lwip: Abi, s: int, name: array<Byte>, room: nat, answer: int, report: Bytes)
      returns (ret: int, namelen: nat)
      requires Valid() && at == Idle && IsInt(s) && AbiOk(rtems) && AbiOk(lwip)
      requires answer >= 0 ==> answer !in open && |report| <= name.Length
      requires answer >= 0 && SysfdToLwipfd(files.Table(), s).lwipfd >= 0 ==>
                 Room(rtems, lwip, Put(name[..], 0, report))
      modifies this`open, this`at, this`depth, this`trace, files`errno, files.iops, name
      ensures Valid() && at == Returned(ret) && depth == old(depth)
      ensures ret >= 0 ==> Made(old(files.Table()), answer, ret, files.Table(), None) && open == old(open) + {answer}
      ensures ret < 0 ==> files.Table() == old(files.Table()) && open == old(open)
      ensures ret >= 0 ==> answer >= 0 && SysfdToLwipfd(old(files.Table()), s).lwipfd >= 0
      ensures answer >= 0 && SysfdToLwipfd(old(files.Table()), s).lwipfd >= 0 ==>
                var peer := Read(lwip, Put(old(name[..]), 0, report));
                && (ret >= 0 <==> peer.Some? && !Full(old(files.Table())))
                && (peer.Some? ==> Holds(rtems, name[..], peer.value) && namelen == SizeOf(rtems.layout, peer.value))
                && (peer.None? ==> namelen == room)
                && files.errno ==
                   if peer.None? then Some(EINVAL) else if ret < 0 then Some(ENFILE) else old(files.errno)
      ensures !(answer >= 0 && SysfdToLwipfd(old(files.Table()), s).lwipfd >= 0) ==>
                && ret == (if SysfdToLwipfd(old(files.Table()), s).lwipfd >= 0 then answer else -1)
                && files.errno == LookupErrno(old(files.Table()), s, old(files.errno))
                && name[..] == old(name[..]) && namelen == room
    {
      namelen := room;
      var lwipfd := AcceptPeer(s, name, answer, report);
      if lwipfd < 0 {
        ret := lwipfd;
      } else {
        ret, namelen := AcceptNamed(rtems, lwip, lwipfd, name, room);
      }
    }

    /** accept() */
    method Accept(rtems: Abi, lwip: Abi, s: int, name: array<Byte>, room: nat, answer: int, report: Bytes)
      returns (ret: int, namelen: nat)
      requires Valid() && at == Idle && IsInt(s) && AbiOk(rtems) && AbiOk(lwip)
      requires answer >= 0 ==> answer !in open && |report| <= name.Length
      requires answer >= 0 && SysfdToLwipfd(files.Table(), s).lwipfd >= 0 ==>
                 Room(rtems, lwip, Put(name[..], 0, report))
      modifies this`open, this`at, this`depth, this`trace, files`errno, files.iops, name
      ensures Valid() && at == Idle && depth == old(depth)
      ensures ret >= 0 ==> Made(old(files.Table()), answer, ret, files.Table(), None) && open == old(open) + {answer}
      ensures ret >= 0 ==> IsInt(ret) && SysfdToLwipfd(files.Table(), ret).lwipfd == answer
      ensures ret < 0 ==> files.Table() == old(files.Table()) && open == old(open)
      ensures ret >= 0 ==> answer >= 0 && SysfdToLwipfd(old(files.Table()), s).lwipfd >= 0
      ensures answer >= 0 && SysfdToLwipfd(old(files.Table()), s).lwipfd >= 0 ==>
                var peer := Read(lwip, Put(old(name[..]), 0, report));
                && (ret >= 0 <==> peer.Some? && !Full(old(files.Table())))
                && (peer.Some? ==> Holds(rtems, name[..], peer.value) && namelen == SizeOf(rtems.layout, peer.value))
                && (peer.None? ==> namelen == room)
                && files.errno ==
                   if peer.None? then Some(EINVAL) else if ret < 0 then Some(ENFILE) else old(files.errno)
      ensures !(answer >= 0 && SysfdToLwipfd(old(files.Table()), s).lwipfd >= 0) ==>
                && ret == (if SysfdToLwipfd(old(files.Table()), s).lwipfd >= 0 then answer else -1)
                && files.errno == LookupErrno(old(files.Table()), s, old(files.errno))
                && name[..] == old(name[..]) && namelen == room
    {
      ghost var table := files.Table();
      ret, namelen := AcceptAny(rtems, lwip, s, name, room, answer, report);
      if ret >= 0 {
        LookupAfterMake(table, answer, ret, files.Table(), None, ret);
      }
      Answer(0);
    }

    /** libio admits a close of a live descriptor. */
    ghost method Admit(d: nat)
      requires Valid() && at == Idle && IsLive(View(), d)
      modifies this`closing, this`at, this`trace
      ensures Valid() && at == CloseEnter(d) && closing == old(closing) + {d}
    {
      ghost var s := View();
      closing := closing + {d};
      at := CloseEnter(d);
      assert View() == Goto(s.(closing := s.closing + {d}), 0, CloseEnter(d));
      assert Calls(s, 0, View());
      assert Next(s, 0, View());
      Record(s);
    }

    /** libio takes the entry back. */
    method TakeBack(d: nat)
      requires Valid() && OpOf(at) == Op.FreeIop(d) && d < files.iops.Length
      modifies this`closing, this`at, this`trace, files.iops
      ensures Valid() && at == Continue(old(at), 0) && files.Table() == old(files.Table())[d := FREE]
    {
      ghost var s := View();
      files.Free(d);
      closing := closing - {d};
      at := Continue(at, 0);
      assert Executes(s, 0, 0, s.(table := files.Table(), closing := closing), View());
      assert Next(s, 0, View());
      Record(s);
    }

    method LookupIop(d: nat) returns (lwipfd: int)
      requires Valid() && OpOf(at) == Op.LookupIop(d) && d < files.iops.Length
      modifies this`at, this`trace, files`errno
      ensures Valid() && at == Continue(old(at), lwipfd) && files.Table() == old(files.Table())
      ensures lwipfd == IopToLwipfd(files.Table(), Some(d)).lwipfd
    {
      ghost var s := View();
      lwipfd := files.LookupIop(d);
      at := Continue(at, lwipfd);
      assert Executes(s, 0, lwipfd, s, View());
      assert Next(s, 0, View());
      Record(s);
    }

    /** A live descriptor's socket is open, because the trace is a run. */
    lemma LiveIsOpen(d: nat)
      requires Valid() && IsLive(View(), d)
      ensures View().table[d].data0 in open
    {
      DescriptorsInjective(trace + [View()], |trace|, d, d);
    }

    /** The call of lwip_close, outside the mutex. */
    method CloseOutside(d: nat, lwipfd: nat, answer: int) returns (ret: int)
      requires Valid() && at == CloseDrop(d, lwipfd) && lwipfd in open && depth > 0
      modifies this`open, this`at, this`depth, this`trace
      ensures Valid() && at == CloseLeave(d, ret) && depth == old(depth)
      ensures ret == answer && open == old(open) - {lwipfd}
    {
      Release();
      ret := LwipClose(lwipfd, answer);
      Obtain();
    }

    /** Locks and looks the socket up. */
    method FindIop(d: nat) returns (lwipfd: int)
      requires Valid() && at == CloseEnter(d) && d < files.iops.Length
      modifies this`at, this`depth, this`trace, files`errno
      ensures Valid() && depth == old(depth) + 1 && lwipfd == IopToLwipfd(files.Table(), Some(d)).lwipfd
      ensures at == if lwipfd < 0 then CloseLeave(d, -1) else CloseDrop(d, lwipfd)
    {
      Obtain();
      lwipfd := LookupIop(d);
    }

    /** rtems_lwip_close */
    method CloseHandler(d: nat, answer: int) returns (ret: int)
      requires Valid() && at == CloseEnter(d) && d < files.iops.Length
      requires files.iops[d].handlers == SocketHandlers && files.iops[d].data0 in open
      modifies this`open, this`at, this`depth, this`trace, files`errno
      ensures Valid() && at == CloseFree(d, ret) && depth == old(depth) && ret == answer
      ensures files.Table() == old(files.Table()) && open == old(open) - {files.iops[d].data0}
    {
      var lwipfd := FindIop(d);
      if lwipfd < 0 {
        ret := -1;
      } else {
        ret := CloseOutside(d, lwipfd, answer);
      }
      Release();
    }

    /** close() */
    method Close(d: nat, answer: int) returns (ret: int)
      requires Valid() && at == Idle && IsLive(View(), d)
      modifies this`open, this`closing, this`at, this`depth, this`trace, files`errno, files.iops
      ensures Valid() && at == Idle && depth == old(depth) && ret == answer
      ensures files.Table() == old(files.Table())[d := FREE] && open == old(open) - {old(files.iops[d].data0)}
    {
      LiveIsOpen(d);
      Admit(d);
      ret := CloseHandler(d, answer);
      TakeBack(d);
      Answer(0);
    }

    /** A lookup for a call that keeps the mutex. */
    method FindHeld(s: int) returns (lwipfd: int)
      requires Valid() && at == Idle && IsInt(s)
      modifies this`at, this`depth, this`trace, files`errno
      ensures Valid() && depth == old(depth) + 1 && lwipfd == SysfdToLwipfd(files.Table(), s).lwipfd
      ensures at == if lwipfd < 0 then HoldLeave(-1) else HoldUse(lwipfd)
      ensures files.errno == LookupErrno(files.Table(), s, old(files.errno))
    {
      lwipfd := Find(HoldEnter(s), s);
    }

    /** bind(), connect() and listen() hold the mutex while lwIP works. */
    method HoldSocket(s: int, answer: int) returns (ret: int)
      requires Valid() && at == Idle && IsInt(s)
      modifies this`at, this`depth, this`trace, files`errno
      ensures Valid() && at == Idle && depth == old(depth) && files.Table() == old(files.Table())
      ensures ret == if SysfdToLwipfd(files.Table(), s).lwipfd >= 0 then answer else -1
      ensures files.errno == LookupErrno(files.Table(), s, old(files.errno))
    {
      ret := -1;
      var lwipfd := FindHeld(s);
      if lwipfd >= 0 {
        ret := answer;
        Answer(answer);
      }
      End();
    }

    /** A lookup for a call that drops the mutex. */
    method FindUsed(s: int) returns (lwipfd: int)
      requires Valid() && at == Idle && IsInt(s)
      modifies this`at, this`depth, this`trace, files`errno
      ensures Valid() && depth == old(depth) + 1 && lwipfd == SysfdToLwipfd(files.Table(), s).lwipfd
      ensures at == if lwipfd < 0 then UseLeave(-1) else UseDrop(lwipfd)
      ensures files.errno == LookupErrno(files.Table(), s, old(files.errno))
    {
      lwipfd := Find(UseEnter(s), s);
    }

    /** A blocking lwIP call, outside the mutex. */
    method Blocking(l: nat, answer: int) returns (ret: int)
      requires Valid() && at == UseDrop(l) && depth > 0
      modifies this`at, this`depth, this`trace
      ensures Valid() && at == UseLeave(answer) && depth == old(depth) && ret == answer
    {
      Release();
      ret := answer;
      Answer(answer);
      Obtain();
    }

    /** shutdown(), recv(), send(), sendto() and the read and write handlers drop it. */
    method UseSocket(s: int, answer: int) returns (ret: int)
      requires Valid() && at == Idle && IsInt(s)
      modifies this`at, this`depth, this`trace, files`errno
      ensures Valid() && at == Idle && depth == old(depth) && files.Table() == old(files.Table())
      ensures ret == if SysfdToLwipfd(files.Table(), s).lwipfd >= 0 then answer else -1
      ensures files.errno == LookupErrno(files.Table(), s, old(files.errno))
    {
      ret := -1;
      var lwipfd := FindUsed(s);
      if lwipfd >= 0 {
        ret := Blocking(lwipfd, answer);
      }
      End();
    }

    /** bind() and connect(): `sent` is the address lwIP reads from the `sentlen` bytes it is passed. */
    method Bind(rtems: Abi, lwip: Abi, s: int, name: array<Byte>, namelen: nat, answer: int)
      returns (ret: int, sent: Option<Address>, sentlen: nat)
      requires Valid() && at == Idle && IsInt(s)
      requires AbiOk(rtems) && AbiOk(lwip) && rtems.layout.family < name.Length && namelen <= name.Length
      modifies this`at, this`depth, this`trace, files`errno
      ensures Valid() && at == Idle && depth == old(depth) && files.Table() == old(files.Table())
      ensures sent == Read(rtems, name[..namelen])
      ensures sent.Some? ==> sentlen == if sent.value.Inet? then lwip.layout.size else lwip.layout.size6
      ensures ret == if sent.Some? && SysfdToLwipfd(files.Table(), s).lwipfd >= 0 then answer else -1
      ensures files.errno == if sent.None? then Some(EINVAL) else LookupErrno(files.Table(), s, old(files.errno))
    {
      var lwipname, lwipnamelen, errno := TranslateOut(rtems, lwip, name, namelen);
      if lwipname.None? {
        Refuse();
        return -1, None, 0;
      }
      sent, sentlen := Read(lwip, lwipname.value[..lwipnamelen]), lwipnamelen;
      assert lwipname.value[..lwipnamelen] == lwipname.value[..];
      ret := HoldSocket(s, answer);
    }

    /** sendto() with a name */
    method SendTo(rtems: Abi, lwip: Abi, s: int, name: array<Byte>, namelen: nat, answer: int)
      returns (ret: int, sent: Option<Address>, sentlen: nat)
      requires Valid() && at == Idle && IsInt(s)
      requires AbiOk(rtems) && AbiOk(lwip) && rtems.layout.family < name.Length && namelen <= name.Length
      modifies this`at, this`depth, this`trace, files`errno
      ensures Valid() && at == Idle && depth == old(depth) && files.Table() == old(files.Table())
      ensures sent == Read(rtems, name[..namelen])
      ensures sent.Some? ==> sentlen == if sent.value.Inet? then lwip.layout.size else lwip.layout.size6
      ensures ret == if sent.Some? && SysfdToLwipfd(files.Table(), s).lwipfd >= 0 then answer else -1
      ensures files.errno == if sent.None? then Some(EINVAL) else LookupErrno(files.Table(), s, old(files.errno))
    {
      var lwipname, lwipnamelen, errno := TranslateOut(rtems, lwip, name, namelen);
      if lwipname.None? {
        Refuse();
        return -1, None, 0;
      }
      sent, sentlen := Read(lwip, lwipname.value[..lwipnamelen]), lwipnamelen;
      assert lwipname.value[..lwipnamelen] == lwipname.value[..];
      ret := UseSocket(s, answer);
    }
  }
}
