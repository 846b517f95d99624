/**
  The table of RTEMS descriptors as the lwIP glue uses it: looking a descriptor up, turning
  a fresh lwIP socket into a descriptor, and the errno values of the failures.
*/
module Libio {
  import opened Types

  datatype Handlers = NoHandlers | SocketHandlers | OtherHandlers

  /** The fields of an rtems_libio_t that matter here; a free entry has no handlers. */
  datatype Iop = Iop(inUse: bool, handlers: Handlers, data0: int)

  const FREE: Iop := Iop(false, NoHandlers, 0)

  /** What a lookup returns, and the errno it sets if it fails. */
  datatype Found = Found(lwipfd: int, errno: Option<Errno>)

  const TWO31: int := 0x8000_0000
  const TWO32: int := 0x1_0000_0000

  predicate IsInt(fd: int) {
    -TWO31 <= fd < TWO31
  }

  /** The cast from int to uint32_t. */
  function ToUint32(fd: int): nat
    requires IsInt(fd)
  {
    if fd < 0 then fd + TWO32 else fd
  }

  function IopToLwipfd(table: seq<Iop>, iop: Option<nat>): Found
    requires iop.Some? ==> iop.value < |table|
  {
    if iop.None? then Found(-1, Some(EBADF))
    else if table[iop.value].handlers != SocketHandlers then Found(-1, Some(ENOTSOCK))
    else Found(table[iop.value].data0, None)
  }

  function SysfdToLwipfd(table: seq<Iop>, fd: int): Found
    requires IsInt(fd)
  {
    if ToUint32(fd) >= |table| then Found(-1, Some(EBADF))
    else IopToLwipfd(table, Some(ToUint32(fd)))
  }

  /** Descriptors are ints, free entries are cleared and sockets are not negative. */
  predicate TableOk(table: seq<Iop>) {
    && |table| <= TWO31
    && forall d :: 0 <= d < |table| && table[d].handlers == SocketHandlers ==> table[d].inUse && table[d].data0 >= 0
  }

  predicate Full(table: seq<Iop>) {
    forall d :: 0 <= d < |table| ==> table[d].inUse
  }

  /** `fd` is the result of making a descriptor for `lwipfd`: a formerly free entry, or -1. */
  predicate Made(table: seq<Iop>, lwipfd: int, fd: int, table': seq<Iop>, errno: Option<Errno>) {
    if fd < 0 then fd == -1 && Full(table) && table' == table && errno == Some(ENFILE)
    else fd < |table| && !table[fd].inUse && table' == table[fd := Iop(true, SocketHandlers, lwipfd)] && errno == None
  }

  // ---------- The descriptor table agrees with lwIP's ----------

  /** A made descriptor leads back to its socket, and no other lookup changes. */
  lemma LookupAfterMake(table: seq<Iop>, lwipfd: int, fd: int, table': seq<Iop>, errno: Option<Errno>, other: int)
    requires TableOk(table) && lwipfd >= 0 && Made(table, lwipfd, fd, table', errno) && IsInt(other)
    ensures TableOk(table')
    ensures fd >= 0 ==> IsInt(fd) && SysfdToLwipfd(table', fd) == Found(lwipfd, None)
    ensures fd >= 0 ==> SysfdToLwipfd(table, fd).lwipfd == -1
    ensures other != fd ==> SysfdToLwipfd(table', other) == SysfdToLwipfd(table, other)
  {
  }

  /** A lookup succeeds exactly for the sockets in the table, and the failures are told apart. */
  lemma LookupMeaning(table: seq<Iop>, fd: int)
    requires TableOk(table) && IsInt(fd)
    ensures var r := SysfdToLwipfd(table, fd);
            && (r.lwipfd >= 0 <==> 0 <= fd < |table| && table[fd].handlers == SocketHandlers)
            && (r.lwipfd >= 0 ==> r == Found(table[fd].data0, None))
            && (r.errno == Some(EBADF) <==> fd < 0 || fd >= |table|)
            && (r.errno == Some(ENOTSOCK) <==> 0 <= fd < |table| && table[fd].handlers != SocketHandlers)
            && (r.lwipfd < 0 ==> r.lwipfd == -1)
  {
  }

  /**
    The unsigned comparison rejects every negative descriptor exactly as long as the table
    has at most 2^31 entries; beyond that the most negative int would index an entry.
  */
  lemma NegativeRejected(table: seq<Iop>)
    requires |table| < TWO32
    ensures (forall fd :: -TWO31 <= fd < 0 ==> SysfdToLwipfd(table, fd) == Found(-1, Some(EBADF))) <==> |table| <= TWO31
  {
    if |table| > TWO31 {
      assert ToUint32(-TWO31) < |table|;
      assert SysfdToLwipfd(table, -TWO31).errno != Some(EBADF);
    }
  }

  // ---------- The table in memory ----------

  /** The array of entries, as the C code updates it field by field, and errno. */
  class Descriptors {
    const iops: array<Iop>
    var errno: Option<Errno>

    predicate Valid()
      reads iops
    {
      TableOk(Table())
    }

    function Table(): seq<Iop>
      reads iops
    {
      iops[..]
    }

    constructor (n: nat)
      requires n <= TWO31
      ensures Valid() && Table() == seq(n, _ => FREE) && errno == None
      ensures fresh(iops)
    {
      iops := new Iop[n](_ => FREE);
      errno := None;
    }

    /** rtems_lwip_iop_to_lwipfd; a null iop is -1. */
    method LookupIop(iop: int) returns (lwipfd: int)
      requires Valid() && -1 <= iop < iops.Length
      modifies this`errno
      ensures Valid() && Table() == old(Table())
      ensures var r := IopToLwipfd(Table(), if iop == -1 then None else Some(iop));
              lwipfd == r.lwipfd && errno == if r.errno.Some? then r.errno else old(errno)
    {
      if iop == -1 {
        errno := Some(EBADF);
        return -1;
      }
      if iops[iop].handlers != SocketHandlers {
        errno := Some(ENOTSOCK);
        return -1;
      }
      lwipfd := iops[iop].data0;
    }

    /** rtems_lwip_sysfd_to_lwipfd */
    method Lookup(fd: int) returns (lwipfd: int)
      requires Valid() && IsInt(fd)
      modifies this`errno
      ensures Valid() && Table() == old(Table())
      ensures var r := SysfdToLwipfd(Table(), fd);
              lwipfd == r.lwipfd && errno == if r.errno.Some? then r.errno else old(errno)
    {
      if ToUint32(fd) >= iops.Length {
        errno := Some(EBADF);
        return -1;
      }
      lwipfd := LookupIop(ToUint32(fd));
    }

    /** rtems_libio_allocate: some free entry, or -1 if there is none. */
    method Allocate() returns (iop: int)
      requires Valid()
      ensures iop == -1 ==> Full(Table())
      ensures iop != -1 ==> 0 <= iop < iops.Length && !iops[iop].inUse
    {
      for d := 0 to iops.Length
        invariant forall e :: 0 <= e < d ==> iops[e].inUse
      {
        if !iops[d].inUse {
          return d;
        }
      }
      iop := -1;
    }

    /** rtems_lwip_make_sysfd_from_lwipfd */
    method Make(lwipfd: int) returns (fd: int)
      requires Valid() && lwipfd >= 0
      modifies this`errno, iops
      ensures Valid()
      ensures Made(old(Table()), lwipfd, fd, Table(), if fd < 0 then errno else None)
      ensures fd < 0 <==> forall d :: 0 <= d < iops.Length ==> old(iops[d].inUse)
      ensures fd >= 0 ==> errno == old(errno)
    {
      var iop := Allocate();
      if iop == -1 {
        errno := Some(ENFILE);
        return -1;
      }
      ghost var was := Table();
      fd := iop;
      iops[iop] := iops[iop].(data0 := lwipfd);
      iops[iop] := iops[iop].(handlers := SocketHandlers);
      iops[iop] := iops[iop].(inUse := true);
      assert Table() == was[iop := Iop(true, SocketHandlers, lwipfd)];
    }

    /** The entry goes back to libio, cleared. */
    method Free(iop: nat)
      requires Valid() && iop < iops.Length
      modifies iops
      ensures Valid() && Table() == old(Table())[iop := FREE]
    {
      iops[iop] := FREE;
    }
  }
}
