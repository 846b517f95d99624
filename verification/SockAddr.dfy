/**
  Socket addresses in two binary interfaces.  RTEMS and lwIP lay a sockaddr out differently
  and number the families differently; the glue translates between the two, in place when
  accept reports a peer.  Fields keep their bytes, so both byte orders are covered.
*/
module SockAddr {
  import opened Types

  type Byte = x: int | 0 <= x < 256

  type Bytes = seq<Byte>

  /** Offsets of the fields and sizes of the structures; length and family are common to both. */
  datatype Layout = Layout(
    len: nat, family: nat,
    port: nat, addr: nat, size: nat,
    port6: nat, flow6: nat, addr6: nat, scope6: nat, size6: nat)

  /** A layout and the numbers of the two families, which fit the one byte of sa_family. */
  datatype Abi = Abi(layout: Layout, inet: Byte, inet6: Byte)

  predicate Apart(a: nat, n: nat, b: nat, m: nat) {
    a + n <= b || b + m <= a
  }

  /** sockaddr_in: one byte each of length and family, two of port, four of address. */
  predicate InOk(l: Layout) {
    && l.len < l.size && l.family < l.size && l.port + 2 <= l.size && l.addr + 4 <= l.size
    && l.len != l.family && Apart(l.len, 1, l.port, 2) && Apart(l.len, 1, l.addr, 4)
    && Apart(l.family, 1, l.port, 2) && Apart(l.family, 1, l.addr, 4) && Apart(l.port, 2, l.addr, 4)
  }

  /** sockaddr_in6: two bytes of port, four of flow information, sixteen of address, four of scope. */
  predicate In6Ok(l: Layout) {
    && l.len < l.size6 && l.family < l.size6 && l.port6 + 2 <= l.size6
    && l.flow6 + 4 <= l.size6 && l.addr6 + 16 <= l.size6 && l.scope6 + 4 <= l.size6
    && l.len != l.family
    && Apart(l.len, 1, l.port6, 2) && Apart(l.len, 1, l.flow6, 4)
    && Apart(l.len, 1, l.addr6, 16) && Apart(l.len, 1, l.scope6, 4)
    && Apart(l.family, 1, l.port6, 2) && Apart(l.family, 1, l.flow6, 4)
    && Apart(l.family, 1, l.addr6, 16) && Apart(l.family, 1, l.scope6, 4)
    && Apart(l.port6, 2, l.flow6, 4) && Apart(l.port6, 2, l.addr6, 16) && Apart(l.port6, 2, l.scope6, 4)
    && Apart(l.flow6, 4, l.addr6, 16) && Apart(l.flow6, 4, l.scope6, 4) && Apart(l.addr6, 16, l.scope6, 4)
  }

  predicate AbiOk(abi: Abi) {
    && InOk(abi.layout) && In6Ok(abi.layout) && abi.inet != abi.inet6
    && abi.layout.size < 256 && abi.layout.size6 < 256
  }

  /** What an address means, whatever the layout. */
  datatype Address =
    | Inet(port: Bytes, addr: Bytes)
    | Inet6(port: Bytes, addr: Bytes, flow: Bytes, scope: Bytes)

  predicate WellSized(a: Address) {
    && |a.port| == 2 && |a.addr| == (if a.Inet? then 4 else 16)
    && (a.Inet6? ==> |a.flow| == 4 && |a.scope| == 4)
  }

  function SizeOf(l: Layout, a: Address): nat {
    if a.Inet? then l.size else l.size6
  }

  /** A buffer of `n` bytes has every field of the structure, if not the padding behind the last. */
  predicate Fits(l: Layout, inet: bool, n: nat) {
    && l.len < n && l.family < n
    && if inet then l.port + 2 <= n && l.addr + 4 <= n
       else l.port6 + 2 <= n && l.flow6 + 4 <= n && l.addr6 + 16 <= n && l.scope6 + 4 <= n
  }

  // ---------- Reading and writing a buffer ----------

  function Field(buf: Bytes, at: nat, n: nat): Bytes
    requires at + n <= |buf|
  {
    buf[at..at + n]
  }

  /** The address in `buf`, if the family is known and the buffer is long enough for it. */
  function Read(abi: Abi, buf: Bytes): (r: Option<Address>)
    requires AbiOk(abi)
    ensures r.Some? ==> WellSized(r.value) && SizeOf(abi.layout, r.value) <= |buf|
  {
    var l := abi.layout;
    if |buf| >= l.size && buf[l.family] == abi.inet then
      Some(Inet(Field(buf, l.port, 2), Field(buf, l.addr, 4)))
    else if |buf| >= l.size6 && buf[l.family] == abi.inet6 then
      Some(Inet6(Field(buf, l.port6, 2), Field(buf, l.addr6, 16), Field(buf, l.flow6, 4), Field(buf, l.scope6, 4)))
    else None
  }

  function Put(buf: Bytes, at: nat, v: Bytes): (r: Bytes)
    requires at + |v| <= |buf|
    ensures |r| == |buf|
  {
    buf[..at] + v + buf[at + |v|..]
  }

  lemma PutFields(buf: Bytes, at: nat, v: Bytes)
    requires at + |v| <= |buf|
    ensures Field(Put(buf, at, v), at, |v|) == v
    ensures forall b: nat, n: nat :: b + n <= |buf| && Apart(at, |v|, b, n) ==>
              Field(Put(buf, at, v), b, n) == Field(buf, b, n)
  {
  }

  /** Two fields apart are both there afterwards, and whatever is apart from both stays. */
  lemma PutTwo(buf: Bytes, at: nat, v: Bytes, to: nat, w: Bytes)
    requires at + |v| <= |buf| && to + |w| <= |buf| && Apart(at, |v|, to, |w|)
    ensures var r := Put(Put(buf, at, v), to, w);
            && Field(r, at, |v|) == v && Field(r, to, |w|) == w
            && forall b: nat, n: nat :: b + n <= |buf| && Apart(at, |v|, b, n) && Apart(to, |w|, b, n) ==>
                 Field(r, b, n) == Field(buf, b, n)
  {
    PutFields(buf, at, v);
    PutFields(Put(buf, at, v), to, w);
  }

  /** `buf` with length, family and fields of `a`; the bytes between the fields stay. */
  function Write(abi: Abi, buf: Bytes, a: Address): (r: Bytes)
    requires AbiOk(abi) && WellSized(a) && Fits(abi.layout, a.Inet?, |buf|)
    ensures |r| == |buf|
  {
    var l := abi.layout;
    match a
    case Inet(port, addr) =>
      var b := Put(Put(buf, l.len, [l.size]), l.family, [abi.inet]);
      Put(Put(b, l.port, port), l.addr, addr)
    case Inet6(port, addr, flow, scope) =>
      var b := Put(Put(buf, l.len, [l.size6]), l.family, [abi.inet6]);
      Put(Put(Put(Put(b, l.port6, port), l.addr6, addr), l.flow6, flow), l.scope6, scope)
  }

  lemma WriteInet(abi: Abi, buf: Bytes, a: Address)
    requires AbiOk(abi) && WellSized(a) && Fits(abi.layout, a.Inet?, |buf|) && a.Inet?
    ensures var w, l := Write(abi, buf, a), abi.layout;
            && Field(w, l.len, 1) == [l.size] && Field(w, l.family, 1) == [abi.inet]
            && Field(w, l.port, 2) == a.port && Field(w, l.addr, 4) == a.addr
  {
    var l := abi.layout;
    PutTwo(buf, l.len, [l.size], l.family, [abi.inet]);
    PutTwo(Put(Put(buf, l.len, [l.size]), l.family, [abi.inet]), l.port, a.port, l.addr, a.addr);
  }

  lemma WriteInet6(abi: Abi, buf: Bytes, a: Address)
    requires AbiOk(abi) && WellSized(a) && Fits(abi.layout, a.Inet?, |buf|) && a.Inet6?
    ensures var w, l := Write(abi, buf, a), abi.layout;
            && Field(w, l.len, 1) == [l.size6] && Field(w, l.family, 1) == [abi.inet6] && Field(w, l.port6, 2) == a.port
            && Field(w, l.addr6, 16) == a.addr && Field(w, l.flow6, 4) == a.flow && Field(w, l.scope6, 4) == a.scope
  {
    var l := abi.layout;
    PutTwo(buf, l.len, [l.size6], l.family, [abi.inet6]);
    FieldsInet6(l, Put(Put(buf, l.len, [l.size6]), l.family, [abi.inet6]), a);
  }

  /** The four fields after length and family, which stay. */
  lemma FieldsInet6(l: Layout, b: Bytes, a: Address)
    requires In6Ok(l) && WellSized(a) && a.Inet6? && Fits(l, false, |b|)
    ensures var w := Put(Put(Put(Put(b, l.port6, a.port), l.addr6, a.addr), l.flow6, a.flow), l.scope6, a.scope);
            && Field(w, l.len, 1) == Field(b, l.len, 1) && Field(w, l.family, 1) == Field(b, l.family, 1)
            && Field(w, l.port6, 2) == a.port && Field(w, l.addr6, 16) == a.addr
            && Field(w, l.flow6, 4) == a.flow && Field(w, l.scope6, 4) == a.scope
  {
    PutTwo(b, l.port6, a.port, l.addr6, a.addr);
    PutTwo(Put(Put(b, l.port6, a.port), l.addr6, a.addr), l.flow6, a.flow, l.scope6, a.scope);
  }

  /** Family and fields in the buffer are those of the address. */
  predicate Holds(abi: Abi, buf: Bytes, a: Address)
    requires WellSized(a)
  {
    var l := abi.layout;
    && Fits(l, a.Inet?, |buf|)
    && match a
       case Inet(port, addr) =>
         buf[l.family] == abi.inet && Field(buf, l.port, 2) == port && Field(buf, l.addr, 4) == addr
       case Inet6(port, addr, flow, scope) =>
         && buf[l.family] == abi.inet6 && Field(buf, l.port6, 2) == port && Field(buf, l.addr6, 16) == addr
         && Field(buf, l.flow6, 4) == flow && Field(buf, l.scope6, 4) == scope
  }

  /** What is written is there, with the length the interface gives the structure. */
  lemma WriteHolds(abi: Abi, buf: Bytes, a: Address)
    requires AbiOk(abi) && WellSized(a) && Fits(abi.layout, a.Inet?, |buf|)
    ensures Holds(abi, Write(abi, buf, a), a)
    ensures Write(abi, buf, a)[abi.layout.len] == SizeOf(abi.layout, a)
  {
    if a.Inet? {
      WriteInet(abi, buf, a);
    } else {
      WriteInet6(abi, buf, a);
    }
    var w, l := Write(abi, buf, a), abi.layout;
    assert w[l.len] == Field(w, l.len, 1)[0] && w[l.family] == Field(w, l.family, 1)[0];
  }

  predicate Within(k: nat, at: nat, n: nat) {
    at <= k < at + n
  }

  /** Byte `k` belongs to a field a setter writes. */
  predicate InField(l: Layout, inet: bool, k: nat) {
    || k == l.len || k == l.family
    || if inet then Within(k, l.port, 2) || Within(k, l.addr, 4)
       else Within(k, l.port6, 2) || Within(k, l.addr6, 16) || Within(k, l.flow6, 4) || Within(k, l.scope6, 4)
  }

  lemma PutKeeps(buf: Bytes, at: nat, v: Bytes, k: nat)
    requires at + |v| <= |buf| && k < |buf| && !Within(k, at, |v|)
    ensures Put(buf, at, v)[k] == buf[k]
  {
  }

  /** Every other byte stays as it was. */
  lemma WriteKeeps(abi: Abi, buf: Bytes, a: Address, k: nat)
    requires AbiOk(abi) && WellSized(a) && Fits(abi.layout, a.Inet?, |buf|) && k < |buf|
    requires !InField(abi.layout, a.Inet?, k)
    ensures Write(abi, buf, a)[k] == buf[k]
  {
    var l := abi.layout;
    match a
    case Inet(port, addr) =>
      var b := Put(buf, l.len, [l.size]);
      var c := Put(b, l.family, [abi.inet]);
      PutKeeps(buf, l.len, [l.size], k);
      PutKeeps(b, l.family, [abi.inet], k);
      PutKeeps(c, l.port, port, k);
      PutKeeps(Put(c, l.port, port), l.addr, addr, k);
    case Inet6(port, addr, flow, scope) =>
      var b := Put(buf, l.len, [l.size6]);
      var c := Put(b, l.family, [abi.inet6]);
      PutKeeps(buf, l.len, [l.size6], k);
      PutKeeps(b, l.family, [abi.inet6], k);
      KeepsInet6(l, c, a, k);
  }

  lemma KeepsInet6(l: Layout, b: Bytes, a: Address, k: nat)
    requires WellSized(a) && a.Inet6? && Fits(l, false, |b|) && k < |b| && !InField(l, false, k)
    ensures Put(Put(Put(Put(b, l.port6, a.port), l.addr6, a.addr), l.flow6, a.flow), l.scope6, a.scope)[k] == b[k]
  {
    var c := Put(b, l.port6, a.port);
    var d := Put(c, l.addr6, a.addr);
    PutKeeps(b, l.port6, a.port, k);
    PutKeeps(c, l.addr6, a.addr, k);
    PutKeeps(d, l.flow6, a.flow, k);
    PutKeeps(Put(d, l.flow6, a.flow), l.scope6, a.scope, k);
  }

  /** A whole structure reads as the address it holds, and only as that. */
  lemma ReadHolds(abi: Abi, buf: Bytes, a: Address)
    requires AbiOk(abi) && WellSized(a)
    ensures Read(abi, buf) == Some(a) <==> Holds(abi, buf, a) && SizeOf(abi.layout, a) <= |buf|
  {
  }

  /** What is written reads back. */
  lemma ReadWrite(abi: Abi, buf: Bytes, a: Address)
    requires AbiOk(abi) && WellSized(a) && SizeOf(abi.layout, a) <= |buf|
    ensures Read(abi, Write(abi, buf, a)) == Some(a)
    ensures Write(abi, buf, a)[abi.layout.len] == SizeOf(abi.layout, a)
  {
    WriteHolds(abi, buf, a);
    ReadHolds(abi, Write(abi, buf, a), a);
  }

  // ---------- The two translations ----------

  /** What bind, connect and sendto pass to lwIP: a local structure, filled from the caller's. */
  function Outbound(rtems: Abi, lwip: Abi, name: Bytes, local: Bytes): (r: Option<Bytes>)
    requires AbiOk(rtems) && AbiOk(lwip)
    requires |local| >= lwip.layout.size && |local| >= lwip.layout.size6
  {
    match Read(rtems, name)
    case None => None
    case Some(a) => Some(Write(lwip, local, a))
  }

  /** Every byte accept reads or writes in the caller's buffer is inside it. */
  predicate Room(rtems: Abi, lwip: Abi, name: Bytes) {
    var l := lwip.layout;
    && l.family < |name|
    && (name[l.family] == lwip.inet ==> l.size <= |name| && Fits(rtems.layout, true, |name|))
    && (name[l.family] == lwip.inet6 ==> l.size6 <= |name| && Fits(rtems.layout, false, |name|))
  }

  predicate Reported(lwip: Abi, name: Bytes, family: Byte) {
    lwip.layout.family < |name| && name[lwip.layout.family] == family
  }

  /** accept reads byte `k`: for the family, or to copy the lwIP form. */
  predicate Reads(lwip: Abi, name: Bytes, k: nat) {
    || k == lwip.layout.family
    || (Reported(lwip, name, lwip.inet) && k < lwip.layout.size)
    || (Reported(lwip, name, lwip.inet6) && k < lwip.layout.size6)
  }

  /** A setter writes byte `k`. */
  predicate Writes(rtems: Abi, lwip: Abi, name: Bytes, k: nat) {
    || (Reported(lwip, name, lwip.inet) && InField(rtems.layout, true, k))
    || (Reported(lwip, name, lwip.inet6) && InField(rtems.layout, false, k))
  }

  predicate Touches(rtems: Abi, lwip: Abi, name: Bytes, k: nat) {
    Reads(lwip, name, k) || Writes(rtems, lwip, name, k)
  }

  lemma RoomInet(rtems: Abi, lwip: Abi, name: Bytes)
    requires AbiOk(rtems) && AbiOk(lwip) && Reported(lwip, name, lwip.inet)
    requires forall k: nat :: Touches(rtems, lwip, name, k) ==> k < |name|
    ensures lwip.layout.size <= |name| && Fits(rtems.layout, true, |name|)
  {
    var l, r := lwip.layout, rtems.layout;
    assert Touches(rtems, lwip, name, l.size - 1) && Touches(rtems, lwip, name, r.len);
    assert Touches(rtems, lwip, name, r.family);
    assert Touches(rtems, lwip, name, r.port + 1) && Touches(rtems, lwip, name, r.addr + 3);
  }

  lemma RoomInet6(rtems: Abi, lwip: Abi, name: Bytes)
    requires AbiOk(rtems) && AbiOk(lwip) && Reported(lwip, name, lwip.inet6)
    requires forall k: nat :: Touches(rtems, lwip, name, k) ==> k < |name|
    ensures lwip.layout.size6 <= |name| && Fits(rtems.layout, false, |name|)
  {
    var l, r := lwip.layout, rtems.layout;
    assert Touches(rtems, lwip, name, l.size6 - 1) && Touches(rtems, lwip, name, r.len);
    assert Touches(rtems, lwip, name, r.family);
    assert Touches(rtems, lwip, name, r.port6 + 1) && Touches(rtems, lwip, name, r.flow6 + 3);
    assert Touches(rtems, lwip, name, r.addr6 + 15) && Touches(rtems, lwip, name, r.scope6 + 3);
  }

  /** With the name lwIP reported in the buffer, accept stays inside it exactly if there is room. */
  lemma RoomIff(rtems: Abi, lwip: Abi, name: Bytes)
    requires AbiOk(rtems) && AbiOk(lwip)
    ensures Room(rtems, lwip, name) <==> forall k: nat :: Touches(rtems, lwip, name, k) ==> k < |name|
  {
    if forall k: nat :: Touches(rtems, lwip, name, k) ==> k < |name| {
      assert Touches(rtems, lwip, name, lwip.layout.family);
      if Reported(lwip, name, lwip.inet) {
        RoomInet(rtems, lwip, name);
      } else if Reported(lwip, name, lwip.inet6) {
        RoomInet6(rtems, lwip, name);
      }
    }
  }

  // ---------- What a caller of accept can check ----------

  /** The buffer after lwIP wrote its report to the front. */
  predicate Heard(name: Bytes, report: Bytes, heard: Bytes) {
    |report| <= |name| && heard == Put(name, 0, report)
  }

  /** lwIP can report any family, and fill the rest of the buffer as it likes. */
  lemma SomeReport(lwip: Abi, name: Bytes, family: Byte) returns (heard: Bytes)
    requires lwip.layout.family < |name|
    ensures |heard| == |name| && Reported(lwip, heard, family) && Heard(name, heard, heard)
  {
    heard := name[lwip.layout.family := family];
    assert Put(name, 0, heard) == heard;
  }

  /** For peers of one family: the structure lwIP copies out and the fields RTEMS writes fit the caller's buffer. */
  predicate BigEnough(rtems: Abi, lwip: Abi, inet: bool, n: nat) {
    (if inet then lwip.layout.size else lwip.layout.size6) <= n && Fits(rtems.layout, inet, n)
  }

  function Number(abi: Abi, inet: bool): Byte {
    if inet then abi.inet else abi.inet6
  }

  lemma InsideForFamily(rtems: Abi, lwip: Abi, name: Bytes, inet: bool)
    requires AbiOk(rtems) && AbiOk(lwip) && lwip.layout.family < |name|
    ensures (forall report, heard, k: nat |
               && Heard(name, report, heard) && Reported(lwip, heard, Number(lwip, inet))
               && Touches(rtems, lwip, heard, k) ::
               k < |name|)
            <==> BigEnough(rtems, lwip, inet, |name|)
  {
    var family := Number(lwip, inet);
    if BigEnough(rtems, lwip, inet, |name|) {
      forall report, heard, k: nat |
        Heard(name, report, heard) && Reported(lwip, heard, family) && Touches(rtems, lwip, heard, k)
        ensures k < |name|
      {
        RoomIff(rtems, lwip, heard);
      }
    } else {
      var heard := SomeReport(lwip, name, family);
      RoomIff(rtems, lwip, heard);
      var k: nat :| Touches(rtems, lwip, heard, k) && k >= |name|;
    }
  }

  /**
    accept never looks at the length it is passed.  Before the call: whatever lwIP reports,
    it stays inside the caller's buffer exactly if that is big enough for both families.
  */
  lemma InsideIff(rtems: Abi, lwip: Abi, name: Bytes)
    requires AbiOk(rtems) && AbiOk(lwip)
    ensures (forall report, heard, k: nat ::
               Heard(name, report, heard) && Touches(rtems, lwip, heard, k) ==> k < |name|)
            <==> BigEnough(rtems, lwip, true, |name|) && BigEnough(rtems, lwip, false, |name|)
  {
    if lwip.layout.family < |name| {
      InsideForFamily(rtems, lwip, name, true);
      InsideForFamily(rtems, lwip, name, false);
    } else {
      assert Put(name, 0, []) == name && Heard(name, [], name);
      assert Touches(rtems, lwip, name, lwip.layout.family);
    }
  }

  /** With a buffer of six bytes, a peer of the usual IPv4 layout is written beyond its end. */
  lemma Overrun() returns (rtems: Abi, lwip: Abi, name: Bytes, report: Bytes, heard: Bytes, k: nat)
    ensures AbiOk(rtems) && AbiOk(lwip) && Heard(name, report, heard)
    ensures Writes(rtems, lwip, heard, k) && k >= |name|
  {
    var layout := Layout(0, 1, 2, 4, 16, 2, 4, 8, 24, 28);
    rtems, lwip := Abi(layout, 2, 28), Abi(layout, 2, 10);
    name, report := [0, 0, 0, 0, 0, 0], [16, 2, 7, 231, 192, 0];
    heard := Put(name, 0, report);
    assert heard == report;
    k := 7;
  }

  /** What accept makes of the name lwIP wrote into the caller's buffer, in that buffer. */
  function Inbound(rtems: Abi, lwip: Abi, name: Bytes): (r: Option<Bytes>)
    requires AbiOk(rtems) && AbiOk(lwip) && Room(rtems, lwip, name)
  {
    match Read(lwip, name)
    case None => None
    case Some(a) => Some(Write(rtems, name, a))
  }

  /**
    An address sent out and reported back by lwIP reaches the program unchanged, for any two
    layouts and family numberings, whatever the local structure and the buffer held before.
  */
  lemma RoundTrip(rtems: Abi, lwip: Abi, name: Bytes, local: Bytes, report: Bytes)
    requires AbiOk(rtems) && AbiOk(lwip) && |local| >= lwip.layout.size && |local| >= lwip.layout.size6
    requires Outbound(rtems, lwip, name, local).Some? && Room(rtems, lwip, report)
    requires Read(lwip, report) == Read(lwip, Outbound(rtems, lwip, name, local).value)
    ensures var back, a := Inbound(rtems, lwip, report), Read(rtems, name);
            && back.Some? && |back.value| == |report| && Holds(rtems, back.value, a.value)
            && back.value[rtems.layout.len] == SizeOf(rtems.layout, a.value)
            && (SizeOf(rtems.layout, a.value) <= |report| ==> Read(rtems, back.value) == a)
  {
    var a := Read(rtems, name).value;
    ReadWrite(lwip, local, a);
    WriteHolds(rtems, report, a);
    ReadHolds(rtems, Write(rtems, report, a), a);
  }

  /** In place without the copy, each field read from the buffer the previous ones were stored in. */
  function InboundUncopied(rtems: Abi, lwip: Abi, name: Bytes): Bytes
    requires AbiOk(rtems) && AbiOk(lwip) && |name| >= lwip.layout.size && |name| >= rtems.layout.size
  {
    var l, r := lwip.layout, rtems.layout;
    var b := Put(Put(name, r.len, [r.size]), r.family, [rtems.inet]);
    var c := Put(b, r.port, Field(b, l.port, 2));
    Put(c, r.addr, Field(c, l.addr, 4))
  }

  /** The copy in accept is needed: without it some pair of layouts garbles the address. */
  lemma CopyNeeded() returns (rtems: Abi, lwip: Abi, name: Bytes)
    ensures AbiOk(rtems) && AbiOk(lwip) && |name| >= lwip.layout.size && |name| >= rtems.layout.size
    ensures Read(lwip, name).Some? && Read(rtems, InboundUncopied(rtems, lwip, name)) != Read(lwip, name)
  {
    rtems := Abi(Layout(0, 1, 6, 2, 8, 2, 4, 8, 24, 28), 2, 28);
    lwip := Abi(Layout(0, 1, 2, 4, 8, 2, 4, 8, 24, 28), 2, 10);
    name := [8, 2, 7, 231, 192, 0, 2, 1];
    var b := Put(Put(name, 0, [8]), 1, [2]);
    var c := Put(b, 6, Field(b, 2, 2));
    assert Put(name, 0, [8]) == name && b == name && Field(b, 2, 2) == [7, 231];
    assert c == [8, 2, 7, 231, 192, 0, 7, 231];
    assert InboundUncopied(rtems, lwip, name) == Put(c, 2, Field(c, 4, 4));
    assert Put(c, 2, Field(c, 4, 4))[5] == 231;
    assert Read(lwip, name).value.addr[3] == 1;
    assert Field(Put(c, 2, Field(c, 4, 4)), 2, 4)[3] == 231;
  }

  // ---------- In memory ----------

  /** Every setter and memcpy into a structure: the bytes `v` at offset `at`. */
  method Store(a: array<Byte>, at: nat, v: Bytes)
    requires at + |v| <= a.Length
    modifies a
    ensures a[..] == Put(old(a[..]), at, v)
  {
    for i := 0 to |v|
      invariant forall k :: 0 <= k < a.Length ==> a[k] == if at <= k < at + i then v[k - at] else old(a[k])
    {
      a[at + i] := v[i];
    }
  }

  method StoreIn(abi: Abi, so: array<Byte>, port: Bytes, addr: Bytes)
    requires AbiOk(abi) && WellSized(Inet(port, addr)) && Fits(abi.layout, true, so.Length)
    modifies so
    ensures so[..] == Write(abi, old(so[..]), Inet(port, addr))
  {
    Store(so, abi.layout.len, [abi.layout.size]);
    Store(so, abi.layout.family, [abi.inet]);
    Store(so, abi.layout.port, port);
    Store(so, abi.layout.addr, addr);
  }

  method StoreIn6(abi: Abi, so: array<Byte>, port: Bytes, addr: Bytes, flow: Bytes, scope: Bytes)
    requires AbiOk(abi) && WellSized(Inet6(port, addr, flow, scope)) && Fits(abi.layout, false, so.Length)
    modifies so
    ensures so[..] == Write(abi, old(so[..]), Inet6(port, addr, flow, scope))
  {
    Store(so, abi.layout.len, [abi.layout.size6]);
    Store(so, abi.layout.family, [abi.inet6]);
    Store(so, abi.layout.port6, port);
    Store(so, abi.layout.addr6, addr);
    Store(so, abi.layout.flow6, flow);
    Store(so, abi.layout.scope6, scope);
  }

  /** The translation in bind, connect and sendto; a name of unknown family or too short is EINVAL. */
  method TranslateOut(rtems: Abi, lwip: Abi, name: array<Byte>, namelen: nat)
    returns (lwipname: Option<array<Byte>>, lwipnamelen: nat, errno: Option<Errno>)
    requires AbiOk(rtems) && AbiOk(lwip) && rtems.layout.family < name.Length && namelen <= name.Length
    ensures lwipname.Some? <==> Read(rtems, name[..namelen]).Some?
    ensures lwipname.None? <==> errno == Some(EINVAL)
    ensures lwipname.Some? ==> fresh(lwipname.value) && lwipnamelen == lwipname.value.Length < 256
    ensures lwipname.Some? ==> lwipnamelen == SizeOf(lwip.layout, Read(rtems, name[..namelen]).value)
    ensures lwipname.Some? ==> Read(lwip, lwipname.value[..]) == Read(rtems, name[..namelen])
    ensures lwipname.Some? ==> lwipname.value[..][lwip.layout.len] == lwipnamelen
  {
    var family := name[rtems.layout.family];
    var r := rtems.layout;
    ghost var address := Read(rtems, name[..namelen]);
    if family == rtems.inet && namelen >= r.size {
      var soIn := new Byte[lwip.layout.size];
      ghost var junk := soIn[..];
      StoreIn(lwip, soIn, Field(name[..namelen], r.port, 2), Field(name[..namelen], r.addr, 4));
      ReadWrite(lwip, junk, address.value);
      return Some(soIn), soIn[..][lwip.layout.len], None;
    } else if family == rtems.inet6 && namelen >= r.size6 {
      var soIn6 := new Byte[lwip.layout.size6];
      ghost var junk := soIn6[..];
      StoreIn6(lwip, soIn6, Field(name[..namelen], r.port6, 2), Field(name[..namelen], r.addr6, 16),
               Field(name[..namelen], r.flow6, 4), Field(name[..namelen], r.scope6, 4));
      ReadWrite(lwip, junk, address.value);
      return Some(soIn6), soIn6[..][lwip.layout.len], None;
    }
    return None, 0, Some(EINVAL);
  }

  /** The translation in accept: over the very buffer it reads, from a copy of it. */
  method TranslateIn(rtems: Abi, lwip: Abi, name: array<Byte>) returns (ok: bool)
    requires AbiOk(rtems) && AbiOk(lwip) && Room(rtems, lwip, name[..])
    modifies name
    ensures var r := Inbound(rtems, lwip, old(name[..]));
            ok == r.Some? && name[..] == if ok then r.value else old(name[..])
  {
    var family := name[lwip.layout.family];
    var l := lwip.layout;
    var so := name[..];
    if family == lwip.inet {
      StoreIn(rtems, name, Field(so, l.port, 2), Field(so, l.addr, 4));
      ok := true;
    } else if family == lwip.inet6 {
      StoreIn6(rtems, name, Field(so, l.port6, 2), Field(so, l.addr6, 16),
               Field(so, l.flow6, 4), Field(so, l.scope6, 4));
      ok := true;
    } else {
      ok := false;
    }
  }
}
