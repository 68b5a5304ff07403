/** discovery_wire.c as it runs: encoders that fill a caller's buffer at advancing offsets, and
    decoders that read one, each equal to the format's functions. */
module WireBuffers {
  import opened WireBytes
  import opened DiscoveryWire

  /** `after` is `before` except possibly in [from, to). */
  predicate SameOutside(before: seq<Byte>, after: seq<Byte>, from: nat, to: nat) {
    && from <= to <= |before| == |after|
    && after[..from] == before[..from] && after[to..] == before[to..]
  }

  /** `after` is `before` with `part` written at `at`. */
  predicate Written(before: seq<Byte>, after: seq<Byte>, at: nat, part: seq<Byte>) {
    && SameOutside(before, after, at, at + |part|)
    && after[at..at + |part|] == part
  }

  lemma WrittenTwice(a: seq<Byte>, b: seq<Byte>, c: seq<Byte>, at: nat, left: seq<Byte>, right: seq<Byte>)
    requires at + |left| + |right| <= |a|
    requires Written(a, b, at, left) && Written(b, c, at + |left|, right)
    ensures Written(a, c, at, left + right)
  {
  }

  /** memcpy and memset into the buffer. */
  method Put(buffer: array<Byte>, at: nat, part: seq<Byte>)
    requires at + |part| <= buffer.Length
    modifies buffer
    ensures Written(old(buffer[..]), buffer[..], at, part)
  {
    var i := 0;
    while i < |part|
      invariant 0 <= i <= |part|
      invariant forall k :: 0 <= k < i ==> buffer[at + k] == part[k]
      invariant forall k :: 0 <= k < buffer.Length && !(at <= k < at + i) ==> buffer[k] == old(buffer[k])
    {
      buffer[at + i] := part[i];
      i := i + 1;
    }
  }

  method WriteU16(buffer: array<Byte>, at: nat, value: U16)
    requires at + 2 <= buffer.Length
    modifies buffer
    ensures Written(old(buffer[..]), buffer[..], at, BigEndian(value, 2))
  {
    buffer[at], buffer[at + 1] := value / 0x100 % 0x100, value % 0x100;
    assert Span(1) == 0x100;
    ByteOf(value, 2, 0);
    ByteOf(value, 2, 1);
    assert buffer[at..at + 2] == BigEndian(value, 2);
  }

  method WriteU32(buffer: array<Byte>, at: nat, value: U32)
    requires at + 4 <= buffer.Length
    modifies buffer
    ensures Written(old(buffer[..]), buffer[..], at, BigEndian(value, 4))
  {
    buffer[at] := value / 0x100_0000 % 0x100;
    buffer[at + 1] := value / 0x1_0000 % 0x100;
    buffer[at + 2] := value / 0x100 % 0x100;
    buffer[at + 3] := value % 0x100;
    FourBytes(value);
    assert buffer[at..at + 4] == BigEndian(value, 4);
  }

  lemma FourBytes(v: nat)
    ensures BigEndian(v, 4) == [v / 0x100_0000 % 0x100, v / 0x1_0000 % 0x100, v / 0x100 % 0x100, v % 0x100]
  {
    assert Span(1) == 0x100;
    assert Span(2) == 0x1_0000;
    assert Span(3) == 0x100_0000;
    ByteOf(v, 4, 0);
    ByteOf(v, 4, 1);
    ByteOf(v, 4, 2);
    ByteOf(v, 4, 3);
  }

  method WriteU64(buffer: array<Byte>, at: nat, value: U64)
    requires at + 8 <= buffer.Length
    modifies buffer
    ensures Written(old(buffer[..]), buffer[..], at, BigEndian(value, 8))
  {
    buffer[at] := value / 0x100_0000_0000_0000 % 0x100;
    buffer[at + 1] := value / 0x1_0000_0000_0000 % 0x100;
    buffer[at + 2] := value / 0x100_0000_0000 % 0x100;
    buffer[at + 3] := value / 0x1_0000_0000 % 0x100;
    buffer[at + 4] := value / 0x100_0000 % 0x100;
    buffer[at + 5] := value / 0x1_0000 % 0x100;
    buffer[at + 6] := value / 0x100 % 0x100;
    buffer[at + 7] := value % 0x100;
    EightBytes(value);
    assert buffer[at..at + 8] == BigEndian(value, 8);
  }

  lemma EightBytes(v: nat)
    ensures BigEndian(v, 8) ==
            [v / 0x100_0000_0000_0000 % 0x100, v / 0x1_0000_0000_0000 % 0x100, v / 0x100_0000_0000 % 0x100,
             v / 0x1_0000_0000 % 0x100,
             v / 0x100_0000 % 0x100, v / 0x1_0000 % 0x100, v / 0x100 % 0x100, v % 0x100]
  {
    FourBytes(v);
    FourBytes(v / 0x1_0000_0000);
    DivideTwice(v, 0x1_0000_0000, 0x100);
    DivideTwice(v, 0x1_0000_0000, 0x1_0000);
    DivideTwice(v, 0x1_0000_0000, 0x100_0000);
    HighAndLow(v);
  }

  lemma HighAndLow(v: nat)
    ensures BigEndian(v, 8) == BigEndian(v / 0x1_0000_0000, 4) + BigEndian(v, 4)
  {
    forall k | 0 <= k < 4
      ensures BigEndian(v, 8)[4 + k] == BigEndian(v, 4)[k]
    {
      ByteOf(v, 8, 4 + k);
      ByteOf(v, 4, k);
    }
    forall k | 0 <= k < 4
      ensures BigEndian(v, 8)[k] == BigEndian(v / 0x1_0000_0000, 4)[k]
    {
      ByteOf(v, 8, k);
      ByteOf(v / 0x1_0000_0000, 4, k);
      SpanSum(3 - k);
      DivideTwice(v, 0x1_0000_0000, Span(3 - k));
    }
  }

  lemma {:induction false} SpanSum(n: nat)
    ensures Span(n + 4) == 0x1_0000_0000 * Span(n)
  {
    Spans();
    if n != 0 {
      SpanSum(n - 1);
    }
  }

  // ------------------------------------------------------------------ encoders

  function Code<T>(r: Result<T>): int { if r.Ok? then 0 else r.code }

  lemma Piece(before: seq<Byte>, after: seq<Byte>, at: nat, part: seq<Byte>, from: nat, to: nat)
    requires Written(before, after, at, part) && (at + |part| <= from <= to <= |after| || from <= to <= at)
    ensures after[from..to] == before[from..to]
  {
    if from <= to <= at {
      assert after[from..to] == after[..at][from..to];
    } else {
      var n := at + |part|;
      forall k | from <= k < to ensures after[k] == before[k] {
        assert after[k] == after[n..][k - n] && before[k] == before[n..][k - n];
      }
    }
  }

  method EncodeEndpointAt(buffer: array<Byte>, at: nat, e: Endpoint) returns (ret: int)
    requires at + 19 <= buffer.Length
    modifies buffer
    ensures ret == Code(EncodeEndpoint(e))
    ensures SameOutside(old(buffer[..]), buffer[..], at, at + 19)
    ensures ret == 0 ==> Written(old(buffer[..]), buffer[..], at, EncodeEndpoint(e).value)
  {
    Put(buffer, at, Zeros(19));
    ghost var zeroed := buffer[..];
    if e.length == 0 {
      buffer[at] := 0;
      assert buffer[..] == zeroed by { assert zeroed[at] == zeroed[at..at + 19][0]; }
      return 0;
    }
    match e.address
    case Inet(port, address) =>
      if e.length < INET_LENGTH {
        return EINVAL;
      }
      PutAddress(buffer, at, 1, port, address);
      return 0;
    case Inet6(port, address, _, _) =>
      if e.length < INET6_LENGTH {
        return EINVAL;
      }
      PutAddress(buffer, at, 2, port, address);
      assert Zeros(16 - |address|) == [];
      return 0;
    case _ =>
      return EAFNOSUPPORT;
  }

  /** The kind, the port and the address over nineteen zero bytes. */
  method PutAddress(buffer: array<Byte>, at: nat, kind: Byte, port: U16, address: seq<Byte>)
    requires at + 19 <= buffer.Length && |address| <= 16
    requires buffer[at..at + 19] == Zeros(19)
    modifies buffer
    ensures Written(old(buffer[..]), buffer[..], at, [kind] + BigEndian(port, 2) + address + Zeros(16 - |address|))
  {
    ghost var zeroed := buffer[..];
    buffer[at] := kind;
    ghost var one := buffer[..];
    assert Written(zeroed, one, at, [kind]);
    WriteU16(buffer, at + 1, port);
    WrittenTwice(zeroed, one, buffer[..], at, [kind], BigEndian(port, 2));
    ghost var three := buffer[..];
    Put(buffer, at + 3, address);
    WrittenTwice(zeroed, three, buffer[..], at, [kind] + BigEndian(port, 2), address);
    ghost var part := [kind] + BigEndian(port, 2) + address;
    Piece(zeroed, buffer[..], at, part, at + |part|, at + 19);
    assert zeroed[at + |part|..at + 19] == zeroed[at..at + 19][|part|..];
    assert buffer[at..at + 19] == buffer[..][at..at + |part|] + buffer[..][at + |part|..at + 19];
    Piece(zeroed, buffer[..], at, part, at + 19, buffer.Length);
  }

  lemma Wider(a: seq<Byte>, b: seq<Byte>, from: nat, to: nat, start: nat, end: nat)
    requires SameOutside(a, b, from, to) && start <= from && to <= end <= |a|
    ensures SameOutside(a, b, start, end)
  {
  }

  function FixedPart(r: Report): (b: seq<Byte>)
    ensures |b| == 19
  {
    BigEndian(r.session, 8) + BigEndian(r.revision, 8) + [r.id, r.role % 256, r.flags]
  }

  method PutFixedPart(buffer: array<Byte>, at: nat, r: Report)
    requires at + 57 <= buffer.Length
    modifies buffer
    ensures Written(old(buffer[..]), buffer[..], at, FixedPart(r) + Zeros(38))
  {
    Put(buffer, at, Zeros(57));
    ghost var s0, s1 := old(buffer[..]), buffer[..];
    WriteU64(buffer, at, r.session);
    ghost var s2 := buffer[..];
    WriteU64(buffer, at + 8, r.revision);
    ghost var s3 := buffer[..];
    WrittenTwice(s1, s2, s3, at, BigEndian(r.session, 8), BigEndian(r.revision, 8));
    buffer[at + 16], buffer[at + 17], buffer[at + 18] := r.id, r.role % 256, r.flags;
    ghost var s4 := buffer[..];
    assert Written(s3, s4, at + 16, [r.id, r.role % 256, r.flags]);
    WrittenTwice(s1, s3, s4, at, BigEndian(r.session, 8) + BigEndian(r.revision, 8), [r.id, r.role % 256, r.flags]);
    OverZeros(s0, s1, s4, at, FixedPart(r), 57);
  }

  /** Writing the front of a zeroed stretch leaves zeros behind it. */
  lemma OverZeros(a: seq<Byte>, b: seq<Byte>, c: seq<Byte>, at: nat, part: seq<Byte>, size: nat)
    requires |part| <= size && Written(a, b, at, Zeros(size)) && Written(b, c, at, part)
    ensures Written(a, c, at, part + Zeros(size - |part|))
  {
    var n := at + |part|;
    Wider(b, c, at, n, at, at + size);
    Piece(b, c, at, part, n, at + size);
    assert b[n..at + size] == b[at..at + size][|part|..];
    assert c[at..at + size] == c[at..n] + c[n..at + size];
  }

  method EncodeReportAt(buffer: array<Byte>, at: nat, capacity: nat, r: Report) returns (ret: int)
    requires at + capacity <= buffer.Length
    modifies buffer
    ensures ret == if capacity < 57 then ENOSPC else Code(EncodeReport(r))
    ensures if capacity < 57 then buffer[..] == old(buffer[..])
            else SameOutside(old(buffer[..]), buffer[..], at, at + 57)
    ensures ret == 0 ==> Written(old(buffer[..]), buffer[..], at, EncodeReport(r).value)
  {
    if capacity < 57 {
      return ENOSPC;
    }
    EndpointRoundTrip(r.wifi);
    EndpointRoundTrip(r.cellular);
    PutFixedPart(buffer, at, r);
    ghost var s0, s1 := old(buffer[..]), buffer[..];
    ret := EncodeEndpointAt(buffer, at + 19, r.wifi);
    ghost var s2 := buffer[..];
    Wider(s1, s2, at + 19, at + 38, at, at + 57);
    if ret != 0 {
      return;
    }
    ret := EncodeEndpointAt(buffer, at + 38, r.cellular);
    ghost var s3 := buffer[..];
    Wider(s2, s3, at + 38, at + 57, at, at + 57);
    if ret != 0 {
      return;
    }
    ReportIsThere(s0, s1, s2, s3, at, r);
  }

  lemma ReportIsThere(s0: seq<Byte>, s1: seq<Byte>, s2: seq<Byte>, s3: seq<Byte>, at: nat, r: Report)
    requires Written(s0, s1, at, FixedPart(r) + Zeros(38))
    requires EncodeReport(r).Ok? && |EncodeEndpoint(r.wifi).value| == 19 && |EncodeEndpoint(r.cellular).value| == 19
    requires Written(s1, s2, at + 19, EncodeEndpoint(r.wifi).value)
    requires Written(s2, s3, at + 38, EncodeEndpoint(r.cellular).value)
    requires SameOutside(s0, s3, at, at + 57)
    ensures Written(s0, s3, at, EncodeReport(r).value)
  {
    var wifi, cellular := EncodeEndpoint(r.wifi).value, EncodeEndpoint(r.cellular).value;
    Piece(s1, s2, at + 19, wifi, at, at + 19);
    Piece(s2, s3, at + 38, cellular, at, at + 19);
    Piece(s2, s3, at + 38, cellular, at + 19, at + 38);
    assert s1[at..at + 19] == s1[at..at + 57][..19];
    assert s3[at..at + 57] == s3[at..at + 19] + s3[at + 19..at + 38] + s3[at + 38..at + 57];
  }

  method EncodeHeaderAt(buffer: array<Byte>, capacity: nat, kind: Byte, payload: U16) returns (ret: int)
    requires capacity <= buffer.Length
    modifies buffer
    ensures ret == if capacity < 8 then ENOSPC else 0
    ensures if capacity < 8 then buffer[..] == old(buffer[..])
            else Written(old(buffer[..]), buffer[..], 0, Header(kind, payload))
  {
    if capacity < 8 {
      return ENOSPC;
    }
    ghost var s0 := buffer[..];
    WriteU32(buffer, 0, MAGIC);
    ghost var s1 := buffer[..];
    buffer[4], buffer[5] := VERSION, kind;
    ghost var s2 := buffer[..];
    assert Written(s1, s2, 4, [VERSION, kind]);
    WrittenTwice(s0, s1, s2, 0, BigEndian(MAGIC, 4), [VERSION, kind]);
    WriteU16(buffer, 6, payload);
    WrittenTwice(s0, s2, buffer[..], 0, BigEndian(MAGIC, 4) + [VERSION, kind], BigEndian(payload, 2));
    return 0;
  }

  method EncodeStaReportInto(r: Report, buffer: array<Byte>, capacity: nat) returns (ret: int, length: nat)
    requires capacity <= buffer.Length
    modifies buffer
    ensures ret == Code(EncodeStaReport(r, capacity))
    ensures ret == 0 ==> length == 71 && Written(old(buffer[..]), buffer[..], 0, EncodeStaReport(r, capacity).value)
    ensures ret != 0 ==> length == 0
    ensures capacity < 71 ==> buffer[..] == old(buffer[..])
    ensures capacity >= 71 ==> SameOutside(old(buffer[..]), buffer[..], 0, 71)
  {
    length := 0;
    if capacity < 71 {
      return ENOSPC, 0;
    }
    ReportRoundTrip(r);
    ghost var s0 := buffer[..];
    ret := EncodeHeaderAt(buffer, capacity, STA_REPORT, 63);
    ghost var s1 := buffer[..];
    Wider(s0, s1, 0, 8, 0, 71);
    ret := EncodeReportAt(buffer, 8, capacity - 8, r);
    ghost var s2 := buffer[..];
    Wider(s1, s2, 8, 65, 0, 71);
    if ret != 0 {
      return;
    }
    WrittenTwice(s0, s1, s2, 0, Header(STA_REPORT, 63), EncodeReport(r).value);
    Put(buffer, 65, r.mac);
    WrittenTwice(s0, s2, buffer[..], 0, Header(STA_REPORT, 63) + EncodeReport(r).value, r.mac);
    length := 71;
  }

  function SyncFront(s: Sync): seq<Byte>
    requires s.count <= NODES_MAX && EncodeReport(s.ap).Ok?
  {
    Header(AP_SYNC, 69 + s.count) + EncodeReport(s.ap).value
  }

  function SyncRest(s: Sync): seq<Byte>
    requires SyncArray(s) && s.count <= NODES_MAX
  {
    BigEndian(s.revision, 8) + BigEndian(s.count, 4) + s.nodes[..s.count]
  }

  lemma SyncParts(s: Sync, capacity: nat)
    requires SyncArray(s) && s.count <= NODES_MAX && 77 + s.count <= capacity && EncodeReport(s.ap).Ok?
    ensures EncodeApSync(s, capacity) == Ok(SyncFront(s) + SyncRest(s))
    ensures |SyncFront(s)| == 65 && |SyncRest(s)| == 12 + s.count
  {
    ReportRoundTrip(s.ap);
    var front := SyncFront(s);
    assert front + SyncRest(s) == front + BigEndian(s.revision, 8) + BigEndian(s.count, 4) + s.nodes[..s.count];
  }

  /** Header and report, the part that can be refused. */
  method PutSyncFront(buffer: array<Byte>, capacity: nat, s: Sync, payload: U16) returns (ret: int)
    requires s.count <= NODES_MAX && payload == 69 + s.count && 8 + payload <= capacity <= buffer.Length
    modifies buffer
    ensures ret == Code(EncodeReport(s.ap))
    ensures ret == 0 ==> EncodeReport(s.ap).Ok? && Written(old(buffer[..]), buffer[..], 0, SyncFront(s))
    ensures SameOutside(old(buffer[..]), buffer[..], 0, 8 + payload)
  {
    ReportRoundTrip(s.ap);
    ghost var s0 := buffer[..];
    ret := EncodeHeaderAt(buffer, capacity, AP_SYNC, payload);
    ghost var s1 := buffer[..];
    Wider(s0, s1, 0, 8, 0, 8 + payload);
    ret := EncodeReportAt(buffer, 8, capacity - 8, s.ap);
    ghost var s2 := buffer[..];
    Wider(s1, s2, 8, 65, 0, 8 + payload);
    if ret == 0 {
      WrittenTwice(s0, s1, s2, 0, Header(AP_SYNC, payload), EncodeReport(s.ap).value);
    }
  }

  method EncodeApSyncInto(s: Sync, buffer: array<Byte>, capacity: nat) returns (ret: int, length: nat)
    requires SyncArray(s) && capacity <= buffer.Length
    modifies buffer
    ensures ret == Code(EncodeApSync(s, capacity))
    ensures ret == 0 ==>
              length == 77 + s.count && Written(old(buffer[..]), buffer[..], 0, EncodeApSync(s, capacity).value)
    ensures ret != 0 ==> length == 0
    ensures s.count > NODES_MAX || capacity < 77 + s.count ==> buffer[..] == old(buffer[..])
    ensures capacity >= 77 + s.count ==> SameOutside(old(buffer[..]), buffer[..], 0, 77 + s.count)
  {
    length := 0;
    if s.count > NODES_MAX {
      return EINVAL, 0;
    }
    var payload := 69 + s.count;
    var packet := 8 + payload;
    if capacity < packet {
      return ENOSPC, 0;
    }
    ghost var s0 := buffer[..];
    ret := PutSyncFront(buffer, capacity, s, payload);
    if ret != 0 {
      return;
    }
    ghost var s1 := buffer[..];
    PutSyncTail(buffer, s);
    SyncParts(s, capacity);
    WrittenTwice(s0, s1, buffer[..], 0, SyncFront(s), SyncRest(s));
    length := packet;
  }

  method PutSyncTail(buffer: array<Byte>, s: Sync)
    requires SyncArray(s) && s.count <= NODES_MAX && 77 + s.count <= buffer.Length
    modifies buffer
    ensures Written(old(buffer[..]), buffer[..], 65, SyncRest(s))
  {
    ghost var s0 := buffer[..];
    WriteU64(buffer, 65, s.revision);
    ghost var s1 := buffer[..];
    WriteU32(buffer, 73, s.count);
    ghost var s2 := buffer[..];
    WrittenTwice(s0, s1, s2, 65, BigEndian(s.revision, 8), BigEndian(s.count, 4));
    var offset, index := 77, 0;
    while index < s.count
      invariant 0 <= index <= s.count && offset == 77 + index
      invariant forall k :: 0 <= k < index ==> buffer[77 + k] == s.nodes[k]
      invariant forall k :: 0 <= k < buffer.Length && !(77 <= k < offset) ==> buffer[k] == s2[k]
    {
      buffer[offset] := s.nodes[index];
      offset, index := offset + 1, index + 1;
    }
    assert Written(s2, buffer[..], 77, s.nodes[..s.count]);
    WrittenTwice(s0, s2, buffer[..], 65, BigEndian(s.revision, 8) + BigEndian(s.count, 4), s.nodes[..s.count]);
  }

  method EncodeLeaveInto(l: Leave, buffer: array<Byte>, capacity: nat) returns (ret: int, length: nat)
    requires capacity <= buffer.Length
    modifies buffer
    ensures ret == Code(EncodeLeave(l, capacity))
    ensures ret == 0 ==> length == 25 && Written(old(buffer[..]), buffer[..], 0, EncodeLeave(l, capacity).value)
    ensures ret != 0 ==> length == 0 && buffer[..] == old(buffer[..])
  {
    if capacity < 25 {
      return ENOSPC, 0;
    }
    ghost var s0 := buffer[..];
    ret := EncodeHeaderAt(buffer, capacity, PEER_LEAVE, 17);
    ghost var s1 := buffer[..];
    WriteU64(buffer, 8, l.session);
    ghost var s2 := buffer[..];
    WrittenTwice(s0, s1, s2, 0, Header(PEER_LEAVE, 17), BigEndian(l.session, 8));
    WriteU64(buffer, 16, l.revision);
    ghost var s3 := buffer[..];
    WrittenTwice(s0, s2, s3, 0, Header(PEER_LEAVE, 17) + BigEndian(l.session, 8), BigEndian(l.revision, 8));
    buffer[24] := l.id;
    assert Written(s3, buffer[..], 24, [l.id]);
    WrittenTwice(s0, s3, buffer[..], 0, Header(PEER_LEAVE, 17) + BigEndian(l.session, 8) + BigEndian(l.revision, 8),
                 [l.id]);
    length := 25;
  }

  // ------------------------------------------------------------------ decoders

  lemma TwoRead(b: seq<Byte>)
    requires |b| == 2
    ensures Value(b) == 0x100 * b[0] as int + b[1]
  {
    assert b[..1][..0] == [] && b[..1][0] == b[0];
    assert Value(b[..1]) == b[0];
  }

  lemma FourRead(b: seq<Byte>)
    requires |b| == 4
    ensures Value(b) == 0x100_0000 * b[0] as int + 0x1_0000 * b[1] as int + 0x100 * b[2] as int + b[3]
  {
    TwoRead(b[..2]);
    assert b[..3][..2] == b[..2];
    assert Value(b[..3]) == 0x100 * Value(b[..2]) + b[2];
    assert Value(b) == 0x100 * Value(b[..3]) + b[3];
  }

  lemma EightRead(b: seq<Byte>)
    requires |b| == 8
    ensures Value(b)
            == 0x100_0000_0000_0000 * b[0] as int + 0x1_0000_0000_0000 * b[1] as int + 0x100_0000_0000 * b[2] as int
              + 0x1_0000_0000 * b[3] as int
                      + 0x100_0000 * b[4] as int + 0x1_0000 * b[5] as int + 0x100 * b[6] as int + b[7]
  {
    FourRead(b[..4]);
    assert b[..5][..4] == b[..4] && b[..6][..5] == b[..5] && b[..7][..6] == b[..6];
    assert Value(b[..5]) == 0x100 * Value(b[..4]) + b[4];
    assert Value(b[..6]) == 0x100 * Value(b[..5]) + b[5];
    assert Value(b[..7]) == 0x100 * Value(b[..6]) + b[6];
    assert Value(b) == 0x100 * Value(b[..7]) + b[7];
  }

  method ReadU16At(buffer: array<Byte>, at: nat) returns (v: U16)
    requires at + 2 <= buffer.Length
    ensures v == ReadU16(buffer[at..at + 2])
  {
    v := 0x100 * buffer[at] as int + buffer[at + 1] as int;
    TwoRead(buffer[at..at + 2]);
  }

  method ReadU32At(buffer: array<Byte>, at: nat) returns (v: U32)
    requires at + 4 <= buffer.Length
    ensures v == ReadU32(buffer[at..at + 4])
  {
    v := 0x100_0000 * buffer[at] as int + 0x1_0000 * buffer[at + 1] as int + 0x100 * buffer[at + 2] as int
      + buffer[at + 3] as int;
    FourRead(buffer[at..at + 4]);
  }

  method ReadU64At(buffer: array<Byte>, at: nat) returns (v: U64)
    requires at + 8 <= buffer.Length
    ensures v == ReadU64(buffer[at..at + 8])
  {
    v := 0x100_0000_0000_0000 * buffer[at] as int + 0x1_0000_0000_0000 * buffer[at + 1] as int
       + 0x100_0000_0000 * buffer[at + 2] as int + 0x1_0000_0000 * buffer[at + 3] as int
       + 0x100_0000 * buffer[at + 4] as int + 0x1_0000 * buffer[at + 5] as int + 0x100 * buffer[at + 6] as int
         + buffer[at + 7] as int;
    EightRead(buffer[at..at + 8]);
  }

  /** A decoder's verdict: the value on 0, the error otherwise. */
  predicate Answers<T(==)>(ret: int, value: T, expected: Result<T>) {
    if expected.Ok? then ret == 0 && value == expected.value else ret == expected.code
  }

  method DecodeEndpointAt(buffer: array<Byte>, at: nat) returns (ret: int, e: Endpoint)
    requires at + 19 <= buffer.Length
    ensures Answers(ret, e, DecodeEndpoint(buffer[at..at + 19]))
  {
    e := NO_ENDPOINT;
    ghost var b := buffer[at..at + 19];
    if buffer[at] == 0 {
      return 0, e;
    } else if buffer[at] == 1 {
      var port := ReadU16At(buffer, at + 1);
      e := Endpoint(Inet(port, buffer[at + 3..at + 7]), INET_LENGTH);
      assert buffer[at + 1..at + 3] == b[1..3] && buffer[at + 3..at + 7] == b[3..7];
      return 0, e;
    } else if buffer[at] == 2 {
      var port := ReadU16At(buffer, at + 1);
      e := Endpoint(Inet6(port, buffer[at + 3..at + 19], 0, 0), INET6_LENGTH);
      assert buffer[at + 1..at + 3] == b[1..3] && buffer[at + 3..at + 19] == b[3..19];
      return 0, e;
    }
    return EPROTO, e;
  }

  method DecodeReportAt(buffer: array<Byte>, at: nat) returns (ret: int, r: Report)
    requires at + 57 <= buffer.Length
    ensures Answers(ret, r, DecodeReport(buffer[at..at + 57]))
  {
    ghost var b := buffer[at..at + 57];
    var session := ReadU64At(buffer, at);
    var revision := ReadU64At(buffer, at + 8);
    r := Report(session, revision, buffer[at + 16], buffer[at + 17], buffer[at + 18], NO_ENDPOINT, NO_ENDPOINT, NO_MAC);
    assert buffer[at..at + 8] == b[0..8] && buffer[at + 8..at + 16] == b[8..16];
    assert buffer[at + 19..at + 38] == b[19..38] && buffer[at + 38..at + 57] == b[38..57];
    var wifi, cellular;
    ret, wifi := DecodeEndpointAt(buffer, at + 19);
    if ret != 0 {
      return;
    }
    r := r.(wifi := wifi);
    ret, cellular := DecodeEndpointAt(buffer, at + 38);
    if ret != 0 {
      return;
    }
    r := r.(cellular := cellular);
  }

  /** decode_header for a buffer of at least eight bytes, with the check every caller makes. */
  method CheckHeader(buffer: array<Byte>, kind: Byte) returns (ok: bool, payload: U16)
    requires buffer.Length >= 8
    ensures ok == HeaderOk(buffer[..], kind) && payload == PayloadLength(buffer[..])
  {
    var magic := ReadU32At(buffer, 0);
    payload := ReadU16At(buffer, 6);
    assert buffer[..][0..4] == buffer[0..4] && buffer[..][6..8] == buffer[6..8];
    ok := magic == MAGIC && buffer[4] == VERSION && buffer[5] == kind;
  }

  /** The datagram is the whole buffer, so reading past its length would be an index error. */
  method DecodeStaReportFrom(buffer: array<Byte>) returns (ret: int, r: Report)
    ensures Answers(ret, r, DecodeStaReport(buffer[..]))
  {
    r := Report(0, 0, 0, 0, 0, NO_ENDPOINT, NO_ENDPOINT, NO_MAC);
    if buffer.Length < 8 {
      return EMSGSIZE, r;
    }
    var ok, payload := CheckHeader(buffer, STA_REPORT);
    if !ok {
      return EPROTO, r;
    }
    if payload != 63 {
      return EMSGSIZE, r;
    }
    if buffer.Length != 8 + payload as int {
      return EMSGSIZE, r;
    }
    ret, r := DecodeReportAt(buffer, 8);
    assert buffer[8..8 + 57] == buffer[..][8..65];
    if ret != 0 {
      return;
    }
    r := r.(mac := buffer[65..71]);
    assert buffer[65..71] == buffer[..][65..71];
  }

  method DecodeApSyncFrom(buffer: array<Byte>) returns (ret: int, s: Sync)
    ensures Answers(ret, s, DecodeApSync(buffer[..]))
  {
    s := Sync(Report(0, 0, 0, 0, 0, NO_ENDPOINT, NO_ENDPOINT, NO_MAC), 0, 0, Zeros(NODES_MAX));
    if buffer.Length < 8 {
      return EMSGSIZE, s;
    }
    var ok, payload := CheckHeader(buffer, AP_SYNC);
    if !ok {
      return EPROTO, s;
    }
    if payload < 69 {
      return EMSGSIZE, s;
    }
    if buffer.Length != 8 + payload as int {
      return EMSGSIZE, s;
    }
    ghost var b := buffer[..];
    var ap;
    ret, ap := DecodeReportAt(buffer, 8);
    assert buffer[8..8 + 57] == b[8..65];
    if ret != 0 {
      return;
    }
    var revision := ReadU64At(buffer, 65);
    var count := ReadU32At(buffer, 73);
    assert buffer[65..65 + 8] == b[65..73] && buffer[73..73 + 4] == b[73..77];
    if count > NODES_MAX {
      return EPROTO, s;
    }
    if payload != 69 + count {
      return EMSGSIZE, s;
    }
    var nodes := ReadNodes(buffer, count);
    assert buffer[77..77 + count] == b[77..77 + count];
    s := Sync(ap, revision, count, nodes);
  }

  method ReadNodes(buffer: array<Byte>, count: nat) returns (nodes: seq<Byte>)
    requires count <= NODES_MAX && buffer.Length == 77 + count
    ensures nodes == buffer[77..77 + count] + Zeros(NODES_MAX - count)
  {
    nodes := Zeros(NODES_MAX);
    var offset, index := 77, 0;
    while index < count
      invariant 0 <= index <= count && offset == 77 + index
      invariant |nodes| == NODES_MAX
      invariant forall k :: 0 <= k < index ==> nodes[k] == buffer[77 + k]
      invariant forall k :: index <= k < NODES_MAX ==> nodes[k] == 0
    {
      nodes := nodes[index := buffer[offset]];
      offset, index := offset + 1, index + 1;
    }
  }

  method DecodeLeaveFrom(buffer: array<Byte>) returns (ret: int, l: Leave)
    ensures Answers(ret, l, DecodeLeave(buffer[..]))
  {
    l := Leave(0, 0, 0);
    if buffer.Length != 25 {
      return EMSGSIZE, l;
    }
    var ok, payload := CheckHeader(buffer, PEER_LEAVE);
    if !ok {
      return EPROTO, l;
    }
    if payload != 17 {
      return EMSGSIZE, l;
    }
    ghost var b := buffer[..];
    var session := ReadU64At(buffer, 8);
    var revision := ReadU64At(buffer, 16);
    assert buffer[8..8 + 8] == b[8..16] && buffer[16..16 + 8] == b[16..24];
    return 0, Leave(session, revision, buffer[24]);
  }
}
