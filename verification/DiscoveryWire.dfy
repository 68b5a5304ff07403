/** The discovery wire format: what discovery_wire.c writes and accepts. */
module DiscoveryWire {
  import opened WireBytes

  const EINVAL: int := -22
  const ENOSPC: int := -28
  const EPROTO: int := -71
  const EMSGSIZE: int := -90
  const EAFNOSUPPORT: int := -97

  const MAGIC: U32 := 0x4C474453
  const VERSION: Byte := 1
  const STA_REPORT: Byte := 1
  const AP_SYNC: Byte := 2
  const PEER_LEAVE: Byte := 3
  const NODES_MAX: nat := 16
  const INET_LENGTH: nat := 16
  const INET6_LENGTH: nat := 28

  datatype Result<T> = Ok(value: T) | Err(code: int)

  type Address4 = s: seq<Byte> | |s| == 4 witness [0, 0, 0, 0]
  type Address6 = s: seq<Byte> | |s| == 16 witness [0, 0, 0, 0, 0, 0, 0, 0, 0, 0, 0, 0, 0, 0, 0, 0]
  type WifiMac = s: seq<Byte> | |s| == 6 witness [0, 0, 0, 0, 0, 0]

  /** sockaddr_storage. */
  datatype Sockaddr =
    | Unspecified
    | Inet(port: U16, address4: Address4)
    | Inet6(port: U16, address6: Address6, flow: U32, scope: U32)
    | OtherFamily(family: nat)

  /** linkg_path_endpoint_t: `length` is a field of its own, not the size of the address. */
  datatype Endpoint = Endpoint(address: Sockaddr, length: nat)

  const NO_ENDPOINT := Endpoint(Unspecified, 0)

  datatype Report = Report(session: U64, revision: U64, id: Byte, role: nat, flags: Byte, wifi: Endpoint,
                           cellular: Endpoint, mac: WifiMac)

  /** node_ids is an array of NODES_MAX entries; only the first `count` are meant. */
  datatype Sync = Sync(ap: Report, revision: U64, count: U32, nodes: seq<Byte>)

  datatype Leave = Leave(session: U64, revision: U64, id: Byte)

  predicate SyncArray(s: Sync) { |s.nodes| == NODES_MAX }

  // ------------------------------------------------------------------ encoding

  function EncodeEndpoint(e: Endpoint): Result<seq<Byte>> {
    if e.length == 0 then Ok(Zeros(19))
    else match e.address
      case Inet(port, address) =>
        if e.length < INET_LENGTH then Err(EINVAL) else Ok([1] + BigEndian(port, 2) + address + Zeros(12))
      case Inet6(port, address, _, _) =>
        if e.length < INET6_LENGTH then Err(EINVAL) else Ok([2] + BigEndian(port, 2) + address)
      case _ => Err(EAFNOSUPPORT)
  }

  function ReportBytes(r: Report, wifi: seq<Byte>, cellular: seq<Byte>): seq<Byte> {
    BigEndian(r.session, 8) + BigEndian(r.revision, 8) + [r.id, r.role % 256, r.flags] + wifi + cellular
  }

  function EncodeReport(r: Report): Result<seq<Byte>> {
    var wifi := EncodeEndpoint(r.wifi);
    if wifi.Err? then wifi
    else
      var cellular := EncodeEndpoint(r.cellular);
      if cellular.Err? then cellular else Ok(ReportBytes(r, wifi.value, cellular.value))
  }

  function Header(kind: Byte, payload: U16): (b: seq<Byte>)
    ensures |b| == 8
  {
    BigEndian(MAGIC, 4) + [VERSION, kind] + BigEndian(payload, 2)
  }

  function EncodeStaReport(r: Report, capacity: nat): Result<seq<Byte>> {
    if capacity < 71 then Err(ENOSPC)
    else
      var report := EncodeReport(r);
      if report.Err? then report else Ok(Header(STA_REPORT, 63) + report.value + r.mac)
  }

  function EncodeApSync(s: Sync, capacity: nat): Result<seq<Byte>>
    requires SyncArray(s)
  {
    if s.count > NODES_MAX then Err(EINVAL)
    else if capacity < 77 + s.count then Err(ENOSPC)
    else
      var report := EncodeReport(s.ap);
      if report.Err? then report
      else Ok(Header(AP_SYNC, 69 + s.count) + report.value + BigEndian(s.revision, 8) + BigEndian(s.count, 4)
              + s.nodes[..s.count])
  }

  function EncodeLeave(l: Leave, capacity: nat): Result<seq<Byte>> {
    if capacity < 25 then Err(ENOSPC)
    else Ok(Header(PEER_LEAVE, 17) + BigEndian(l.session, 8) + BigEndian(l.revision, 8) + [l.id])
  }

  // ------------------------------------------------------------------ decoding

  function ReadU16(b: seq<Byte>): U16
    requires |b| == 2
  {
    BigEndianOfValue(b); Spans(); Value(b)
  }

  function ReadU32(b: seq<Byte>): U32
    requires |b| == 4
  {
    BigEndianOfValue(b); Spans(); Value(b)
  }

  function ReadU64(b: seq<Byte>): U64
    requires |b| == 8
  {
    BigEndianOfValue(b); Spans(); Value(b)
  }

  function DecodeEndpoint(b: seq<Byte>): Result<Endpoint>
    requires |b| == 19
  {
    if b[0] == 0 then Ok(NO_ENDPOINT)
    else if b[0] == 1 then Ok(Endpoint(Inet(ReadU16(b[1..3]), b[3..7]), INET_LENGTH))
    else if b[0] == 2 then Ok(Endpoint(Inet6(ReadU16(b[1..3]), b[3..19], 0, 0), INET6_LENGTH))
    else Err(EPROTO)
  }

  const NO_MAC: WifiMac := [0, 0, 0, 0, 0, 0]

  /** decode_report on its 57 bytes; the MAC is not among them. */
  function DecodeReport(b: seq<Byte>): Result<Report>
    requires |b| == 57
  {
    var wifi := DecodeEndpoint(b[19..38]);
    if wifi.Err? then Err(wifi.code)
    else
      var cellular := DecodeEndpoint(b[38..57]);
      if cellular.Err? then Err(cellular.code)
      else Ok(Report(ReadU64(b[0..8]), ReadU64(b[8..16]), b[16], b[17], b[18], wifi.value, cellular.value, NO_MAC))
  }

  predicate HeaderOk(b: seq<Byte>, kind: Byte)
    requires |b| >= 8
  {
    ReadU32(b[0..4]) == MAGIC && b[4] == VERSION && b[5] == kind
  }

  function PayloadLength(b: seq<Byte>): U16
    requires |b| >= 8
  {
    ReadU16(b[6..8])
  }

  function DecodeStaReport(b: seq<Byte>): Result<Report> {
    if |b| < 8 then Err(EMSGSIZE)
    else if !HeaderOk(b, STA_REPORT) then Err(EPROTO)
    else if PayloadLength(b) != 63 then Err(EMSGSIZE)
    else if |b| != 71 then Err(EMSGSIZE)
    else
      var report := DecodeReport(b[8..65]);
      if report.Err? then report else Ok(report.value.(mac := b[65..71]))
  }

  function DecodeApSync(b: seq<Byte>): Result<Sync> {
    if |b| < 8 then Err(EMSGSIZE)
    else if !HeaderOk(b, AP_SYNC) then Err(EPROTO)
    else if PayloadLength(b) < 69 then Err(EMSGSIZE)
    else if |b| != 8 + PayloadLength(b) then Err(EMSGSIZE)
    else
      var report := DecodeReport(b[8..65]);
      if report.Err? then Err(report.code)
      else
        var count := ReadU32(b[73..77]);
        if count > NODES_MAX then Err(EPROTO)
        else if PayloadLength(b) != 69 + count then Err(EMSGSIZE)
        else Ok(Sync(report.value, ReadU64(b[65..73]), count, b[77..77 + count] + Zeros(NODES_MAX - count)))
  }

  function DecodeLeave(b: seq<Byte>): Result<Leave> {
    if |b| != 25 then Err(EMSGSIZE)
    else if !HeaderOk(b, PEER_LEAVE) then Err(EPROTO)
    else if PayloadLength(b) != 17 then Err(EMSGSIZE)
    else Ok(Leave(ReadU64(b[8..16]), ReadU64(b[16..24]), b[24]))
  }

  // ------------------------------------------------------------------ what is carried

  /** What survives the wire: no flow or scope, no stale address behind length 0, the exact
      sockaddr sizes. */
  function CarriedEndpoint(e: Endpoint): Endpoint {
    if e.length == 0 then NO_ENDPOINT
    else match e.address
      case Inet(port, address) => Endpoint(Inet(port, address), INET_LENGTH)
      case Inet6(port, address, _, _) => Endpoint(Inet6(port, address, 0, 0), INET6_LENGTH)
      case _ => e
  }

  predicate Encodable(e: Endpoint) {
    || e.length == 0
    || (e.address.Inet? && e.length >= INET_LENGTH)
    || (e.address.Inet6? && e.length >= INET6_LENGTH)
  }

  function Carried(r: Report): Report {
    r.(role := r.role % 256, wifi := CarriedEndpoint(r.wifi), cellular := CarriedEndpoint(r.cellular))
  }

  function CarriedSync(s: Sync): Sync
    requires SyncArray(s) && s.count <= NODES_MAX
  {
    s.(ap := Carried(s.ap).(mac := NO_MAC), nodes := s.nodes[..s.count] + Zeros(NODES_MAX - s.count))
  }

  /** An endpoint as linkg fills it in: sizes exact, no flow label, no scope id. */
  predicate PlainEndpoint(e: Endpoint) {
    match e.address
    case Unspecified => e.length == 0
    case Inet(_, _) => e.length == INET_LENGTH
    case Inet6(_, _, flow, scope) => e.length == INET6_LENGTH && flow == 0 && scope == 0
    case OtherFamily(_) => false
  }

  predicate PlainReport(r: Report) {
    r.role < 256 && PlainEndpoint(r.wifi) && PlainEndpoint(r.cellular)
  }

  // ------------------------------------------------------------------ endpoints and reports

  lemma U16RoundTrip(v: U16)
    ensures ReadU16(BigEndian(v, 2)) == v
  {
    Spans();
    ValueOfBigEndian(v, 2);
  }

  lemma U32RoundTrip(v: U32)
    ensures ReadU32(BigEndian(v, 4)) == v
  {
    Spans();
    ValueOfBigEndian(v, 4);
  }

  lemma U64RoundTrip(v: U64)
    ensures ReadU64(BigEndian(v, 8)) == v
  {
    Spans();
    ValueOfBigEndian(v, 8);
  }

  lemma U64Bytes(b: seq<Byte>)
    requires |b| == 8
    ensures BigEndian(ReadU64(b), 8) == b
  {
    BigEndianOfValue(b);
  }

  lemma U32Bytes(b: seq<Byte>)
    requires |b| == 4
    ensures BigEndian(ReadU32(b), 4) == b
  {
    BigEndianOfValue(b);
  }

  lemma U16Bytes(b: seq<Byte>)
    requires |b| == 2
    ensures BigEndian(ReadU16(b), 2) == b
  {
    BigEndianOfValue(b);
  }

  /** An endpoint that cannot be encoded is refused, any other comes back as carried. */
  lemma EndpointRoundTrip(e: Endpoint)
    ensures EncodeEndpoint(e).Ok? <==> Encodable(e)
    ensures Encodable(e) ==>
              |EncodeEndpoint(e).value| == 19 && DecodeEndpoint(EncodeEndpoint(e).value) == Ok(CarriedEndpoint(e))
  {
    if Encodable(e) && e.length != 0 {
      var b := EncodeEndpoint(e).value;
      U16RoundTrip(e.address.port);
      assert b[1..3] == BigEndian(e.address.port, 2);
      if e.address.Inet? {
        assert b[3..7] == e.address.address4;
      } else {
        assert b[3..19] == e.address.address6;
      }
    }
  }

  /** The bytes of an endpoint that mean nothing, zeroed. */
  function ZeroPadding(b: seq<Byte>): seq<Byte>
    requires |b| == 19
  {
    if b[0] == 0 then Zeros(19) else if b[0] == 1 then b[..7] + Zeros(12) else b
  }

  lemma EndpointReencodes(b: seq<Byte>)
    requires |b| == 19
    ensures DecodeEndpoint(b).Ok? <==> b[0] <= 2
    ensures b[0] <= 2 ==> EncodeEndpoint(DecodeEndpoint(b).value) == Ok(ZeroPadding(b))
  {
    if b[0] == 1 || b[0] == 2 {
      U16Bytes(b[1..3]);
      if b[0] == 1 {
        assert [1] + b[1..3] + b[3..7] == b[..7];
      } else {
        assert [2] + b[1..3] + b[3..19] == b;
      }
    }
  }

  lemma ReportParts(r: Report, wifi: seq<Byte>, cellular: seq<Byte>)
    requires |wifi| == 19 && |cellular| == 19
    ensures var b := ReportBytes(r, wifi, cellular);
            && |b| == 57 && b[0..8] == BigEndian(r.session, 8) && b[8..16] == BigEndian(r.revision, 8)
            && b[16..19] == [r.id, r.role % 256, r.flags] && b[19..38] == wifi && b[38..57] == cellular
  {
  }

  lemma ReportRoundTrip(r: Report)
    ensures EncodeReport(r).Ok? <==> Encodable(r.wifi) && Encodable(r.cellular)
    ensures EncodeReport(r).Ok? ==>
              |EncodeReport(r).value| == 57 && DecodeReport(EncodeReport(r).value) == Ok(Carried(r).(mac := NO_MAC))
  {
    EndpointRoundTrip(r.wifi);
    EndpointRoundTrip(r.cellular);
    U64RoundTrip(r.session);
    U64RoundTrip(r.revision);
    if EncodeReport(r).Ok? {
      var b := EncodeReport(r).value;
      ReportParts(r, EncodeEndpoint(r.wifi).value, EncodeEndpoint(r.cellular).value);
      assert b[16] == b[16..19][0] && b[17] == b[16..19][1] && b[18] == b[16..19][2];
    }
  }

  function ZeroReportPadding(b: seq<Byte>): seq<Byte>
    requires |b| == 57
  {
    b[..19] + ZeroPadding(b[19..38]) + ZeroPadding(b[38..57])
  }

  lemma ReportReencodes(b: seq<Byte>)
    requires |b| == 57
    ensures DecodeReport(b).Ok? <==> b[19] <= 2 && b[38] <= 2
    ensures DecodeReport(b).Ok? ==> EncodeReport(DecodeReport(b).value) == Ok(ZeroReportPadding(b))
  {
    EndpointReencodes(b[19..38]);
    EndpointReencodes(b[38..57]);
    if DecodeReport(b).Ok? {
      var r := DecodeReport(b).value;
      U64Bytes(b[0..8]);
      U64Bytes(b[8..16]);
      assert r.wifi == DecodeEndpoint(b[19..38]).value && r.cellular == DecodeEndpoint(b[38..57]).value;
      assert EncodeReport(r) == Ok(ReportBytes(r, ZeroPadding(b[19..38]), ZeroPadding(b[38..57])));
      assert b[..19] == b[0..8] + b[8..16] + [b[16], b[17], b[18]];
    }
  }

  lemma HeaderParts(kind: Byte, payload: U16, rest: seq<Byte>)
    ensures var b := Header(kind, payload) + rest; HeaderOk(b, kind) && PayloadLength(b) == payload && b[5] == kind
  {
    var b := Header(kind, payload) + rest;
    U32RoundTrip(MAGIC);
    U16RoundTrip(payload);
    assert b[0..4] == BigEndian(MAGIC, 4);
    assert b[6..8] == BigEndian(payload, 2);
  }

  /** A header is accepted for a kind and a payload length exactly when its eight bytes are the
      ones written for them. */
  lemma HeaderIs(b: seq<Byte>, kind: Byte, payload: U16)
    requires |b| >= 8
    ensures HeaderOk(b, kind) && PayloadLength(b) == payload <==> b[..8] == Header(kind, payload)
  {
    U32Bytes(b[0..4]);
    U16Bytes(b[6..8]);
    assert b[..8] == b[0..4] + [b[4], b[5]] + b[6..8];
    if b[..8] == Header(kind, payload) {
      HeaderParts(kind, payload, b[8..]);
      assert b == Header(kind, payload) + b[8..];
    }
  }
}
