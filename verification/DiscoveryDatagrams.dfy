/** From a received datagram to the report handler: the wire format of discovery_wire.c and the
    peer table of discovery_peer.c together. */
module DiscoveryDatagrams {
  import W = DiscoveryWire
  import R = WireRoundTrips
  import opened WireBytes
  import opened DiscoveryTypes
  import opened DiscoveryPeers
  import opened DiscoveryInvariant

  /** Which addresses linkg_network_ops accepts. */
  type Verdict = W.Sockaddr -> bool

  function EndpointOf(e: W.Endpoint, usable: Verdict): Endpoint {
    if e.length == 0 then NoEndpoint
    else match e.address
      case Inet(port, address) => Endpoint(V4, address, port, 0, usable(e.address))
      case Inet6(port, address, _, scope) => Endpoint(V6, address, port, scope, usable(e.address))
      case _ => Endpoint(V4, [], 0, 0, false)
  }

  function RoleOf(role: nat): Role { if role == 1 then Ap else if role == 2 then Sta else OtherRole }

  function FlagsOf(flags: nat): Flags { Flags(flags % 2 == 1, flags / 2 % 2 == 1, flags >= 4) }

  /** A wire report as the handler sees it. */
  function ReportOf(r: W.Report, usable: Verdict): Report {
    Report(r.session, r.revision, r.id, RoleOf(r.role), EndpointOf(r.wifi, usable), EndpointOf(r.cellular, usable),
           FlagsOf(r.flags), r.mac)
  }

  /** A STA without Wi-Fi data sends no endpoint for it; otherwise the report comes from the
      address it declares. Over 5G it always does. */
  predicate SourceValid(r: W.Report, access: Access, source: seq<Byte>, usable: Verdict) {
    if access == Cellular then
      && r.flags / 2 % 2 == 1
      && r.cellular.length == W.INET6_LENGTH && r.cellular.address.Inet6? && usable(r.cellular.address)
      && r.cellular.address.port != 0 && r.cellular.address.address6 == source
    else if r.flags % 2 == 0 then r.wifi.length == 0
    else r.wifi.length == W.INET_LENGTH && r.wifi.address.Inet? && r.wifi.address.address4 == source
  }

  /** handle_sta_report of either channel: what does not decode, or comes from elsewhere, is dropped. */
  function HandleDatagram(t: Table, access: Access, b: seq<Byte>, source: seq<Byte>, usable: Verdict, now: nat,
                          calls: Calls): Table {
    var r := W.DecodeStaReport(b);
    if r.Err? || !SourceValid(r.value, access, source, usable) then t
    else HandleReport(t, access, ReportOf(r.value, usable), now, calls).0
  }

  /** A STA's report, encoded, sent and received, is handled as the report it sent: the wire adds
      and loses nothing that matters to the handler. */
  lemma SentReportIsHandled(t: Table, access: Access, r: W.Report, capacity: nat, source: seq<Byte>,
                            usable: Verdict, now: nat, calls: Calls)
    requires W.EncodeStaReport(r, capacity).Ok? && W.PlainReport(r)
    ensures HandleDatagram(t, access, W.EncodeStaReport(r, capacity).value, source, usable, now, calls)
         == if SourceValid(r, access, source, usable) then HandleReport(t, access, ReportOf(r, usable), now, calls).0
            else t
  {
    R.StaReportRoundTrip(r, capacity);
    R.StaReportRestoredIff(r);
  }

  /** Whatever bytes arrive, the table stays sound, and a datagram of another length or with
      another header leaves it as it was. */
  lemma AnyDatagramIsSafe(t: Table, access: Access, b: seq<Byte>, source: seq<Byte>, usable: Verdict, now: nat,
                          calls: Calls)
    requires Sound(t)
    ensures Sound(HandleDatagram(t, access, b, source, usable, now, calls))
    ensures |b| != 71 || b[..8] != W.Header(W.STA_REPORT, 63) ==>
              HandleDatagram(t, access, b, source, usable, now, calls) == t
  {
    R.StaReportAcceptedIff(b);
    if W.DecodeStaReport(b).Ok? {
      HandleReportKeeps(t, access, ReportOf(W.DecodeStaReport(b).value, usable), now, calls);
    }
  }

  /** Two buffers that differ only in meaningless bytes are handled alike. */
  lemma PaddingDoesNotMatter(t: Table, access: Access, b: seq<Byte>, source: seq<Byte>, usable: Verdict, now: nat,
                             calls: Calls)
    requires W.DecodeStaReport(b).Ok?
    ensures |b| == 71
    ensures HandleDatagram(t, access, b[..8] + W.ZeroReportPadding(b[8..65]) + b[65..], source, usable, now, calls)
         == HandleDatagram(t, access, b, source, usable, now, calls)
  {
    R.StaReportReencodes(b);
    R.StaReportCanonical(b, b);
  }
}
