/** The three discovery messages over the wire: round trips, the canonical form, and exactly
    which buffers are accepted. */
module WireRoundTrips {
  import opened WireBytes
  import opened DiscoveryWire

  /** Some buffer position is where a decoder finds the parts an encoder wrote. */
  lemma Layout(header: seq<Byte>, report: seq<Byte>, rest: seq<Byte>)
    requires |header| == 8 && |report| == 57
    ensures var b := header + report + rest;
            |b| == 65 + |rest| && b[..8] == header && b[8..65] == report && b[65..] == rest
  {
  }

  // ------------------------------------------------------------------ STA report

  /** A STA report is encoded exactly when both endpoints can be and 71 bytes fit; decoding gives
      back what the wire carries. */
  lemma StaReportRoundTrip(r: Report, capacity: nat)
    ensures EncodeStaReport(r, capacity).Ok? <==> capacity >= 71 && Encodable(r.wifi) && Encodable(r.cellular)
    ensures EncodeStaReport(r, capacity).Ok? ==> |EncodeStaReport(r, capacity).value| == 71
    ensures EncodeStaReport(r, capacity).Ok? ==> DecodeStaReport(EncodeStaReport(r, capacity).value) == Ok(Carried(r))
  {
    ReportRoundTrip(r);
    if EncodeStaReport(r, capacity).Ok? {
      var report := EncodeReport(r).value;
      var b := Header(STA_REPORT, 63) + report + r.mac;
      Layout(Header(STA_REPORT, 63), report, r.mac);
      HeaderParts(STA_REPORT, 63, report + r.mac);
      assert b == Header(STA_REPORT, 63) + (report + r.mac);
      assert b[65..71] == b[65..];
    }
  }

  /** The report itself comes back exactly when its endpoints are plain and its role fits. */
  lemma StaReportRestoredIff(r: Report)
    requires Encodable(r.wifi) && Encodable(r.cellular)
    ensures Carried(r) == r <==> PlainReport(r)
    ensures PlainReport(Carried(r)) && Carried(Carried(r)) == Carried(r)
  {
  }

  predicate EndpointKindsKnown(b: seq<Byte>)
    requires |b| >= 65
  {
    b[27] <= 2 && b[46] <= 2
  }

  /** Exactly which buffers are STA reports: nothing shorter, nothing longer. */
  lemma StaReportAcceptedIff(b: seq<Byte>)
    ensures DecodeStaReport(b).Ok? <==> |b| == 71 && b[..8] == Header(STA_REPORT, 63) && EndpointKindsKnown(b)
  {
    if |b| >= 8 {
      HeaderIs(b, STA_REPORT, 63);
    }
    if |b| == 71 {
      ReportReencodes(b[8..65]);
      assert b[8..65][19] == b[27] && b[8..65][38] == b[46];
    }
  }

  /** Encoding what was decoded gives the buffer back with its meaningless bytes zeroed. */
  lemma StaReportReencodes(b: seq<Byte>)
    requires DecodeStaReport(b).Ok?
    ensures |b| == 71
    ensures EncodeStaReport(DecodeStaReport(b).value, 71) == Ok(b[..8] + ZeroReportPadding(b[8..65]) + b[65..])
    ensures PlainReport(DecodeStaReport(b).value)
  {
    StaReportAcceptedIff(b);
    var r := DecodeStaReport(b).value;
    var report := DecodeReport(b[8..65]).value;
    ReportReencodes(b[8..65]);
    assert EncodeReport(r) == EncodeReport(report);
    assert b[65..] == b[65..71];
  }

  /** Two buffers that decode alike encode alike, and to something that decodes like them. */
  lemma StaReportCanonical(b: seq<Byte>, c: seq<Byte>)
    requires DecodeStaReport(b).Ok? && DecodeStaReport(c).Ok?
    ensures var canonical := EncodeStaReport(DecodeStaReport(b).value, 71);
            && canonical.Ok? && DecodeStaReport(canonical.value) == DecodeStaReport(b)
            && (DecodeStaReport(c) == DecodeStaReport(b) <==>
                  EncodeStaReport(DecodeStaReport(c).value, 71) == canonical)
  {
    var r, s := DecodeStaReport(b).value, DecodeStaReport(c).value;
    StaReportReencodes(b);
    StaReportReencodes(c);
    StaReportRoundTrip(r, 71);
    StaReportRoundTrip(s, 71);
    StaReportRestoredIff(r);
    StaReportRestoredIff(s);
  }

  // ------------------------------------------------------------------ AP sync

  function SyncTail(s: Sync): (b: seq<Byte>)
    requires SyncArray(s) && s.count <= NODES_MAX
    ensures |b| == 12 + s.count
  {
    BigEndian(s.revision, 8) + BigEndian(s.count, 4) + s.nodes[..s.count]
  }

  lemma SyncTailParts(s: Sync)
    requires SyncArray(s) && s.count <= NODES_MAX
    ensures var t := SyncTail(s);
            ReadU64(t[0..8]) == s.revision && ReadU32(t[8..12]) == s.count && t[12..] == s.nodes[..s.count]
  {
    var t := SyncTail(s);
    U64RoundTrip(s.revision);
    U32RoundTrip(s.count);
    assert t[0..8] == BigEndian(s.revision, 8) && t[8..12] == BigEndian(s.count, 4);
  }

  lemma EncodedSync(s: Sync, capacity: nat)
    requires SyncArray(s) && EncodeApSync(s, capacity).Ok?
    ensures s.count <= NODES_MAX && EncodeReport(s.ap).Ok?
    ensures EncodeApSync(s, capacity).value == Header(AP_SYNC, 69 + s.count) + EncodeReport(s.ap).value + SyncTail(s)
  {
  }

  /** An AP sync is encoded exactly when its nodes are at most 16, its endpoints can be and the
      whole message fits; decoding gives back everything but the AP's own MAC. */
  lemma ApSyncRoundTrip(s: Sync, capacity: nat)
    requires SyncArray(s)
    ensures EncodeApSync(s, capacity).Ok? <==>
            s.count <= NODES_MAX && capacity >= 77 + s.count && Encodable(s.ap.wifi) && Encodable(s.ap.cellular)
    ensures EncodeApSync(s, capacity).Ok? ==> |EncodeApSync(s, capacity).value| == 77 + s.count
    ensures EncodeApSync(s, capacity).Ok? ==> DecodeApSync(EncodeApSync(s, capacity).value) == Ok(CarriedSync(s))
  {
    ReportRoundTrip(s.ap);
    if EncodeApSync(s, capacity).Ok? {
      EncodedSync(s, capacity);
      SyncTailParts(s);
      var h, report, t := Header(AP_SYNC, 69 + s.count), EncodeReport(s.ap).value, SyncTail(s);
      var b := h + report + t;
      Layout(h, report, t);
      HeaderParts(AP_SYNC, 69 + s.count, report + t);
      assert b == h + (report + t);
      TailSlices(b, t, s.count);
    }
  }

  lemma TailSlices(b: seq<Byte>, t: seq<Byte>, count: nat)
    requires |b| == 77 + count && b[65..] == t
    ensures b[65..73] == t[0..8] && b[73..77] == t[8..12] && b[77..77 + count] == t[12..]
  {
  }

  lemma ApSyncRestoredIff(s: Sync)
    requires SyncArray(s) && s.count <= NODES_MAX && Encodable(s.ap.wifi) && Encodable(s.ap.cellular)
    ensures CarriedSync(s) == s <==>
            PlainReport(s.ap) && s.ap.mac == NO_MAC && forall k :: s.count <= k < NODES_MAX ==> s.nodes[k] == 0
  {
  }

  /** The number of nodes a sync of this length names. */
  predicate SyncLength(b: seq<Byte>) {
    77 <= |b| <= 77 + NODES_MAX && ReadU32(b[73..77]) == |b| - 77
  }

  /** Exactly which buffers are AP syncs: the header, the count and the length all agree. */
  lemma ApSyncAcceptedIff(b: seq<Byte>)
    ensures DecodeApSync(b).Ok? <==> SyncLength(b) && b[..8] == Header(AP_SYNC, |b| - 8) && EndpointKindsKnown(b)
  {
    if 77 <= |b| <= 77 + NODES_MAX {
      HeaderIs(b, AP_SYNC, |b| - 8);
      ReportReencodes(b[8..65]);
      assert b[8..65][19] == b[27] && b[8..65][38] == b[46];
    }
  }

  lemma TailReencodes(b: seq<Byte>, s: Sync)
    requires SyncLength(b) && s.count == |b| - 77 && s.revision == ReadU64(b[65..73])
    requires s.nodes == b[77..77 + s.count] + Zeros(NODES_MAX - s.count)
    ensures SyncTail(s) == b[65..]
  {
    U64Bytes(b[65..73]);
    U32Bytes(b[73..77]);
    FrontOf(b[77..], Zeros(NODES_MAX - s.count));
    SyncCut(b);
  }

  lemma FrontOf(a: seq<Byte>, rest: seq<Byte>)
    ensures (a + rest)[..|a|] == a
  {
  }

  lemma SyncCut(b: seq<Byte>)
    requires |b| >= 77
    ensures b[65..] == b[65..73] + b[73..77] + b[77..]
    ensures b[77..|b|] == b[77..]
  {
  }

  lemma ApSyncReencodes(b: seq<Byte>, capacity: nat)
    requires DecodeApSync(b).Ok? && capacity >= |b|
    ensures 77 <= |b| <= 77 + NODES_MAX
    ensures EncodeApSync(DecodeApSync(b).value, capacity) == Ok(b[..8] + ZeroReportPadding(b[8..65]) + b[65..])
  {
    ApSyncAcceptedIff(b);
    var s := DecodeApSync(b).value;
    ReportReencodes(b[8..65]);
    assert EncodeReport(s.ap) == Ok(ZeroReportPadding(b[8..65]));
    TailReencodes(b, s);
    EncodedSync(s, capacity);
  }

  /** One canonical buffer per decoded sync. */
  lemma ApSyncCanonical(b: seq<Byte>, c: seq<Byte>)
    requires DecodeApSync(b).Ok? && DecodeApSync(c).Ok?
    ensures var canonical := EncodeApSync(DecodeApSync(b).value, 93);
            && canonical.Ok? && DecodeApSync(canonical.value) == DecodeApSync(b)
            && (DecodeApSync(c) == DecodeApSync(b) <==> EncodeApSync(DecodeApSync(c).value, 93) == canonical)
  {
    ApSyncAcceptedIff(b);
    ApSyncAcceptedIff(c);
    ApSyncComesBack(b);
    ApSyncComesBack(c);
  }

  lemma ApSyncComesBack(b: seq<Byte>)
    requires DecodeApSync(b).Ok?
    ensures EncodeApSync(DecodeApSync(b).value, 93).Ok?
    ensures DecodeApSync(EncodeApSync(DecodeApSync(b).value, 93).value) == DecodeApSync(b)
  {
    ApSyncReencodes(b, 93);
    var s := DecodeApSync(b).value;
    ApSyncRoundTrip(s, 93);
    ApSyncRestoredIff(s);
    DecodedReportIsPlain(b[8..65]);
  }

  lemma DecodedReportIsPlain(b: seq<Byte>)
    requires |b| == 57 && DecodeReport(b).Ok?
    ensures PlainReport(DecodeReport(b).value)
  {
  }

  // ------------------------------------------------------------------ leave

  /** A leave is always restored, in both directions: its wire form has no padding. */
  lemma LeaveRoundTrip(l: Leave, capacity: nat)
    ensures EncodeLeave(l, capacity).Ok? <==> capacity >= 25
    ensures capacity >= 25 ==>
              |EncodeLeave(l, capacity).value| == 25 && DecodeLeave(EncodeLeave(l, capacity).value) == Ok(l)
  {
    if capacity >= 25 {
      var h := Header(PEER_LEAVE, 17);
      var rest := BigEndian(l.session, 8) + BigEndian(l.revision, 8) + [l.id];
      HeaderParts(PEER_LEAVE, 17, rest);
      U64RoundTrip(l.session);
      U64RoundTrip(l.revision);
      LeaveParts(h, BigEndian(l.session, 8), BigEndian(l.revision, 8), l.id);
    }
  }

  lemma LeaveParts(h: seq<Byte>, session: seq<Byte>, revision: seq<Byte>, id: Byte)
    requires |h| == |session| == |revision| == 8
    ensures var b := h + session + revision + [id];
            |b| == 25 && b == h + (session + revision + [id]) && b[8..16] == session && b[16..24] == revision
              && b[24] == id
  {
  }

  lemma LeaveReencodes(b: seq<Byte>)
    requires |b| == 25 && b[..8] == Header(PEER_LEAVE, 17)
    ensures EncodeLeave(Leave(ReadU64(b[8..16]), ReadU64(b[16..24]), b[24]), 25) == Ok(b)
  {
    U64Bytes(b[8..16]);
    U64Bytes(b[16..24]);
    LeaveCut(b);
  }

  lemma LeaveCut(b: seq<Byte>)
    requires |b| == 25
    ensures b == b[..8] + b[8..16] + b[16..24] + [b[24]]
  {
  }

  lemma LeaveAcceptedIff(b: seq<Byte>)
    ensures DecodeLeave(b).Ok? <==> |b| == 25 && b[..8] == Header(PEER_LEAVE, 17)
    ensures DecodeLeave(b).Ok? ==> EncodeLeave(DecodeLeave(b).value, 25) == Ok(b)
  {
    if |b| == 25 {
      HeaderIs(b, PEER_LEAVE, 17);
      if b[..8] == Header(PEER_LEAVE, 17) {
        LeaveReencodes(b);
      }
    }
  }

  // ------------------------------------------------------------------ all three

  predicate Accepted(b: seq<Byte>) {
    DecodeStaReport(b).Ok? || DecodeApSync(b).Ok? || DecodeLeave(b).Ok?
  }

  /** The message kind is never in doubt, and the header tells the length. */
  lemma KindAndLength(b: seq<Byte>)
    requires Accepted(b)
    ensures |b| >= 8 && |b| == 8 + PayloadLength(b)
    ensures DecodeStaReport(b).Ok? <==> b[5] == STA_REPORT
    ensures DecodeApSync(b).Ok? <==> b[5] == AP_SYNC
    ensures DecodeLeave(b).Ok? <==> b[5] == PEER_LEAVE
  {
  }

  /** Lengths are exact: no accepted message starts another one, so a datagram cut short or
      with bytes appended is always refused. */
  lemma NoAcceptedPrefix(b: seq<Byte>, c: seq<Byte>)
    requires Accepted(b) && Accepted(c) && b <= c
    ensures b == c
  {
  }
}
