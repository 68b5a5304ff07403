/** What discovery_types.h and discovery_internal.h declare. */
module DiscoveryTypes {

  const PEER_MAX: nat := 16
  const STA_MAX: nat := 16
  const ID_MIN: nat := 1
  const ID_MAX: nat := 254
  const LIVENESS_US: nat := 10_000_000
  const TOMBSTONE_US: nat := 15_000_000

  const IGNORED: int := 1
  const EPERM: int := -1
  const ENOENT: int := -2
  const EBUSY: int := -16
  const EEXIST: int := -17
  const ENODEV: int := -19
  const EINVAL: int := -22
  const ENOSPC: int := -28
  const EOVERFLOW: int := -75
  const EADDRINUSE: int := -98
  const EALREADY: int := -114

  datatype Role = Ap | Sta | OtherRole
  datatype Access = Wifi | Cellular
  datatype Family = V4 | V6

  /** `usable` is the verdict of linkg_network_ops on the address. */
  datatype Endpoint = NoEndpoint | Endpoint(family: Family, address: seq<nat>, port: nat, scope: nat, usable: bool)

  datatype Flags = Flags(wifi: bool, cellular: bool, unknown: bool)

  type Mac = seq<nat>

  datatype Report = Report(session: nat, revision: nat, id: nat, role: Role, wifi: Endpoint, cellular: Endpoint,
                           flags: Flags, mac: Mac)

  datatype Leave = Leave(session: nat, revision: nat, id: nat)

  datatype Sync = Sync(ap: Report, revision: nat, nodes: seq<nat>)

  datatype Liveness = Liveness(registered: bool, active: bool, lastSeenUs: nat)

  datatype Peer = Peer(used: bool, online: bool, closed: bool, routePending: bool, report: Report, wifi: Liveness,
                       cellular: Liveness,
                       previous: nat, offlineSinceUs: nat, mac: Mac, macBound: bool)

  datatype Topology = Topology(session: nat, revision: nat, nodes: seq<nat>)

  datatype Table = Table(local: Report, peers: seq<Peer>, channels: (bool, bool), topology: Topology, revision: nat,
                         peerCount: nat)

  const NO_MAC: Mac := [0, 0, 0, 0, 0, 0]
  const NO_REPORT := Report(0, 0, 0, OtherRole, NoEndpoint, NoEndpoint, Flags(false, false, false), NO_MAC)
  const NO_LIVENESS := Liveness(false, false, 0)
  const FREE_PEER := Peer(false, false, false, false, NO_REPORT, NO_LIVENESS, NO_LIVENESS, 0, 0, NO_MAC, false)
  const NO_TOPOLOGY := Topology(0, 0, [])

  /** What the calls into Switch, Transport, Node, Path and Route answer during one operation. */
  datatype Calls = Calls(registerNode: int, registerTransport: int, registerPath: int, setPlan: int, addRoute: int,
                         removePlan: int, unregisterTransport: int, unregisterNode: int, removeRoute: int,
                         dropWifi: int, dropCellular: int, resetTransport: int, ensurePlan: int, clearRoutes: seq<int>)

  function First(a: int, b: int): int { if a != 0 then a else b }

  /** Absence of what was to be removed is no error. */
  function Removed(ret: int): int { if ret == ENOENT then 0 else ret }

  predicate IdValid(id: nat) { ID_MIN <= id <= ID_MAX }

  predicate MacValid(mac: Mac) {
    |mac| == 6 && mac[0] % 2 == 0 && exists k :: 0 <= k < 6 && mac[k] != 0
  }

  predicate PathsValid(r: Report) {
    && !r.flags.unknown
    && (if r.flags.wifi then r.wifi.Endpoint? && r.wifi.family == V4 && r.wifi.usable && r.wifi.port != 0
        else r.wifi == NoEndpoint)
    && (if r.flags.cellular then
          r.cellular.Endpoint? && r.cellular.family == V6 && r.cellular.usable && r.cellular.port != 0
        else r.cellular == NoEndpoint)
  }

  /** validate_report. */
  predicate ReportValid(r: Report) {
    r.session != 0 && r.revision != 0 && IdValid(r.id) && r.role != OtherRole && PathsValid(r)
  }

  predicate Related(local: Report, r: Report) {
    r.id != local.id && ((local.role == Ap && r.role == Sta) || (local.role == Sta && r.role == Ap))
  }

  predicate SyncValid(local: Report, s: Sync) {
    && ReportValid(s.ap) && s.ap.role == Ap && s.ap.id != local.id
    && s.revision != 0 && |s.nodes| <= STA_MAX
    && (forall k :: 0 <= k < |s.nodes| ==> IdValid(s.nodes[k]) && s.nodes[k] != s.ap.id)
    && (forall j, k :: 0 <= j < k < |s.nodes| ==> s.nodes[j] != s.nodes[k])
  }
}
