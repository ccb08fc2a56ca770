// The stored network records (models/network.py): devices, connections between them and
// scan records, with the dictionaries their `to_dict` methods hand to the frontend.
// Record ids are UUIDs in the database; here they are naturals, rendered in decimal.
// Timestamps are integer seconds; `isoformat()` is left abstract as that integer.
module NetworkRecords {
  import opened Wrappers
  import opened JsonValues
  import Text

  /** A `NetworkDevice` row. The JSON columns hold an object (or list) or are null. */
  datatype DeviceRecord = DeviceRecord(
    labelText: string,
    devType: string,
    ip: Option<string>,
    mac: Option<string>,
    hostname: Option<string>,
    status: string,
    lastSeen: int,
    isIgnored: bool,
    isManuallyAdded: bool,
    metadata: Option<map<string, Json>>,
    tags: Option<seq<Json>>)

  /** A `NetworkConnection` row; `source` and `target` are device record ids. */
  datatype ConnectionRecord = ConnectionRecord(
    id: nat,
    labelText: Option<string>,
    connType: string,
    status: string,
    bandwidth: Option<int>,
    latency: Option<int>,
    packetLoss: Option<int>,
    traffic: Option<int>,
    metadata: Option<map<string, Json>>)

  /** A `NetworkScan` row. */
  datatype ScanRecord = ScanRecord(
    timestamp: int,
    status: string,
    discoveredDevices: int,
    duration: Option<int>,
    ipRange: Option<string>,
    scanMethod: string,
    errorMessage: Option<string>)

  /** The seconds after which an in-progress scan record is shown as stale. */
  const StaleAfter := 1800

  /** `NetworkDevice.to_dict()`. */
  datatype DeviceDict = DeviceDict(
    id: string, labelText: string, devType: string, ip: Option<string>, mac: Option<string>,
    hostname: Option<string>, status: string, lastSeen: int, tags: seq<Json>, metadata: map<string, Json>)

  /** `NetworkConnection.to_dict()`. */
  datatype ConnectionDict = ConnectionDict(
    id: string, source: string, target: string, labelText: Option<string>, connType: string, status: string,
    bandwidth: Option<int>, latency: Option<int>, packetLoss: Option<int>, traffic: Option<int>,
    metadata: map<string, Json>)

  /** `NetworkScan.to_dict()`; `errorMessage` is `None` when the key is absent. */
  datatype ScanDict = ScanDict(
    id: string, timestamp: int, status: string, discoveredDevices: int, duration: Option<int>,
    isStale: bool, errorMessage: Option<string>)

  /** A JSON column in `x if x else default` form. */
  function ObjectOrEmpty(m: Option<map<string, Json>>): (r: map<string, Json>)
    ensures m.None? || m.value == map[] ==> r == map[]
    ensures m.Some? ==> r == m.value
  {
    if m.Some? then m.value else map[]
  }

  function ListOrEmpty(l: Option<seq<Json>>): (r: seq<Json>)
    ensures l.None? || l.value == [] ==> r == []
    ensures l.Some? ==> r == l.value
  {
    if l.Some? then l.value else []
  }

  function DeviceToDict(id: nat, d: DeviceRecord): (r: DeviceDict)
    ensures r.id == Text.NatToString(id)
    ensures r.labelText == d.labelText && r.devType == d.devType && r.ip == d.ip && r.mac == d.mac
    ensures r.hostname == d.hostname && r.status == d.status && r.lastSeen == d.lastSeen
    ensures r.tags == ListOrEmpty(d.tags) && r.metadata == ObjectOrEmpty(d.metadata)
  {
    DeviceDict(Text.NatToString(id), d.labelText, d.devType, d.ip, d.mac, d.hostname, d.status, d.lastSeen,
               ListOrEmpty(d.tags), ObjectOrEmpty(d.metadata))
  }

  function ConnectionToDict(source: nat, target: nat, c: ConnectionRecord): (r: ConnectionDict)
    ensures r.id == Text.NatToString(c.id)
    ensures r.source == Text.NatToString(source) && r.target == Text.NatToString(target)
    ensures r.packetLoss == c.packetLoss && r.latency == c.latency && r.bandwidth == c.bandwidth
    ensures r.traffic == c.traffic && r.connType == c.connType && r.status == c.status && r.labelText == c.labelText
    ensures r.metadata == ObjectOrEmpty(c.metadata)
  {
    ConnectionDict(Text.NatToString(c.id), Text.NatToString(source), Text.NatToString(target), c.labelText,
                   c.connType, c.status, c.bandwidth, c.latency, c.packetLoss, c.traffic, ObjectOrEmpty(c.metadata))
  }

  /** Whether an in-progress scan started at `timestamp` is stale at time `now`. */
  predicate IsStaleScan(s: ScanRecord, now: int)
  {
    s.status == "in-progress" && now - s.timestamp > StaleAfter
  }

  function ScanToDict(id: nat, s: ScanRecord, now: int): (r: ScanDict)
    ensures r.id == Text.NatToString(id) && r.timestamp == s.timestamp && r.status == s.status
    ensures r.discoveredDevices == s.discoveredDevices && r.duration == s.duration
    ensures r.isStale <==> s.status == "in-progress" && now - s.timestamp > 1800
    ensures r.errorMessage.Some? <==> s.errorMessage.Some? && s.errorMessage.value != ""
    ensures r.errorMessage.Some? ==> r.errorMessage == s.errorMessage
  {
    var isStale := if s.status == "in-progress" then now - s.timestamp > StaleAfter else false;
    var msg := if s.errorMessage.Some? && s.errorMessage.value != "" then s.errorMessage else None;
    ScanDict(Text.NatToString(id), s.timestamp, s.status, s.discoveredDevices, s.duration, isStale, msg)
  }

  /** A stale record stays stale as time passes; a record that is not in progress never is. */
  lemma StaleScanMonotone(s: ScanRecord, now: int, later: int)
    requires IsStaleScan(s, now) && now <= later
    ensures IsStaleScan(s, later)
    ensures ScanToDict(0, s, later).isStale
  {
  }
}
