// The Socket.IO handlers that drive scans and store their results (sockets/network.py):
// option parsing and the one-active-scan guard of `start_network_scan`, the progress
// monitor, `save_scan_results` with its device and connection upserts, and
// `cancel_network_scan` with its database fallback. The database is the in-memory `Db`;
// `now` is one clock reading per handler call.
module NetworkSockets {
  import opened Wrappers
  import opened JsonValues
  import opened ScanTypes
  import opened NetworkRecords
  import Text
  import ScanSpec
  import ScannerRegistry

  // ---------------------------------------------------------------------------
  // Parsing the options of `start_network_scan`

  /** The text of the exception a malformed option raises (Python's message is not modelled). */
  const InvalidOptionMessage := "invalid scan option"

  /** `data['scan_type'].upper()` mapped onto the three scan types; any other text keeps `current`. */
  function ScanTypeOf(text: string, current: ScanType): (r: ScanType)
    ensures Text.Upper(text) == "BASIC" ==> r == Basic
    ensures Text.Upper(text) == "INTENSE" ==> r == Intense
    ensures Text.Upper(text) == "FULL" ==> r == Full
    ensures Text.Upper(text) !in {"BASIC", "INTENSE", "FULL"} ==> r == current
  {
    var t := Text.Upper(text);
    if t == "BASIC" then Basic
    else if t == "INTENSE" then Intense
    else if t == "FULL" then Full
    else current
  }

  /** The `scan_options` fields assigned one after another from the request data; `Err` where
      Python raises (`upper()` of a non-string, `int()` of an unparsable timeout). An
      `ip_range` that is not text is false or empty here, and then acts as no range at all
      (the record says 'auto-detected' and the targets are detected); a true non-text range
      is refused, see README. */
  function ParseScanOptions(data: map<string, Json>): (r: Result<ScanOptions>)
    ensures r.Ok? ==> r.value.includeServiceDetection == DefaultOptions.includeServiceDetection
                      && r.value.subnet == None && r.value.maxDevices == DefaultOptions.maxDevices
    ensures r.Ok? ==> ("scan_type" in data ==> data["scan_type"].JStr? && r.value.scanType == ScanTypeOf(data["scan_type"].s, Basic))
                      && ("scan_type" !in data ==> r.value.scanType == Basic)
    ensures r.Ok? ==> ("include_ports" in data ==> r.value.includePorts == Truthy(data["include_ports"]))
                      && ("include_ports" !in data ==> r.value.includePorts)
    ensures r.Ok? ==> r.value.includeOsDetection == ("include_os_detection" in data && Truthy(data["include_os_detection"]))
    ensures r.Ok? ==> ("timeout" in data ==> Some(r.value.timeout) == PyInt(data["timeout"]))
                      && ("timeout" !in data ==> r.value.timeout == DefaultOptions.timeout)
    ensures r.Ok? ==> ("ip_range" in data && data["ip_range"].JStr? ==> r.value.ipRange == Some(data["ip_range"].s))
                      && ("ip_range" in data && !data["ip_range"].JStr? ==> r.value.ipRange == None)
                      && ("ip_range" !in data ==> r.value.ipRange == None)
    ensures r.Err? <==> ("scan_type" in data && !data["scan_type"].JStr?)
                        || ("ip_range" in data && !data["ip_range"].JStr? && Truthy(data["ip_range"]))
                        || ("timeout" in data && PyInt(data["timeout"]).None?)
  {
    var o0 := DefaultOptions;
    if "scan_type" in data && !data["scan_type"].JStr? then Err(InvalidOptionMessage)
    else
      var o1 := if "scan_type" in data then o0.(scanType := ScanTypeOf(data["scan_type"].s, o0.scanType)) else o0;
      if "ip_range" in data && !data["ip_range"].JStr? && Truthy(data["ip_range"]) then Err(InvalidOptionMessage)
      else
        var o2 := if "ip_range" in data then o1.(ipRange := if data["ip_range"].JStr? then Some(data["ip_range"].s) else None) else o1;
        var o3 := if "include_ports" in data then o2.(includePorts := Truthy(data["include_ports"])) else o2;
        var o4 := if "include_os_detection" in data then o3.(includeOsDetection := Truthy(data["include_os_detection"])) else o3;
        if "timeout" in data then
          match PyInt(data["timeout"])
          case None => Err(InvalidOptionMessage)
          case Some(t) => Ok(o4.(timeout := t))
        else Ok(o4)
  }

  /** Options given with every key absent are the scanner's defaults. */
  lemma EmptyOptionsAreDefault()
    ensures ParseScanOptions(map[]) == Ok(DefaultOptions)
  {
  }

  // ---------------------------------------------------------------------------
  // The database

  /** The rows of the three tables and the supply of fresh ids (`uuid4()`). */
  datatype Db = Db(
    devices: map<nat, DeviceRecord>,
    connections: map<(nat, nat), ConnectionRecord>,
    scans: map<nat, ScanRecord>,
    scanMetadata: map<nat, map<string, Json>>,
    nextKey: nat)
  {
    /** Fresh ids are larger than every id in use, and connections join stored devices. */
    ghost predicate Valid()
    {
      (forall k :: k in devices ==> k < nextKey)
      && (forall k :: k in scans ==> k < nextKey)
      && scanMetadata.Keys <= scans.Keys
      && (forall p :: p in connections ==> p.0 in devices && p.1 in devices && connections[p].id < nextKey)
    }
  }

  const AuthRequiredMessage := "Authentication required"
  const ScanInProgressMessage := "A scan is already in progress"
  const MissingMetadataMessage := "'NetworkScan' object has no attribute 'metadata'"
  const CancelledByUserMessage := "Scan was cancelled by user"

  /** What `start_network_scan` answers, and what it sets in motion. */
  datatype StartReply = StartRefused(message: string) | StartAccepted(jobId: string, scan: ScanDict)
  datatype StartOutcome = StartOutcome(db: Db, reply: StartReply, started: Option<ScanOptions>, monitored: bool)

  /** The record `create_scan_record` inserts. */
  function NewScanRecord(o: ScanOptions, now: int): ScanRecord
  {
    ScanRecord(now, "in-progress", 0, None, Some(if NonEmpty(o.ipRange) then o.ipRange.value else "auto-detected"),
               "network_scanner_service", None)
  }

  /** `start_network_scan` as written. `NetworkScan` declares no `metadata` field, so
      `update_scan_with_job_id` raises after the record is created and the job started:
      the exception becomes the reply and the monitor is never started. */
  function StartAsWritten(db: Db, authenticated: bool, data: map<string, Json>, activeScans: nat, now: int): (r: StartOutcome)
    ensures r.reply.StartRefused? && !r.monitored
    ensures r.started.Some? <==> authenticated && ParseScanOptions(data).Ok? && activeScans == 0
    ensures !authenticated ==> r.reply == StartRefused(AuthRequiredMessage)
    ensures authenticated && ParseScanOptions(data).Ok? && activeScans > 0 ==> r.reply == StartRefused(ScanInProgressMessage)
    ensures r.started.None? ==> r.db == db
    ensures r.started.Some? ==>
              && r.started == Some(ParseScanOptions(data).value)
              && r.reply == StartRefused(MissingMetadataMessage)
              && r.db == db.(scans := db.scans[db.nextKey := NewScanRecord(r.started.value, now)], nextKey := db.nextKey + 1)
  {
    if !authenticated then StartOutcome(db, StartRefused(AuthRequiredMessage), None, false)
    else match ParseScanOptions(data)
      case Err(e) => StartOutcome(db, StartRefused(e), None, false)
      case Ok(o) =>
        if activeScans > 0 then StartOutcome(db, StartRefused(ScanInProgressMessage), None, false)
        else
          var db1 := db.(scans := db.scans[db.nextKey := NewScanRecord(o, now)], nextKey := db.nextKey + 1);
          StartOutcome(db1, StartRefused(MissingMetadataMessage), Some(o), false)
  }

  /** An accepted request is always answered with an error even though its scan runs. */
  lemma StartAsWrittenNeverAccepts(db: Db, data: map<string, Json>, activeScans: nat, now: int)
    requires ParseScanOptions(data).Ok? && activeScans == 0
    ensures StartAsWritten(db, true, data, activeScans, now).reply.StartRefused?
    ensures StartAsWritten(db, true, data, activeScans, now).started == Some(ParseScanOptions(data).value)
    ensures !StartAsWritten(db, true, data, activeScans, now).monitored
  {
  }

  /** `start_network_scan` with the job id stored in the scan record's metadata, as the
      handlers that read it back expect. `jobId` is the id `start_scan` returns. */
  function StartNetworkScan(db: Db, authenticated: bool, data: map<string, Json>, activeScans: nat, now: int, jobId: string)
    : (r: StartOutcome)
    requires db.Valid()
    ensures r.db.Valid()
    ensures r.reply.StartAccepted? <==> authenticated && ParseScanOptions(data).Ok? && activeScans == 0
    ensures r.started.Some? <==> r.reply.StartAccepted?
    ensures r.monitored <==> r.reply.StartAccepted?
    ensures !authenticated ==> r.reply == StartRefused(AuthRequiredMessage)
    ensures authenticated && ParseScanOptions(data).Ok? && activeScans > 0 ==> r.reply == StartRefused(ScanInProgressMessage)
    ensures r.reply.StartRefused? ==> r.db == db
    ensures r.reply.StartAccepted? ==>
              var k := db.nextKey;
              && r.reply.jobId == jobId && r.started == Some(ParseScanOptions(data).value)
              && r.db.scans == db.scans[k := NewScanRecord(ParseScanOptions(data).value, now)]
              && r.db.scanMetadata == db.scanMetadata[k := map["job_id" := JStr(jobId)]]
              && r.db.devices == db.devices && r.db.connections == db.connections
              && r.reply.scan.status == "in-progress" && !r.reply.scan.isStale
  {
    if !authenticated then StartOutcome(db, StartRefused(AuthRequiredMessage), None, false)
    else match ParseScanOptions(data)
      case Err(e) => StartOutcome(db, StartRefused(e), None, false)
      case Ok(o) =>
        if activeScans > 0 then StartOutcome(db, StartRefused(ScanInProgressMessage), None, false)
        else
          var k := db.nextKey;
          var rec := NewScanRecord(o, now);
          var db1 := db.(scans := db.scans[k := rec], nextKey := k + 1,
                         scanMetadata := db.scanMetadata[k := map["job_id" := JStr(jobId)]]);
          StartOutcome(db1, StartAccepted(jobId, ScanToDict(k, rec, now)), Some(o), true)
  }

  // ---------------------------------------------------------------------------
  // save_scan_results

  /** A scan job as the socket handlers read it from the scanner service. */
  datatype JobView = JobView(status: ScanStatus, progress: int, errorMessage: Option<string>, result: ScanResult)

  /** The status and error message `update_scan_record` writes for a job that is no longer running. */
  function RecordOutcome(v: JobView, previous: Option<string>): (r: (string, Option<string>))
    ensures r.0 == "completed" <==> v.status == Completed
    ensures r.0 != "completed" ==> r.0 == "failed"
    ensures v.status == Completed ==> r.1 == previous
    ensures v.status == Failed ==> r.1 == v.errorMessage
    ensures v.status == Cancelled ==> r.1 == Some(CancelledByUserMessage)
    ensures v.status !in {Completed, Failed, Cancelled} ==> r.1 == Some("Unexpected scan status: " + StatusName(v.status))
  {
    match v.status
    case Completed => ("completed", previous)
    case Failed => ("failed", v.errorMessage)
    case Cancelled => ("failed", Some(CancelledByUserMessage))
    case _ => ("failed", Some("Unexpected scan status: " + StatusName(v.status)))
  }

  function UpdatedScanRecord(s: ScanRecord, v: JobView): ScanRecord
  {
    var o := RecordOutcome(v, s.errorMessage);
    s.(status := o.0, errorMessage := o.1, discoveredDevices := v.result.deviceCount, duration := Some(v.result.scanTime))
  }

  /** `x or {}` followed by `update(new)` when `new` is non-empty. */
  function MergedMetadata(existing: Option<map<string, Json>>, update: map<string, Json>): (r: Option<map<string, Json>>)
    ensures update == map[] ==> r == existing
    ensures update != map[] ==> r.Some? && r.value.Keys == ObjectOrEmpty(existing).Keys + update.Keys
    ensures update != map[] ==> forall k :: k in update ==> r.value[k] == update[k]
    ensures update != map[] ==> forall k :: k in ObjectOrEmpty(existing) && k !in update ==> r.value[k] == ObjectOrEmpty(existing)[k]
  {
    if update == map[] then existing else Some(ObjectOrEmpty(existing) + update)
  }

  /** The stored devices whose ip is `ip`. */
  function MatchingIp(devices: map<nat, DeviceRecord>, ip: string): set<nat>
  {
    set k | k in devices && devices[k].ip == Some(ip)
  }

  lemma SingletonMember(ks: set<nat>, a: nat)
    requires |ks| == 1 && a in ks
    ensures ks == {a}
  {
    var rest := ks - {a};
    assert |rest| == 0;
  }

  /** The one element of a singleton set. */
  ghost function Only(ks: set<nat>): (k: nat)
    requires |ks| == 1
    ensures ks == {k}
  {
    var k :| k in ks; SingletonMember(ks, k); k
  }

  /** The label a new device record gets: the scan's label, else its hostname. */
  function LabelFor(d: Device): Option<string>
  {
    if d.labelText.Some? then d.labelText else d.hostname
  }

  function CreatedDevice(d: Device, labelText: string, now: int): DeviceRecord
  {
    DeviceRecord(labelText, d.devType, Some(d.ip), d.mac, d.hostname, d.status, now, false, false, Some(d.metadata), Some([]))
  }

  /** An existing, not manually added record refreshed from the scan's device. */
  function RefreshedDevice(e: DeviceRecord, d: Device, now: int): DeviceRecord
  {
    e.(labelText := d.labelText.GetOr(e.labelText), devType := d.devType, mac := d.mac, hostname := d.hostname,
       status := d.status, metadata := MergedMetadata(e.metadata, d.metadata), lastSeen := now)
  }

  /** One iteration of the device loop of `save_devices_and_connections`: `get_or_create` by
      ip (several matches raise), a manually added record left as it is, and the record id
      the scan's device id maps to, if any. A new record without a label fails the
      not-null constraint and is skipped. */
  ghost function UpsertDevice(db: Db, d: Device, now: int): (r: (Db, Option<nat>))
    requires db.Valid()
    ensures r.0.Valid() && r.0.nextKey >= db.nextKey
    ensures r.0.connections == db.connections && r.0.scans == db.scans && r.0.scanMetadata == db.scanMetadata
    ensures r.1.Some? ==> r.1.value in r.0.devices && r.0.devices[r.1.value].ip == Some(d.ip)
    ensures forall k :: k in db.devices ==>
              k in r.0.devices && r.0.devices[k].ip == db.devices[k].ip
              && r.0.devices[k].isManuallyAdded == db.devices[k].isManuallyAdded
    ensures forall k :: k in db.devices && db.devices[k].isManuallyAdded ==> r.0.devices[k] == db.devices[k]
    ensures forall k :: k in db.devices && r.0.devices[k] != db.devices[k] ==> r.1 == Some(k)
    ensures forall k :: k in r.0.devices && k !in db.devices ==> r.1 == Some(k) && !r.0.devices[k].isManuallyAdded
    ensures d.ip == "" ==> r == (db, None)
    ensures d.ip != "" && |MatchingIp(db.devices, d.ip)| == 0 && LabelFor(d).None? ==> r == (db, None)
    ensures d.ip != "" && |MatchingIp(db.devices, d.ip)| == 0 && LabelFor(d).Some? ==>
              r.1 == Some(db.nextKey) && db.nextKey !in db.devices
              && r.0.devices == db.devices[db.nextKey := CreatedDevice(d, LabelFor(d).value, now)]
    ensures forall k :: d.ip != "" && MatchingIp(db.devices, d.ip) == {k} ==>
              r.1 == Some(k)
              && r.0.devices == if db.devices[k].isManuallyAdded then db.devices
                                else db.devices[k := RefreshedDevice(db.devices[k], d, now)]
    ensures d.ip != "" && |MatchingIp(db.devices, d.ip)| > 1 ==> r == (db, None)
  {
    if d.ip == "" then (db, None)
    else
      var ks := MatchingIp(db.devices, d.ip);
      if |ks| == 0 then
        match LabelFor(d)
        case None => (db, None)
        case Some(l) =>
          (db.(devices := db.devices[db.nextKey := CreatedDevice(d, l, now)], nextKey := db.nextKey + 1), Some(db.nextKey))
      else if |ks| == 1 then
        var k := Only(ks);
        var e := db.devices[k];
        if e.isManuallyAdded then (db, Some(k))
        else (db.(devices := db.devices[k := RefreshedDevice(e, d, now)]), Some(k))
      else (db, None)
  }

  /** The device loop over the first devices of the scan's table, in insertion order,
      with the `id_mapping` it builds. */
  ghost function UpsertDevices(db: Db, t: DeviceTable, ips: seq<string>, now: int): (r: (Db, map<string, nat>))
    requires db.Valid() && forall ip :: ip in ips ==> ip in t.entries
    ensures r.0.Valid() && r.0.nextKey >= db.nextKey
    ensures r.0.connections == db.connections && r.0.scans == db.scans && r.0.scanMetadata == db.scanMetadata
    ensures forall id :: id in r.1 ==> r.1[id] in r.0.devices
    ensures forall id :: id in r.1 ==>
              exists j :: 0 <= j < |ips| && t.entries[ips[j]].Id() == id
                          && r.0.devices[r.1[id]].ip == Some(t.entries[ips[j]].ip)
    decreases |ips|
  {
    if |ips| == 0 then (db, map[])
    else
      var p := UpsertDevices(db, t, ips[..|ips| - 1], now);
      var d := t.entries[ips[|ips| - 1]];
      var u := UpsertDevice(p.0, d, now);
      (u.0, if u.1.Some? then p.1[d.Id() := u.1.value] else p.1)
  }

  /** The device loop over one more device is the loop so far followed by one upsert. */
  lemma UpsertDevicesStep(db: Db, t: DeviceTable, ips: seq<string>, i: nat, now: int)
    requires db.Valid() && i < |ips| && forall ip :: ip in ips ==> ip in t.entries
    ensures forall ip :: ip in ips[..i] ==> ip in t.entries
    ensures var p := UpsertDevices(db, t, ips[..i], now);
            var d := t.entries[ips[i]];
            var u := UpsertDevice(p.0, d, now);
            UpsertDevices(db, t, ips[..i + 1], now) == (u.0, if u.1.Some? then p.1[d.Id() := u.1.value] else p.1)
  {
    assert ips[..i + 1][..i] == ips[..i];
    assert ips[..i + 1][i] == ips[i];
    forall ip | ip in ips[..i + 1] ensures ip in t.entries { }
  }

  /** A manually added device keeps every field through the whole device loop, and no
      record is ever removed or has its ip changed. */
  lemma {:induction false} ManualDevicesKept(db: Db, t: DeviceTable, ips: seq<string>, now: int)
    requires db.Valid() && forall ip :: ip in ips ==> ip in t.entries
    ensures var r := UpsertDevices(db, t, ips, now).0;
            (forall k :: k in db.devices ==>
               k in r.devices && r.devices[k].ip == db.devices[k].ip
               && r.devices[k].isManuallyAdded == db.devices[k].isManuallyAdded)
            && (forall k :: k in db.devices && db.devices[k].isManuallyAdded ==> r.devices[k] == db.devices[k])
    decreases |ips|
  {
    if |ips| > 0 {
      ManualDevicesKept(db, t, ips[..|ips| - 1], now);
    }
  }

  /** One iteration of the connection loop: saved only when both endpoints were mapped,
      keyed by the unique (source, target) pair, an existing row updated in place. */
  function UpsertConnection(db: Db, c: Connection, m: map<string, nat>): (r: Db)
    requires db.Valid() && forall id :: id in m ==> m[id] in db.devices
    ensures r.Valid() && r.nextKey >= db.nextKey
    ensures r.devices == db.devices && r.scans == db.scans && r.scanMetadata == db.scanMetadata
    ensures c.source !in m || c.target !in m ==> r == db
    ensures c.source in m && c.target in m ==>
              var p := (m[c.source], m[c.target]);
              && r.connections.Keys == db.connections.Keys + {p}
              && (forall q :: q in db.connections && q != p ==> r.connections[q] == db.connections[q])
              && r.connections[p].connType == c.connType && r.connections[p].status == c.status
              && r.connections[p].latency == c.latency
              && (p in db.connections ==> r.connections[p].id == db.connections[p].id)
  {
    if c.source in m && c.target in m then
      var p := (m[c.source], m[c.target]);
      if p in db.connections then
        var e := db.connections[p];
        db.(connections := db.connections[p := e.(connType := c.connType, status := c.status, latency := c.latency,
                                                 metadata := MergedMetadata(e.metadata, c.metadata))])
      else
        db.(connections := db.connections[p := ConnectionRecord(db.nextKey, None, c.connType, c.status, None, c.latency,
                                                               None, None, Some(c.metadata))],
            nextKey := db.nextKey + 1)
    else db
  }

  function UpsertConnections(db: Db, cs: seq<Connection>, m: map<string, nat>): (r: Db)
    requires db.Valid() && forall id :: id in m ==> m[id] in db.devices
    ensures r.Valid() && r.nextKey >= db.nextKey
    ensures r.devices == db.devices && r.scans == db.scans && r.scanMetadata == db.scanMetadata
    decreases |cs|
  {
    if |cs| == 0 then db
    else UpsertConnection(UpsertConnections(db, cs[..|cs| - 1], m), cs[|cs| - 1], m)
  }

  lemma UpsertConnectionsStep(db: Db, cs: seq<Connection>, j: nat, m: map<string, nat>)
    requires db.Valid() && forall id :: id in m ==> m[id] in db.devices
    requires j < |cs|
    ensures UpsertConnections(db, cs[..j + 1], m) == UpsertConnection(UpsertConnections(db, cs[..j], m), cs[j], m)
  {
    assert cs[..j + 1][..j] == cs[..j];
    assert cs[..j + 1][j] == cs[j];
  }

  lemma NewConnectionMapped(db: Db, c: Connection, m: map<string, nat>, p: (nat, nat))
    requires db.Valid() && forall id :: id in m ==> m[id] in db.devices
    requires p in UpsertConnection(db, c, m).connections && p !in db.connections
    ensures c.source in m && c.target in m && p == (m[c.source], m[c.target])
  {
  }

  /** The pair `p` joins the mapped endpoints of one of the connections `cs`. */
  predicate MappedPair(cs: seq<Connection>, m: map<string, nat>, p: (nat, nat))
  {
    exists i :: 0 <= i < |cs| && cs[i].source in m && cs[i].target in m && p == (m[cs[i].source], m[cs[i].target])
  }

  /** The connection loop never drops a row. */
  lemma {:induction false} ConnectionsKept(db: Db, cs: seq<Connection>, m: map<string, nat>)
    requires db.Valid() && forall id :: id in m ==> m[id] in db.devices
    ensures forall p :: p in db.connections ==> p in UpsertConnections(db, cs, m).connections
    decreases |cs|
  {
    if |cs| > 0 {
      ConnectionsKept(db, cs[..|cs| - 1], m);
    }
  }

  /** Every connection row the loop adds joins the mapped endpoints of one of the scan's
      connections. */
  lemma {:induction false} ConnectionsOnlyMapped(db: Db, cs: seq<Connection>, m: map<string, nat>)
    requires db.Valid() && forall id :: id in m ==> m[id] in db.devices
    ensures forall p :: p in UpsertConnections(db, cs, m).connections && p !in db.connections ==> MappedPair(cs, m, p)
    decreases |cs|
  {
    if |cs| > 0 {
      var n := |cs| - 1;
      var init := cs[..n];
      ConnectionsOnlyMapped(db, init, m);
      var r0 := UpsertConnections(db, init, m);
      var r := UpsertConnection(r0, cs[n], m);
      assert UpsertConnections(db, cs, m) == r;
      forall p | p in r.connections && p !in db.connections
        ensures MappedPair(cs, m, p)
      {
        if p in r0.connections {
          var i :| 0 <= i < |init| && init[i].source in m && init[i].target in m && p == (m[init[i].source], m[init[i].target]);
          assert cs[i] == init[i];
        } else {
          NewConnectionMapped(r0, cs[n], m, p);
        }
      }
    }
  }

  /** `save_scan_results`: the record is updated when it exists, and only then, for a
      completed job, are its devices and connections written. */
  ghost function SaveScanResults(db: Db, scanId: nat, v: JobView, now: int): (r: Db)
    requires db.Valid() && v.result.devices.Valid()
    ensures r.Valid()
    ensures scanId !in db.scans ==> r == db
    ensures scanId in db.scans ==> r.scans == db.scans[scanId := UpdatedScanRecord(db.scans[scanId], v)]
    ensures scanId in db.scans && v.status == Completed ==>
              var u := UpsertDevices(db.(scans := r.scans), v.result.devices, v.result.devices.order, now);
              r.devices == u.0.devices && r.connections == UpsertConnections(u.0, v.result.connections, u.1).connections
  {
    if scanId !in db.scans then db
    else
      var db1 := db.(scans := db.scans[scanId := UpdatedScanRecord(db.scans[scanId], v)]);
      if v.status != Completed then db1
      else
        var d := UpsertDevices(db1, v.result.devices, v.result.devices.order, now);
        UpsertConnections(d.0, v.result.connections, d.1)
  }

  /** Devices and connections are written only for an existing record of a completed job. */
  lemma SavesOnlyCompleted(db: Db, scanId: nat, v: JobView, now: int)
    requires db.Valid() && v.result.devices.Valid()
    requires scanId !in db.scans || v.status != Completed
    ensures SaveScanResults(db, scanId, v, now).devices == db.devices
    ensures SaveScanResults(db, scanId, v, now).connections == db.connections
    ensures scanId in db.scans ==> SaveScanResults(db, scanId, v, now).scans[scanId].status == "failed"
  {
  }

  /** Saving keeps every manually added device exactly as it was. */
  lemma SaveKeepsManualDevices(db: Db, scanId: nat, v: JobView, now: int)
    requires db.Valid() && v.result.devices.Valid()
    ensures var r := SaveScanResults(db, scanId, v, now);
            forall k :: k in db.devices && db.devices[k].isManuallyAdded ==> k in r.devices && r.devices[k] == db.devices[k]
  {
    if scanId in db.scans && v.status == Completed {
      var db1 := db.(scans := db.scans[scanId := UpdatedScanRecord(db.scans[scanId], v)]);
      ManualDevicesKept(db1, v.result.devices, v.result.devices.order, now);
    }
  }

  // ---------------------------------------------------------------------------
  // monitor_scan_progress

  /** One `scan_progress` broadcast. */
  datatype ProgressEvent = ProgressEvent(scanId: string, jobId: string, status: string, progress: int,
                                         message: string, discovered: nat, isComplete: bool)

  function FinalEvent(scanId: nat, jobId: string, v: JobView): ProgressEvent
  {
    ProgressEvent(Text.NatToString(scanId), jobId, StatusName(v.status), 100, "Scan " + Text.Lower(StatusName(v.status)),
                  v.result.deviceCount, true)
  }

  function RunningEvent(scanId: nat, jobId: string, v: JobView): ProgressEvent
  {
    ProgressEvent(Text.NatToString(scanId), jobId, StatusName(v.status), v.progress,
                  "Scanning network (" + Text.IntToString(v.progress) + "%)", v.result.deviceCount, false)
  }

  /** `update_scan_progress` as written: the record is looked up and its device count set in
      memory, then reading `scan.metadata`, a field `NetworkScan` does not declare, raises;
      nothing is saved. A missing record is caught and the update is skipped. */
  function RecordProgressAsWritten(db: Db, scanId: nat, v: JobView): (r: Result<Db>)
    ensures r.Err? <==> scanId in db.scans
    ensures r.Err? ==> r.error == MissingMetadataMessage
    ensures r.Ok? ==> r.value == db
  {
    if scanId !in db.scans then Ok(db) else Err(MissingMetadataMessage)
  }

  /** `update_scan_progress` with the metadata column the code expects: the device count,
      and the progress in the record's metadata. */
  function RecordProgress(db: Db, scanId: nat, v: JobView): (r: Db)
    requires db.Valid()
    ensures r.Valid() && r.devices == db.devices && r.connections == db.connections
    ensures r.scans.Keys == db.scans.Keys
    ensures scanId in db.scans ==> r.scans[scanId].discoveredDevices == v.result.deviceCount
                                   && scanId in r.scanMetadata && "progress" in r.scanMetadata[scanId]
                                   && r.scanMetadata[scanId]["progress"] == JInt(v.progress)
    ensures forall k :: k in db.scans && k != scanId ==> r.scans[k] == db.scans[k]
  {
    if scanId !in db.scans then db
    else
      var meta := if scanId in db.scanMetadata then db.scanMetadata[scanId] else map[];
      db.(scans := db.scans[scanId := db.scans[scanId].(discoveredDevices := v.result.deviceCount)],
          scanMetadata := db.scanMetadata[scanId := meta["progress" := JInt(v.progress)]])
  }

  /** Every job observed carries a well-formed device table. */
  ghost predicate WellFormedViews(views: seq<Option<JobView>>)
  {
    forall i :: 0 <= i < |views| && views[i].Some? ==> views[i].value.result.devices.Valid()
  }

  /** The monitor loop over the successive answers of `get_scan_status` (one per second):
      it stops when the job is gone, and saves and reports the outcome once the job is
      no longer running. */
  ghost function MonitorFrom(db: Db, scanId: nat, jobId: string, views: seq<Option<JobView>>, now: int)
    : (r: (Db, seq<ProgressEvent>))
    requires db.Valid() && WellFormedViews(views)
    ensures r.0.Valid()
    decreases |views|
  {
    if |views| == 0 || views[0].None? then (db, [])
    else
      var v := views[0].value;
      if v.status != Running then (SaveScanResults(db, scanId, v, now), [FinalEvent(scanId, jobId, v)])
      else
        var rest := MonitorFrom(RecordProgress(db, scanId, v), scanId, jobId, views[1..], now);
        (rest.0, [RunningEvent(scanId, jobId, v)] + rest.1)
  }

  /** The monitor loop as written: the first RUNNING view of a job whose record exists makes
      `update_scan_progress` raise, which the handler's `except` catches, ending the monitor
      with no event and no save; only a job first seen finished is saved and reported. */
  ghost function MonitorAsWritten(db: Db, scanId: nat, jobId: string, views: seq<Option<JobView>>, now: int)
    : (r: (Db, seq<ProgressEvent>))
    requires db.Valid() && WellFormedViews(views)
    ensures r.0.Valid()
    decreases |views|
  {
    if |views| == 0 || views[0].None? then (db, [])
    else
      var v := views[0].value;
      if v.status != Running then (SaveScanResults(db, scanId, v, now), [FinalEvent(scanId, jobId, v)])
      else
        match RecordProgressAsWritten(db, scanId, v)
        case Err(_) => (db, [])
        case Ok(db1) =>
          var rest := MonitorAsWritten(db1, scanId, jobId, views[1..], now);
          (rest.0, [RunningEvent(scanId, jobId, v)] + rest.1)
  }

  /** As written, a monitor whose scan record exists either sees the job finished at once and
      saves it, or stops silently at its first RUNNING view, where the intended monitor reports
      progress and goes on. */
  lemma MonitorAsWrittenStops(db: Db, scanId: nat, jobId: string, views: seq<Option<JobView>>, now: int)
    requires db.Valid() && WellFormedViews(views) && scanId in db.scans
    requires |views| > 0 && views[0].Some?
    ensures views[0].value.status == Running ==>
              MonitorAsWritten(db, scanId, jobId, views, now) == (db, [])
              && MonitorFrom(db, scanId, jobId, views, now).1[0] == RunningEvent(scanId, jobId, views[0].value)
    ensures views[0].value.status != Running ==>
              MonitorAsWritten(db, scanId, jobId, views, now) == MonitorFrom(db, scanId, jobId, views, now)
              && MonitorAsWritten(db, scanId, jobId, views, now).1 == [FinalEvent(scanId, jobId, views[0].value)]
  {
    if views[0].value.status == Running {
      MonitorStep(db, scanId, jobId, views, now);
    }
  }

  /** Without a scan record the written and the intended monitors agree. */
  lemma {:induction false} MonitorAgreesWithoutRecord(db: Db, scanId: nat, jobId: string, views: seq<Option<JobView>>,
                                                      now: int)
    requires db.Valid() && WellFormedViews(views) && scanId !in db.scans
    ensures MonitorAsWritten(db, scanId, jobId, views, now) == MonitorFrom(db, scanId, jobId, views, now)
    decreases |views|
  {
    if |views| > 0 && views[0].Some? && views[0].value.status == Running {
      WellFormedTail(views);
      assert RecordProgress(db, scanId, views[0].value) == db;
      MonitorAgreesWithoutRecord(db, scanId, jobId, views[1..], now);
    }
  }

  /** The observed job leaves the RUNNING state before it disappears. */
  ghost predicate Finishes(views: seq<Option<JobView>>)
    decreases |views|
  {
    |views| > 0 && views[0].Some? && (views[0].value.status != Running || Finishes(views[1..]))
  }

  /** At most one completion event is sent: it is the last one, carries progress 100, and
      is sent exactly when the job is seen leaving the RUNNING state. */
  lemma {:induction false} MonitorCompletesOnce(db: Db, scanId: nat, jobId: string, views: seq<Option<JobView>>, now: int)
    requires db.Valid() && WellFormedViews(views)
    ensures var ev := MonitorFrom(db, scanId, jobId, views, now).1;
            (forall i :: 0 <= i < |ev| - 1 ==> !ev[i].isComplete && ev[i].status == "RUNNING")
            && (|ev| > 0 && ev[|ev| - 1].isComplete ==> ev[|ev| - 1].progress == 100)
            && (Finishes(views) <==> |ev| > 0 && ev[|ev| - 1].isComplete)
    decreases |views|
  {
    if |views| > 0 && views[0].Some? {
      var v := views[0].value;
      WellFormedTail(views);
      MonitorStep(db, scanId, jobId, views, now);
      if v.status == Running {
        var db1 := RecordProgress(db, scanId, v);
        MonitorCompletesOnce(db1, scanId, jobId, views[1..], now);
        PrependRunning(RunningEvent(scanId, jobId, v), MonitorFrom(db1, scanId, jobId, views[1..], now).1);
      }
    }
  }

  /** A running, incomplete event put before a sequence of events keeps its shape: no
      completion before the end, and the last event is a completion exactly when it was. */
  lemma PrependRunning(e: ProgressEvent, rest: seq<ProgressEvent>)
    requires !e.isComplete && e.status == "RUNNING"
    requires forall i :: 0 <= i < |rest| - 1 ==> !rest[i].isComplete && rest[i].status == "RUNNING"
    requires |rest| > 0 && rest[|rest| - 1].isComplete ==> rest[|rest| - 1].progress == 100
    ensures var ev := [e] + rest;
            && (forall i :: 0 <= i < |ev| - 1 ==> !ev[i].isComplete && ev[i].status == "RUNNING")
            && (|ev| > 0 && ev[|ev| - 1].isComplete ==> ev[|ev| - 1].progress == 100)
            && (|ev| > 0 && ev[|ev| - 1].isComplete <==> |rest| > 0 && rest[|rest| - 1].isComplete)
  {
    var ev := [e] + rest;
    assert forall i :: 1 <= i < |ev| ==> ev[i] == rest[i - 1];
  }

  lemma WellFormedTail(views: seq<Option<JobView>>)
    requires |views| > 0 && WellFormedViews(views)
    ensures WellFormedViews(views[1..])
  {
    forall i | 0 <= i < |views[1..]| && views[1..][i].Some?
      ensures views[1..][i].value.result.devices.Valid()
    {
      assert views[1..][i] == views[i + 1];
    }
  }

  /** One round of the monitor: a running job gives a progress event and the loop goes on; any
      other status gives the final event and ends it. */
  lemma MonitorStep(db: Db, scanId: nat, jobId: string, views: seq<Option<JobView>>, now: int)
    requires db.Valid() && WellFormedViews(views) && |views| > 0 && views[0].Some?
    ensures WellFormedViews(views[1..])
    ensures var v := views[0].value;
            var ev := MonitorFrom(db, scanId, jobId, views, now).1;
            && (v.status == Running ==>
                  ev == [RunningEvent(scanId, jobId, v)]
                        + MonitorFrom(RecordProgress(db, scanId, v), scanId, jobId, views[1..], now).1
                  && !ev[0].isComplete && ev[0].status == "RUNNING")
            && (v.status != Running ==> ev == [FinalEvent(scanId, jobId, v)] && ev[0].isComplete && ev[0].progress == 100)
  {
    WellFormedTail(views);
  }

  // ---------------------------------------------------------------------------
  // cancel_network_scan

  /** The reply of `cancel_network_scan`: `status` is 'success' exactly when `ok`. */
  datatype Reply = Reply(ok: bool, message: string)

  const MissingIdsMessage := "Either job_id or scan_id must be provided"
  const JobCancelledMessage := "Scan cancelled successfully"
  const JobNotCancelledMessage := "Could not cancel scan, it may have already completed or been cancelled"
  const RecordNotCancelledMessage := "Could not cancel scan, it may not exist or already be completed"

  /** The job id the handler acts on, as written: the one given; else, for a scan id alone,
      `get_job_id_from_scan` raises on `scan.metadata` when the record exists (the handler's
      `except` turns the error into the reply) and gives `None` when it does not. */
  function ResolvedJobAsWritten(db: Db, jobArg: Json, scanArg: Option<nat>): (r: Result<Json>)
    ensures Truthy(jobArg) ==> r == Ok(jobArg)
    ensures r.Err? <==> !Truthy(jobArg) && scanArg.Some? && scanArg.value in db.scans
    ensures r.Err? ==> r.error == MissingMetadataMessage
    ensures r.Ok? && !Truthy(jobArg) ==> r.value == JNull
  {
    if Truthy(jobArg) then Ok(jobArg)
    else if scanArg.Some? && scanArg.value in db.scans then Err(MissingMetadataMessage)
    else Ok(JNull)
  }

  /** A cancel naming a stored scan record alone fails as written, where the intended lookup
      finds the job id stored with the record; wherever the written lookup succeeds the two
      agree. */
  lemma ScanIdCancelRaises(db: Db, jobArg: Json, scanArg: Option<nat>)
    ensures ResolvedJobAsWritten(db, jobArg, scanArg).Ok? ==>
              ResolvedJobAsWritten(db, jobArg, scanArg).value == ResolvedJob(db, jobArg, scanArg)
    ensures !Truthy(jobArg) && scanArg.Some? && scanArg.value in db.scans && scanArg.value in db.scanMetadata
            && "job_id" in db.scanMetadata[scanArg.value] && Truthy(db.scanMetadata[scanArg.value]["job_id"])
            ==> ResolvedJobAsWritten(db, jobArg, scanArg).Err? && Truthy(ResolvedJob(db, jobArg, scanArg))
  {
  }

  /** The job id the handler is meant to act on: the one given, else the one stored with the
      scan record (`metadata.get('job_id')`), `JNull` when there is none. */
  function ResolvedJob(db: Db, jobArg: Json, scanArg: Option<nat>): (r: Json)
    ensures Truthy(jobArg) ==> r == jobArg
    ensures !Truthy(jobArg) && Truthy(r) ==>
              scanArg.Some? && scanArg.value in db.scans && scanArg.value in db.scanMetadata
              && "job_id" in db.scanMetadata[scanArg.value] && r == db.scanMetadata[scanArg.value]["job_id"]
  {
    if Truthy(jobArg) then jobArg
    else if scanArg.Some? && scanArg.value in db.scans then
      var meta := if scanArg.value in db.scanMetadata then db.scanMetadata[scanArg.value] else map[];
      if "job_id" in meta then meta["job_id"] else JNull
    else JNull
  }

  /** The record marked as cancelled by the user. */
  function MarkedCancelled(db: Db, scanId: nat): (r: Db)
    requires scanId in db.scans
    ensures r.scans.Keys == db.scans.Keys && r.devices == db.devices && r.connections == db.connections
    ensures r.scans[scanId].status == "failed" && r.scans[scanId].errorMessage == Some(CancelledByUserMessage)
    ensures forall k :: k in db.scans && k != scanId ==> r.scans[k] == db.scans[k]
    ensures db.Valid() ==> r.Valid()
  {
    db.(scans := db.scans[scanId := db.scans[scanId].(status := "failed", errorMessage := Some(CancelledByUserMessage))])
  }

  // ---------------------------------------------------------------------------
  // The database and the handlers that write it step by step

  /** The database the socket handlers read and write. */
  class Orm {
    var db: Db

    ghost predicate Valid()
      reads this
    {
      db.Valid()
    }

    constructor (db0: Db)
      requires db0.Valid()
      ensures Valid() && db == db0
    {
      db := db0;
    }

    /** One `get_or_create` of a scanned device, with the record id it maps to. */
    method SaveDevice(d: Device, now: int) returns (k: Option<nat>)
      requires Valid()
      modifies this
      ensures Valid()
      ensures (db, k) == UpsertDevice(old(db), d, now)
    {
      if d.ip == "" {
        return None;
      }
      var ks := MatchingIp(db.devices, d.ip);
      if |ks| == 0 {
        var l := LabelFor(d);
        if l.None? {
          return None;
        }
        k := Some(db.nextKey);
        db := db.(devices := db.devices[db.nextKey := CreatedDevice(d, l.value, now)], nextKey := db.nextKey + 1);
      } else if |ks| == 1 {
        var key :| key in ks;
        SingletonMember(ks, key);
        var e := db.devices[key];
        if !e.isManuallyAdded {
          db := db.(devices := db.devices[key := RefreshedDevice(e, d, now)]);
        }
        k := Some(key);
      } else {
        k := None;
      }
    }

    /** The device loop of `save_devices_and_connections`, in table order, building the
        mapping from the scan's device ids to record ids. */
    method SaveDevices(t: DeviceTable, now: int) returns (idMapping: map<string, nat>)
      requires Valid() && t.Valid()
      modifies this
      ensures Valid()
      ensures (db, idMapping) == UpsertDevices(old(db), t, t.order, now)
    {
      idMapping := map[];
      var i := 0;
      while i < |t.order|
        invariant 0 <= i <= |t.order| && Valid()
        invariant (db, idMapping) == UpsertDevices(old(db), t, t.order[..i], now)
      {
        UpsertDevicesStep(old(db), t, t.order, i, now);
        ghost var before := db;
        var d := t.entries[t.order[i]];
        var k := SaveDevice(d, now);
        assert (db, k) == UpsertDevice(before, d, now);
        if k.Some? {
          idMapping := idMapping[d.Id() := k.value];
        }
        i := i + 1;
      }
      assert t.order[..i] == t.order;
    }

    /** The connection loop of `save_devices_and_connections`. */
    method SaveConnections(cs: seq<Connection>, idMapping: map<string, nat>)
      requires Valid() && forall id :: id in idMapping ==> idMapping[id] in db.devices
      modifies this
      ensures Valid()
      ensures db == UpsertConnections(old(db), cs, idMapping)
    {
      var j := 0;
      while j < |cs|
        invariant 0 <= j <= |cs| && Valid()
        invariant db == UpsertConnections(old(db), cs[..j], idMapping)
      {
        UpsertConnectionsStep(old(db), cs, j, idMapping);
        db := UpsertConnection(db, cs[j], idMapping);
        j := j + 1;
      }
      assert cs[..j] == cs;
    }

    /** `save_devices_and_connections`. */
    method SaveDevicesAndConnections(r: ScanResult, now: int)
      requires Valid() && r.devices.Valid()
      modifies this
      ensures Valid()
      ensures var u := UpsertDevices(old(db), r.devices, r.devices.order, now);
              db == UpsertConnections(u.0, r.connections, u.1)
    {
      var idMapping := SaveDevices(r.devices, now);
      SaveConnections(r.connections, idMapping);
    }

    /** `save_scan_results`. */
    method SaveResults(scanId: nat, v: JobView, now: int)
      requires Valid() && v.result.devices.Valid()
      modifies this
      ensures Valid()
      ensures db == SaveScanResults(old(db), scanId, v, now)
    {
      if scanId !in db.scans {
        return;
      }
      db := db.(scans := db.scans[scanId := UpdatedScanRecord(db.scans[scanId], v)]);
      if v.status != Completed {
        return;
      }
      SaveDevicesAndConnections(v.result, now);
    }

    /** `monitor_scan_progress` over the successive answers of `get_scan_status`, as written. */
    method MonitorScanProgress(scanId: nat, jobId: string, views: seq<Option<JobView>>, now: int)
      returns (events: seq<ProgressEvent>)
      requires Valid() && WellFormedViews(views)
      modifies this
      ensures Valid()
      ensures (db, events) == MonitorAsWritten(old(db), scanId, jobId, views, now)
    {
      events := [];
      ghost var goal := MonitorAsWritten(db, scanId, jobId, views, now);
      var i := 0;
      assert views[i..] == views;
      assert events + goal.1 == goal.1;
      while i < |views|
        invariant 0 <= i <= |views| && Valid() && db == old(db)
        invariant WellFormedViews(views[i..])
        invariant MonitorAsWritten(db, scanId, jobId, views[i..], now).0 == goal.0
        invariant events + MonitorAsWritten(db, scanId, jobId, views[i..], now).1 == goal.1
      {
        assert views[i..][0] == views[i];
        if views[i].None? {
          assert events + [] == events;
          return;
        }
        var v := views[i].value;
        if v.status != Running {
          SaveResults(scanId, v, now);
          events := events + [FinalEvent(scanId, jobId, v)];
          return;
        }
        var updated := RecordProgressAsWritten(db, scanId, v);
        if updated.Err? {
          assert events + [] == events;
          return;
        }
        assert views[i..][1..] == views[i + 1..];
        ghost var tail := MonitorAsWritten(db, scanId, jobId, views[i + 1..], now).1;
        assert events + ([RunningEvent(scanId, jobId, v)] + tail) == (events + [RunningEvent(scanId, jobId, v)]) + tail;
        events := events + [RunningEvent(scanId, jobId, v)];
        i := i + 1;
      }
      assert events + [] == events;
    }

    /** `cancel_network_scan` as written: the scanner job when a job id is known, else the
        record directly when it is still in progress; a scan id alone that names a stored
        record makes the lookup raise, and the error is the reply. */
    method CancelNetworkScan(authenticated: bool, jobArg: Json, scanArg: Option<nat>,
                             scanner: ScannerRegistry.NetworkScanner) returns (reply: Reply)
      requires Valid() && scanner.Valid()
      modifies this, scanner.cancelEvents.Values
      ensures Valid()
      ensures !authenticated ==> reply == Reply(false, AuthRequiredMessage) && db == old(db)
      ensures authenticated && !Truthy(jobArg) && scanArg.None? ==> reply == Reply(false, MissingIdsMessage) && db == old(db)
      ensures authenticated && (Truthy(jobArg) || scanArg.Some?) && ResolvedJobAsWritten(old(db), jobArg, scanArg).Err? ==>
                reply == Reply(false, MissingMetadataMessage) && db == old(db)
      ensures authenticated && (Truthy(jobArg) || scanArg.Some?) && ResolvedJobAsWritten(old(db), jobArg, scanArg).Ok?
              && Truthy(ResolvedJobAsWritten(old(db), jobArg, scanArg).value) ==>
                var target := ResolvedJobAsWritten(old(db), jobArg, scanArg).value;
                && (reply.ok <==> target.JStr? && target.s in scanner.activeJobs
                                  && scanner.activeJobs[target.s].status == Running)
                && reply.message == (if reply.ok then JobCancelledMessage else JobNotCancelledMessage)
                && (reply.ok ==> ScanSpec.Fired(scanner.cancelEvents[target.s].firesAt, scanner.cancelEvents[target.s].polls))
                && db == (if reply.ok && scanArg.Some? && scanArg.value in old(db).scans
                          then MarkedCancelled(old(db), scanArg.value) else old(db))
      ensures authenticated && (Truthy(jobArg) || scanArg.Some?) && ResolvedJobAsWritten(old(db), jobArg, scanArg).Ok?
              && !Truthy(ResolvedJobAsWritten(old(db), jobArg, scanArg).value) ==>
                reply == Reply(false, RecordNotCancelledMessage) && db == old(db)
    {
      if !authenticated {
        return Reply(false, AuthRequiredMessage);
      }
      if !Truthy(jobArg) && scanArg.None? {
        return Reply(false, MissingIdsMessage);
      }
      var resolved := ResolvedJobAsWritten(db, jobArg, scanArg);
      if resolved.Err? {
        return Reply(false, resolved.error);
      }
      var target := resolved.value;
      if Truthy(target) {
        var cancelled := false;
        if target.JStr? {
          cancelled := scanner.CancelScan(target.s);
        }
        if !cancelled {
          return Reply(false, JobNotCancelledMessage);
        }
        if scanArg.Some? && scanArg.value in db.scans {
          db := MarkedCancelled(db, scanArg.value);
        }
        return Reply(true, JobCancelledMessage);
      }
      // No job id: the scan id names no stored record, so `cancel_scan_in_db` finds nothing.
      return Reply(false, RecordNotCancelledMessage);
    }
  }
}
