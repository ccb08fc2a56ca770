// Data model of the network scanner service (services/network_scanner.py):
// scan types and statuses, options, discovered devices and connections, the
// ordered device table built during a scan, raw probe output, and the pure rules
// the scanner applies to it (target selection, OS classification, nmap intensity,
// batching, progress and labels).
module ScanTypes {
  import opened Wrappers
  import opened JsonValues
  import Text

  datatype ScanType = Basic | Intense | Full

  datatype ScanStatus = Ready | Running | Completed | Failed | Cancelled | TimedOut | Recovering

  /** The enum member's `name`. */
  function StatusName(s: ScanStatus): string
  {
    match s
    case Ready => "READY"
    case Running => "RUNNING"
    case Completed => "COMPLETED"
    case Failed => "FAILED"
    case Cancelled => "CANCELLED"
    case TimedOut => "TIMED_OUT"
    case Recovering => "RECOVERING"
  }

  const DefaultScanTimeout: int := 300

  datatype ScanOptions = ScanOptions(
    scanType: ScanType,
    ipRange: Option<string>,
    subnet: Option<string>,
    includePorts: bool,
    includeOsDetection: bool,
    includeServiceDetection: bool,
    maxDevices: int,
    timeout: int)

  /** `ScanOptions()` with every default. */
  const DefaultOptions := ScanOptions(Basic, None, None, true, false, false, 100, DefaultScanTimeout)

  /** One answered ARP request: the responder's address and hardware address. */
  datatype ArpEntry = ArpEntry(ip: string, mac: string)

  /** An open TCP port as reported in a device's metadata (protocol is always "tcp"). */
  datatype PortInfo = PortInfo(port: int, service: string, state: string, product: Option<string>, version: Option<string>)

  datatype OsInfo = OsInfo(name: Option<string>, osType: string, accuracy: int)

  /** What the nmap wrapper reports for one host. */
  datatype HostData = HostData(hostname: Option<string>, status: string, mac: Option<string>, ports: seq<PortInfo>, os: OsInfo)

  /** Raw nmap output for one host, before the wrapper interprets it. */
  datatype RawPort = RawPort(port: int, state: string, name: string, product: Option<string>, version: Option<string>)
  datatype OsMatch = OsMatch(name: string, accuracy: string)
  datatype RawHost = RawHost(state: string, hostnames: seq<string>, mac: Option<string>, tcp: seq<RawPort>, osmatch: seq<OsMatch>)

  /** A discovered device; `num` is the counter value behind its `device-N` id. */
  datatype Device = Device(
    num: nat,
    ip: string,
    mac: Option<string>,
    status: string,
    hostname: Option<string>,
    devType: string,
    metadata: map<string, Json>,
    labelText: Option<string>)
  {
    function Id(): string { "device-" + Text.NatToString(num) }
  }

  /** A device as first recorded by ARP or ping discovery. */
  function NewDevice(num: nat, ip: string, mac: Option<string>): Device
  {
    Device(num, ip, mac, "online", None, "other", map[], None)
  }

  /** A discovered link; `num` is the counter value behind its `conn-N` id. */
  datatype Connection = Connection(
    num: nat,
    source: string,
    target: string,
    status: string,
    connType: string,
    latency: Option<int>,
    metadata: map<string, Json>)
  {
    function Id(): string { "conn-" + Text.NatToString(num) }
  }

  /** The `devices_by_ip` dict: keys in insertion order and the entry per key. */
  datatype DeviceTable = DeviceTable(order: seq<string>, entries: map<string, Device>)
  {
    /** Keys are distinct, the order lists exactly the keys, each entry records its own ip. */
    ghost predicate Valid()
    {
      (forall i, j :: 0 <= i < j < |order| ==> order[i] != order[j])
      && (forall ip :: ip in entries <==> ip in order)
      && (forall ip :: ip in entries ==> entries[ip].ip == ip)
    }

    /** `table[ip] = d`: a new key goes last, an existing key keeps its place. */
    function Put(ip: string, d: Device): (t: DeviceTable)
      requires Valid() && d.ip == ip
      ensures t.Valid()
      ensures t.entries == entries[ip := d]
      ensures ip in entries ==> t.order == order
      ensures ip !in entries ==> t.order == order + [ip]
    {
      DeviceTable(if ip in entries then order else order + [ip], entries[ip := d])
    }
  }

  const EmptyTable := DeviceTable([], map[])

  datatype ScanResult = ScanResult(
    devices: DeviceTable,
    connections: seq<Connection>,
    error: Option<string>,
    warning: Option<string>,
    scanTime: int,
    deviceCount: nat,
    connectionCount: nat)

  /** `ScanResult()` with every default. */
  const EmptyResult := ScanResult(EmptyTable, [], None, None, 0, 0, 0)

  /** What `save_partial_result` stores under each key. */
  datatype PartialData =
    | SubnetList(subnets: seq<string>)
    | ArpReply(entries: seq<ArpEntry>)
    | PingReply(ips: seq<string>)
    | DeviceSnapshot(table: DeviceTable)
    | NmapReply(hosts: map<string, HostData>)

  // ---------------------------------------------------------------------------
  // Target selection and local subnets

  predicate NonEmpty(s: Option<string>) { s.Some? && s.value != "" }

  /** The subnets a scan covers: the explicit range, else the subnet, else the local subnets. */
  function Targets(o: ScanOptions, local: seq<string>): (r: seq<string>)
    ensures NonEmpty(o.ipRange) ==> r == [o.ipRange.value]
    ensures !NonEmpty(o.ipRange) && NonEmpty(o.subnet) ==> r == [o.subnet.value]
    ensures !NonEmpty(o.ipRange) && !NonEmpty(o.subnet) ==> r == local
  {
    if NonEmpty(o.ipRange) then [o.ipRange.value]
    else if NonEmpty(o.subnet) then [o.subnet.value]
    else local
  }

  /** One IPv4 address of an interface; `cidr` is its network in CIDR form, or None when the
      address/netmask pair cannot be converted. */
  datatype InetAddress = InetAddress(addr: Option<string>, netmask: Option<string>, cidr: Option<string>)
  datatype Interface = Interface(name: string, inet: seq<InetAddress>)

  /** Whether an address contributes its network to the local subnets. */
  predicate Contributes(ifName: string, a: InetAddress)
  {
    ifName != "lo" && a.addr.Some? && a.netmask.Some?
    && !Text.StartsWith(a.addr.value, "127.") && !Text.StartsWith(a.addr.value, "169.")
    && a.cidr.Some?
  }

  /** Networks of one interface's contributing addresses, in order. */
  function InterfaceSubnets(ifName: string, addrs: seq<InetAddress>): seq<string>
  {
    if |addrs| == 0 then []
    else
      var rest := InterfaceSubnets(ifName, addrs[..|addrs| - 1]);
      var a := addrs[|addrs| - 1];
      if Contributes(ifName, a) then rest + [a.cidr.value] else rest
  }

  /** Networks of all interfaces, in interface order. */
  function SubnetsOf(ifs: seq<Interface>): seq<string>
  {
    if |ifs| == 0 then []
    else SubnetsOf(ifs[..|ifs| - 1]) + InterfaceSubnets(ifs[|ifs| - 1].name, ifs[|ifs| - 1].inet)
  }

  /** Every network reported comes from a contributing address of some interface. */
  lemma {:induction false} InterfaceSubnetsSound(ifName: string, addrs: seq<InetAddress>, s: string)
    requires s in InterfaceSubnets(ifName, addrs)
    ensures exists a :: a in addrs && Contributes(ifName, a) && a.cidr.value == s
  {
    if |addrs| > 0 {
      var a := addrs[|addrs| - 1];
      if s in InterfaceSubnets(ifName, addrs[..|addrs| - 1]) {
        InterfaceSubnetsSound(ifName, addrs[..|addrs| - 1], s);
        var b :| b in addrs[..|addrs| - 1] && Contributes(ifName, b) && b.cidr.value == s;
        assert b in addrs;
      } else {
        assert a in addrs;
      }
    }
  }

  lemma {:induction false} SubnetsOfSound(ifs: seq<Interface>, s: string)
    requires s in SubnetsOf(ifs)
    ensures exists i, a :: 0 <= i < |ifs| && a in ifs[i].inet && Contributes(ifs[i].name, a) && a.cidr.value == s
  {
    var n := |ifs|;
    if s in SubnetsOf(ifs[..n - 1]) {
      SubnetsOfSound(ifs[..n - 1], s);
      var i, a :| 0 <= i < n - 1 && a in ifs[..n - 1][i].inet && Contributes(ifs[..n - 1][i].name, a) && a.cidr.value == s;
      assert ifs[..n - 1][i] == ifs[i];
    } else {
      InterfaceSubnetsSound(ifs[n - 1].name, ifs[n - 1].inet, s);
    }
  }

  /** Loopback and link-local addresses never produce a subnet. */
  lemma LocalSubnetsSkipLoopback(ifs: seq<Interface>, s: string)
    requires s in SubnetsOf(ifs)
    ensures exists i, a :: (0 <= i < |ifs| && a in ifs[i].inet && ifs[i].name != "lo" && a.addr.Some?
      && !Text.StartsWith(a.addr.value, "127.") && !Text.StartsWith(a.addr.value, "169.") && a.cidr == Some(s))
  {
    SubnetsOfSound(ifs, s);
  }

  // ---------------------------------------------------------------------------
  // Interpreting nmap output (the classification run inside the nmap wrapper)

  /** Device type named by an OS fingerprint; the first matching rule wins. */
  function OsTypeFromName(osName: string): (t: string)
    ensures t in {"router", "server", "workstation", "mobile", "other"}
  {
    var n := Text.Lower(osName);
    if Text.Contains(n, "router") || Text.Contains(n, "gateway") then "router"
    else if Text.Contains(n, "server") || Text.Contains(n, "linux") || Text.Contains(n, "unix") then "server"
    else if Text.Contains(n, "windows") then "workstation"
    else if Text.Contains(n, "apple") || Text.Contains(n, "mac") || Text.Contains(n, "ios") then "workstation"
    else if Text.Contains(n, "android") then "mobile"
    else "other"
  }

  /** The rules are tried in order: an OS name matching several keywords takes the type
      of the first rule it matches; "windows server" reads as a server. Each type is given
      exactly when its rule matches and no earlier one does. */
  lemma OsTypeFirstMatch(osName: string)
    ensures var n := Text.Lower(osName);
            var t := OsTypeFromName(osName);
            var router := Text.Contains(n, "router") || Text.Contains(n, "gateway");
            var server := Text.Contains(n, "server") || Text.Contains(n, "linux") || Text.Contains(n, "unix");
            var windows := Text.Contains(n, "windows");
            var apple := Text.Contains(n, "apple") || Text.Contains(n, "mac") || Text.Contains(n, "ios");
            var android := Text.Contains(n, "android");
            && (t == "router" <==> router)
            && (t == "server" <==> !router && server)
            && (t == "workstation" <==> !router && !server && (windows || apple))
            && (t == "mobile" <==> !router && !server && !windows && !apple && android)
            && (t == "other" <==> !router && !server && !windows && !apple && !android)
  {
  }

  predicate HasPort(ports: seq<PortInfo>, p: int)
  {
    exists i :: 0 <= i < |ports| && ports[i].port == p
  }

  /** A host with a web port (80 or 443) and SSH (22) looks like a server. */
  function PortHint(ports: seq<PortInfo>): (t: string)
    ensures t == "server" <==> (HasPort(ports, 80) || HasPort(ports, 443)) && HasPort(ports, 22)
    ensures t == "server" || t == "other"
  {
    if (HasPort(ports, 80) || HasPort(ports, 443)) && HasPort(ports, 22) then "server" else "other"
  }

  /** The type reported for a host whose best OS match is `osName`. */
  function HostType(osName: string, ports: seq<PortInfo>): (t: string)
    ensures OsTypeFromName(osName) != "other" ==> t == OsTypeFromName(osName)
    ensures OsTypeFromName(osName) == "other"
            ==> (t == "server" <==> (HasPort(ports, 80) || HasPort(ports, 443)) && HasPort(ports, 22))
    ensures OsTypeFromName(osName) == "other" ==> t == "server" || t == "other"
  {
    var t := OsTypeFromName(osName);
    if t == "other" then PortHint(ports) else t
  }

  /** The hostname reported: the first non-empty name. */
  function FirstName(names: seq<string>): (r: Option<string>)
    ensures r.Some? ==> r.value != "" && r.value in names
    ensures r.Some? ==> exists i :: 0 <= i < |names| && names[i] == r.value && forall j :: 0 <= j < i ==> names[j] == ""
    ensures r.None? <==> forall i :: 0 <= i < |names| ==> names[i] == ""
  {
    if |names| == 0 then None
    else if names[0] != "" then Some(names[0])
    else
      var r := FirstName(names[1..]);
      if r.Some? then
        var i :| 0 <= i < |names[1..]| && names[1..][i] == r.value && forall j :: 0 <= j < i ==> names[1..][j] == "";
        assert names[i + 1] == r.value && forall j :: 0 <= j < i + 1 ==> names[j] == "";
        r
      else r
  }

  /** The record of one open raw port: its number, service name, state, product and version. */
  function PortOf(p: RawPort): PortInfo
  {
    PortInfo(p.port, p.name, p.state, p.product, p.version)
  }

  /** Open TCP ports, in the order nmap lists them: one record per open raw port. */
  function OpenPorts(tcp: seq<RawPort>): (r: seq<PortInfo>)
    ensures |r| <= |tcp|
    ensures forall i :: 0 <= i < |r| ==> r[i].state == "open"
    ensures forall i :: 0 <= i < |tcp| && tcp[i].state == "open" ==> PortOf(tcp[i]) in r
    ensures forall x :: x in r ==> exists i :: 0 <= i < |tcp| && tcp[i].state == "open" && x == PortOf(tcp[i])
  {
    if |tcp| == 0 then []
    else
      var rest := OpenPorts(tcp[..|tcp| - 1]);
      var p := tcp[|tcp| - 1];
      assert forall i :: 0 <= i < |tcp| - 1 ==> tcp[..|tcp| - 1][i] == tcp[i];
      if p.state == "open" then rest + [PortOf(p)] else rest
  }

  /** Filtering distributes over concatenation, so the open ports keep nmap's order and each
      open raw port gives exactly one record. */
  lemma {:induction false} OpenPortsAppend(a: seq<RawPort>, b: seq<RawPort>)
    ensures OpenPorts(a + b) == OpenPorts(a) + OpenPorts(b)
    decreases |b|
  {
    if |b| == 0 {
      assert a + b == a;
    } else {
      var b' := b[..|b| - 1];
      assert (a + b)[..|a + b| - 1] == a + b';
      assert (a + b)[|a + b| - 1] == b[|b| - 1];
      OpenPortsAppend(a, b');
    }
  }

  /** One raw port gives its record exactly when it is open. */
  lemma OpenPortsSingle(p: RawPort)
    ensures OpenPorts([p]) == if p.state == "open" then [PortOf(p)] else []
  {
    assert [p][..0] == [];
  }

  /** The wrapper's record for one host; None when the best match's accuracy is not an integer
      (the wrapper then raises and the whole batch is reported empty). */
  function HostDataOf(h: RawHost, osFlag: bool): (r: Option<HostData>)
    ensures r.Some? ==> r.value.status == (if h.state == "up" then "online" else "offline")
    ensures r.Some? ==> r.value.hostname == FirstName(h.hostnames) && r.value.mac == h.mac
                        && r.value.ports == OpenPorts(h.tcp)
    ensures r.Some? && (!osFlag || |h.osmatch| == 0) ==> r.value.os == OsInfo(None, "other", 0)
    ensures (!osFlag || |h.osmatch| == 0) ==> r.Some?
    ensures osFlag && |h.osmatch| > 0 ==> (r.None? <==> Text.ParseInt(h.osmatch[0].accuracy).None?)
    ensures osFlag && |h.osmatch| > 0 && r.Some? ==>
              r.value.os == OsInfo(Some(h.osmatch[0].name), HostType(h.osmatch[0].name, OpenPorts(h.tcp)),
                                   Text.ParseInt(h.osmatch[0].accuracy).value)
  {
    var ports := OpenPorts(h.tcp);
    var base := HostData(FirstName(h.hostnames), if h.state == "up" then "online" else "offline", h.mac, ports, OsInfo(None, "other", 0));
    if osFlag && |h.osmatch| > 0 then
      var best := h.osmatch[0];
      var acc := Text.ParseInt(best.accuracy);
      if acc.None? then None
      else Some(base.(os := OsInfo(Some(best.name), HostType(best.name, ports), acc.value)))
    else Some(base)
  }

  predicate AllParse(raw: map<string, RawHost>, osFlag: bool)
  {
    forall h :: h in raw ==> HostDataOf(raw[h], osFlag).Some?
  }

  /** What `_nmap_scan` returns for one batch. */
  function NmapResults(raw: map<string, RawHost>, osFlag: bool): (r: map<string, HostData>)
    ensures AllParse(raw, osFlag) ==> r.Keys == raw.Keys
    ensures !AllParse(raw, osFlag) ==> r == map[]
    ensures forall h :: h in r ==> Some(r[h]) == HostDataOf(raw[h], osFlag)
  {
    if AllParse(raw, osFlag) then map h | h in raw :: HostDataOf(raw[h], osFlag).value else map[]
  }

  // ---------------------------------------------------------------------------
  // Port-scan intensity and batching

  datatype NmapArgs = NmapArgs(osDetection: bool, serviceInfo: bool, arguments: string)

  function TierArgs(t: ScanType): NmapArgs
  {
    match t
    case Basic => NmapArgs(false, false, "-T4 --top-ports 20")
    case Intense => NmapArgs(true, true, "-T4 --top-ports 100 -sV -O")
    case Full => NmapArgs(true, true, "-p- -T4 -A")
  }

  /** The nmap settings a port scan uses: the tier's, with explicit flags appended. */
  function ScanArgs(o: ScanOptions): (a: NmapArgs)
    ensures a.osDetection <==> o.scanType != Basic || o.includeOsDetection
    ensures a.serviceInfo <==> o.scanType != Basic || o.includeServiceDetection
    ensures Text.StartsWith(a.arguments, TierArgs(o.scanType).arguments)
  {
    var tier := TierArgs(o.scanType);
    var a1 := if o.includeOsDetection then NmapArgs(true, tier.serviceInfo, tier.arguments + " -O") else tier;
    var a2 := if o.includeServiceDetection then NmapArgs(a1.osDetection, true, a1.arguments + " -sV") else a1;
    assert a2.arguments[..|tier.arguments|] == tier.arguments;
    a2
  }

  const BatchSize: nat := 10

  /** Number of nmap batches for `n` targets: the least `k` with `k * 10 >= n`. */
  function BatchCount(n: nat): (k: nat)
    ensures k * BatchSize >= n
    ensures k > 0 ==> (k - 1) * BatchSize < n
  {
    (n + BatchSize - 1) / BatchSize
  }

  /** The targets of batch `i`. */
  function Batch(targets: seq<string>, i: nat): (b: seq<string>)
    requires i < BatchCount(|targets|)
    ensures 1 <= |b| <= BatchSize
    ensures i * BatchSize + |b| <= |targets|
    ensures b == targets[i * BatchSize .. i * BatchSize + |b|]
    ensures (i + 1) * BatchSize <= |targets| ==> |b| == BatchSize
    ensures (i + 1) * BatchSize > |targets| ==> i * BatchSize + |b| == |targets|
  {
    var lo := i * BatchSize;
    var hi := if (i + 1) * BatchSize < |targets| then (i + 1) * BatchSize else |targets|;
    targets[lo..hi]
  }

  /** Batches `i`, `i+1`, … concatenated. */
  function Batches(targets: seq<string>, i: nat): seq<string>
    requires i <= BatchCount(|targets|)
    decreases BatchCount(|targets|) - i
  {
    if i == BatchCount(|targets|) then [] else Batch(targets, i) + Batches(targets, i + 1)
  }

  /** The batches partition the targets: every target is scanned once, in order. */
  lemma {:induction false} BatchesCover(targets: seq<string>, i: nat)
    requires i <= BatchCount(|targets|)
    ensures i * BatchSize <= |targets| || i == BatchCount(|targets|)
    ensures Batches(targets, i) == if i * BatchSize <= |targets| then targets[i * BatchSize..] else []
    decreases BatchCount(|targets|) - i
  {
    if i < BatchCount(|targets|) {
      BatchesCover(targets, i + 1);
      var b := Batch(targets, i);
      if (i + 1) * BatchSize <= |targets| {
        assert targets[i * BatchSize..] == b + targets[(i + 1) * BatchSize..];
      } else {
        assert i + 1 == BatchCount(|targets|);
        assert b == targets[i * BatchSize..];
      }
    }
  }

  /** Progress after batch `i` of `total`: `30 + int(60 * ((i + 1) / total))`. */
  function BatchProgress(i: nat, total: nat): (p: int)
    requires i < total
    ensures 30 <= p <= 90
    ensures p == 90 <==> i == total - 1
  {
    var q := 60 * (i + 1) / total;
    assert q <= 60 && (i + 1 == total ==> q == 60) by {
      DivMonotone(60 * (i + 1), 60 * total, total);
      MulDivCancel(60, total);
    }
    assert i + 1 < total ==> q < 60 by {
      if i + 1 < total { DivBelow(60 * (i + 1), total, 60); }
    }
    30 + q
  }

  /** Progress never goes back from one batch to the next. */
  lemma BatchProgressMonotone(i: nat, j: nat, total: nat)
    requires i <= j < total
    ensures BatchProgress(i, total) <= BatchProgress(j, total)
  {
    assert 60 * (i + 1) <= 60 * (j + 1);
    DivMonotone(60 * (i + 1), 60 * (j + 1), total);
  }

  lemma DivMonotone(a: nat, b: nat, d: nat)
    requires a <= b && d > 0
    ensures a / d <= b / d
  {
    var qa, qb := a / d, b / d;
    assert qa * d <= a;
    assert b < (qb + 1) * d;
    if qb + 1 <= qa {
      MulMonotone(qb + 1, qa, d);
      assert false;
    }
  }

  lemma MulMonotone(x: nat, y: nat, d: nat)
    requires x <= y
    ensures x * d <= y * d
  {
  }

  lemma MulDivCancel(k: nat, d: nat)
    requires d > 0
    ensures (k * d) / d == k
  {
    var q := (k * d) / d;
    assert q * d <= k * d < (q + 1) * d;
    if q < k { MulMonotone(q + 1, k, d); assert false; }
    if k < q { MulMonotone(k + 1, q, d); assert false; }
  }

  lemma DivBelow(x: nat, d: nat, k: nat)
    requires d > 0 && x < k * d
    ensures x / d < k
  {
    var q := x / d;
    assert q * d <= x;
    if k <= q {
      MulMonotone(k, q, d);
      assert false;
    }
  }

  // ---------------------------------------------------------------------------
  // Labels

  /** The label a device gets: its hostname, else `Type-<last field of the ip>`; that field
      is the ip's tail after its last dot (all of it when it has none). */
  function Label(d: Device): (l: string)
    ensures NonEmpty(d.hostname) ==> l == d.hostname.value
    ensures !NonEmpty(d.hostname) ==>
              exists k :: 0 <= k <= |d.ip| && l == Text.Capitalize(d.devType) + "-" + d.ip[k..]
                          && (k == 0 || d.ip[k - 1] == '.')
                          && forall j :: k <= j < |d.ip| ==> d.ip[j] != '.'
  {
    if !NonEmpty(d.hostname) then
      var f := Text.LastField(d.ip, '.');
      Text.LastFieldIsTail(d.ip, '.');
      assert d.ip[|d.ip| - |f|..] == f;
      Text.Capitalize(d.devType) + "-" + f
    else d.hostname.value
  }
}
