// What one run of `_perform_network_scan` (services/network_scanner.py) computes,
// phase by phase, as functions of the scan options, the probe results and the
// cancellation schedule. The imperative scan in ScanEngine is proved to produce
// exactly these results; the lemmas below state what they guarantee.
module ScanSpec {
  import opened Wrappers
  import opened JsonValues
  import opened ScanTypes
  import Text

  /** The network probes a scan consults: interface addresses, ARP replies per subnet, ping
      replies per subnet, reverse DNS, raw nmap output per batch and argument string, the
      default gateway, and latency between two hosts. */
  datatype Probes = Probes(
    interfaces: seq<Interface>,
    arp: string -> seq<ArpEntry>,
    ping: string -> seq<string>,
    hostname: string -> Option<string>,
    nmap: (seq<string>, string) -> map<string, RawHost>,
    gateway: Option<string>,
    latency: (string, string) -> Option<int>)

  /** The state a scan builds up: the `devices_by_ip` table, the `device_id` counter, how many
      times the cancel event has been polled, and the job's progress and partial results. */
  datatype ScanState = ScanState(
    table: DeviceTable,
    lastId: nat,
    polls: nat,
    progress: int,
    partials: map<string, PartialData>)

  /** The cancel event is seen as set from poll number `setFrom` on (it is never cleared). */
  predicate Fired(setFrom: Option<nat>, poll: nat)
  {
    setFrom.Some? && setFrom.value <= poll
  }

  /** None of the `n` polls from poll number `from` on sees the cancel event. */
  predicate Quiet(setFrom: Option<nat>, from: nat, n: nat)
  {
    setFrom.None? || from + n <= setFrom.value
  }

  function Polled(st: ScanState): ScanState { st.(polls := st.polls + 1) }

  /** `job.update_progress(p)`. */
  function Progressed(st: ScanState, p: int): ScanState { st.(progress := if p < 99 then p else 99) }

  function Saved(st: ScanState, key: string, d: PartialData): ScanState { st.(partials := st.partials[key := d]) }

  const NoSubnetsMessage := "No valid subnets found for scanning"
  /** `str()` of the UnboundLocalError raised when `connections` is read without having been
      assigned (CPython 3.11 wording). */
  const UnboundConnectionsMessage := "cannot access local variable 'connections' where it is not associated with a value"
  const NoDevicesWarning := "No devices found. The scan may be running in a restricted environment (WSL, VM)."

  const SubnetsKey := "subnets"
  const SnapshotKey := "devices_before_port_scan"
  function ArpKey(subnet: string): string { "arp_scan_" + subnet }
  function PingKey(subnet: string): string { "ping_scan_" + subnet }
  function NmapKey(i: nat): string { "nmap_batch_" + Text.NatToString(i) }

  /** Replace the device stored under an existing key. */
  function SetEntry(t: DeviceTable, ip: string, d: Device): (r: DeviceTable)
    requires t.Valid() && ip in t.entries && d.ip == ip
    ensures r.Valid() && r.order == t.order && r.entries == t.entries[ip := d]
  {
    t.(entries := t.entries[ip := d])
  }

  // ---------------------------------------------------------------------------
  // Phase 1: ARP discovery

  /** Record one ARP reply if it carries an address: `device_id += 1; devices_by_ip[ip] = …`. */
  function ArpStep(st: ScanState, e: ArpEntry): (r: ScanState)
    requires st.table.Valid()
    ensures r.table.Valid()
    ensures r.polls == st.polls && r.progress == st.progress && r.partials == st.partials
  {
    if e.ip != "" then
      st.(table := st.table.Put(e.ip, NewDevice(st.lastId + 1, e.ip, Some(e.mac))), lastId := st.lastId + 1)
    else st
  }

  /** Record every ARP reply that carries an address under a fresh device number. */
  function AddArp(st: ScanState, entries: seq<ArpEntry>): (r: ScanState)
    requires st.table.Valid()
    ensures r.table.Valid()
    ensures r.polls == st.polls && r.progress == st.progress && r.partials == st.partials
    decreases |entries|
  {
    if |entries| == 0 then st else AddArp(ArpStep(st, entries[0]), entries[1..])
  }

  /** The ARP loop over the subnets, stopping at the first poll that sees the cancel event. */
  function ArpLoop(st: ScanState, subnets: seq<string>, arp: string -> seq<ArpEntry>, setFrom: Option<nat>): (r: ScanState)
    requires st.table.Valid()
    ensures r.table.Valid() && r.progress == st.progress
    decreases |subnets|
  {
    if |subnets| == 0 then st
    else if Fired(setFrom, st.polls) then Polled(st)
    else
      var s := subnets[0];
      ArpLoop(AddArp(Saved(Polled(st), ArpKey(s), ArpReply(arp(s))), arp(s)), subnets[1..], arp, setFrom)
  }

  // ---------------------------------------------------------------------------
  // Ping fallback

  /** Record one ping reply unless its address is already known. */
  function PingStep(st: ScanState, ip: string): (r: ScanState)
    requires st.table.Valid()
    ensures r.table.Valid()
    ensures r.polls == st.polls && r.progress == st.progress && r.partials == st.partials
  {
    if ip !in st.table.entries then
      st.(table := st.table.Put(ip, NewDevice(st.lastId + 1, ip, None)), lastId := st.lastId + 1)
    else st
  }

  /** Record the ping replies whose address is not yet in the table. */
  function AddPing(st: ScanState, ips: seq<string>): (r: ScanState)
    requires st.table.Valid()
    ensures r.table.Valid()
    ensures r.polls == st.polls && r.progress == st.progress && r.partials == st.partials
    decreases |ips|
  {
    if |ips| == 0 then st else AddPing(PingStep(st, ips[0]), ips[1..])
  }

  function PingLoop(st: ScanState, subnets: seq<string>, ping: string -> seq<string>, setFrom: Option<nat>): (r: ScanState)
    requires st.table.Valid()
    ensures r.table.Valid() && r.progress == st.progress
    decreases |subnets|
  {
    if |subnets| == 0 then st
    else if Fired(setFrom, st.polls) then Polled(st)
    else
      var s := subnets[0];
      PingLoop(AddPing(Saved(Polled(st), PingKey(s), PingReply(ping(s))), ping(s)), subnets[1..], ping, setFrom)
  }

  /** The ping sweep runs only when ARP found nothing and the scan is not cancelled; the
      cancel event is polled only when the table is empty. */
  function Fallback(st: ScanState, subnets: seq<string>, ping: string -> seq<string>, setFrom: Option<nat>): (r: ScanState)
    requires st.table.Valid()
    ensures r.table.Valid()
    ensures |st.table.order| > 0 ==> r == st
    ensures |st.table.order| == 0 && Fired(setFrom, st.polls) ==> r == Polled(st)
    ensures |st.table.order| == 0 && !Fired(setFrom, st.polls) ==> r.progress == 10
  {
    if |st.table.order| > 0 then st
    else if Fired(setFrom, st.polls) then Polled(st)
    else PingLoop(Progressed(Polled(st), 10), subnets, ping, setFrom)
  }

  // ---------------------------------------------------------------------------
  // Phase 2: hostname resolution

  function ResolveNames(st: ScanState, ips: seq<string>, hostname: string -> Option<string>, setFrom: Option<nat>): (r: ScanState)
    requires st.table.Valid()
    ensures r.table.Valid() && r.table.order == st.table.order && r.table.entries.Keys == st.table.entries.Keys
    ensures r.lastId == st.lastId && r.progress == st.progress && r.partials == st.partials
    ensures forall ip :: ip in st.table.entries ==>
              r.table.entries[ip] == st.table.entries[ip]
              || (NonEmpty(hostname(ip)) && r.table.entries[ip] == st.table.entries[ip].(hostname := hostname(ip)))
    ensures Quiet(setFrom, st.polls, |ips|) ==> r.polls == st.polls + |ips|
    ensures Quiet(setFrom, st.polls, |ips|) ==>
              forall ip :: ip in st.table.entries ==>
                r.table.entries[ip] == (if ip in ips && NonEmpty(hostname(ip))
                                        then st.table.entries[ip].(hostname := hostname(ip))
                                        else st.table.entries[ip])
    decreases |ips|
  {
    if |ips| == 0 then st
    else if Fired(setFrom, st.polls) then Polled(st)
    else
      var ip := ips[0];
      var h := hostname(ip);
      var st1 := Polled(st);
      var st2 := if NonEmpty(h) && ip in st1.table.entries then
                   st1.(table := SetEntry(st1.table, ip, st1.table.entries[ip].(hostname := h)))
                 else st1;
      ResolveNames(st2, ips[1..], hostname, setFrom)
  }

  // ---------------------------------------------------------------------------
  // Phase 3: port scanning

  /** One entry of `host_data['ports']`: port, protocol, service and state, then the product
      and the version when nmap reports them. */
  function PortJson(p: PortInfo): (j: Json)
    ensures j.JObj? && |j.fields| == 4 + (if p.product.Some? then 1 else 0) + (if p.version.Some? then 1 else 0)
    ensures j.JObj? && j.fields[..4] == [("port", JInt(p.port)), ("protocol", JStr("tcp")),
                                         ("service", JStr(p.service)), ("state", JStr(p.state))]
    ensures j.JObj? && p.product.Some? ==> j.fields[4] == ("product", JStr(p.product.value))
    ensures j.JObj? && p.version.Some? ==> j.fields[|j.fields| - 1] == ("version", JStr(p.version.value))
  {
    JObj([("port", JInt(p.port)), ("protocol", JStr("tcp")), ("service", JStr(p.service)), ("state", JStr(p.state))]
         + (if p.product.Some? then [("product", JStr(p.product.value))] else [])
         + (if p.version.Some? then [("version", JStr(p.version.value))] else []))
  }

  function PortsJson(ports: seq<PortInfo>): (j: Json)
    ensures j.JList? && |j.items| == |ports|
    ensures j.JList? && forall i :: 0 <= i < |ports| ==> j.items[i] == PortJson(ports[i])
  {
    JList(seq(|ports|, i requires 0 <= i < |ports| => PortJson(ports[i])))
  }

  /** What one nmap host record changes in a known device. */
  function MergeHost(d: Device, h: HostData): (r: Device)
    ensures r.num == d.num && r.ip == d.ip && r.mac == d.mac && r.labelText == d.labelText
    ensures r.hostname == (if NonEmpty(h.hostname) then h.hostname else d.hostname)
    ensures r.status == (if h.status != "" then h.status else d.status)
    ensures r.devType == (if h.os.osType != "" then h.os.osType else d.devType)
    ensures NonEmpty(h.os.name) ==> "os" in r.metadata && r.metadata["os"] == JStr(h.os.name.value)
                                    && "os_accuracy" in r.metadata && r.metadata["os_accuracy"] == JInt(h.os.accuracy)
    ensures |h.ports| > 0 ==> "ports" in r.metadata && r.metadata["ports"] == PortsJson(h.ports)
    ensures r.metadata.Keys == d.metadata.Keys + (if NonEmpty(h.os.name) then {"os", "os_accuracy"} else {})
                                               + (if |h.ports| > 0 then {"ports"} else {})
    ensures forall k :: (k in d.metadata && !(NonEmpty(h.os.name) && k in {"os", "os_accuracy"})
                         && !(|h.ports| > 0 && k == "ports")) ==> r.metadata[k] == d.metadata[k]
  {
    var d1 := if NonEmpty(h.hostname) then d.(hostname := h.hostname) else d;
    var d2 := if h.status != "" then d1.(status := h.status) else d1;
    var d3 := if h.os.osType != "" then d2.(devType := h.os.osType) else d2;
    var d4 := if NonEmpty(h.os.name) then d3.(metadata := d3.metadata["os" := JStr(h.os.name.value)]["os_accuracy" := JInt(h.os.accuracy)]) else d3;
    if |h.ports| > 0 then d4.(metadata := d4.metadata["ports" := PortsJson(h.ports)]) else d4
  }

  /** Merge one batch's host records into the devices already known; other hosts are ignored. */
  function MergeNmap(t: DeviceTable, hosts: map<string, HostData>): (r: DeviceTable)
    requires t.Valid()
    ensures r.Valid() && r.order == t.order && r.entries.Keys == t.entries.Keys
    ensures forall ip :: ip in t.entries && ip !in hosts ==> r.entries[ip] == t.entries[ip]
    ensures forall ip :: ip in t.entries ==> r.entries[ip].num == t.entries[ip].num
    ensures forall ip :: ip in t.entries && ip in hosts ==> r.entries[ip] == MergeHost(t.entries[ip], hosts[ip])
  {
    t.(entries := map ip | ip in t.entries :: if ip in hosts then MergeHost(t.entries[ip], hosts[ip]) else t.entries[ip])
  }

  /** The host records `_nmap_scan` returns for batch `i`. */
  function BatchHosts(targets: seq<string>, i: nat, args: NmapArgs,
                      nmap: (seq<string>, string) -> map<string, RawHost>): map<string, HostData>
    requires i < BatchCount(|targets|)
  {
    NmapResults(nmap(Batch(targets, i), args.arguments), args.osDetection)
  }

  /** One batch: poll, scan, save the batch's results, merge them, report progress. */
  function BatchStep(st: ScanState, targets: seq<string>, i: nat, args: NmapArgs,
                     nmap: (seq<string>, string) -> map<string, RawHost>): (r: ScanState)
    requires st.table.Valid() && i < BatchCount(|targets|)
    ensures r.table.Valid() && r.table.order == st.table.order && r.table.entries.Keys == st.table.entries.Keys
    ensures r.lastId == st.lastId && r.polls == st.polls + 1
    ensures forall ip :: ip in st.table.entries ==> r.table.entries[ip].num == st.table.entries[ip].num
    ensures r.table == MergeNmap(st.table, BatchHosts(targets, i, args, nmap))
    ensures r.partials == st.partials[NmapKey(i) := NmapReply(BatchHosts(targets, i, args, nmap))]
  {
    var hosts := NmapResults(nmap(Batch(targets, i), args.arguments), args.osDetection);
    var st1 := Saved(Polled(st), NmapKey(i), NmapReply(hosts)).(table := MergeNmap(st.table, hosts));
    Progressed(st1, BatchProgress(i, BatchCount(|targets|)))
  }

  /** What the batches from `i` on make of the device at `ip`: each batch reporting `ip`
      merges its record in turn. */
  function MergedFrom(d: Device, ip: string, targets: seq<string>, i: nat, args: NmapArgs,
                      nmap: (seq<string>, string) -> map<string, RawHost>): Device
    decreases BatchCount(|targets|) - i
  {
    if i >= BatchCount(|targets|) then d
    else
      var hosts := BatchHosts(targets, i, args, nmap);
      MergedFrom(if ip in hosts then MergeHost(d, hosts[ip]) else d, ip, targets, i + 1, args, nmap)
  }

  /** The batch loop from batch `i` on. */
  function BatchLoop(st: ScanState, targets: seq<string>, i: nat, args: NmapArgs,
                     nmap: (seq<string>, string) -> map<string, RawHost>, setFrom: Option<nat>): (r: ScanState)
    requires st.table.Valid() && i <= BatchCount(|targets|)
    ensures r.table.Valid() && r.table.order == st.table.order && r.table.entries.Keys == st.table.entries.Keys
    ensures r.lastId == st.lastId
    ensures forall ip :: ip in st.table.entries ==> r.table.entries[ip].num == st.table.entries[ip].num
    ensures Quiet(setFrom, st.polls, BatchCount(|targets|) - i) ==>
              forall ip :: ip in st.table.entries ==>
                r.table.entries[ip] == MergedFrom(st.table.entries[ip], ip, targets, i, args, nmap)
    decreases BatchCount(|targets|) - i
  {
    if i == BatchCount(|targets|) then st
    else if Fired(setFrom, st.polls) then Polled(st)
    else BatchLoop(BatchStep(st, targets, i, args, nmap), targets, i + 1, args, nmap, setFrom)
  }

  function PortScan(st: ScanState, o: ScanOptions, nmap: (seq<string>, string) -> map<string, RawHost>, setFrom: Option<nat>): (r: ScanState)
    requires st.table.Valid()
    ensures r.table.Valid() && r.table.order == st.table.order && r.table.entries.Keys == st.table.entries.Keys
    ensures r.lastId == st.lastId
    ensures !o.includePorts ==> r == st
    ensures o.includePorts && Quiet(setFrom, st.polls, BatchCount(|st.table.order|)) ==>
              forall ip :: ip in st.table.entries ==>
                r.table.entries[ip] == MergedFrom(st.table.entries[ip], ip, st.table.order, 0, ScanArgs(o), nmap)
  {
    if o.includePorts then BatchLoop(Progressed(st, 30), st.table.order, 0, ScanArgs(o), nmap, setFrom) else st
  }

  // ---------------------------------------------------------------------------
  // Phase 4: topology and labels

  /** Links from every device in `ips` other than the gateway to the gateway, numbered on from `n`. */
  function Links(ips: seq<string>, t: DeviceTable, gw: string, gwId: string,
                 latency: (string, string) -> Option<int>, n: nat): (cs: seq<Connection>)
    requires forall i :: 0 <= i < |ips| ==> ips[i] in t.entries
    ensures |cs| <= |ips|
    decreases |ips|
  {
    if |ips| == 0 then []
    else if ips[0] != gw then
      [Connection(n + 1, t.entries[ips[0]].Id(), gwId, "active", "wired", latency(ips[0], gw), map[])]
        + Links(ips[1..], t, gw, gwId, latency, n + 1)
    else Links(ips[1..], t, gw, gwId, latency, n)
  }

  function GatewayDevice(g: Device, gw: string): (r: Device)
    ensures r.num == g.num && r.ip == g.ip && r.devType == "router"
  {
    g.(devType := "router",
       hostname := if !NonEmpty(g.hostname) || g.hostname.value == gw then Some("Main Gateway") else g.hostname)
  }

  predicate GatewayKnown(t: DeviceTable, gateway: Option<string>)
  {
    NonEmpty(gateway) && gateway.value in t.entries
  }

  /** The gateway, when known, becomes a router and every other device links to it. */
  function Topology(t: DeviceTable, gateway: Option<string>, latency: (string, string) -> Option<int>): (r: (DeviceTable, seq<Connection>))
    requires t.Valid()
    ensures r.0.Valid() && r.0.order == t.order && r.0.entries.Keys == t.entries.Keys
    ensures forall ip :: ip in t.entries ==> r.0.entries[ip].num == t.entries[ip].num
    ensures !GatewayKnown(t, gateway) ==> r == (t, [])
  {
    if GatewayKnown(t, gateway) then
      var gw := gateway.value;
      var t1 := SetEntry(t, gw, GatewayDevice(t.entries[gw], gw));
      (t1, Links(t1.order, t1, gw, t1.entries[gw].Id(), latency, 0))
    else (t, [])
  }

  /** Every device gets its label. */
  function Labelled(t: DeviceTable): (r: DeviceTable)
    requires t.Valid()
    ensures r.Valid() && r.order == t.order && r.entries.Keys == t.entries.Keys
    ensures forall ip :: ip in r.entries ==> r.entries[ip] == t.entries[ip].(labelText := Some(Label(t.entries[ip])))
  {
    t.(entries := map ip | ip in t.entries :: t.entries[ip].(labelText := Some(Label(t.entries[ip]))))
  }

  // ---------------------------------------------------------------------------
  // The whole scan

  /** The snapshot saved before the port scan is the live table object, so it always shows the
      table as it is when the scan returns. */
  function Aliased(st: ScanState): ScanState { Saved(st, SnapshotKey, DeviceSnapshot(st.table)) }

  function InitialState(o: ScanOptions, subnets: seq<string>, polls: nat, progress: int, partials: map<string, PartialData>): ScanState
  {
    var st := ScanState(EmptyTable, 0, polls, progress, partials);
    if !NonEmpty(o.ipRange) && !NonEmpty(o.subnet) then Saved(st, SubnetsKey, SubnetList(subnets)) else st
  }

  /** Phase 1: ARP over every subnet, then the ping fallback (progress 5, then 20). */
  function Discover(st: ScanState, subnets: seq<string>, env: Probes, setFrom: Option<nat>): (r: ScanState)
    requires st.table.Valid()
    ensures r.table.Valid()
  {
    Progressed(Fallback(ArpLoop(Progressed(st, 5), subnets, env.arp, setFrom), subnets, env.ping, setFrom), 20)
  }

  /** Phases 2 and 3: host names, the snapshot taken before port scanning, then the port scan. */
  function Enrich(st: ScanState, o: ScanOptions, env: Probes, setFrom: Option<nat>): (r: ScanState)
    requires st.table.Valid()
    ensures r.table.Valid() && r.table.order == st.table.order && r.table.entries.Keys == st.table.entries.Keys
    ensures Quiet(setFrom, st.polls, |st.table.order| + (if o.includePorts then BatchCount(|st.table.order|) else 0)) ==>
              forall ip :: ip in st.table.entries ==>
                var named := if NonEmpty(env.hostname(ip)) then st.table.entries[ip].(hostname := env.hostname(ip))
                             else st.table.entries[ip];
                r.table.entries[ip] == (if o.includePorts then MergedFrom(named, ip, st.table.order, 0, ScanArgs(o), env.nmap)
                                        else named)
  {
    var c := ResolveNames(st, st.table.order, env.hostname, setFrom);
    PortScan(Saved(c, SnapshotKey, DeviceSnapshot(c.table)), o, env.nmap, setFrom)
  }

  /** Phase 4 and the result: topology (progress 90), labels, the empty-network warning. */
  function Finish(d: ScanState, env: Probes): (ScanResult, ScanState)
    requires d.table.Valid()
  {
    var e := Progressed(d, 90);
    var topo := Topology(e.table, env.gateway, env.latency);
    var t := Labelled(topo.0);
    var warning := if |t.order| == 0 then Some(NoDevicesWarning) else None;
    (EmptyResult.(devices := t, connections := topo.1, warning := warning), Progressed(Aliased(e.(table := t)), 99))
  }

  /** After port scanning: `if not cancel_event.is_set()` guards phase 4; when the event is
      set, reading the unassigned `connections` raises, and the handler records the message. */
  function AfterEnrich(d: ScanState, env: Probes, setFrom: Option<nat>): (ScanResult, ScanState)
    requires d.table.Valid()
  {
    if Fired(setFrom, d.polls) then
      (EmptyResult.(devices := d.table, error := Some(UnboundConnectionsMessage)), Aliased(Polled(d)))
    else Finish(Polled(d), env)
  }

  /** After discovery: the cancel check, then phases 2 to 4. */
  function AfterDiscovery(b: ScanState, o: ScanOptions, env: Probes, setFrom: Option<nat>): (ScanResult, ScanState)
    requires b.table.Valid()
  {
    if Fired(setFrom, b.polls) then (EmptyResult, Polled(b))
    else AfterEnrich(Enrich(Polled(b), o, env, setFrom), env, setFrom)
  }

  /** With a non-empty target list: the cancel check, then the phases. */
  function Phases(st: ScanState, subnets: seq<string>, o: ScanOptions, env: Probes, setFrom: Option<nat>): (ScanResult, ScanState)
    requires st.table.Valid()
  {
    if Fired(setFrom, st.polls) then (EmptyResult, Polled(st))
    else AfterDiscovery(Discover(Polled(st), subnets, env, setFrom), o, env, setFrom)
  }

  /** The result of `_perform_network_scan` and the scanner state it leaves behind, for a job
      whose cancel event has been polled `polls` times and whose progress and partial results
      are `progress` and `partials` when the scan begins. */
  function Scan(o: ScanOptions, env: Probes, setFrom: Option<nat>, polls: nat, progress: int,
                partials: map<string, PartialData>): (ScanResult, ScanState)
  {
    var subnets := Targets(o, SubnetsOf(env.interfaces));
    var st := InitialState(o, subnets, polls, progress, partials);
    if |subnets| == 0 then (EmptyResult.(error := Some(NoSubnetsMessage)), st)
    else Phases(st, subnets, o, env, setFrom)
  }
}
