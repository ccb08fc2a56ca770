// The scan itself as the imperative loops of `_perform_network_scan`
// (services/network_scanner.py): the device table and the id counter are local
// variables, progress and partial results are written into the ScanJob, and the
// cancel event is polled before every unit of work. Each phase is proved to leave
// exactly the state the matching ScanSpec function describes.
module ScanEngine {
  import opened Wrappers
  import opened ScanTypes
  import opened ScanJobs
  import opened ScanSpec

  /** `asyncio.Event` as the scan sees it: `polls` counts the `is_set()` calls so far and
      `firesAt` is the first poll that sees the event set (once set it stays set). */
  class CancelEvent {
    var polls: nat
    var firesAt: Option<nat>

    constructor ()
      ensures polls == 0 && firesAt == None
    {
      polls := 0;
      firesAt := None;
    }

    /** `set()`: this poll and every later one see the event. */
    method Set()
      modifies this`firesAt
      ensures firesAt == Some(if old(firesAt).Some? && old(firesAt).value <= polls then old(firesAt).value else polls)
    {
      firesAt := Some(if firesAt.Some? && firesAt.value <= polls then firesAt.value else polls);
    }

    /** A `set()` from another task that lands just before poll number `at`. */
    method SetBefore(at: nat)
      modifies this`firesAt
      ensures firesAt == Some(if old(firesAt).Some? && old(firesAt).value <= at then old(firesAt).value else at)
    {
      firesAt := Some(if firesAt.Some? && firesAt.value <= at then firesAt.value else at);
    }

    /** `is_set()`. */
    method IsSet() returns (b: bool)
      modifies this`polls
      ensures polls == old(polls) + 1
      ensures b == Fired(firesAt, old(polls))
      ensures b ==> Fired(firesAt, polls)
    {
      b := Fired(firesAt, polls);
      polls := polls + 1;
    }
  }

  /** The scan state held by the local variables, the job and the cancel event. */
  function StateOf(t: DeviceTable, lastId: nat, job: ScanJob, cancel: CancelEvent): ScanState
    reads job, cancel
  {
    ScanState(t, lastId, cancel.polls, job.progress, job.partialResults)
  }

  // ---------------------------------------------------------------------------
  // Phase 1: ARP discovery and the ping fallback

  lemma AddArpUnfold(st: ScanState, es: seq<ArpEntry>, j: nat)
    requires st.table.Valid() && j < |es|
    ensures AddArp(st, es[j..]) == AddArp(ArpStep(st, es[j]), es[j + 1..])
  {
    assert es[j..][1..] == es[j + 1..];
  }

  lemma AddPingUnfold(st: ScanState, ips: seq<string>, j: nat)
    requires st.table.Valid() && j < |ips|
    ensures AddPing(st, ips[j..]) == AddPing(PingStep(st, ips[j]), ips[j + 1..])
  {
    assert ips[j..][1..] == ips[j + 1..];
  }

  /** One ARP reply: a reply with an address gets the next device number. */
  method AddArpReply(ghost st: ScanState, t: DeviceTable, lastId: nat, e: ArpEntry)
    returns (t': DeviceTable, lastId': nat)
    requires t.Valid() && st.table == t && st.lastId == lastId
    ensures t'.Valid()
    ensures ArpStep(st, e) == st.(table := t', lastId := lastId')
  {
    t', lastId' := t, lastId;
    if e.ip != "" {
      lastId' := lastId' + 1;
      t' := t'.Put(e.ip, NewDevice(lastId', e.ip, Some(e.mac)));
    }
  }

  /** One ping reply: an address not yet in the table gets the next device number. */
  method AddPingReply(ghost st: ScanState, t: DeviceTable, lastId: nat, ip: string)
    returns (t': DeviceTable, lastId': nat)
    requires t.Valid() && st.table == t && st.lastId == lastId
    ensures t'.Valid()
    ensures PingStep(st, ip) == st.(table := t', lastId := lastId')
  {
    t', lastId' := t, lastId;
    if ip !in t'.entries {
      lastId' := lastId' + 1;
      t' := t'.Put(ip, NewDevice(lastId', ip, None));
    }
  }

  /** The inner loop over one subnet's ARP replies; `st` is the scan state around the table. */
  method AddArpEntries(ghost st: ScanState, t: DeviceTable, lastId: nat, es: seq<ArpEntry>)
    returns (t': DeviceTable, lastId': nat)
    requires t.Valid() && st.table == t && st.lastId == lastId
    ensures t'.Valid()
    ensures AddArp(st, es) == st.(table := t', lastId := lastId')
  {
    t', lastId' := t, lastId;
    ghost var cur := st;
    var j := 0;
    while j < |es|
      invariant 0 <= j <= |es| && t'.Valid()
      invariant cur.table == t' && cur.lastId == lastId'
      invariant cur.polls == st.polls && cur.progress == st.progress && cur.partials == st.partials
      invariant AddArp(cur, es[j..]) == AddArp(st, es)
    {
      AddArpUnfold(cur, es, j);
      t', lastId' := AddArpReply(cur, t', lastId', es[j]);
      cur := ArpStep(cur, es[j]);
      j := j + 1;
    }
    assert es[j..] == [];
  }

  method ArpPhase(job: ScanJob, cancel: CancelEvent, subnets: seq<string>, arp: string -> seq<ArpEntry>,
                  t: DeviceTable, lastId: nat)
    returns (t': DeviceTable, lastId': nat)
    requires t.Valid()
    modifies job`partialResults, cancel`polls
    ensures t'.Valid()
    ensures StateOf(t', lastId', job, cancel) == ArpLoop(old(StateOf(t, lastId, job, cancel)), subnets, arp, cancel.firesAt)
  {
    ghost var goal := ArpLoop(StateOf(t, lastId, job, cancel), subnets, arp, cancel.firesAt);
    t', lastId' := t, lastId;
    var k := 0;
    while k < |subnets|
      invariant 0 <= k <= |subnets| && t'.Valid()
      invariant ArpLoop(StateOf(t', lastId', job, cancel), subnets[k..], arp, cancel.firesAt) == goal
    {
      assert subnets[k..][1..] == subnets[k + 1..];
      ghost var cur := StateOf(t', lastId', job, cancel);
      var stop := cancel.IsSet();
      if stop {
        assert StateOf(t', lastId', job, cancel) == Polled(cur);
        return;
      }
      var s := subnets[k];
      var replies := arp(s);
      job.SavePartialResult(ArpKey(s), ArpReply(replies));
      ghost var next := StateOf(t', lastId', job, cancel);
      assert next == Saved(Polled(cur), ArpKey(s), ArpReply(arp(s)));
      t', lastId' := AddArpEntries(next, t', lastId', replies);
      assert StateOf(t', lastId', job, cancel) == AddArp(next, arp(s));
      k := k + 1;
    }
  }

  /** The inner loop over one subnet's ping replies. */
  method AddPingEntries(ghost st: ScanState, t: DeviceTable, lastId: nat, ips: seq<string>)
    returns (t': DeviceTable, lastId': nat)
    requires t.Valid() && st.table == t && st.lastId == lastId
    ensures t'.Valid()
    ensures AddPing(st, ips) == st.(table := t', lastId := lastId')
  {
    t', lastId' := t, lastId;
    ghost var cur := st;
    var j := 0;
    while j < |ips|
      invariant 0 <= j <= |ips| && t'.Valid()
      invariant cur.table == t' && cur.lastId == lastId'
      invariant cur.polls == st.polls && cur.progress == st.progress && cur.partials == st.partials
      invariant AddPing(cur, ips[j..]) == AddPing(st, ips)
    {
      AddPingUnfold(cur, ips, j);
      t', lastId' := AddPingReply(cur, t', lastId', ips[j]);
      cur := PingStep(cur, ips[j]);
      j := j + 1;
    }
    assert ips[j..] == [];
  }

  method PingPhase(job: ScanJob, cancel: CancelEvent, subnets: seq<string>, ping: string -> seq<string>,
                   t: DeviceTable, lastId: nat)
    returns (t': DeviceTable, lastId': nat)
    requires t.Valid()
    modifies job`partialResults, cancel`polls
    ensures t'.Valid()
    ensures StateOf(t', lastId', job, cancel) == PingLoop(old(StateOf(t, lastId, job, cancel)), subnets, ping, cancel.firesAt)
  {
    ghost var goal := PingLoop(StateOf(t, lastId, job, cancel), subnets, ping, cancel.firesAt);
    t', lastId' := t, lastId;
    var k := 0;
    while k < |subnets|
      invariant 0 <= k <= |subnets| && t'.Valid()
      invariant PingLoop(StateOf(t', lastId', job, cancel), subnets[k..], ping, cancel.firesAt) == goal
    {
      assert subnets[k..][1..] == subnets[k + 1..];
      ghost var cur := StateOf(t', lastId', job, cancel);
      var stop := cancel.IsSet();
      if stop {
        assert StateOf(t', lastId', job, cancel) == Polled(cur);
        return;
      }
      var s := subnets[k];
      var replies := ping(s);
      job.SavePartialResult(PingKey(s), PingReply(replies));
      ghost var next := StateOf(t', lastId', job, cancel);
      assert next == Saved(Polled(cur), PingKey(s), PingReply(ping(s)));
      t', lastId' := AddPingEntries(next, t', lastId', replies);
      assert StateOf(t', lastId', job, cancel) == AddPing(next, ping(s));
      k := k + 1;
    }
  }

  /** ARP over every subnet, then the ping sweep when ARP found nothing and no cancel is set. */
  method DiscoverPhase(job: ScanJob, cancel: CancelEvent, subnets: seq<string>, env: Probes,
                       t: DeviceTable, lastId: nat)
    returns (t': DeviceTable, lastId': nat)
    requires t.Valid()
    modifies job`progress, job`partialResults, cancel`polls
    ensures t'.Valid()
    ensures StateOf(t', lastId', job, cancel) == Discover(old(StateOf(t, lastId, job, cancel)), subnets, env, cancel.firesAt)
  {
    ghost var st0 := StateOf(t, lastId, job, cancel);
    job.UpdateProgress(5);
    ghost var st1 := StateOf(t, lastId, job, cancel);
    assert st1 == Progressed(st0, 5);
    t', lastId' := ArpPhase(job, cancel, subnets, env.arp, t, lastId);
    ghost var st2 := StateOf(t', lastId', job, cancel);
    assert st2 == ArpLoop(st1, subnets, env.arp, cancel.firesAt);
    if |t'.order| == 0 {
      var stop := cancel.IsSet();
      if !stop {
        job.UpdateProgress(10);
        ghost var st3 := StateOf(t', lastId', job, cancel);
        assert st3 == Progressed(Polled(st2), 10);
        t', lastId' := PingPhase(job, cancel, subnets, env.ping, t', lastId');
        assert StateOf(t', lastId', job, cancel) == PingLoop(st3, subnets, env.ping, cancel.firesAt);
      }
    }
    assert StateOf(t', lastId', job, cancel) == Fallback(st2, subnets, env.ping, cancel.firesAt);
    job.UpdateProgress(20);
  }

  // ---------------------------------------------------------------------------
  // Phase 2: host names

  /** A non-empty reverse-DNS name replaces the device's host name. */
  method ApplyHostname(ghost st: ScanState, t: DeviceTable, ip: string, h: Option<string>) returns (t': DeviceTable)
    requires t.Valid() && st.table == t
    ensures t'.Valid()
    ensures st.(table := t') == if NonEmpty(h) && ip in st.table.entries then
                                  st.(table := SetEntry(st.table, ip, st.table.entries[ip].(hostname := h)))
                                else st
  {
    t' := t;
    if NonEmpty(h) && ip in t.entries {
      t' := SetEntry(t, ip, t.entries[ip].(hostname := h));
    }
  }

  method ResolvePhase(job: ScanJob, cancel: CancelEvent, ips: seq<string>, hostname: string -> Option<string>,
                      t: DeviceTable, lastId: nat)
    returns (t': DeviceTable)
    requires t.Valid()
    modifies cancel`polls
    ensures t'.Valid()
    ensures StateOf(t', lastId, job, cancel) == ResolveNames(old(StateOf(t, lastId, job, cancel)), ips, hostname, cancel.firesAt)
  {
    ghost var goal := ResolveNames(StateOf(t, lastId, job, cancel), ips, hostname, cancel.firesAt);
    t' := t;
    var k := 0;
    while k < |ips|
      invariant 0 <= k <= |ips| && t'.Valid()
      invariant ResolveNames(StateOf(t', lastId, job, cancel), ips[k..], hostname, cancel.firesAt) == goal
    {
      assert ips[k..][1..] == ips[k + 1..];
      ghost var cur := StateOf(t', lastId, job, cancel);
      var stop := cancel.IsSet();
      if stop {
        assert StateOf(t', lastId, job, cancel) == Polled(cur);
        return;
      }
      var ip := ips[k];
      assert ips[k..][0] == ip;
      var h := hostname(ip);
      t' := ApplyHostname(Polled(cur), t', ip, h);
      assert StateOf(t', lastId, job, cancel) == Polled(cur).(table := t');
      k := k + 1;
    }
  }

  // ---------------------------------------------------------------------------
  // Phase 3: nmap batches

  /** `for ip, host_data in nmap_results.items(): if ip in devices_by_ip: …` */
  method MergeBatch(t: DeviceTable, hosts: map<string, HostData>) returns (t': DeviceTable)
    requires t.Valid()
    ensures t' == MergeNmap(t, hosts)
  {
    t' := t;
    var rest := hosts.Keys;
    while rest != {}
      invariant rest <= hosts.Keys
      invariant t'.order == t.order && t'.entries.Keys == t.entries.Keys
      invariant forall ip :: ip in t.entries ==>
                  t'.entries[ip] == if ip in hosts && ip !in rest then MergeHost(t.entries[ip], hosts[ip]) else t.entries[ip]
      decreases rest
    {
      var ip :| ip in rest;
      if ip in t'.entries {
        t' := t'.(entries := t'.entries[ip := MergeHost(t'.entries[ip], hosts[ip])]);
      }
      rest := rest - {ip};
    }
  }

  /** Poll the cancel event; unless it is set, scan batch `i`, save and merge its results
      and report progress. */
  method BatchOnce(job: ScanJob, cancel: CancelEvent, targets: seq<string>, i: nat, args: NmapArgs,
                   nmap: (seq<string>, string) -> map<string, RawHost>, t: DeviceTable, lastId: nat)
    returns (t': DeviceTable, stop: bool)
    requires t.Valid() && i < BatchCount(|targets|)
    modifies job`progress, job`partialResults, cancel`polls
    ensures t'.Valid()
    ensures stop == Fired(cancel.firesAt, old(cancel.polls))
    ensures stop ==> StateOf(t', lastId, job, cancel) == Polled(old(StateOf(t, lastId, job, cancel)))
    ensures !stop ==> StateOf(t', lastId, job, cancel) == BatchStep(old(StateOf(t, lastId, job, cancel)), targets, i, args, nmap)
  {
    t' := t;
    stop := cancel.IsSet();
    if !stop {
      var hosts := NmapResults(nmap(Batch(targets, i), args.arguments), args.osDetection);
      job.SavePartialResult(NmapKey(i), NmapReply(hosts));
      t' := MergeBatch(t', hosts);
      job.UpdateProgress(BatchProgress(i, BatchCount(|targets|)));
    }
  }

  method BatchPhase(job: ScanJob, cancel: CancelEvent, targets: seq<string>, args: NmapArgs,
                    nmap: (seq<string>, string) -> map<string, RawHost>, t: DeviceTable, lastId: nat)
    returns (t': DeviceTable)
    requires t.Valid()
    modifies job`progress, job`partialResults, cancel`polls
    ensures t'.Valid()
    ensures StateOf(t', lastId, job, cancel) == BatchLoop(old(StateOf(t, lastId, job, cancel)), targets, 0, args, nmap, cancel.firesAt)
  {
    ghost var goal := BatchLoop(StateOf(t, lastId, job, cancel), targets, 0, args, nmap, cancel.firesAt);
    var total := BatchCount(|targets|);
    t' := t;
    var i := 0;
    while i < total
      invariant 0 <= i <= total && t'.Valid()
      invariant BatchLoop(StateOf(t', lastId, job, cancel), targets, i, args, nmap, cancel.firesAt) == goal
    {
      var stop;
      t', stop := BatchOnce(job, cancel, targets, i, args, nmap, t', lastId);
      if stop {
        return;
      }
      i := i + 1;
    }
  }

  method PortScanPhase(job: ScanJob, cancel: CancelEvent, env: Probes, t: DeviceTable, lastId: nat)
    returns (t': DeviceTable)
    requires t.Valid()
    modifies job`progress, job`partialResults, cancel`polls
    ensures t'.Valid()
    ensures StateOf(t', lastId, job, cancel) == PortScan(old(StateOf(t, lastId, job, cancel)), job.options, env.nmap, cancel.firesAt)
  {
    t' := t;
    if job.options.includePorts {
      job.UpdateProgress(30);
      t' := BatchPhase(job, cancel, t.order, ScanArgs(job.options), env.nmap, t, lastId);
    }
  }

  /** Host names, the snapshot before port scanning, then the port scan. */
  method EnrichPhase(job: ScanJob, cancel: CancelEvent, env: Probes, t: DeviceTable, lastId: nat)
    returns (t': DeviceTable)
    requires t.Valid()
    modifies job`progress, job`partialResults, cancel`polls
    ensures t'.Valid()
    ensures StateOf(t', lastId, job, cancel) == Enrich(old(StateOf(t, lastId, job, cancel)), job.options, env, cancel.firesAt)
  {
    t' := ResolvePhase(job, cancel, t.order, env.hostname, t, lastId);
    job.SavePartialResult(SnapshotKey, DeviceSnapshot(t'));
    t' := PortScanPhase(job, cancel, env, t', lastId);
  }

  // ---------------------------------------------------------------------------
  // Phase 4: topology and labels

  /** `Links` over the table order from position `k`, one device at a time. */
  lemma LinksUnfold(t: DeviceTable, k: nat, gw: string, gwId: string, latency: (string, string) -> Option<int>, n: nat)
    requires t.Valid() && k < |t.order|
    ensures var ip := t.order[k];
            Links(t.order[k..], t, gw, gwId, latency, n)
            == if ip != gw then
                 [Connection(n + 1, t.entries[ip].Id(), gwId, "active", "wired", latency(ip, gw), map[])]
                 + Links(t.order[k + 1..], t, gw, gwId, latency, n + 1)
               else Links(t.order[k + 1..], t, gw, gwId, latency, n)
  {
    assert t.order[k..][1..] == t.order[k + 1..];
    assert t.order[k..][0] == t.order[k];
  }

  /** The links from every device but the gateway, in table order. */
  method LinkPhase(t: DeviceTable, gw: string, gwId: string, latency: (string, string) -> Option<int>)
    returns (cs: seq<Connection>)
    requires t.Valid()
    ensures cs == Links(t.order, t, gw, gwId, latency, 0)
  {
    cs := [];
    var n := 0;
    var k := 0;
    while k < |t.order|
      invariant 0 <= k <= |t.order|
      invariant cs + Links(t.order[k..], t, gw, gwId, latency, n) == Links(t.order, t, gw, gwId, latency, 0)
    {
      LinksUnfold(t, k, gw, gwId, latency, n);
      var ip := t.order[k];
      if ip != gw {
        n := n + 1;
        cs := cs + [Connection(n, t.entries[ip].Id(), gwId, "active", "wired", latency(ip, gw), map[])];
      }
      k := k + 1;
    }
  }

  method TopologyPhase(t: DeviceTable, gateway: Option<string>, latency: (string, string) -> Option<int>)
    returns (t': DeviceTable, cs: seq<Connection>)
    requires t.Valid()
    ensures (t', cs) == Topology(t, gateway, latency)
  {
    t', cs := t, [];
    if NonEmpty(gateway) && gateway.value in t.entries {
      var gw := gateway.value;
      t' := SetEntry(t, gw, GatewayDevice(t.entries[gw], gw));
      cs := LinkPhase(t', gw, t'.entries[gw].Id(), latency);
    }
  }

  /** `device['label'] = …` for every device, in table order. */
  method LabelPhase(t: DeviceTable) returns (t': DeviceTable)
    requires t.Valid()
    ensures t' == Labelled(t)
  {
    t' := t;
    var k := 0;
    while k < |t.order|
      invariant 0 <= k <= |t.order|
      invariant t'.order == t.order && t'.entries.Keys == t.entries.Keys
      invariant forall ip :: ip in t.entries ==>
                  t'.entries[ip] == if ip in t.order[..k] then t.entries[ip].(labelText := Some(Label(t.entries[ip])))
                                    else t.entries[ip]
    {
      var ip := t.order[k];
      assert ip !in t.order[..k] by {
        forall m | 0 <= m < k ensures t.order[..k][m] != ip { assert t.order[m] != t.order[k]; }
      }
      assert t.order[..k + 1] == t.order[..k] + [ip];
      var d := t'.entries[ip];
      t' := t'.(entries := t'.entries[ip := d.(labelText := Some(Label(d)))]);
      k := k + 1;
    }
    assert t.order[..k] == t.order;
    assert t'.entries == Labelled(t).entries;
  }

  /** Phase 4 and the result of a scan that was not cancelled. */
  method FinishPhase(job: ScanJob, cancel: CancelEvent, env: Probes, t: DeviceTable, lastId: nat)
    returns (r: ScanResult, t': DeviceTable)
    requires t.Valid()
    modifies job`progress, job`partialResults
    ensures (r, StateOf(t', lastId, job, cancel)) == Finish(old(StateOf(t, lastId, job, cancel)), env)
  {
    job.UpdateProgress(90);
    var connections;
    t', connections := TopologyPhase(t, env.gateway, env.latency);
    t' := LabelPhase(t');
    r := EmptyResult.(devices := t', connections := connections);
    if |t'.order| == 0 {
      r := r.(warning := Some(NoDevicesWarning));
    }
    job.SavePartialResult(SnapshotKey, DeviceSnapshot(t'));
    job.UpdateProgress(99);
  }

  // ---------------------------------------------------------------------------
  // The whole scan

  /** `_perform_network_scan(job, cancel_event)`: the result equals `Scan` of the job's
      options, the probes and the cancel schedule, and the job's progress and partial results
      and the number of polls end as `Scan` says. */
  method PerformNetworkScan(job: ScanJob, cancel: CancelEvent, env: Probes) returns (r: ScanResult)
    modifies job`progress, job`partialResults, cancel`polls
    ensures Leaves(r, job, cancel, Scan(job.options, env, cancel.firesAt, old(cancel.polls), old(job.progress), old(job.partialResults)))
  {
    var o := job.options;
    var subnets := Targets(o, SubnetsOf(env.interfaces));
    if !NonEmpty(o.ipRange) && !NonEmpty(o.subnet) {
      job.SavePartialResult(SubnetsKey, SubnetList(subnets));
    }
    if |subnets| == 0 {
      return EmptyResult.(error := Some(NoSubnetsMessage));
    }
    r := RunPhases(job, cancel, env, subnets);
  }

  method RunPhases(job: ScanJob, cancel: CancelEvent, env: Probes, subnets: seq<string>) returns (r: ScanResult)
    modifies job`progress, job`partialResults, cancel`polls
    ensures Leaves(r, job, cancel, Phases(old(StateOf(EmptyTable, 0, job, cancel)), subnets, job.options, env, cancel.firesAt))
  {
    ghost var st0 := StateOf(EmptyTable, 0, job, cancel);
    var stop := cancel.IsSet();
    ghost var st1 := StateOf(EmptyTable, 0, job, cancel);
    assert st1 == Polled(st0);
    if stop {
      return EmptyResult;
    }
    var t, lastId := DiscoverPhase(job, cancel, subnets, env, EmptyTable, 0);
    ghost var st2 := StateOf(t, lastId, job, cancel);
    assert st2 == Discover(st1, subnets, env, cancel.firesAt);
    r := RunAfterDiscovery(job, cancel, env, t, lastId);
    assert Leaves(r, job, cancel, AfterDiscovery(st2, job.options, env, cancel.firesAt));
  }

  method RunAfterDiscovery(job: ScanJob, cancel: CancelEvent, env: Probes, t: DeviceTable, lastId: nat) returns (r: ScanResult)
    requires t.Valid()
    modifies job`progress, job`partialResults, cancel`polls
    ensures Leaves(r, job, cancel, AfterDiscovery(old(StateOf(t, lastId, job, cancel)), job.options, env, cancel.firesAt))
  {
    ghost var st0 := StateOf(t, lastId, job, cancel);
    var stop := cancel.IsSet();
    ghost var st1 := StateOf(t, lastId, job, cancel);
    assert st1 == Polled(st0);
    if stop {
      return EmptyResult;
    }
    var t' := EnrichPhase(job, cancel, env, t, lastId);
    ghost var st2 := StateOf(t', lastId, job, cancel);
    assert st2 == Enrich(st1, job.options, env, cancel.firesAt);
    r := RunAfterEnrich(job, cancel, env, t', lastId);
    assert Leaves(r, job, cancel, AfterEnrich(st2, env, cancel.firesAt));
  }

  method RunAfterEnrich(job: ScanJob, cancel: CancelEvent, env: Probes, t: DeviceTable, lastId: nat) returns (r: ScanResult)
    requires t.Valid()
    modifies job`progress, job`partialResults, cancel`polls
    ensures Leaves(r, job, cancel, AfterEnrich(old(StateOf(t, lastId, job, cancel)), env, cancel.firesAt))
  {
    var stop := cancel.IsSet();
    if stop {
      job.SavePartialResult(SnapshotKey, DeviceSnapshot(t));
      return EmptyResult.(devices := t, error := Some(UnboundConnectionsMessage));
    }
    var t';
    r, t' := FinishPhase(job, cancel, env, t, lastId);
  }

  /** The scan's result is `out.0` and the job and cancel event hold the state `out.1`. */
  ghost predicate Leaves(r: ScanResult, job: ScanJob, cancel: CancelEvent, out: (ScanResult, ScanState))
    reads job, cancel
  {
    r == out.0 && cancel.polls == out.1.polls && job.progress == out.1.progress && job.partialResults == out.1.partials
  }
}
