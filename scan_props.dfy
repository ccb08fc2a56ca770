// Properties of the scan specification (ScanSpec): device numbering, what the ping
// fallback may add, which nmap batches run under cancellation, the gateway topology,
// and the outcome of a whole scan.
module ScanProps {
  import opened Wrappers
  import opened ScanTypes
  import opened ScanSpec
  import Text

  // ---------------------------------------------------------------------------
  // Device numbering

  /** Device numbers are between 1 and the counter and no two devices share one. */
  ghost predicate Numbered(st: ScanState)
  {
    st.table.Valid()
    && (forall ip :: ip in st.table.entries ==> 1 <= st.table.entries[ip].num <= st.lastId)
    && (forall a, b :: a in st.table.entries && b in st.table.entries && a != b ==>
          st.table.entries[a].num != st.table.entries[b].num)
  }

  /** Number of ARP replies that carry an address. */
  function Addressed(es: seq<ArpEntry>): nat
  {
    if |es| == 0 then 0 else (if es[0].ip != "" then 1 else 0) + Addressed(es[1..])
  }

  lemma PutFresh(st: ScanState, ip: string, d: Device)
    requires Numbered(st) && d.ip == ip && d.num == st.lastId + 1
    ensures Numbered(st.(table := st.table.Put(ip, d), lastId := st.lastId + 1))
  {
    var es, t := st.table.entries, st.table.Put(ip, d);
    assert t.entries == es[ip := d];
    forall a | a in t.entries
      ensures 1 <= t.entries[a].num <= st.lastId + 1
    {
      if a != ip { assert t.entries[a] == es[a]; }
    }
    forall a, b | a in t.entries && b in t.entries && a != b
      ensures t.entries[a].num != t.entries[b].num
    {
      if a == ip {
        assert t.entries[b] == es[b];
      } else if b == ip {
        assert t.entries[a] == es[a];
      } else {
        assert t.entries[a] == es[a] && t.entries[b] == es[b];
      }
    }
  }

  /** One ARP reply: the counter advances iff it carries an address; every device either is
      untouched or is the reply's, numbered one above the old counter. */
  lemma ArpStepFresh(st: ScanState, e: ArpEntry)
    requires Numbered(st)
    ensures Numbered(ArpStep(st, e))
    ensures ArpStep(st, e).lastId == st.lastId + (if e.ip != "" then 1 else 0)
    ensures st.table.entries.Keys <= ArpStep(st, e).table.entries.Keys
    ensures e.ip != "" ==> e.ip in ArpStep(st, e).table.entries && ArpStep(st, e).table.entries[e.ip].num == st.lastId + 1
    ensures forall a :: a in ArpStep(st, e).table.entries && a != e.ip ==>
              a in st.table.entries && ArpStep(st, e).table.entries[a] == st.table.entries[a]
  {
    ArpStepShape(st, e);
    if e.ip != "" {
      PutFresh(st, e.ip, NewDevice(st.lastId + 1, e.ip, Some(e.mac)));
    }
  }

  lemma ArpStepShape(st: ScanState, e: ArpEntry)
    requires st.table.Valid()
    ensures ArpStep(st, e).lastId == st.lastId + (if e.ip != "" then 1 else 0)
    ensures e.ip != "" ==> ArpStep(st, e).table.entries == st.table.entries[e.ip := NewDevice(st.lastId + 1, e.ip, Some(e.mac))]
    ensures e.ip == "" ==> ArpStep(st, e) == st
  {
  }

  /** Each ARP reply with an address gets the next device number, so numbers stay distinct and
      the counter advances once per such reply. */
  lemma {:induction false} AddArpNumbers(st: ScanState, es: seq<ArpEntry>)
    requires Numbered(st)
    ensures Numbered(AddArp(st, es))
    ensures AddArp(st, es).lastId == st.lastId + Addressed(es)
    ensures st.table.entries.Keys <= AddArp(st, es).table.entries.Keys
    decreases |es|
  {
    if |es| > 0 {
      ArpStepFresh(st, es[0]);
      AddArpNumbers(ArpStep(st, es[0]), es[1..]);
    }
  }

  /** Every ARP reply with an address ends up in the table. */
  lemma {:induction false} AddArpCovers(st: ScanState, es: seq<ArpEntry>, i: nat)
    requires Numbered(st) && i < |es| && es[i].ip != ""
    ensures es[i].ip in AddArp(st, es).table.entries
    decreases |es|
  {
    ArpStepFresh(st, es[0]);
    if i == 0 {
      AddArpNumbers(ArpStep(st, es[0]), es[1..]);
    } else {
      assert es[1..][i - 1] == es[i];
      AddArpCovers(ArpStep(st, es[0]), es[1..], i - 1);
    }
  }

  /** A device the ARP phase records or re-records came from one of its replies and carries a
      number above the counter it started from. */
  lemma {:induction false} AddArpOrigin(st: ScanState, es: seq<ArpEntry>, ip: string)
    requires Numbered(st)
    requires ip in AddArp(st, es).table.entries
    requires !(ip in st.table.entries && AddArp(st, es).table.entries[ip] == st.table.entries[ip])
    ensures exists e :: e in es && e.ip == ip
    ensures AddArp(st, es).table.entries[ip].num > st.lastId
    decreases |es|
  {
    var e := es[0];
    var st1 := ArpStep(st, e);
    ArpStepFresh(st, e);
    if ip in st1.table.entries && AddArp(st1, es[1..]).table.entries[ip] == st1.table.entries[ip] {
      assert e.ip == ip;
    } else {
      AddArpOrigin(st1, es[1..], ip);
      var e' :| e' in es[1..] && e'.ip == ip;
      assert e' in es;
    }
  }

  /** One ping reply: known addresses are left alone; a new one is added under the next number
      without a hardware address. */
  lemma PingStepFresh(st: ScanState, ip: string)
    requires Numbered(st)
    ensures Numbered(PingStep(st, ip))
    ensures st.table.entries.Keys <= PingStep(st, ip).table.entries.Keys
    ensures forall a :: a in st.table.entries ==> PingStep(st, ip).table.entries[a] == st.table.entries[a]
    ensures forall a :: a in PingStep(st, ip).table.entries && a !in st.table.entries ==>
              a == ip && PingStep(st, ip).table.entries[a] == NewDevice(st.lastId + 1, ip, None)
  {
    PingStepShape(st, ip);
    if ip !in st.table.entries { PutFresh(st, ip, NewDevice(st.lastId + 1, ip, None)); }
  }

  lemma PingStepShape(st: ScanState, ip: string)
    requires st.table.Valid()
    ensures ip !in st.table.entries ==> PingStep(st, ip).table.entries == st.table.entries[ip := NewDevice(st.lastId + 1, ip, None)]
    ensures ip in st.table.entries ==> PingStep(st, ip) == st
  {
  }

  /** The ping sweep keeps every device already known and adds only addresses it was given,
      each under a number above the old counter and without a hardware address. */
  lemma {:induction false} AddPingNumbers(st: ScanState, ips: seq<string>)
    requires Numbered(st)
    ensures Numbered(AddPing(st, ips))
    ensures st.lastId <= AddPing(st, ips).lastId
    ensures st.table.entries.Keys <= AddPing(st, ips).table.entries.Keys
    ensures forall ip :: ip in st.table.entries ==> AddPing(st, ips).table.entries[ip] == st.table.entries[ip]
    ensures forall ip :: ip in AddPing(st, ips).table.entries && ip !in st.table.entries ==>
              (ip in ips && AddPing(st, ips).table.entries[ip].num > st.lastId && AddPing(st, ips).table.entries[ip].mac.None?)
    decreases |ips|
  {
    if |ips| > 0 {
      PingStepFresh(st, ips[0]);
      AddPingNumbers(PingStep(st, ips[0]), ips[1..]);
    }
  }

  /** The addresses some probe reported for the scanned subnets. */
  ghost predicate Discovered(ip: string, subnets: seq<string>, env: Probes)
  {
    exists s :: s in subnets && ((exists e :: e in env.arp(s) && e.ip == ip) || ip in env.ping(s))
  }

  ghost predicate Sound(st: ScanState, subnets: seq<string>, env: Probes)
  {
    Numbered(st) && forall ip :: ip in st.table.entries ==> Discovered(ip, subnets, env)
  }

  lemma {:induction false} ArpLoopSound(st: ScanState, rest: seq<string>, subnets: seq<string>, env: Probes, setFrom: Option<nat>)
    requires Sound(st, subnets, env)
    requires forall s :: s in rest ==> s in subnets
    ensures Sound(ArpLoop(st, rest, env.arp, setFrom), subnets, env)
    decreases |rest|
  {
    if |rest| > 0 && !Fired(setFrom, st.polls) {
      var s := rest[0];
      var st0 := Saved(Polled(st), ArpKey(s), ArpReply(env.arp(s)));
      AddArpNumbers(st0, env.arp(s));
      var st1 := AddArp(st0, env.arp(s));
      forall ip | ip in st1.table.entries ensures Discovered(ip, subnets, env)
      {
        if !(ip in st0.table.entries && st1.table.entries[ip] == st0.table.entries[ip]) {
          AddArpOrigin(st0, env.arp(s), ip);
        }
      }
      ArpLoopSound(st1, rest[1..], subnets, env, setFrom);
    }
  }

  lemma {:induction false} PingLoopSound(st: ScanState, rest: seq<string>, subnets: seq<string>, env: Probes, setFrom: Option<nat>)
    requires Sound(st, subnets, env)
    requires forall s :: s in rest ==> s in subnets
    ensures Sound(PingLoop(st, rest, env.ping, setFrom), subnets, env)
    decreases |rest|
  {
    if |rest| > 0 && !Fired(setFrom, st.polls) {
      var s := rest[0];
      var st0 := Saved(Polled(st), PingKey(s), PingReply(env.ping(s)));
      AddPingNumbers(st0, env.ping(s));
      PingLoopSound(AddPing(st0, env.ping(s)), rest[1..], subnets, env, setFrom);
    }
  }

  /** Discovery (ARP, then the ping fallback) records only addresses the probes reported,
      under distinct device numbers. */
  lemma DiscoverySound(st: ScanState, subnets: seq<string>, env: Probes, setFrom: Option<nat>)
    requires Sound(st, subnets, env)
    ensures Sound(Fallback(ArpLoop(st, subnets, env.arp, setFrom), subnets, env.ping, setFrom), subnets, env)
  {
    ArpLoopSound(st, subnets, subnets, env, setFrom);
    var a := ArpLoop(st, subnets, env.arp, setFrom);
    if |a.table.order| == 0 && !Fired(setFrom, a.polls) {
      PingLoopSound(Progressed(Polled(a), 10), subnets, subnets, env, setFrom);
    }
  }

  // ---------------------------------------------------------------------------
  // Later phases keep keys and numbers

  ghost predicate SameDevices(t: DeviceTable, u: DeviceTable)
  {
    u.order == t.order && u.entries.Keys == t.entries.Keys
    && forall ip :: ip in t.entries ==> u.entries[ip].num == t.entries[ip].num
  }

  /** Phase 2 keeps every device's key, place and number; when it runs to the end, each
      listed device whose reverse lookup gives a name carries that name, and every other one
      keeps its hostname. */
  lemma ResolveNamesKeeps(st: ScanState, ips: seq<string>, hostname: string -> Option<string>, setFrom: Option<nat>)
    requires st.table.Valid()
    ensures SameDevices(st.table, ResolveNames(st, ips, hostname, setFrom).table)
    ensures Quiet(setFrom, st.polls, |ips|) ==>
              forall ip :: ip in st.table.entries ==>
                ResolveNames(st, ips, hostname, setFrom).table.entries[ip].hostname
                == if ip in ips && NonEmpty(hostname(ip)) then hostname(ip) else st.table.entries[ip].hostname
  {
    var r := ResolveNames(st, ips, hostname, setFrom);
    forall ip | ip in st.table.entries
      ensures r.table.entries[ip].num == st.table.entries[ip].num
    {
      assert r.table.entries[ip] == st.table.entries[ip]
             || r.table.entries[ip] == st.table.entries[ip].(hostname := hostname(ip));
    }
    ResolvedHostnames(st, ips, hostname, setFrom);
  }

  lemma ResolvedHostnames(st: ScanState, ips: seq<string>, hostname: string -> Option<string>, setFrom: Option<nat>)
    requires st.table.Valid()
    ensures Quiet(setFrom, st.polls, |ips|) ==>
              forall ip :: ip in st.table.entries ==>
                ResolveNames(st, ips, hostname, setFrom).table.entries[ip].hostname
                == if ip in ips && NonEmpty(hostname(ip)) then hostname(ip) else st.table.entries[ip].hostname
  {
    var r := ResolveNames(st, ips, hostname, setFrom);
    if Quiet(setFrom, st.polls, |ips|) {
      forall ip | ip in st.table.entries
        ensures r.table.entries[ip].hostname
                == if ip in ips && NonEmpty(hostname(ip)) then hostname(ip) else st.table.entries[ip].hostname
      {
        assert r.table.entries[ip] == (if ip in ips && NonEmpty(hostname(ip))
                                       then st.table.entries[ip].(hostname := hostname(ip))
                                       else st.table.entries[ip]);
      }
    }
  }

  /** nmap reports only addresses it was asked to scan. */
  ghost predicate ScansOnlyTargets(nmap: (seq<string>, string) -> map<string, RawHost>)
  {
    forall b, a, h :: h in nmap(b, a) ==> h in b
  }

  /** With distinct targets, target `k` is in batch `k / 10` and in no other. */
  lemma BatchMember(targets: seq<string>, k: nat, i: nat)
    requires forall x, y :: 0 <= x < y < |targets| ==> targets[x] != targets[y]
    requires k < |targets| && i < BatchCount(|targets|)
    ensures k / BatchSize < BatchCount(|targets|)
    ensures targets[k] in Batch(targets, i) <==> i == k / BatchSize
  {
    var b := Batch(targets, i);
    if i == k / BatchSize {
      assert b[k - i * BatchSize] == targets[k];
    }
  }

  /** Host records cover only a batch's own targets. */
  lemma BatchHostsScanned(targets: seq<string>, i: nat, args: NmapArgs,
                          nmap: (seq<string>, string) -> map<string, RawHost>, ip: string)
    requires ScansOnlyTargets(nmap) && i < BatchCount(|targets|)
    requires ip in BatchHosts(targets, i, args, nmap)
    ensures ip in Batch(targets, i)
  {
    assert ip in nmap(Batch(targets, i), args.arguments);
  }

  /** Batches whose records do not include `ip` leave its device alone. */
  lemma {:induction false} MergedFromSkips(d: Device, ip: string, targets: seq<string>, i: nat, args: NmapArgs,
                                           nmap: (seq<string>, string) -> map<string, RawHost>)
    requires forall j :: i <= j < BatchCount(|targets|) ==> ip !in BatchHosts(targets, j, args, nmap)
    ensures MergedFrom(d, ip, targets, i, args, nmap) == d
    decreases BatchCount(|targets|) - i
  {
    if i < BatchCount(|targets|) {
      assert ip !in BatchHosts(targets, i, args, nmap);
      MergedFromSkips(d, ip, targets, i + 1, args, nmap);
    }
  }

  /** When only batch `b` reports `ip`, the batches from `i` on merge that one record. */
  lemma {:induction false} MergedFromAt(d: Device, ip: string, targets: seq<string>, i: nat, b: nat, args: NmapArgs,
                                        nmap: (seq<string>, string) -> map<string, RawHost>)
    requires i <= b < BatchCount(|targets|)
    requires forall j :: i <= j < BatchCount(|targets|) && j != b ==> ip !in BatchHosts(targets, j, args, nmap)
    ensures var h := BatchHosts(targets, b, args, nmap);
      MergedFrom(d, ip, targets, i, args, nmap) == if ip in h then MergeHost(d, h[ip]) else d
    decreases b - i
  {
    var h := BatchHosts(targets, i, args, nmap);
    if i == b {
      MergedFromSkips(if ip in h then MergeHost(d, h[ip]) else d, ip, targets, i + 1, args, nmap);
    } else {
      assert ip !in h;
      MergedFromAt(d, ip, targets, i + 1, b, args, nmap);
    }
  }

  /** With distinct targets, only batch `k / 10` can report `targets[k]`. */
  lemma OnlyOwnBatchReports(targets: seq<string>, k: nat, args: NmapArgs,
                            nmap: (seq<string>, string) -> map<string, RawHost>)
    requires forall x, y :: 0 <= x < y < |targets| ==> targets[x] != targets[y]
    requires ScansOnlyTargets(nmap) && k < |targets|
    ensures k / BatchSize < BatchCount(|targets|)
    ensures forall j :: 0 <= j < BatchCount(|targets|) && j != k / BatchSize ==>
              targets[k] !in BatchHosts(targets, j, args, nmap)
  {
    BatchMember(targets, k, 0);
    forall j | 0 <= j < BatchCount(|targets|) && j != k / BatchSize
      ensures targets[k] !in BatchHosts(targets, j, args, nmap)
    {
      if targets[k] in BatchHosts(targets, j, args, nmap) {
        BatchHostsScanned(targets, j, args, nmap, targets[k]);
        BatchMember(targets, k, j);
      }
    }
  }

  /** What a device becomes when the port scan runs to the end: the record of the one batch
      that scanned it, merged in, if nmap reported it; otherwise it is unchanged. */
  function MergedDevice(d: Device, targets: seq<string>, k: nat, args: NmapArgs,
                        nmap: (seq<string>, string) -> map<string, RawHost>): (r: Device)
    requires k < |targets|
    ensures k / BatchSize < BatchCount(|targets|)
    ensures var h := BatchHosts(targets, k / BatchSize, args, nmap);
      (targets[k] in h ==> r == MergeHost(d, h[targets[k]])) && (targets[k] !in h ==> r == d)
  {
    var h := BatchHosts(targets, k / BatchSize, args, nmap);
    if targets[k] in h then MergeHost(d, h[targets[k]]) else d
  }

  /** Phase 3 keeps every device's key, place and number; without port scanning nothing
      changes; and when it runs to the end, each device has merged the record of its own
      batch, when nmap reported it. */
  lemma PortScanKeeps(st: ScanState, o: ScanOptions, nmap: (seq<string>, string) -> map<string, RawHost>, setFrom: Option<nat>)
    requires st.table.Valid()
    ensures SameDevices(st.table, PortScan(st, o, nmap, setFrom).table)
    ensures !o.includePorts ==> PortScan(st, o, nmap, setFrom) == st
    ensures o.includePorts && Quiet(setFrom, st.polls, BatchCount(|st.table.order|)) && ScansOnlyTargets(nmap) ==>
              forall k :: 0 <= k < |st.table.order| ==>
                PortScan(st, o, nmap, setFrom).table.entries[st.table.order[k]]
                == MergedDevice(st.table.entries[st.table.order[k]], st.table.order, k, ScanArgs(o), nmap)
  {
    var t := st.table;
    if o.includePorts && Quiet(setFrom, st.polls, BatchCount(|t.order|)) && ScansOnlyTargets(nmap) {
      forall k | 0 <= k < |t.order|
        ensures PortScan(st, o, nmap, setFrom).table.entries[t.order[k]]
                == MergedDevice(t.entries[t.order[k]], t.order, k, ScanArgs(o), nmap)
      {
        OnlyOwnBatchReports(t.order, k, ScanArgs(o), nmap);
        MergedFromAt(t.entries[t.order[k]], t.order[k], t.order, 0, k / BatchSize, ScanArgs(o), nmap);
      }
    }
  }

  // ---------------------------------------------------------------------------
  // Which batches run

  /** Iterations a cancellable loop of `n` iterations completes when its first poll is `p`. */
  function Completed(setFrom: Option<nat>, p: nat, n: nat): (k: nat)
    ensures k <= n
    ensures setFrom.None? ==> k == n
  {
    if setFrom.None? || setFrom.value >= p + n then n
    else if setFrom.value <= p then 0
    else setFrom.value - p
  }

  lemma NmapKeyInjective(i: nat, j: nat)
    requires NmapKey(i) == NmapKey(j)
    ensures i == j
  {
    if i != j { Text.NumberedDiffer("nmap_batch_", i, j); }
  }

  /** Batch `j`'s nmap results are saved exactly when batch `j` ran: the batches before the
      first poll that sees the cancel event run, none after it does. */
  lemma {:induction false} BatchLoopRuns(st: ScanState, targets: seq<string>, i: nat, args: NmapArgs,
                                         nmap: (seq<string>, string) -> map<string, RawHost>, setFrom: Option<nat>, j: nat)
    requires st.table.Valid() && i <= BatchCount(|targets|)
    ensures NmapKey(j) in BatchLoop(st, targets, i, args, nmap, setFrom).partials
            <==> NmapKey(j) in st.partials || i <= j < i + Completed(setFrom, st.polls, BatchCount(|targets|) - i)
    decreases BatchCount(|targets|) - i
  {
    if i < BatchCount(|targets|) && !Fired(setFrom, st.polls) {
      BatchLoopRuns(BatchStep(st, targets, i, args, nmap), targets, i + 1, args, nmap, setFrom, j);
      BatchLoopRunsStep(st, targets, i, args, nmap, setFrom, j);
    } else if i == BatchCount(|targets|) {
      assert BatchLoop(st, targets, i, args, nmap, setFrom) == st;
    } else {
      assert Completed(setFrom, st.polls, BatchCount(|targets|) - i) == 0;
      assert BatchLoop(st, targets, i, args, nmap, setFrom) == Polled(st);
    }
  }

  lemma BatchLoopRunsStep(st: ScanState, targets: seq<string>, i: nat, args: NmapArgs,
                          nmap: (seq<string>, string) -> map<string, RawHost>, setFrom: Option<nat>, j: nat)
    requires st.table.Valid() && i < BatchCount(|targets|) && !Fired(setFrom, st.polls)
    requires var st2 := BatchStep(st, targets, i, args, nmap);
             NmapKey(j) in BatchLoop(st2, targets, i + 1, args, nmap, setFrom).partials
             <==> NmapKey(j) in st2.partials || i + 1 <= j < i + 1 + Completed(setFrom, st2.polls, BatchCount(|targets|) - (i + 1))
    ensures NmapKey(j) in BatchLoop(st, targets, i, args, nmap, setFrom).partials
            <==> NmapKey(j) in st.partials || i <= j < i + Completed(setFrom, st.polls, BatchCount(|targets|) - i)
  {
    var st2 := BatchStep(st, targets, i, args, nmap);
    assert BatchLoop(st, targets, i, args, nmap, setFrom) == BatchLoop(st2, targets, i + 1, args, nmap, setFrom);
    BatchStepSaves(st, targets, i, args, nmap);
    CompletedStep(setFrom, st.polls, BatchCount(|targets|) - i);
    if j != i {
      assert NmapKey(j) != NmapKey(i) by {
        if NmapKey(j) == NmapKey(i) { NmapKeyInjective(i, j); }
      }
      assert NmapKey(j) in st2.partials <==> NmapKey(j) in st.partials;
    }
  }

  /** One batch saves its nmap reply under its own key and nothing else. */
  lemma BatchStepSaves(st: ScanState, targets: seq<string>, i: nat, args: NmapArgs,
                       nmap: (seq<string>, string) -> map<string, RawHost>)
    requires st.table.Valid() && i < BatchCount(|targets|)
    ensures NmapKey(i) in BatchStep(st, targets, i, args, nmap).partials
    ensures forall k :: k != NmapKey(i) ==>
              (k in BatchStep(st, targets, i, args, nmap).partials <==> k in st.partials)
  {
  }

  lemma CompletedStep(setFrom: Option<nat>, p: nat, m: nat)
    requires m > 0 && !Fired(setFrom, p)
    ensures Completed(setFrom, p, m) == 1 + Completed(setFrom, p + 1, m - 1)
  {
  }

  // ---------------------------------------------------------------------------
  // Topology

  /** The addresses in `ips` other than the gateway, in order. */
  function Others(ips: seq<string>, gw: string): seq<string>
  {
    if |ips| == 0 then [] else (if ips[0] != gw then [ips[0]] else []) + Others(ips[1..], gw)
  }

  /** Link `k` runs from the `k`-th non-gateway device to the gateway and is numbered `n + k + 1`. */
  lemma {:induction false} LinksShape(ips: seq<string>, t: DeviceTable, gw: string, gwId: string,
                                      latency: (string, string) -> Option<int>, n: nat)
    requires forall i :: 0 <= i < |ips| ==> ips[i] in t.entries
    ensures var cs := Links(ips, t, gw, gwId, latency, n);
      |cs| == |Others(ips, gw)|
      && forall k :: 0 <= k < |cs| ==>
           Others(ips, gw)[k] in t.entries
           && cs[k] == Connection(n + k + 1, t.entries[Others(ips, gw)[k]].Id(), gwId, "active", "wired",
                                  latency(Others(ips, gw)[k], gw), map[])
    decreases |ips|
  {
    if |ips| > 0 {
      LinksShape(ips[1..], t, gw, gwId, latency, if ips[0] != gw then n + 1 else n);
    }
  }

  lemma {:induction false} OthersDropsOne(ips: seq<string>, gw: string)
    requires forall i, j :: 0 <= i < j < |ips| ==> ips[i] != ips[j]
    ensures |Others(ips, gw)| == if gw in ips then |ips| - 1 else |ips|
    ensures forall k :: 0 <= k < |Others(ips, gw)| ==> Others(ips, gw)[k] != gw && Others(ips, gw)[k] in ips
    ensures forall a, b :: 0 <= a < b < |Others(ips, gw)| ==> Others(ips, gw)[a] != Others(ips, gw)[b]
    decreases |ips|
  {
    if |ips| > 0 {
      OthersDropsOne(ips[1..], gw);
      assert ips[0] !in ips[1..];
      if ips[0] == gw { assert gw !in ips[1..]; }
    }
  }

  /** With the gateway among the devices, every other device gets exactly one link to it (the
      sources are pairwise distinct ids), the links are numbered 1, 2, …, the gateway becomes a
      router and is named "Main Gateway" when it had no name or only its address. Without it
      there are no links and no device changes. */
  lemma TopologyShape(t: DeviceTable, gateway: Option<string>, latency: (string, string) -> Option<int>)
    requires t.Valid()
    requires forall a, b :: a in t.entries && b in t.entries && a != b ==> t.entries[a].num != t.entries[b].num
    ensures var (u, cs) := Topology(t, gateway, latency);
      (GatewayKnown(t, gateway) ==>
         var gw := gateway.value;
         |cs| == |t.order| - 1
         && u.entries[gw].devType == "router"
         && (u.entries[gw].hostname == Some("Main Gateway") <==>
               (!NonEmpty(t.entries[gw].hostname) || t.entries[gw].hostname.value == gw || t.entries[gw].hostname == Some("Main Gateway")))
         && (forall k :: 0 <= k < |cs| ==> cs[k].num == k + 1 && cs[k].target == t.entries[gw].Id() && cs[k].source != cs[k].target)
         && (forall ip :: ip in t.entries && ip != gw ==> exists k :: 0 <= k < |cs| && cs[k].source == t.entries[ip].Id())
         && (forall a, b :: 0 <= a < b < |cs| ==> cs[a].source != cs[b].source))
      && (!GatewayKnown(t, gateway) ==> u == t && cs == [])
  {
    if GatewayKnown(t, gateway) {
      GatewayLinks(t, gateway.value, latency);
    }
  }

  /** The links to a known gateway `gw`. */
  lemma GatewayLinks(t: DeviceTable, gw: string, latency: (string, string) -> Option<int>)
    requires t.Valid() && gw in t.entries
    requires forall a, b :: a in t.entries && b in t.entries && a != b ==> t.entries[a].num != t.entries[b].num
    ensures var t1 := SetEntry(t, gw, GatewayDevice(t.entries[gw], gw));
      var cs := Links(t1.order, t1, gw, t1.entries[gw].Id(), latency, 0);
      |cs| == |t.order| - 1
      && (forall k :: 0 <= k < |cs| ==> cs[k].num == k + 1 && cs[k].target == t.entries[gw].Id() && cs[k].source != cs[k].target)
      && (forall ip :: ip in t.entries && ip != gw ==> exists k :: 0 <= k < |cs| && cs[k].source == t.entries[ip].Id())
      && (forall a, b :: 0 <= a < b < |cs| ==> cs[a].source != cs[b].source)
  {
    var t1 := SetEntry(t, gw, GatewayDevice(t.entries[gw], gw));
    var gwId := t1.entries[gw].Id();
    GatewayLinksBySource(t, gw, latency);
    var cs := Links(t1.order, t1, gw, gwId, latency, 0);
    var os := Others(t.order, gw);
    forall k | 0 <= k < |cs| ensures cs[k].source != cs[k].target
    {
      if cs[k].source == cs[k].target {
        Text.NumberedDiffer("device-", t.entries[os[k]].num, t.entries[gw].num);
      }
    }
    forall ip | ip in t.entries && ip != gw
      ensures exists k :: 0 <= k < |cs| && cs[k].source == t.entries[ip].Id()
    {
      var i := OthersIndex(t1.order, gw, ip);
      assert cs[i].source == t.entries[ip].Id();
    }
    forall a, b | 0 <= a < b < |cs| ensures cs[a].source != cs[b].source
    {
      if cs[a].source == cs[b].source {
        Text.NumberedDiffer("device-", t.entries[os[a]].num, t.entries[os[b]].num);
      }
    }
  }

  /** The links for a known gateway, described through the devices other than the gateway. */
  lemma GatewayLinksBySource(t: DeviceTable, gw: string, latency: (string, string) -> Option<int>)
    requires t.Valid() && gw in t.entries
    ensures var t1 := SetEntry(t, gw, GatewayDevice(t.entries[gw], gw));
      var cs := Links(t1.order, t1, gw, t1.entries[gw].Id(), latency, 0);
      var os := Others(t.order, gw);
      |cs| == |os| && |os| == |t.order| - 1
      && (forall k :: 0 <= k < |cs| ==>
            os[k] in t.entries && os[k] != gw && cs[k].num == k + 1
            && cs[k].source == t.entries[os[k]].Id() && cs[k].target == t.entries[gw].Id())
      && (forall a, b :: 0 <= a < b < |os| ==> os[a] != os[b])
  {
    var t1 := SetEntry(t, gw, GatewayDevice(t.entries[gw], gw));
    LinksShape(t1.order, t1, gw, t1.entries[gw].Id(), latency, 0);
    OthersDropsOne(t1.order, gw);
  }

  lemma {:induction false} OthersIndex(ips: seq<string>, gw: string, ip: string) returns (k: nat)
    requires ip in ips && ip != gw
    ensures k < |Others(ips, gw)| && Others(ips, gw)[k] == ip
    decreases |ips|
  {
    if ips[0] == ip {
      k := 0;
    } else {
      var k' := OthersIndex(ips[1..], gw, ip);
      k := if ips[0] != gw then k' + 1 else k';
    }
  }

  // ---------------------------------------------------------------------------
  // A whole scan

  /** A scan with no target subnets reports that as its error and nothing else. */
  lemma ScanWithoutSubnets(o: ScanOptions, env: Probes, setFrom: Option<nat>, polls: nat, progress: int,
                           partials: map<string, PartialData>)
    requires |Targets(o, SubnetsOf(env.interfaces))| == 0
    ensures Scan(o, env, setFrom, polls, progress, partials).0 == EmptyResult.(error := Some(NoSubnetsMessage))
  {
  }

  /** A scan cancelled before it starts returns an empty result without an error. */
  lemma ScanCancelledAtOnce(o: ScanOptions, env: Probes, setFrom: Option<nat>, polls: nat, progress: int,
                            partials: map<string, PartialData>)
    requires |Targets(o, SubnetsOf(env.interfaces))| > 0 && Fired(setFrom, polls)
    ensures Scan(o, env, setFrom, polls, progress, partials).0 == EmptyResult
  {
  }

  lemma DiscoverStage(st: ScanState, subnets: seq<string>, env: Probes, setFrom: Option<nat>)
    requires Sound(st, subnets, env)
    ensures Sound(Discover(st, subnets, env, setFrom), subnets, env)
  {
    DiscoverySound(Progressed(st, 5), subnets, env, setFrom);
  }

  /** Device `k` of the table after phases 2 and 3 run to the end: its resolved name, then,
      with port scanning, the record of its own batch merged in. */
  function EnrichedDevice(st: ScanState, o: ScanOptions, env: Probes, k: nat): (r: Device)
    requires st.table.Valid() && k < |st.table.order|
    ensures var ip := st.table.order[k];
      var d := st.table.entries[ip];
      var h := env.hostname(ip);
      !o.includePorts ==> r == (if NonEmpty(h) then d.(hostname := h) else d)
  {
    var ip := st.table.order[k];
    var d := st.table.entries[ip];
    var named := if NonEmpty(env.hostname(ip)) then d.(hostname := env.hostname(ip)) else d;
    if o.includePorts then MergedDevice(named, st.table.order, k, ScanArgs(o), env.nmap) else named
  }

  /** Phases 2 and 3 keep every device's key, place and number; when they run to the end and
      nmap reports only scanned addresses, each device is its EnrichedDevice. */
  lemma EnrichStage(st: ScanState, o: ScanOptions, env: Probes, setFrom: Option<nat>)
    requires st.table.Valid()
    ensures SameDevices(st.table, Enrich(st, o, env, setFrom).table)
    ensures Quiet(setFrom, st.polls, |st.table.order| + (if o.includePorts then BatchCount(|st.table.order|) else 0))
            && ScansOnlyTargets(env.nmap) ==>
              forall k :: 0 <= k < |st.table.order| ==>
                Enrich(st, o, env, setFrom).table.entries[st.table.order[k]] == EnrichedDevice(st, o, env, k)
  {
    ResolveNamesKeeps(st, st.table.order, env.hostname, setFrom);
    var c := ResolveNames(st, st.table.order, env.hostname, setFrom);
    PortScanKeeps(Saved(c, SnapshotKey, DeviceSnapshot(c.table)), o, env.nmap, setFrom);
    if Quiet(setFrom, st.polls, |st.table.order| + (if o.includePorts then BatchCount(|st.table.order|) else 0))
       && ScansOnlyTargets(env.nmap) {
      forall k | 0 <= k < |st.table.order|
        ensures Enrich(st, o, env, setFrom).table.entries[st.table.order[k]] == EnrichedDevice(st, o, env, k)
      {
        EnrichedAt(st, o, env, setFrom, k);
      }
    }
  }

  lemma EnrichedAt(st: ScanState, o: ScanOptions, env: Probes, setFrom: Option<nat>, k: nat)
    requires st.table.Valid() && k < |st.table.order| && ScansOnlyTargets(env.nmap)
    requires Quiet(setFrom, st.polls, |st.table.order| + (if o.includePorts then BatchCount(|st.table.order|) else 0))
    ensures Enrich(st, o, env, setFrom).table.entries[st.table.order[k]] == EnrichedDevice(st, o, env, k)
  {
    var ip := st.table.order[k];
    var d := st.table.entries[ip];
    var named := if NonEmpty(env.hostname(ip)) then d.(hostname := env.hostname(ip)) else d;
    if o.includePorts {
      OnlyOwnBatchReports(st.table.order, k, ScanArgs(o), env.nmap);
      MergedFromAt(named, ip, st.table.order, 0, k / BatchSize, ScanArgs(o), env.nmap);
    }
  }

  /** The last phase: every device is labelled and keeps its number; the warning is given
      exactly when the network is empty; with the gateway among the devices it is a router and
      every other device has one link to it; otherwise there are no links; progress ends at 99. */
  lemma FinishShape(d: ScanState, env: Probes)
    requires d.table.Valid()
    requires forall a, b :: a in d.table.entries && b in d.table.entries && a != b ==> d.table.entries[a].num != d.table.entries[b].num
    ensures var (r, st) := Finish(d, env);
      r.error.None?
      && SameDevices(d.table, r.devices)
      && (r.warning.Some? <==> |r.devices.order| == 0)
      && (forall ip :: ip in r.devices.entries ==> r.devices.entries[ip].labelText.Some?)
      && (GatewayKnown(r.devices, env.gateway) ==>
            |r.connections| == |r.devices.order| - 1 && r.devices.entries[env.gateway.value].devType == "router")
      && (!GatewayKnown(r.devices, env.gateway) ==> r.connections == [])
      && st.progress == 99
      && d.partials.Keys <= st.partials.Keys
  {
    var e := Progressed(d, 90);
    TopologyShape(e.table, env.gateway, env.latency);
    var topo := Topology(e.table, env.gateway, env.latency);
    var t := Labelled(topo.0);
    assert GatewayKnown(t, env.gateway) <==> GatewayKnown(e.table, env.gateway);
  }

  /** What every scan result satisfies: the error, if any, is the missing-subnets error or the
      unassigned-`connections` error, and the latter comes only with a cancellation and no
      connections; every reported device was found by a probe of a target subnet; no two
      devices share an id. */
  ghost predicate Plausible(r: ScanResult, subnets: seq<string>, env: Probes, setFrom: Option<nat>)
  {
    (r.error.None? || r.error == Some(NoSubnetsMessage) || r.error == Some(UnboundConnectionsMessage))
    && (r.error == Some(UnboundConnectionsMessage) ==> setFrom.Some? && r.connections == [] && r.warning.None?)
    && r.devices.Valid()
    && (forall ip :: ip in r.devices.entries ==> Discovered(ip, subnets, env))
    && (forall a, b :: a in r.devices.entries && b in r.devices.entries && a != b ==>
          r.devices.entries[a].Id() != r.devices.entries[b].Id())
  }

  lemma DistinctIds(t: DeviceTable)
    requires forall a, b :: a in t.entries && b in t.entries && a != b ==> t.entries[a].num != t.entries[b].num
    ensures forall a, b :: a in t.entries && b in t.entries && a != b ==> t.entries[a].Id() != t.entries[b].Id()
  {
    forall x, y | x in t.entries && y in t.entries && x != y
      ensures t.entries[x].Id() != t.entries[y].Id()
    {
      Text.NumberedDiffer("device-", t.entries[x].num, t.entries[y].num);
    }
  }

  lemma AfterEnrichOutcome(d: ScanState, subnets: seq<string>, env: Probes, setFrom: Option<nat>)
    requires Sound(d, subnets, env)
    ensures Plausible(AfterEnrich(d, env, setFrom).0, subnets, env, setFrom)
  {
    var t := d.table;
    if !Fired(setFrom, d.polls) {
      FinishShape(Polled(d), env);
      t := Finish(Polled(d), env).0.devices;
    }
    DistinctIds(t);
  }

  lemma AfterDiscoveryOutcome(b: ScanState, subnets: seq<string>, o: ScanOptions, env: Probes, setFrom: Option<nat>)
    requires Sound(b, subnets, env)
    ensures Plausible(AfterDiscovery(b, o, env, setFrom).0, subnets, env, setFrom)
  {
    if !Fired(setFrom, b.polls) {
      EnrichStage(Polled(b), o, env, setFrom);
      AfterEnrichOutcome(Enrich(Polled(b), o, env, setFrom), subnets, env, setFrom);
    }
  }

  /** Whatever the cancellation schedule, a scan's result is Plausible. */
  lemma ScanOutcome(o: ScanOptions, env: Probes, setFrom: Option<nat>, polls: nat, progress: int,
                    partials: map<string, PartialData>)
    ensures Plausible(Scan(o, env, setFrom, polls, progress, partials).0, Targets(o, SubnetsOf(env.interfaces)), env, setFrom)
  {
    var subnets := Targets(o, SubnetsOf(env.interfaces));
    var st := InitialState(o, subnets, polls, progress, partials);
    if |subnets| > 0 && !Fired(setFrom, st.polls) {
      DiscoverStage(Polled(st), subnets, env, setFrom);
      AfterDiscoveryOutcome(Discover(Polled(st), subnets, env, setFrom), subnets, o, env, setFrom);
    }
  }

  /** Without a cancellation, a scan with targets runs discovery, enrichment and the last
      phase in turn. */
  lemma UncancelledScanIs(o: ScanOptions, env: Probes, polls: nat, progress: int, partials: map<string, PartialData>)
    requires |Targets(o, SubnetsOf(env.interfaces))| > 0
    ensures var subnets := Targets(o, SubnetsOf(env.interfaces));
      var b := Discover(Polled(InitialState(o, subnets, polls, progress, partials)), subnets, env, None);
      Sound(b, subnets, env)
      && Scan(o, env, None, polls, progress, partials) == Finish(Polled(Enrich(Polled(b), o, env, None)), env)
  {
    var subnets := Targets(o, SubnetsOf(env.interfaces));
    var st := InitialState(o, subnets, polls, progress, partials);
    DiscoverStage(Polled(st), subnets, env, None);
    var b := Discover(Polled(st), subnets, env, None);
    var e := Enrich(Polled(b), o, env, None);
    assert Scan(o, env, None, polls, progress, partials) == Phases(st, subnets, o, env, None);
    assert Phases(st, subnets, o, env, None) == AfterDiscovery(b, o, env, None);
    assert AfterDiscovery(b, o, env, None) == AfterEnrich(e, env, None);
  }

  /** Enrichment and the last phase after a sound discovery, without a cancellation. */
  lemma UncancelledFinish(b: ScanState, subnets: seq<string>, o: ScanOptions, env: Probes)
    requires Sound(b, subnets, env)
    ensures var (r, st) := Finish(Polled(Enrich(Polled(b), o, env, None)), env);
      r.error.None?
      && (r.warning.Some? <==> |r.devices.order| == 0)
      && (forall ip :: ip in r.devices.entries ==> r.devices.entries[ip].labelText.Some?)
      && (GatewayKnown(r.devices, env.gateway) ==>
            |r.connections| == |r.devices.order| - 1 && r.devices.entries[env.gateway.value].devType == "router")
      && (!GatewayKnown(r.devices, env.gateway) ==> r.connections == [])
      && st.progress == 99
      && (o.includePorts ==> forall j :: 0 <= j < BatchCount(|r.devices.order|) ==> NmapKey(j) in st.partials)
  {
    EnrichStage(Polled(b), o, env, None);
    if o.includePorts {
      EnrichRunsBatches(Polled(b), o, env);
    }
    FinishShape(Polled(Enrich(Polled(b), o, env, None)), env);
  }

  /** A scan that is never cancelled and has subnets reports no error; it warns exactly when it
      found no device; every device is labelled; when the default gateway is among the devices
      it is a router and every other device has one link to it, otherwise there are no links;
      it leaves progress at 99. */
  lemma ScanUncancelled(o: ScanOptions, env: Probes, polls: nat, progress: int, partials: map<string, PartialData>)
    requires |Targets(o, SubnetsOf(env.interfaces))| > 0
    ensures var (r, st) := Scan(o, env, None, polls, progress, partials);
      r.error.None?
      && (r.warning.Some? <==> |r.devices.order| == 0)
      && (forall ip :: ip in r.devices.entries ==> r.devices.entries[ip].labelText.Some?)
      && (GatewayKnown(r.devices, env.gateway) ==>
            |r.connections| == |r.devices.order| - 1 && r.devices.entries[env.gateway.value].devType == "router")
      && (!GatewayKnown(r.devices, env.gateway) ==> r.connections == [])
      && st.progress == 99
  {
    var subnets := Targets(o, SubnetsOf(env.interfaces));
    UncancelledScanIs(o, env, polls, progress, partials);
    UncancelledFinish(Discover(Polled(InitialState(o, subnets, polls, progress, partials)), subnets, env, None), subnets, o, env);
  }

  /** Without a cancellation, port scanning runs every batch over the device table. */
  lemma EnrichRunsBatches(s: ScanState, o: ScanOptions, env: Probes)
    requires s.table.Valid() && o.includePorts
    ensures var d := Enrich(s, o, env, None);
      forall j :: 0 <= j < BatchCount(|d.table.order|) ==> NmapKey(j) in d.partials
  {
    EnrichStage(s, o, env, None);
    var d := Enrich(s, o, env, None);
    var c := ResolveNames(s, s.table.order, env.hostname, None);
    ResolveNamesKeeps(s, s.table.order, env.hostname, None);
    var c1 := Saved(c, SnapshotKey, DeviceSnapshot(c.table));
    forall j | 0 <= j < BatchCount(|d.table.order|) ensures NmapKey(j) in d.partials {
      BatchLoopRuns(Progressed(c1, 30), c1.table.order, 0, ScanArgs(o), env.nmap, None, j);
    }
  }

  /** In a scan that is never cancelled and has subnets, with port scanning requested, every
      nmap batch over the discovered devices ran and left its partial result. */
  lemma ScanRunsEveryBatch(o: ScanOptions, env: Probes, polls: nat, progress: int, partials: map<string, PartialData>)
    requires |Targets(o, SubnetsOf(env.interfaces))| > 0 && o.includePorts
    ensures var (r, st) := Scan(o, env, None, polls, progress, partials);
      forall j :: 0 <= j < BatchCount(|r.devices.order|) ==> NmapKey(j) in st.partials
  {
    var subnets := Targets(o, SubnetsOf(env.interfaces));
    UncancelledScanIs(o, env, polls, progress, partials);
    UncancelledFinish(Discover(Polled(InitialState(o, subnets, polls, progress, partials)), subnets, env, None), subnets, o, env);
  }

  /** The last phase changes a device only by naming the gateway a router and by labelling. */
  lemma FinishDevice(d: ScanState, env: Probes, ip: string)
    requires d.table.Valid() && ip in d.table.entries
    ensures var g := d.table.entries[ip];
      var f := if GatewayKnown(d.table, env.gateway) && ip == env.gateway.value then GatewayDevice(g, ip) else g;
      ip in Finish(d, env).0.devices.entries
      && Finish(d, env).0.devices.entries[ip] == f.(labelText := Some(Label(f)))
  {
    var t := Progressed(d, 90).table;
    assert t == d.table;
    if GatewayKnown(t, env.gateway) {
      var gw := env.gateway.value;
      assert Topology(t, env.gateway, env.latency).0 == SetEntry(t, gw, GatewayDevice(t.entries[gw], gw));
    }
  }

  /** In a scan that is never cancelled and has subnets, each discovered device ends with the
      fields phases 2 and 3 gave it (its EnrichedDevice): the resolved name and, with port
      scanning, the status, type, OS and ports of the one nmap record for it. Only the
      gateway's type and name are replaced in the last phase, and every device is labelled. */
  lemma ScanEnrichesDevices(o: ScanOptions, env: Probes, polls: nat, progress: int, partials: map<string, PartialData>)
    requires |Targets(o, SubnetsOf(env.interfaces))| > 0 && ScansOnlyTargets(env.nmap)
    ensures var subnets := Targets(o, SubnetsOf(env.interfaces));
      var b := Discover(Polled(InitialState(o, subnets, polls, progress, partials)), subnets, env, None);
      var r := Scan(o, env, None, polls, progress, partials).0;
      r.devices.order == b.table.order
      && forall k :: 0 <= k < |b.table.order| ==>
           var e := EnrichedDevice(Polled(b), o, env, k);
           var f := r.devices.entries[b.table.order[k]];
           f.num == e.num && f.ip == e.ip && f.mac == e.mac && f.status == e.status && f.metadata == e.metadata
           && (!(GatewayKnown(r.devices, env.gateway) && b.table.order[k] == env.gateway.value) ==>
                 f.hostname == e.hostname && f.devType == e.devType)
  {
    var subnets := Targets(o, SubnetsOf(env.interfaces));
    UncancelledScanIs(o, env, polls, progress, partials);
    var b := Discover(Polled(InitialState(o, subnets, polls, progress, partials)), subnets, env, None);
    ScanEnrichesFrom(b, o, env);
  }

  lemma ScanEnrichesFrom(b: ScanState, o: ScanOptions, env: Probes)
    requires b.table.Valid() && ScansOnlyTargets(env.nmap)
    ensures var r := Finish(Polled(Enrich(Polled(b), o, env, None)), env).0;
      r.devices.order == b.table.order
      && forall k :: 0 <= k < |b.table.order| ==>
           var e := EnrichedDevice(Polled(b), o, env, k);
           var f := r.devices.entries[b.table.order[k]];
           f.num == e.num && f.ip == e.ip && f.mac == e.mac && f.status == e.status && f.metadata == e.metadata
           && (!(GatewayKnown(r.devices, env.gateway) && b.table.order[k] == env.gateway.value) ==>
                 f.hostname == e.hostname && f.devType == e.devType)
  {
    var d := Polled(Enrich(Polled(b), o, env, None));
    forall k | 0 <= k < |b.table.order|
      ensures var e := EnrichedDevice(Polled(b), o, env, k);
        var f := Finish(d, env).0.devices.entries[b.table.order[k]];
        f.num == e.num && f.ip == e.ip && f.mac == e.mac && f.status == e.status && f.metadata == e.metadata
        && (!(GatewayKnown(Finish(d, env).0.devices, env.gateway) && b.table.order[k] == env.gateway.value) ==>
              f.hostname == e.hostname && f.devType == e.devType)
    {
      EnrichedEnd(b, o, env, k);
    }
  }

  lemma EnrichedEnd(b: ScanState, o: ScanOptions, env: Probes, k: nat)
    requires b.table.Valid() && ScansOnlyTargets(env.nmap) && k < |b.table.order|
    ensures var r := Finish(Polled(Enrich(Polled(b), o, env, None)), env).0;
      var e := EnrichedDevice(Polled(b), o, env, k);
      var f := r.devices.entries[b.table.order[k]];
      f.num == e.num && f.ip == e.ip && f.mac == e.mac && f.status == e.status && f.metadata == e.metadata
      && (!(GatewayKnown(r.devices, env.gateway) && b.table.order[k] == env.gateway.value) ==>
            f.hostname == e.hostname && f.devType == e.devType)
  {
    var d := Polled(Enrich(Polled(b), o, env, None));
    EnrichedAt(Polled(b), o, env, None, k);
    FinishDevice(d, env, b.table.order[k]);
  }
}
