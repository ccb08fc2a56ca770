# everyst backend: a Dafny model of its core rules

everyst is a home-network monitoring backend built on Django. This project models the parts
of it that make decisions, and proves what those decisions guarantee.

**The network scanner** (`backend/api/services/network_scanner.py`):
- the `ScanJob` state machine;
- the `NetworkScanner` registry of active and completed jobs, with its cancel events, tasks and stale-job cleanup;
- the phases of `_perform_network_scan`:
  - target selection;
  - ARP discovery with the ping fallback;
  - hostname resolution;
  - batched port scanning with its progress formula;
  - OS and port classification;
  - the gateway topology;
  - labels.

**Storing scan results** (`backend/api/sockets/network.py` and `backend/api/models/network.py`):
- the socket handlers that start, monitor and cancel scans;
- turning scan results into stored devices and connections;
- the record dictionaries.

**Request processing:**
- activity logging and redaction;
- CORS headers;
- the network-tool endpoints and their input sanitiser;
- JWT token extraction for the ASGI middleware and for Socket.IO connections;
- the socket session maps.

**Authentication and policy:**
- password complexity and history;
- login lockout;
- password expiry;
- the user endpoints' guards (at most one owner);
- the role table and the permission predicates.

**Smaller pieces:**
- the memory-alert monitor;
- the notification socket events;
- the single-active SMTP configuration;
- user creation and username validation.

## How the model is built

There is one Dafny module per source file, plus three shared ones:
- `Wrappers` for `Option` and `Result`;
- `Text` for Python's string operations;
- `JsonValues` for request data, Python truthiness and `int()`.

How each kind of source code is modelled:
- **Pure rules** are functions with named results, and lemmas state their properties.
- **Code that updates objects or tables in place** becomes classes. Examples:
  - a `ScanJob`;
  - the scanner registry;
  - the session registry;
  - the role, user, notification, SMTP, attempt and history tables;
  - the ORM used by the scan sockets.

  Each method's `ensures` ties the new state to a specification function of the old state, and lemmas prove properties of that function.
- **Loops** in the source are `while` loops with invariants, for example:
  - the scan phases;
  - the device and connection upserts;
  - the metrics loop;
  - `create_default_roles`.

What stands in for the outside world:
- **Probes are oracle inputs.** ARP, ping, nmap output, DNS, the default gateway, latency and the local interfaces are given to the model as data.
- **Time is a parameter.** Wall-clock time is an integer "now".
- **The ORM is in-memory maps and sequences.**
- **Token decoding and password hashing are function parameters.**

Where the source and its documentation disagree, the model follows the code. The handlers and methods that run do what the code as written does, including where it raises. Where that is evidently not what was meant, a function with the intended behaviour stands beside the written one, with the property the design promises proved about it; each such pair is a row of "## Findings". Examples of following the code:
- Cancelling through the event ends a job COMPLETED.
- The role guards compare Russian role names with the literal English ones.


## Model

| member | source | states |
|---|---|---|
| ScanJobs.ScanJob.constructor | backend/api/services/network_scanner.py:106-117 | a new job is READY with progress 0, the default empty result, no times, no error and no partial results |
| ScanJobs.ScanJob.MarkStarted | backend/api/services/network_scanner.py:134-138 | sets the start time to now, status RUNNING and progress 0; nothing else changes |
| ScanJobs.ScanJob.MarkCompleted | backend/api/services/network_scanner.py:140-147 | sets the end time, status COMPLETED and progress 100; scan time becomes end minus start, and device and connection counts become the sizes of the result's device table and connection list |
| ScanJobs.ScanJob.MarkFailed | backend/api/services/network_scanner.py:149-155 | sets the end time, status FAILED and the error message; the scan time is recomputed only when a start time exists; progress is left as it was |
| ScanJobs.ScanJob.MarkCancelled | backend/api/services/network_scanner.py:157-162 | sets the end time and status CANCELLED; the scan time is recomputed only when a start time exists; the error message is kept |
| ScanJobs.ScanJob.UpdateProgress | backend/api/services/network_scanner.py:164-166 | stores `min(99, p)`, so progress reported while running never reaches 100 |
| ScanJobs.ScanJob.SavePartialResult | backend/api/services/network_scanner.py:168-170 | stores the data under its key and leaves every other key as it was |
| ScanJobs.ScanJob.IsStale | backend/api/services/network_scanner.py:172-179 | stale only while RUNNING; a running job without a start time is always stale; otherwise elapsed time strictly above the threshold |
| ScanJobs.ScanJob.Snapshot | backend/api/services/network_scanner.py:119-132 | the reported id, status name, progress and both counts are the job's own |
| ScanJobs.StaleMonotone | backend/api/services/network_scanner.py:172-179 | a stale job stays stale later and under a shorter threshold |
| ScanTypes.Put | backend/api/services/network_scanner.py:441-449 | assignment into the device dict: a new key goes last, an existing key keeps its place, and the table stays duplicate-free |
| ScanTypes.Targets | backend/api/services/network_scanner.py:402-408 | targets are the explicit ip range if non-empty, else the subnet if non-empty, else the auto-detected local subnets |
| ScanTypes.InterfaceSubnetsSound | backend/api/services/network_scanner.py:663-677 | every network reported for an interface comes from one of its contributing addresses |
| ScanTypes.SubnetsOfSound | backend/api/services/network_scanner.py:648-681 | every auto-detected subnet comes from a contributing address of some interface |
| ScanTypes.LocalSubnetsSkipLoopback | backend/api/services/network_scanner.py:653-670 | no subnet comes from the `lo` interface or from an address starting `127.` or `169.` |
| ScanTypes.OsTypeFromName | backend/api/services/network_scanner.py:927-938 | the OS type is one of router, server, workstation, mobile and other; which one, rule by rule, is ScanTypes.OsTypeFirstMatch |
| ScanTypes.OsTypeFirstMatch | backend/api/services/network_scanner.py:928-938 | the rules are tried in order on the lower-cased name: router iff router or gateway occurs; server iff no router keyword does and server, linux or unix occurs; workstation iff neither earlier rule matches and windows, apple, mac or ios occurs; mobile iff none of those occurs and android does; other iff no keyword occurs |
| ScanTypes.PortHint | backend/api/services/network_scanner.py:940-951 | the hint is server iff the host has port 80 or 443 and port 22, else other |
| ScanTypes.HostType | backend/api/services/network_scanner.py:927-951 | a host typed by its OS name keeps that type; a host still other becomes server iff it has a web port (80 or 443) and SSH (22), and stays other otherwise |
| ScanTypes.FirstName | backend/api/services/network_scanner.py:885-892 | the hostname is the first non-empty listed name: none iff every listed name is empty, otherwise a listed non-empty name with only empty names before it |
| ScanTypes.OpenPorts | backend/api/services/network_scanner.py:900-917 | exactly the open raw ports become records: every open port is listed, everything listed is the record of an open port; nmap's order is kept (ScanTypes.OpenPortsAppend) |
| ScanTypes.OpenPortsAppend | backend/api/services/network_scanner.py:900-917 | the open ports of concatenated port lists are the open ports of each list, concatenated, so nmap's order is kept |
| ScanTypes.OpenPortsSingle | backend/api/services/network_scanner.py:900-917 | one raw port gives its own record iff it is open, and nothing otherwise |
| ScanTypes.HostDataOf | backend/api/services/network_scanner.py:866-953 | status online iff nmap says up; the hostname is FirstName of the reported names, the mac is as reported and the ports are OpenPorts of the TCP ports; without OS detection or matches the OS record is (none, other, 0) and the host always parses; with a match, the host fails to parse iff the best match's accuracy is not an integer, and otherwise the OS record is the best match's name, its HostType and the parsed accuracy |
| ScanTypes.NmapResults | backend/api/services/network_scanner.py:840-958 | when every host parses, one record per host; when one host's accuracy does not parse, the wrapper's exception makes the batch empty |
| ScanTypes.ScanArgs | backend/api/services/network_scanner.py:500-521 | OS detection iff the tier is not BASIC or it is asked for; likewise service detection; the argument string starts with the tier's arguments |
| ScanTypes.BatchCount | backend/api/services/network_scanner.py:527-528 | the number of batches is the least k with 10·k at least the number of targets |
| ScanTypes.Batch | backend/api/services/network_scanner.py:534-536 | batch i is the slice of 1 to 10 targets starting at 10·i |
| ScanTypes.BatchesCover | backend/api/services/network_scanner.py:527-536 | the batches from i on, concatenated, are exactly the targets from 10·i on, so every target is scanned once, in order |
| ScanTypes.BatchProgress | backend/api/services/network_scanner.py:576 | progress after a batch lies in [30, 90] and is 90 exactly after the last batch |
| ScanTypes.BatchProgressMonotone | backend/api/services/network_scanner.py:576-577 | progress never decreases from one batch to a later one |
| ScanTypes.Label | backend/api/services/network_scanner.py:616-620 | the label is the hostname if non-empty; otherwise the capitalised type and a dash, followed by the ip's tail after its last dot (all of the ip when it has no dot) |
| Text.LastFieldIsTail | backend/api/services/network_scanner.py:618 | `split('.')[-1]` is the dot-free tail of the string after its last dot, or the whole string |
| ScanSpec.ArpStep | backend/api/services/network_scanner.py:437-449 | one ARP reply keeps the table well-formed and touches neither polls, progress nor partial results; its effect on numbering is ScanProps.ArpStepFresh |
| ScanSpec.AddArp | backend/api/services/network_scanner.py:437-449 | a subnet's ARP replies keep the table well-formed; its contents are ScanProps.AddArpNumbers, AddArpCovers and AddArpOrigin |
| ScanSpec.ArpLoop | backend/api/services/network_scanner.py:427-449 | the ARP loop keeps the table well-formed and sets no progress |
| ScanSpec.PingStep | backend/api/services/network_scanner.py:464-475 | one ping reply keeps the table well-formed; its effect is ScanProps.PingStepFresh |
| ScanSpec.AddPing | backend/api/services/network_scanner.py:464-475 | a subnet's ping replies keep the table well-formed; contents in ScanProps.AddPingNumbers |
| ScanSpec.PingLoop | backend/api/services/network_scanner.py:455-475 | the ping loop keeps the table well-formed and sets no progress |
| ScanSpec.Fallback | backend/api/services/network_scanner.py:451-475 | when ARP found a device nothing changes; when the table is empty and the cancel event is set, no ping sweep runs and only the poll is counted; otherwise the ping sweep (ScanSpec.PingLoop) runs at progress 10, and the table stays valid |
| ScanSpec.ResolveNames | backend/api/services/network_scanner.py:485-491 | keys, order, the device counter, progress and partial results are kept; each device either is unchanged or has taken its non-empty resolved name; when no cancel is seen during the run, every listed device whose reverse lookup gives a non-empty name takes it, every other device is unchanged, and one poll is counted per ip |
| ScanSpec.PortJson | backend/api/services/network_scanner.py:569-573 | an entry holds port, protocol tcp, service and state in that order, then product and version exactly when nmap reports them |
| ScanSpec.PortsJson | backend/api/services/network_scanner.py:569-573 | the ports metadata has one entry per open port, in order, each the PortJson of its port |
| ScanSpec.MergeHost | backend/api/services/network_scanner.py:549-573 | number, ip, mac and label are kept; hostname, status and type come from the record when it has them and are kept otherwise; os and os_accuracy are set when the record names an OS; ports is set to PortsJson of the ports when there are any; no other metadata key is added or changed |
| ScanSpec.MergeNmap | backend/api/services/network_scanner.py:548-573 | keys, order and numbers are kept; a device the batch reports becomes MergeHost of its record; every other device is unchanged |
| ScanSpec.BatchStep | backend/api/services/network_scanner.py:530-577 | one batch polls the cancel event once, saves its host records under `nmap_batch_i`, and leaves the table MergeNmap of those records; keys, order, numbers and the counter are kept |
| ScanSpec.BatchLoop | backend/api/services/network_scanner.py:530-577 | keys, order, numbers and the counter are kept; when no cancel is seen, each device is MergedFrom: every batch from i on that reports it merges its record in turn |
| ScanSpec.PortScan | backend/api/services/network_scanner.py:496-577 | without ports requested nothing changes; keys, order and the counter are kept; when no cancel is seen, each device is MergedFrom over all the batches |
| ScanSpec.Links | backend/api/services/network_scanner.py:598-613 | at most one link per listed device; the exact shape is ScanProps.LinksShape |
| ScanSpec.GatewayDevice | backend/api/services/network_scanner.py:591-596 | the gateway keeps its number and ip and becomes a router |
| ScanSpec.Topology | backend/api/services/network_scanner.py:580-613 | keeps keys, order and numbers; without the gateway among the devices, nothing changes and there are no links |
| ScanSpec.Labelled | backend/api/services/network_scanner.py:615-620 | every device gets `Label` of itself and nothing else changes |
| ScanSpec.Discover | backend/api/services/network_scanner.py:421-475 | discovery keeps the table well-formed; soundness is ScanProps.DiscoverStage |
| ScanSpec.Enrich | backend/api/services/network_scanner.py:477-577 | phases 2 and 3 keep keys and order; when no cancel is seen, each device takes its non-empty resolved name and then, with ports requested, the records of the batches that report it |
| ScanSpec.Finish | backend/api/services/network_scanner.py:579-632 | progress 90, the gateway topology, labels and the empty-network warning, then progress 99; what it guarantees is ScanProps.FinishShape and ScanProps.FinishDevice |
| ScanSpec.AfterEnrich | backend/api/services/network_scanner.py:579-637 | after phase 3 a set cancel event gives the unbound-`connections` error and otherwise phase 4; its outcome is ScanProps.AfterEnrichOutcome |
| ScanSpec.AfterDiscovery | backend/api/services/network_scanner.py:477-637 | after discovery a set cancel event gives the empty result and otherwise phases 2 to 4; its outcome is ScanProps.AfterDiscoveryOutcome |
| ScanSpec.Phases | backend/api/services/network_scanner.py:413-637 | a set cancel event gives the empty result, otherwise discovery and the later phases |
| ScanSpec.Scan | backend/api/services/network_scanner.py:398-637 | the whole scan; its guarantees are ScanProps.ScanWithoutSubnets, ScanCancelledAtOnce, ScanOutcome, ScanUncancelled, ScanRunsEveryBatch and ScanEnrichesDevices |
| ScanProps.PutFresh | backend/api/services/network_scanner.py:440-442 | inserting under the next device number keeps numbers distinct and within the counter |
| ScanProps.ArpStepFresh | backend/api/services/network_scanner.py:437-449 | a reply with an ip adds or replaces that key with number counter+1 and bumps the counter; a reply without one changes nothing; other keys are untouched |
| ScanProps.AddArpNumbers | backend/api/services/network_scanner.py:437-449 | the counter grows by the number of replies carrying an ip, numbers stay distinct, keys are only added |
| ScanProps.AddArpCovers | backend/api/services/network_scanner.py:437-449 | every ARP reply with an ip ends up in the table |
| ScanProps.AddArpOrigin | backend/api/services/network_scanner.py:437-449 | every new or changed entry comes from a reply and has a number above the old counter |
| ScanProps.PingStepFresh | backend/api/services/network_scanner.py:464-475 | a ping reply adds only an unknown ip, as a new device without mac; known devices are untouched |
| ScanProps.AddPingNumbers | backend/api/services/network_scanner.py:464-475 | the ping sweep never changes a known device; each new one is a reply, has a fresh number and no mac |
| ScanProps.ArpLoopSound | backend/api/services/network_scanner.py:427-449 | after the ARP loop every device was reported by a probe of a target subnet and numbers stay distinct |
| ScanProps.PingLoopSound | backend/api/services/network_scanner.py:455-475 | the same after the ping loop |
| ScanProps.DiscoverySound | backend/api/services/network_scanner.py:427-475 | the same after ARP plus the fallback |
| ScanProps.ResolveNamesKeeps | backend/api/services/network_scanner.py:485-491 | hostname resolution keeps order, keys and numbers; when no cancel is seen, a listed device with a non-empty resolved name carries that name and every other device keeps its hostname |
| ScanProps.ResolvedHostnames | backend/api/services/network_scanner.py:485-491 | when no cancel is seen, a listed device with a non-empty resolved name carries it and every other device keeps its hostname |
| ScanProps.PortScanKeeps | backend/api/services/network_scanner.py:496-577 | port scanning keeps order, keys and numbers; without ports requested nothing changes; when no cancel is seen and nmap reports only scanned addresses, device k is its MergedDevice: the record of batch k/10 merged in when nmap reported it, otherwise unchanged |
| ScanProps.BatchMember | backend/api/services/network_scanner.py:527-536 | with distinct targets, target k lies in batch k/10 and in no other |
| ScanProps.BatchHostsScanned | backend/api/services/network_scanner.py:536-546 | when nmap reports only scanned addresses, a batch's records belong to that batch's targets |
| ScanProps.MergedFromSkips | backend/api/services/network_scanner.py:548-573 | batches whose records do not include an ip leave its device unchanged |
| ScanProps.MergedFromAt | backend/api/services/network_scanner.py:530-573 | when only batch b reports an ip, the batches together merge exactly that record into its device |
| ScanProps.OnlyOwnBatchReports | backend/api/services/network_scanner.py:527-546 | with distinct targets and nmap reporting only scanned addresses, no batch but k/10 reports target k |
| ScanProps.MergedDevice | backend/api/services/network_scanner.py:548-573 | device k after the port scan: MergeHost of the record of batch k/10 when that batch reported it, otherwise the device unchanged |
| ScanProps.BatchLoopRuns | backend/api/services/network_scanner.py:530-546 | the batch loop saves the key `nmap_batch_j` exactly for the batches it completes before the cancel event is seen |
| ScanProps.LinksShape | backend/api/services/network_scanner.py:598-613 | link k goes from the k-th non-gateway device to the gateway id, is numbered n+k+1, active, wired, with the measured latency and empty metadata |
| ScanProps.OthersDropsOne | backend/api/services/network_scanner.py:599-600 | skipping the gateway drops exactly one ip when it is present, none otherwise, and keeps the rest distinct |
| ScanProps.TopologyShape | backend/api/services/network_scanner.py:591-613 | with the gateway among n devices: n-1 links numbered 1.., all to the gateway id, one from every other device, distinct sources; the gateway becomes a router named Main Gateway when it had no name or only its ip; without it, nothing changes and no links |
| ScanProps.GatewayLinks | backend/api/services/network_scanner.py:591-613 | the links built for a known gateway, as in TopologyShape |
| ScanProps.ScanWithoutSubnets | backend/api/services/network_scanner.py:413-414 | with no target subnets the result is empty with the error "No valid subnets found for scanning" |
| ScanProps.ScanCancelledAtOnce | backend/api/services/network_scanner.py:416-418 | a scan whose event is already set returns the empty result with no error |
| ScanProps.DiscoverStage | backend/api/services/network_scanner.py:421-475 | discovery keeps every device traceable to a probe reply and the numbering distinct |
| ScanProps.EnrichStage | backend/api/services/network_scanner.py:477-577 | phases 2 and 3 keep order, keys and numbers; when no cancel is seen and nmap reports only scanned addresses, every device is its EnrichedDevice |
| ScanProps.EnrichedDevice | backend/api/services/network_scanner.py:477-573 | device k after phases 2 and 3; without port scanning it is the device with its non-empty resolved name |
| ScanProps.EnrichedAt | backend/api/services/network_scanner.py:477-577 | when no cancel is seen and nmap reports only scanned addresses, device k after phases 2 and 3 is its EnrichedDevice |
| ScanProps.FinishShape | backend/api/services/network_scanner.py:579-632 | phase 4 gives no error, keeps the devices, warns iff there are none, labels every device, and builds the gateway topology of TopologyShape |
| ScanProps.DistinctIds | backend/api/services/network_scanner.py:440-442 | distinct device numbers give distinct `device-N` ids |
| ScanProps.AfterEnrichOutcome | backend/api/services/network_scanner.py:579-637 | the result after phase 3 is plausible (see ScanProps.ScanOutcome) |
| ScanProps.AfterDiscoveryOutcome | backend/api/services/network_scanner.py:477-637 | the result after discovery is plausible |
| ScanProps.ScanOutcome | backend/api/services/network_scanner.py:398-637 | whatever the cancellation schedule: the error is absent, the missing-subnets error, or the unbound-`connections` error (only after a cancel, with no connections); every device was found by a probe of a target subnet; device ids are distinct |
| ScanProps.ScanUncancelled | backend/api/services/network_scanner.py:398-632 | an uncancelled scan with targets has no error, warns iff no device, labels every device and builds the gateway topology |
| ScanProps.EnrichRunsBatches | backend/api/services/network_scanner.py:530-546 | without a cancel, every batch over the device table is scanned and saved |
| ScanProps.ScanRunsEveryBatch | backend/api/services/network_scanner.py:527-546 | the same for a whole scan with ports requested |
| ScanProps.UncancelledScanIs | backend/api/services/network_scanner.py:413-632 | a scan with targets and no cancel is discovery, phases 2 and 3, then phase 4, and discovery leaves a sound table |
| ScanProps.UncancelledFinish | backend/api/services/network_scanner.py:477-632 | after sound discovery and without a cancel: no error, the warning iff no device, labels, the gateway topology, progress 99, and with ports every batch saved |
| ScanProps.FinishDevice | backend/api/services/network_scanner.py:579-620 | phase 4 changes a device only by turning the gateway into a router (named Main Gateway when it had no name or only its ip) and by labelling it |
| ScanProps.ScanEnrichesDevices | backend/api/services/network_scanner.py:398-632 | in a scan never cancelled with targets, and nmap reporting only scanned addresses, each discovered device ends with the number, ip, mac, status and metadata of its EnrichedDevice (its resolved name and, with ports, the status, OS and ports of its one nmap record), and with its hostname and type too unless it is the gateway |
| ScanProps.ScanEnrichesFrom | backend/api/services/network_scanner.py:477-632 | the same from a given discovery result |
| ScanProps.EnrichedEnd | backend/api/services/network_scanner.py:477-632 | the same for one device |
| ScanEngine.CancelEvent.constructor | backend/api/services/network_scanner.py:216-217 | a new event is unset and not yet polled |
| ScanEngine.CancelEvent.Set | backend/api/services/network_scanner.py:244-246 | `set()` makes the current poll and every later one see the event; an earlier set stays in force |
| ScanEngine.CancelEvent.SetBefore | backend/api/services/network_scanner.py:245-246 | a set by another task landing before a given poll |
| ScanEngine.CancelEvent.IsSet | backend/api/services/network_scanner.py:417 | `is_set()` counts one poll and answers whether the set has landed; once true it stays true |
| ScanEngine.AddArpReply | backend/api/services/network_scanner.py:438-449 | the step method equals ScanSpec.ArpStep |
| ScanEngine.AddPingReply | backend/api/services/network_scanner.py:465-475 | the step method equals ScanSpec.PingStep |
| ScanEngine.AddArpEntries | backend/api/services/network_scanner.py:437-449 | the inner ARP loop equals ScanSpec.AddArp |
| ScanEngine.ArpPhase | backend/api/services/network_scanner.py:426-449 | the subnet loop, with its cancel polls and partial results, equals ScanSpec.ArpLoop |
| ScanEngine.AddPingEntries | backend/api/services/network_scanner.py:464-475 | the inner ping loop equals ScanSpec.AddPing |
| ScanEngine.PingPhase | backend/api/services/network_scanner.py:455-475 | the ping subnet loop equals ScanSpec.PingLoop |
| ScanEngine.DiscoverPhase | backend/api/services/network_scanner.py:420-475 | phase 1 equals ScanSpec.Discover |
| ScanEngine.ApplyHostname | backend/api/services/network_scanner.py:489-491 | a non-empty name replaces the device's hostname; otherwise nothing changes |
| ScanEngine.ResolvePhase | backend/api/services/network_scanner.py:484-494 | the hostname loop equals ScanSpec.ResolveNames |
| ScanEngine.MergeBatch | backend/api/services/network_scanner.py:548-573 | the merge loop equals ScanSpec.MergeNmap |
| ScanEngine.BatchOnce | backend/api/services/network_scanner.py:530-577 | stops iff the poll sees the event; otherwise equals ScanSpec.BatchStep |
| ScanEngine.BatchPhase | backend/api/services/network_scanner.py:526-577 | the batch loop equals ScanSpec.BatchLoop |
| ScanEngine.PortScanPhase | backend/api/services/network_scanner.py:496-577 | phase 3 equals ScanSpec.PortScan |
| ScanEngine.EnrichPhase | backend/api/services/network_scanner.py:477-577 | phases 2 and 3 equal ScanSpec.Enrich |
| ScanEngine.LinkPhase | backend/api/services/network_scanner.py:598-613 | the connection loop equals ScanSpec.Links |
| ScanEngine.TopologyPhase | backend/api/services/network_scanner.py:583-613 | equals ScanSpec.Topology |
| ScanEngine.LabelPhase | backend/api/services/network_scanner.py:615-620 | the label loop equals ScanSpec.Labelled |
| ScanEngine.FinishPhase | backend/api/services/network_scanner.py:579-632 | phase 4 and the result equal ScanSpec.Finish |
| ScanEngine.PerformNetworkScan | backend/api/services/network_scanner.py:387-637 | the result, the job's progress and partial results and the event's polls are those of ScanSpec.Scan, whose properties are the ScanProps lemmas |
| ScanEngine.RunPhases | backend/api/services/network_scanner.py:413-637 | equals ScanSpec.Phases |
| ScanEngine.RunAfterDiscovery | backend/api/services/network_scanner.py:477-637 | equals ScanSpec.AfterDiscovery |
| ScanEngine.RunAfterEnrich | backend/api/services/network_scanner.py:579-637 | equals ScanSpec.AfterEnrich |
| ScannerRegistry.NetworkScanner.constructor | backend/api/services/network_scanner.py:191-196 | all four maps start empty |
| ScannerRegistry.NetworkScanner.StartScan | backend/api/services/network_scanner.py:198-225 | the new READY job (with default options when none are given) is filed under its id with a fresh unset event and a task; nothing else changes |
| ScannerRegistry.NetworkScanner.CancelScan | backend/api/services/network_scanner.py:227-248 | returns true iff the id is active and RUNNING, and then the job's event is set; otherwise no event changes |
| ScannerRegistry.NetworkScanner.ScanStatusOf | backend/api/services/network_scanner.py:250-264 | the active job first, then the completed one, else none |
| ScannerRegistry.NetworkScanner.CleanupStaleJobs | backend/api/services/network_scanner.py:284-313 | exactly the stale active jobs are failed with "Scan timed out or was stuck", their events set, their tasks cancelled and moved to completed; the count is their number; no stale job remains, so a second call returns 0 |
| ScannerRegistry.NetworkScanner.StartRun | backend/api/services/network_scanner.py:332-342 | a task not cancelled whose job is still active marks it RUNNING with the start time and progress 0; a cancelled task changes nothing; a job no longer active only has its event and task released |
| ScannerRegistry.NetworkScanner.FinishRun | backend/api/services/network_scanner.py:354-385 | a returned scan stores ScanSpec.Scan's result and completes the job (an event-cancelled scan also ends COMPLETED); timeout fails with "Scan timed out after N seconds"; a cancelled task ends CANCELLED; an exception fails with "Scan failed: …"; the job is moved to completed and its event and task removed |
| ScannerRegistry.NetworkScanner.ReleaseJob | backend/api/services/network_scanner.py:370-385 | the job is filed as completed and its event and task removed |
| ScannerRegistry.NetworkScanner.FailStaleJobs | backend/api/services/network_scanner.py:294-298 | every stale active job is failed as stuck; the others are untouched and not stale |
| ScannerRegistry.NetworkScanner.RetireJob | backend/api/services/network_scanner.py:301-311 | one stale job: event set, task cancelled, moved from active to completed |
| ScannerRegistry.NetworkScanner.RetireJobs | backend/api/services/network_scanner.py:300-311 | all named jobs moved to completed with their events set and tasks cancelled |
| ScannerRegistry.CompleteScan | backend/api/services/network_scanner.py:355-361 | a scan that returns stores its result, stamped with the elapsed time, and completes the job |
| ScannerRegistry.AwaitScan | backend/api/services/network_scanner.py:354-368 | the outcome mapping of `_run_scan_job`: returned → COMPLETED, timeout → FAILED with the timeout text, task cancel → CANCELLED, exception → FAILED with "Scan failed: …" |
| ScannerRegistry.RetireStep | backend/api/services/network_scanner.py:301-311 | one more retired job is the same as retiring the set with it added |
| ScannerRegistry.RetireKeepsFiled | backend/api/services/network_scanner.py:300-311 | moving jobs from active to completed keeps the registry invariant (disjoint maps, ids match, events tracked) |
| NetworkRecords.ObjectOrEmpty | backend/api/models/network.py:57 | an absent or empty metadata object is rendered as `{}`, any other as itself |
| NetworkRecords.ListOrEmpty | backend/api/models/network.py:56 | absent or empty tags are rendered as `[]`, any other list as itself |
| NetworkRecords.DeviceToDict | backend/api/models/network.py:46-60 | the device dict shows the id as text and each column as stored, with `[]` for empty tags and `{}` for empty metadata |
| NetworkRecords.ConnectionToDict | backend/api/models/network.py:100-114 | the connection dict shows its id and its endpoints' ids as text, `packet_loss` as `packetLoss`, the other columns as stored, and `{}` for empty metadata |
| NetworkRecords.ScanToDict | backend/api/models/network.py:141-170 | `isStale` iff the status is in-progress and more than 1800 seconds have elapsed; `errorMessage` is present iff the error message is non-empty, and then it is that message |
| NetworkRecords.StaleScanMonotone | backend/api/models/network.py:148-155 | a stale scan record stays stale later |
| NetworkSockets.ScanTypeOf | backend/api/sockets/network.py:253-260 | the upper-cased text BASIC, INTENSE or FULL selects that tier; any other text leaves the current tier |
| NetworkSockets.ParseScanOptions | backend/api/sockets/network.py:249-274 | options start from the defaults; scan type, ip range, include_ports (truthiness), include_os_detection and timeout (`int()`) are taken only when present; a text ip range is kept, a false non-text one (false, 0, empty list or object) acts as no range; the request fails exactly when a present scan type is not text, an ip range is true but not text, or the timeout does not convert |
| NetworkSockets.EmptyOptionsAreDefault | backend/api/sockets/network.py:249-251 | a request without data scans with every default option |
| NetworkSockets.StartAsWritten | backend/api/sockets/network.py:239-331 | as written, the request is never accepted and no monitor starts; unauthenticated, unparsable and active-scan requests get their refusal with no change; otherwise the scan starts, one in-progress record is inserted and the reply is the missing-`metadata` error |
| NetworkSockets.StartAsWrittenNeverAccepts | backend/api/sockets/network.py:286-331 | as written, an accepted request creates the record and starts the job but is answered with an error, and no monitor runs |
| NetworkSockets.StartNetworkScan | backend/api/sockets/network.py:239-328 | accepted iff authenticated, the options parse and no scan is active; unauthenticated gives "Authentication required" and an active scan "A scan is already in progress", both with no change; an accepted request inserts one in-progress record holding the job id, starts the job and its monitor, and returns the job id |
| NetworkSockets.RecordOutcome | backend/api/sockets/network.py:417-428 | COMPLETED → completed with the message unchanged; FAILED → failed with the job's error; CANCELLED → failed with "Scan was cancelled by user"; any other status → failed with "Unexpected scan status: <name>" |
| NetworkSockets.UpdatedScanRecord | backend/api/sockets/network.py:416-433 | the record takes RecordOutcome's status and message, the device count and the scan time; SaveScanResults applies it to an existing record |
| NetworkSockets.MergedMetadata | backend/api/sockets/network.py:481-485 | empty scan metadata leaves the stored metadata; otherwise keys are the union, scanned keys take the new values and other stored keys keep theirs |
| NetworkSockets.UpsertDevice | backend/api/sockets/network.py:456-491 | a device without ip changes nothing; with no stored row for its ip, a row CreatedDevice with LabelFor as label is inserted under the next key and mapped, or nothing happens when there is no label; with exactly one row, that row is mapped and, unless manually added, becomes RefreshedDevice; with several rows nothing changes; stored rows keep ip and manual flag |
| NetworkSockets.LabelFor | backend/api/sockets/network.py:463 | a new record's label is the scan's label, else its hostname; UpsertDevice skips a device with neither |
| NetworkSockets.CreatedDevice | backend/api/sockets/network.py:461-472 | the `defaults` of `get_or_create`; UpsertDevice states when such a row is inserted |
| NetworkSockets.RefreshedDevice | backend/api/sockets/network.py:475-488 | an existing, not manual record takes the scanned type, mac, hostname and status, the label when given, merged metadata and the scan time; UpsertDevice states when |
| NetworkSockets.UpsertDevices | backend/api/sockets/network.py:455-493 | the device loop touches only device rows; every mapped job id is the id of a scanned device and points at a stored row holding that device's ip |
| NetworkSockets.ManualDevicesKept | backend/api/sockets/network.py:473-474 | after the device loop every stored device keeps its ip and manual flag, and every manually added device is unchanged |
| NetworkSockets.UpsertConnection | backend/api/sockets/network.py:496-527 | a connection is saved only when both endpoints are mapped, under its (source, target) pair: other pairs unchanged, type, status and latency taken from the scan, an existing row keeps its id |
| NetworkSockets.UpsertConnections | backend/api/sockets/network.py:495-529 | the connection loop touches only connection rows |
| NetworkSockets.ConnectionsKept | backend/api/sockets/network.py:499-502 | the connection loop never drops a stored connection |
| NetworkSockets.ConnectionsOnlyMapped | backend/api/sockets/network.py:499-502 | every new (source, target) pair comes from a scanned connection whose both ends were mapped |
| NetworkSockets.SaveScanResults | backend/api/sockets/network.py:401-445 | a missing record leaves the database as it is; an existing record becomes UpdatedScanRecord; for a completed job the devices are those of UpsertDevices over the table in order and the connections those of UpsertConnections through its id mapping |
| NetworkSockets.SavesOnlyCompleted | backend/api/sockets/network.py:441-445 | when the record is missing or the job did not complete, no device or connection is written, and an existing record is marked failed |
| NetworkSockets.SaveKeepsManualDevices | backend/api/sockets/network.py:473-474 | saving results never changes a manually added device |
| NetworkSockets.RecordProgress | backend/api/sockets/network.py:367-376 | corrected half of the `scan.metadata` finding at :373: a progress update never touches devices or connections or adds a record; the given record gets the job's device count and its progress stored with it; no other record changes |
| NetworkSockets.RecordProgressAsWritten | backend/api/sockets/network.py:367-376 | as written, a stored record makes the update raise the missing-`metadata` error and nothing is saved; a missing record leaves the database as it is |
| NetworkSockets.MonitorFrom | backend/api/sockets/network.py:342-398 | corrected half of the :373 finding (progress stored and polling continued): the monitor loop keeps the database well-formed |
| NetworkSockets.MonitorAsWritten | backend/api/sockets/network.py:342-398 | as written, the monitor keeps the database well-formed |
| NetworkSockets.MonitorAsWrittenStops | backend/api/sockets/network.py:364-398 | as written, a RUNNING first view of a stored record ends the monitor with no event and no change, where the corrected monitor broadcasts progress; a finished first view gives the one final event either way |
| NetworkSockets.MonitorAgreesWithoutRecord | backend/api/sockets/network.py:367-381 | when the record does not exist, the written and corrected monitors give the same database and events |
| NetworkSockets.MonitorCompletesOnce | backend/api/sockets/network.py:350-363 | every event but the last is a running, incomplete one; a completion event is the last and has progress 100; it is sent exactly when the job is seen leaving RUNNING |
| NetworkSockets.ResolvedJob | backend/api/sockets/network.py:768-789 | corrected half of the `scan.metadata` finding at :784: a given job id is used as it is; otherwise only a job id stored with the given scan record |
| NetworkSockets.ResolvedJobAsWritten | backend/api/sockets/network.py:768-789 | as written, a truthy job id is used; otherwise a scan id naming a stored record raises the missing-`metadata` error, and any other request resolves to no job |
| NetworkSockets.ScanIdCancelRaises | backend/api/sockets/network.py:778-789 | wherever the written lookup succeeds it agrees with the corrected one; a scan id alone for a record that holds a job id raises as written, where the corrected lookup finds that job |
| NetworkSockets.MarkedCancelled | backend/api/sockets/network.py:803-806 | only that scan record changes: status failed with "Scan was cancelled by user" |
| NetworkSockets.Orm.constructor | backend/api/sockets/network.py:449-453 | the store holds the given database |
| NetworkSockets.Orm.SaveDevice | backend/api/sockets/network.py:457-491 | the step method equals NetworkSockets.UpsertDevice |
| NetworkSockets.Orm.SaveDevices | backend/api/sockets/network.py:455-493 | the device loop equals NetworkSockets.UpsertDevices over the table in order |
| NetworkSockets.Orm.SaveConnections | backend/api/sockets/network.py:495-529 | the connection loop equals NetworkSockets.UpsertConnections |
| NetworkSockets.Orm.SaveDevicesAndConnections | backend/api/sockets/network.py:449-531 | devices first, then connections through the id mapping built on the way |
| NetworkSockets.Orm.SaveResults | backend/api/sockets/network.py:401-445 | equals NetworkSockets.SaveScanResults |
| NetworkSockets.Orm.MonitorScanProgress | backend/api/sockets/network.py:334-398 | the database and the broadcast events equal NetworkSockets.MonitorAsWritten, so the database never changes and the loop ends at the first running view of a stored record |
| NetworkSockets.Orm.CancelNetworkScan | backend/api/sockets/network.py:746-859 | unauthenticated or no ids: error with no change; a scan id alone for a stored record: the missing-`metadata` error with no change; with a job id, success iff the scanner cancels a running job, and then the given record is marked failed; with no job found, the record-not-cancelled error with no change |
| Roles.DefaultRolesTable | backend/api/models/role.py:43-80 | four default roles with distinct names and priorities 1 to 4; owner and admin hold every flag, the manager every flag but user management, the user none; a smaller priority number never has fewer flags |
| Roles.GetOrCreate | backend/api/models/role.py:83 | an existing name leaves the table as it is; otherwise the row is inserted, unless its priority is taken (unique column: failure, table unchanged); existing rows are never changed |
| Roles.CreateRoles | backend/api/models/role.py:82-83 | `get_or_create` for each default in turn, stopping at an integrity error; its properties are Roles.CreateRolesKeeps, CreateRolesPresent, CreateRolesStops, CreateDefaultRolesIdempotent and CreateDefaultRolesFresh |
| Roles.CreateRolesKeeps | backend/api/models/role.py:82-83 | creating the defaults never modifies an existing row, and a run without error leaves every default name in the table |
| Roles.CreateRolesPresent | backend/api/models/role.py:83 | when every name is already present, nothing changes |
| Roles.CreateDefaultRolesIdempotent | backend/api/models/role.py:40-83 | a second run after a successful one changes nothing and succeeds |
| Roles.CreateDefaultRolesFresh | backend/api/models/role.py:40-83 | on an empty table the four defaults are inserted exactly as listed |
| Roles.CreateRolesStops | backend/api/models/role.py:82-83 | after an integrity error the remaining defaults are not attempted |
| Roles.RoleStore.constructor | backend/api/models/role.py:6-32 | the store holds the given role table |
| Roles.RoleStore.CreateDefaultRoles | backend/api/models/role.py:40-83 | the loop equals Roles.CreateRoles over the default rows |
| AccessPermissions.ViewLogsAttribute | backend/api/permissions/access_permissions.py:110 | the role has no `can_view_logs` column, so the attribute reads as false |
| AccessPermissions.NothingWithoutRole | backend/api/permissions/access_permissions.py:11-112 | every permission is refused unless the user is authenticated and has a role |
| AccessPermissions.Hierarchy | backend/api/permissions/access_permissions.py:11-112 | an owner is an admin, an admin a manager, and an admin passes every capability check whatever the role's flags |
| AccessPermissions.ViewLogsOnlyAdmins | backend/api/permissions/access_permissions.py:104-112 | viewing logs is allowed exactly to admins and owners |
| AccessPermissions.DefaultNamesAreNotEnglish | backend/api/models/role.py:12-15 | no default role is named "owner", "admin" or "manager" |
| AccessPermissions.DefaultRolesPassOnFlags | backend/api/permissions/access_permissions.py:11-112 | holding a default role, a user is never owner, admin or manager and never views logs; each capability check passes exactly when the role's own flag is set |
| UserModel.EmailPrefix | backend/api/models/user.py:15 | `email.split('@')[0]` holds no '@' |
| UserModel.EmailPrefixIsPrefix | backend/api/models/user.py:15 | the prefix starts the email and ends at its first '@' or at its end |
| UserModel.NormalizeEmail | backend/api/models/user.py:16 | the normalised address keeps the stripped length, or is the address unchanged when it has no '@' |
| UserModel.CreateUser | backend/api/models/user.py:10-20 | an empty email raises "The Email must be set"; otherwise the user has the normalised email, the given password and role, the given username or else the part of the email before its first '@', and is_staff/is_superuser default false and is_active true |
| UserModel.Save | backend/api/models/user.py:57-62 | an empty username with an email is filled from the email; otherwise the row is written unchanged |
| UserModel.SetDefault | backend/api/models/user.py:24-26 | `dict.setdefault`: an existing key keeps its value, a missing one gets the default |
| UserModel.SuperuserExtra | backend/api/models/user.py:24-26 | every given field is passed on unchanged, and the three flags are True unless given |
| UserModel.SuperuserFlags | backend/api/models/user.py:22-32 | an explicit is_staff that is not True raises "Superuser must have is_staff=True.", then likewise for is_superuser; without explicit flags the superuser is staff, superuser and active; with an email and no refusing flag creation succeeds |
| UserModel.CreatedUsername | backend/api/models/user.py:14-15 | without a username the created user's name starts the email and holds no '@' |
| UserSerializer.ValidateUsernameAsWritten | backend/api/serializers/user.py:38-46 | as written, a username is accepted iff it has at least 3 characters and no stored user at all holds it |
| UserSerializer.UnchangedUsernameRefused | backend/api/serializers/user.py:44-45 | as written, an update resubmitting the user's own username is refused as taken |
| UserSerializer.ValidateUsername | backend/api/serializers/user.py:38-46 | empty → "Username is required."; 1 or 2 characters → "Username must be at least 3 characters long."; held by another user → "This username is already in use."; otherwise the value is accepted unchanged |
| UserSerializer.ValidateUsernameCorrected | backend/api/serializers/user.py:38-46 | on create the corrected check equals the written one; on update it accepts the user's own username when nobody else holds it |
| UserSerializer.AcceptedUsernameStaysUnique | backend/api/models/user.py:37 | writing an accepted username keeps usernames unique |
| UserSerializer.Rendered | backend/api/serializers/user.py:20-30 | a rendered user shows exactly the declared fields that are not write-only, so never the password |
| UserSerializer.Create | backend/api/serializers/user.py:32-36 | the password is passed to `create_user` on its own and becomes the user's password; the role and username are kept; an empty email fails |
| UserViews.GetObject | backend/api/views/user.py:44-59 | the requested user is found iff it exists and is the requester, or the requester has a role and is owner/admin by name, staff, superuser or may manage users; it is then the stored user |
| UserViews.ManagersSeeAll | backend/api/views/user.py:44-73 | a requester that may manage users finds every stored user; one without a role finds only itself |
| UserViews.SetRoleGuard | backend/api/views/user.py:133-186 | a role is assigned only to an existing user other than the requester, with a role name given and found in the role table, and then it is that row |
| UserViews.Assigned | backend/api/views/user.py:189-202 | the user gets the role, is staff iff the role is "owner" or "admin", is superuser iff it is "owner", and keeps every other field |
| UserViews.SetRoleOutcome | backend/api/views/user.py:133-220 | the reply and the new user table of `set_role`; its properties are UserViews.SetRoleEffect, SetRoleRefusals and SetRoleKeepsOneOwner |
| UserViews.SetRoleEffect | backend/api/views/user.py:133-220 | a refused request changes nothing; status 200 changes only user `pk`, to the assigned role and flags |
| UserViews.SetRoleRefusals | backend/api/views/user.py:140-167 | a missing or empty role name gives 400 "Role name is required"; an accepted request never targets the requester, grants owner only when the requester is owner, and admin only when it is owner or admin |
| UserViews.SetRoleKeepsOneOwner | backend/api/views/user.py:170-186 | while at most one user is owner, `set_role` keeps it so, and an owner is never demoted |
| UserViews.CreateAction | backend/api/views/user.py:61-97 | a created user (201) is the only change: one new row under the new id; any refusal changes nothing |
| UserViews.CreateKeepsOneOwner | backend/api/views/user.py:80-97 | `create` never adds a second owner |
| UserViews.CreatedOwnerIsFirst | backend/api/views/user.py:80-97 | a user created as owner was asked for with the owner role name, and no stored user was an owner before |
| UserViews.DestroyOutcome | backend/api/views/user.py:259-279 | a deletion (204) is the only change, and removes exactly user `pk`, which exists, is not the requester and is not an owner |
| UserViews.DestroyKeepsOwners | backend/api/views/user.py:259-279 | deleting never removes the requester or an owner, and keeps at most one owner |
| UserViews.ChangePasswordOutcome | backend/api/views/user.py:223-257 | the reply and the new user table of `change_password`; its rules are UserViews.ChangePasswordRule |
| UserViews.ChangePasswordRule | backend/api/views/user.py:223-257 | a refusal changes nothing; success changes only user `pk`'s password, for oneself or by staff, with both passwords given and the current one correct; a wrong current password gives 400 "Current password is incorrect" |
| UserViews.UserDirectory.constructor | backend/api/views/user.py:40 | the directory holds the given users |
| UserViews.UserDirectory.SetRole | backend/api/views/user.py:133-220 | the reply and the new table equal UserViews.SetRoleOutcome |
| UserViews.UserDirectory.Destroy | backend/api/views/user.py:259-279 | the reply and the new table equal UserViews.DestroyOutcome |
| UserViews.UserDirectory.ChangePassword | backend/api/views/user.py:223-257 | the reply and the new table equal UserViews.ChangePasswordOutcome |
| SocketAuth.BearerToken | backend/api/sockets/auth.py:34-37 | a token is read iff the text starts with "Bearer ", and it is the first space-separated word after it |
| SocketAuth.BearerRoundTrip | backend/api/sockets/auth.py:34-37 | a token without spaces, prefixed with "Bearer ", reads back as itself |
| SocketAuth.UserFromToken | backend/api/sockets/auth.py:23-55 | a user is returned only for a Bearer token whose decoded id claim names a stored active user; any such claim that is positive gives that user |
| SocketAuth.QueryPairs | backend/api/sockets/auth.py:103 | `parse_qs` keeps no blank value |
| SocketAuth.FirstValue | backend/api/sockets/auth.py:104-105 | the first value of a key is one of its pairs; none exactly when the key is absent |
| SocketAuth.QueryToken | backend/api/sockets/auth.py:103-105 | a query token is never empty |
| SocketAuth.QueryTokenRoundTrip | backend/api/sockets/auth.py:103-105 | `token=<t>` yields t |
| SocketAuth.ConnectToken | backend/api/sockets/auth.py:97-112 | the query token wins; without one, the Bearer token of the authorization header |
| SocketAuth.ConnectUser | backend/api/sockets/auth.py:114-119 | a connecting user is a stored active user, found only from a non-empty token |
| SocketAuth.BindAsWritten | backend/api/sockets/auth.py:171-174 | as written, binding overwrites the two entries and nothing else |
| SocketAuth.ReauthenticationLeaksSession | backend/api/sockets/auth.py:173-174 | as written, a session re-authenticated as another user leaves the first user's entry pointing at a session that is no longer theirs |
| SocketAuth.Bind | backend/api/sockets/auth.py:171-174 | the user and session map to each other; other users keep their session unless it was this one, which drops them |
| SocketAuth.BindKeepsBacked | backend/api/sockets/auth.py:171-174 | the corrected binding keeps every user entry backed by its session; it equals the written binding when the session was free or already this user's |
| SocketAuth.Unbind | backend/api/sockets/auth.py:142-147 | the session entry is removed; the user entry is removed only when it points at this session |
| SocketAuth.UnbindKeepsBacked | backend/api/sockets/auth.py:130-147 | disconnecting keeps entries backed, and no user is left on the closed session |
| SocketAuth.UserFromSid | backend/api/sockets/auth.py:58-85 | an unknown session gives (None, None); a known one gives its user id, and the user iff the id parses to a stored active user |
| SocketAuth.AuthenticatedSessionFindsUser | backend/api/sockets/auth.py:66-80 | after authenticating, the session resolves to that user |
| SocketAuth.SessionRegistry.constructor | backend/api/sockets/server.py:42-44 | the three registries start empty |
| SocketAuth.SessionRegistry.Register | backend/api/sockets/auth.py:122-123 | the maps become SocketAuth.BindAsWritten of the old maps: both entries plainly overwritten, as the code does |
| SocketAuth.SessionRegistry.Connect | backend/api/sockets/auth.py:88-126 | without a valid user nothing changes; otherwise the session is bound to the user's id by SocketAuth.BindAsWritten |
| SocketAuth.SessionRegistry.Disconnect | backend/api/sockets/auth.py:129-147 | the client is dropped and the maps become SocketAuth.Unbind of the old maps |
| SocketAuth.SessionRegistry.Authenticate | backend/api/sockets/auth.py:150-199 | no token → "No token provided"; success iff the token resolves to an active user, replying with its id, email and unread count and binding the session by SocketAuth.BindAsWritten; failure changes nothing |
| SocketAuth.SessionRegistry.RegisterUser | backend/api/sockets/auth.py:202-224 | registered iff a non-empty user id is given, which is then bound by SocketAuth.BindAsWritten; otherwise nothing changes |
| AuthMiddleware.HeaderValue | backend/api/middlewares/auth_middleware.py:75-76 | `dict(headers)`: the value of the last header with that name; none iff no header has it |
| AuthMiddleware.LastValue | backend/api/middlewares/auth_middleware.py:83-84 | the value read for a key is one of its pairs; none iff the key is absent |
| AuthMiddleware.SecondEqualsRaises | backend/api/middlewares/auth_middleware.py:83 | as written, without a bearer header, a query that is one parameter `name=a=b` (such as `next=a=b`) raises the three-part `ValueError` instead of giving a token |
| AuthMiddleware.QueryPairsAsWritten | backend/api/middlewares/auth_middleware.py:83 | as written, every pair comes from a parameter that splits into exactly two parts; a failure names a parameter with '=' that does not |
| AuthMiddleware.QueryPairs | backend/api/middlewares/auth_middleware.py:83 | at most one pair per parameter |
| AuthMiddleware.QueryPairsAgree | backend/api/middlewares/auth_middleware.py:83 | when no parameter holds a second '=', the written parsing succeeds and agrees with the corrected one |
| AuthMiddleware.TokenFromScope | backend/api/middlewares/auth_middleware.py:64-84 | a Bearer authorization header gives its token; otherwise a non-empty result is the value of a `token` query parameter |
| AuthMiddleware.TokenFromScopeAsWritten | backend/api/middlewares/auth_middleware.py:64-84 | as written, a Bearer authorization header gives its token; a failure comes from a query parameter with '=' that does not split in two; a non-empty result otherwise is a `token` parameter's value |
| AuthMiddleware.TokenFromScopeAgrees | backend/api/middlewares/auth_middleware.py:64-84 | when no parameter holds a second '=', the written and corrected readings agree |
| AuthMiddleware.LastTokenWins | backend/api/middlewares/auth_middleware.py:83-84 | with two `token` parameters the last one is used |
| AuthMiddleware.AuthenticateCredentials | backend/api/middlewares/auth_middleware.py:86-121 | a user is found iff the validated token's id names a stored active user, and it is that user |
| AuthMiddleware.ScopeUser | backend/api/middlewares/auth_middleware.py:37-62 | fails exactly when the written token reading raises (line 50 is outside the `try`); otherwise an authenticated scope user is stored and active, and no token leaves the user anonymous |
| AuthMiddleware.PrincipalFor | backend/api/middlewares/auth_middleware.py:46-59 | the user is anonymous for an empty token or one that does not validate to a stored active user, and that user otherwise |
| AuthMiddleware.ScopeUserAgrees | backend/api/middlewares/auth_middleware.py:37-84 | when no parameter holds a second '=', the written scope user is the principal of the corrected token reading |
| AuthMiddleware.AnonymousUnlessActive | backend/api/middlewares/auth_middleware.py:37-62 | when the token reading does not raise, the scope user is anonymous unless the token validates to a stored active user, and that user otherwise |
| AuthMiddleware.Scope.constructor | backend/api/middlewares/auth_middleware.py:47 | the scope starts with the given headers and query and an anonymous user |
| AuthMiddleware.Scope.Authenticate | backend/api/middlewares/auth_middleware.py:37-62 | when the token reading raises, the user stays anonymous and the error is returned, so the inner application is not reached; otherwise no failure and the user becomes the one AuthMiddleware.ScopeUser gives |
| Metrics.Broadcast | backend/api/sockets/metrics.py:55-81 | with no client nothing happens; otherwise the counter grows by one, the client count is remembered, metrics are emitted, and a log line comes first exactly on every 30th broadcast, on the first, or when the client count changed |
| Metrics.AlertRule | backend/api/sockets/metrics.py:84-125 | a memory alert is raised iff usage is at least 90, no alert is active and more than 300 seconds have passed since the last one; it then sets the alert state and time and is the only effect |
| Metrics.HysteresisRule | backend/api/sockets/metrics.py:127-156 | a usage in [85, 90) changes nothing; an active alert clears iff usage is below 85, and a recovery notice is sent iff it clears within 3600 seconds of the alert |
| Metrics.MemoryCheck | backend/api/sockets/metrics.py:84-156 | the memory check of one round; its rules are Metrics.AlertRule and Metrics.HysteresisRule |
| Metrics.Step | backend/api/sockets/metrics.py:50-162 | one loop round: broadcast when there are clients, then the memory check; Metrics.Broadcaster.Round equals it |
| Metrics.Run | backend/api/sockets/metrics.py:39-162 | the rounds in turn; its properties are Metrics.CounterCountsBroadcasts and Metrics.NoRepeatWhileHigh |
| Metrics.CounterCountsBroadcasts | backend/api/sockets/metrics.py:71 | after a run the counter has grown by the number of rounds that had clients |
| Metrics.NoRepeatWhileHigh | backend/api/sockets/metrics.py:87-129 | while an alert is active and usage stays at 85 or above, the alert stays active and no alert or recovery notice is sent again |
| Metrics.Broadcaster.constructor | backend/api/sockets/metrics.py:32-35 | the monitor starts in the initial state: no alert, counter 0, no client count |
| Metrics.Broadcaster.Round | backend/api/sockets/metrics.py:50-162 | one loop round equals Metrics.Step |
| Metrics.Broadcaster.BroadcastPart | backend/api/sockets/metrics.py:55-81 | equals Metrics.Broadcast |
| Metrics.Broadcaster.CheckMemory | backend/api/sockets/metrics.py:84-156 | equals Metrics.MemoryCheck |
| Metrics.Broadcaster.BroadcastMetrics | backend/api/sockets/metrics.py:39-162 | the loop over the sampled rounds equals Metrics.Run |
| ActivityLog.DeriveCategory | backend/api/models/activity.py:144-164 | a given category is kept; otherwise the result is one of the categories |
| ActivityLog.FirstMatchStep | backend/api/models/activity.py:146-164 | the rules are tried in order and the first match decides |
| ActivityLog.DeriveCategoryFollowsTable | backend/api/models/activity.py:146-164 | the derived category is the first matching rule of the table, "system" when none matches |
| ActivityLog.LogActivity | backend/api/models/activity.py:122-189 | nothing is recorded iff the action is "api_access" or the category is "api" from a local address; a record keeps every given field, with the derived category and empty details for falsy details |
| ActivityLog.RecordedNeverApi | backend/api/models/activity.py:157-172 | a recorded entry with a derived category is never in "api" |
| ActivityLog.Latest | backend/api/models/activity.py:198 | the newest row is a row with the greatest timestamp |
| ActivityLog.RetentionDays | backend/api/models/activity.py:196-202 | a given retention is used; otherwise the newest row's, or 90 without rows |
| ActivityLog.KeptRows | backend/api/models/activity.py:205-208 | the rows kept are exactly those at or after the cutoff |
| ActivityLog.OldRows | backend/api/models/activity.py:208 | the rows deleted are rows before the cutoff |
| ActivityLog.RowsPartition | backend/api/models/activity.py:205-208 | kept and deleted rows together are the original rows |
| ActivityLog.PurgeDeletesOnlyOld | backend/api/models/activity.py:191-210 | purging keeps every row at or after the cutoff and only those, and the count deleted plus the rows left is the original count |
| ActivityMiddleware.Sanitize | backend/api/middlewares/activity_middleware.py:225-241 | objects stay objects and lists stay lists; any other value is unchanged |
| ActivityMiddleware.SanitizeShape | backend/api/middlewares/activity_middleware.py:225-239 | an object keeps its keys in order, with sensitive keys masked and other values sanitised; a list is sanitised item by item |
| ActivityMiddleware.SanitizeRedacts | backend/api/middlewares/activity_middleware.py:225-237 | no sensitive key at any depth keeps its value after sanitising |
| ActivityMiddleware.SanitizedIsFixed | backend/api/middlewares/activity_middleware.py:225-241 | a sanitised value is left as it is |
| ActivityMiddleware.SanitizeIdempotent | backend/api/middlewares/activity_middleware.py:225-241 | sanitising twice is sanitising once |
| ActivityMiddleware.CheckSecurityEndpoint | backend/api/middlewares/activity_middleware.py:156-169 | the loop answers whether the path starts with one of the security prefixes |
| ActivityMiddleware.DetermineActionType | backend/api/middlewares/activity_middleware.py:171-193 | the action is one of the listed types; login iff the path starts with /api/auth/login and logout iff it starts with /api/auth/logout; /api/auth/refresh gives api_access; under /api/users/, password_change iff the path holds change-password, else role_change iff it holds set_role, else profile_update iff the method is PUT or PATCH; everything else is api_access |
| ActivityMiddleware.Response.constructor | backend/api/middlewares/activity_middleware.py:93-103 | the response holds the given status and headers |
| ActivityMiddleware.ClientIp | backend/api/middlewares/activity_middleware.py:108-112 | a non-empty X-Forwarded-For gives its first comma-separated field (a prefix of the header), stripped and holding no comma; otherwise REMOTE_ADDR if present |
| ActivityMiddleware.FirstFieldIsPrefix | backend/api/middlewares/activity_middleware.py:110 | the first field starts the header |
| ActivityMiddleware.SanitizedBody | backend/api/middlewares/activity_middleware.py:195-223 | a parsed JSON body and a form body are logged sanitised |
| ActivityMiddleware.Activity | backend/api/middlewares/activity_middleware.py:105-152 | nothing is logged unless the user is authenticated and the status is not 2xx or the path is a security endpoint |
| ActivityMiddleware.RecordsOnlySecurityEndpoints | backend/api/middlewares/activity_middleware.py:115-152 | every recorded activity is for a security endpoint, never api_access, with a sanitised body |
| ActivityMiddleware.ActivityAsWritten | backend/api/middlewares/activity_middleware.py:124-152 | as written, the import of a missing model always fails, so nothing is recorded |
| ActivityMiddleware.ActivityAsWrittenLosesLogins | backend/api/middlewares/activity_middleware.py:124-152 | a failed login by an authenticated user, which should be recorded, is lost as written |
| ActivityMiddleware.ProcessResponse | backend/api/middlewares/activity_middleware.py:93-154 | exempt paths pass unchanged and log nothing; otherwise X-Response-Time is set when the start time is known, and the entry equals ActivityMiddleware.ActivityAsWritten, so nothing is recorded |
| Cors.MakeConfig | backend/api/middlewares/cors_middleware.py:21-49 | empty method and header lists fall back to the default lists; every other setting is kept as given |
| Cors.Lookup | backend/api/middlewares/cors_middleware.py:109-144 | a header is found iff the dictionary holds that name |
| Cors.Put | backend/api/middlewares/cors_middleware.py:117-138 | a new name is appended at the end; an existing name keeps its place and takes the new value |
| Cors.LookupAppend | backend/api/middlewares/cors_middleware.py:109-144 | a header of the joined dictionary comes from the first part when it is there, else from the second |
| Cors.AbsentAppend | backend/api/middlewares/cors_middleware.py:109-144 | a name is absent from a joined dictionary iff it is absent from both parts |
| Cors.SetOrigin | backend/api/middlewares/cors_middleware.py:116-132 | the origin steps give the origin part of the headers |
| Cors.SetPreflight | backend/api/middlewares/cors_middleware.py:135-138 | the preflight steps append the methods, headers and max-age entries |
| Cors.CorsHeaders | backend/api/middlewares/cors_middleware.py:98-144 | the CORS headers of a response; what they hold is Cors.NoHeadersUnlessAccepted, Cors.CorsHeadersLookup and Cors.AcceptedHeaders |
| Cors.GetCorsHeaders | backend/api/middlewares/cors_middleware.py:98-144 | the method computes Cors.CorsHeaders |
| Cors.NoHeadersUnlessAccepted | backend/api/middlewares/cors_middleware.py:112-123 | without an origin, or with an origin not allowed, no CORS header is added |
| Cors.PreflightLookup | backend/api/middlewares/cors_middleware.py:135-138 | the preflight part holds exactly the methods, headers and max-age entries |
| Cors.CorsHeadersLookup | backend/api/middlewares/cors_middleware.py:98-144 | for an accepted origin every header has the value the rules grant it |
| Cors.AcceptedHeaders | backend/api/middlewares/cors_middleware.py:116-142 | an accepted origin is echoed (with `Vary: Origin`) when credentials are on or origins are listed, else "*"; credentials give "true"; methods, headers and max-age appear only on preflight, joined by ", "; exposed headers only when some are configured |
| Cors.LastValue | backend/api/middlewares/cors_middleware.py:68-69 | `dict(headers)`: the last header of a name wins; the default without one |
| Cors.Rendered | backend/api/middlewares/cors_middleware.py:79-80 | each CORS header becomes one raw header with its name text and value, in order |
| Cors.AppendHeaders | backend/api/middlewares/cors_middleware.py:79-80 | the loop appends the extra headers after the existing ones |
| Cors.Wrap | backend/api/middlewares/cors_middleware.py:72-89 | a response start message gets the CORS headers after its own; any other message passes unchanged |
| Cors.NonHttpPassesThrough | backend/api/middlewares/cors_middleware.py:60-62 | a non-HTTP scope goes to the inner application untouched |
| Cors.PreflightAnswered | backend/api/middlewares/cors_middleware.py:146-162 | a preflight is answered with 200, the preflight CORS headers and an empty body, without calling the inner application |
| Cors.RegularRequestDecorated | backend/api/middlewares/cors_middleware.py:95-96 | a regular request calls the inner application and each of its start messages gets the CORS headers; the rest pass unchanged |
| NetworkTools.SanitizeInput | backend/api/views/network_tools.py:22-29 | the result holds only word characters, '.', '-', ':' and '/' and is no longer than the input |
| NetworkTools.SanitizeIsSubsequence | backend/api/views/network_tools.py:28 | sanitising only deletes characters |
| NetworkTools.SanitizeFixed | backend/api/views/network_tools.py:28 | an input is unchanged iff it holds only allowed characters |
| NetworkTools.SanitizeIdempotent | backend/api/views/network_tools.py:28 | sanitising twice is sanitising once |
| NetworkTools.SanitizeAppend | backend/api/views/network_tools.py:28 | sanitising distributes over concatenation |
| NetworkTools.WordsFromNoSpace | backend/api/views/network_tools.py:273 | text without whitespace splits into at most one word |
| NetworkTools.SanitizedIsOneWord | backend/api/views/network_tools.py:272-273 | a sanitised filter splits into one word, or none when empty |
| NetworkTools.StripScheme | backend/api/views/network_tools.py:213 | a leading "https://" or "http://" is removed, nothing else |
| NetworkTools.TargetToolReply | backend/api/views/network_tools.py:69-219 | a missing or falsy target gives 400 with the tool's message; a non-empty text target runs the command (dig also needs a text record type); a command is run only for a text target |
| NetworkTools.FilterFlags | backend/api/views/network_tools.py:228-229 | the kept characters are netstat flags, in input order |
| NetworkTools.FilterFlagItems | backend/api/views/network_tools.py:229 | a list of options keeps only flag characters |
| NetworkTools.NetstatFlags | backend/api/views/network_tools.py:225-229 | text options keep their flag characters; booleans, integers and null raise; anything kept is a flag |
| NetworkTools.NetstatReply | backend/api/views/network_tools.py:223-238 | `netstat` alone without flags, `netstat -<flags>` with some, a server error when the options cannot be iterated |
| NetworkTools.IpRouteReply | backend/api/views/network_tools.py:242-248 | the routing command is run and is safe |
| NetworkTools.PacketCount | backend/api/views/network_tools.py:263-267 | the count is clamped to [1, 100], and is 25 when it does not convert |
| NetworkTools.TcpdumpCommand | backend/api/views/network_tools.py:252-277 | `tcpdump -i <iface> -c <count> -n` with the sanitised interface and clamped count, followed by the sanitised filter when it is non-empty |
| NetworkTools.NatTextAllowed | backend/api/views/network_tools.py:270 | a count's digits are allowed characters |
| NetworkTools.AppendAllowed | backend/api/views/network_tools.py:216 | joining two safe texts is safe |
| NetworkTools.StripSchemeAllowed | backend/api/views/network_tools.py:213 | removing the scheme keeps a safe target safe |
| NetworkTools.TargetCommandSafeFor | backend/api/views/network_tools.py:85-216 | every target tool's command holds only safe arguments |
| NetworkTools.TargetCommand | backend/api/views/network_tools.py:85-216 | each tool runs its own program with the target among its arguments; `dig` also gets the record type; the certificate check connects to port 443 of the host without its scheme |
| NetworkTools.TargetCommandSafe | backend/api/views/network_tools.py:69-219 | no target tool runs a command with user text outside the allowed characters |
| NetworkTools.NetstatCommandSafe | backend/api/views/network_tools.py:223-238 | netstat runs only safe arguments |
| NetworkTools.TcpdumpCommandSafe | backend/api/views/network_tools.py:252-277 | tcpdump runs only safe arguments |
| NetworkTools.ExecuteCommand | backend/api/views/network_tools.py:31-67 | success iff the command exits with 0, and then the output is its stdout; a non-zero exit gives "Error: " and its stderr; every other ending is an error; the timestamp is the time given |
| Validators.ValidateComplexity | backend/api/validators.py:20-50 | the rules are checked in order, length, uppercase, lowercase, digit, special, and the first that fails gives its error |
| Validators.AcceptedIffComplex | backend/api/validators.py:20-50 | a password is accepted iff it is long enough and has an uppercase letter, a lowercase letter, a digit and a special character |
| Validators.FirstFailingRuleDecides | backend/api/validators.py:20-50 | a refusal names a failing rule all of whose predecessors hold |
| Validators.HelpTextStatesLength | backend/api/validators.py:52-56 | the help text states the minimum length |
| Validators.ValidateHistory | backend/api/validators.py:67-86 | the history validator never refuses a password |
| Validators.HistoryHelpTextStatesCount | backend/api/validators.py:88-91 | the help text states the history count |
| AuthSecurity.RecentFailures | backend/api/models/auth_security.py:44-52 | the attempts counted are exactly the failed ones for that username after the threshold, from that address when one is given |
| AuthSecurity.Oldest | backend/api/models/auth_security.py:57 | the oldest timestamp is one of the attempts' and no attempt is older |
| AuthSecurity.LockoutRule | backend/api/models/auth_security.py:25-64 | with at least one attempt allowed, the account is locked iff the recent failures reach the maximum, and then until the oldest of them plus the lockout duration, which is still in the future |
| AuthSecurity.SuccessDoesNotCount | backend/api/models/auth_security.py:44-48 | recording a successful attempt never adds to the failures counted |
| AuthSecurity.Newest | backend/api/models/auth_security.py:86-88 | the rows kept are the newest n, in order |
| AuthSecurity.AttemptLog.constructor | backend/api/models/auth_security.py:11-22 | the log starts empty |
| AuthSecurity.AttemptLog.RecordAttempt | backend/api/models/auth_security.py:67-88 | the attempt is appended and only the newest 1000 rows are kept |
| AuthSecurity.RecordedAttemptKept | backend/api/models/auth_security.py:77-88 | the attempt just recorded is always kept, as the newest row, after the older rows that still fit |
| PasswordHistory.EntriesOf | backend/api/models/password_history.py:39 | a user's entries are that user's rows, in order |
| PasswordHistory.Recent | backend/api/models/password_history.py:39 | at most `count` of the user's own rows |
| PasswordHistory.IsPasswordUsed | backend/api/models/password_history.py:26-46 | corrected half of the `check_password_hash` finding at :43: a negative count raises (negative slices are refused); otherwise the password is used iff it matches one of the user's `count` newest hashes |
| PasswordHistory.PasswordUsed | backend/api/models/password_history.py:26-46 | the loop answers PasswordHistory.IsPasswordUsedAsWritten: it raises at the first recent entry |
| PasswordHistory.IsPasswordUsedAsWritten | backend/api/models/password_history.py:26-46 | as written, a negative count raises; otherwise the call raises the missing-attribute error iff the user has a recent entry, and the answer is otherwise false |
| PasswordHistory.StoredEntryRaises | backend/api/models/password_history.py:39-43 | a user with any stored entry, checked with a positive count, gets the missing-attribute error, where the intended comparison answers |
| PasswordHistory.RecentNonEmpty | backend/api/models/password_history.py:39 | a user with a stored entry has a recent entry for any positive count |
| PasswordHistory.NoRecentAgrees | backend/api/models/password_history.py:39-46 | without a recent entry the written and the intended versions agree |
| PasswordHistory.TrimUser | backend/api/models/password_history.py:64-67 | trimming never adds rows |
| PasswordHistory.Last | backend/api/models/password_history.py:65 | the last n items, or all when fewer |
| PasswordHistory.TrimUserOwn | backend/api/models/password_history.py:64-67 | after trimming, the user's entries are the newest n of them |
| PasswordHistory.TrimUserOthers | backend/api/models/password_history.py:64-67 | trimming never touches other users' entries |
| PasswordHistory.HistoryTable.constructor | backend/api/models/password_history.py:10-23 | the table starts empty |
| PasswordHistory.HistoryTable.AddPasswordToHistory | backend/api/models/password_history.py:49-67 | the hash is appended, and when the limit is positive the user's entries are trimmed to it |
| PasswordHistory.AddedHistory | backend/api/models/password_history.py:49-67 | with a positive limit the user keeps between 1 and that many entries, the newest being the one added; without a limit it is appended; other users are untouched |
| PasswordHistory.AddedHashIsRecent | backend/api/models/password_history.py:26-60 | a password just added is reported as used for any count of at least 1 |
| AuthUtils.ReferenceDate | backend/api/utils/auth.py:28-37 | the password change date when tracked, else the last login, else the join date |
| AuthUtils.IsPasswordExpired | backend/api/utils/auth.py:11-43 | a non-positive expiry never expires; otherwise expired iff now is past the reference date plus the expiry days |
| AuthUtils.ExpiryMonotone | backend/api/utils/auth.py:39-43 | an expired password stays expired later, and is not expired at the exact expiry instant |
| AuthUtils.ShouldChangePassword | backend/api/utils/auth.py:45-66 | change is required iff the password expired (that reason first) or it is temporary; no reason otherwise |
| SocketEvents.Kind | backend/api/sockets/events.py:54-55 | the notification type is one of info, success, warning and error: a valid type is kept, anything else becomes info |
| SocketEvents.SendNotification | backend/api/sockets/events.py:41-100 | a missing or falsy user id or title is refused with "Missing required fields"; a user id that does not convert fails; an unknown user gives "User <id> not found"; a null source fails, since the source column is NOT NULL (backend/api/models/notification.py:23), and creates nothing; otherwise one unread, non-system row is created under the new id with the given user, title, message and source and a valid type, and the reply is success iff a row is created; it is emitted only when the user id is a text key of a live session, with the duration given or 5000 |
| SocketEvents.NumericUserIdOnlyStored | backend/api/sockets/events.py:90-97 | a numeric user id never reaches a live session, because sessions are keyed by text ids |
| SocketEvents.Paging | backend/api/sockets/events.py:122-131 | the limit is clamped to [1, 100] and the offset to at least 0; a value that does not convert resets both to 10 and 0 |
| SocketEvents.UserRows | backend/api/sockets/events.py:134-140 | exactly the user's own notifications, each as often as it is stored and no other row |
| SocketEvents.UserRowsNewestFirst | backend/api/sockets/events.py:136-138 | the user's rows are listed in reverse table order, that is newest first |
| SocketEvents.Slice | backend/api/sockets/events.py:141-143 | a Python slice: its items come from the list, and its length is the overlap of the range with the list |
| SocketEvents.AdjacentPages | backend/api/sockets/events.py:141-143 | two adjacent pages together make the page that spans both, so with the page GetNotifications returns, stepping the offset by the limit lists the user's rows once each, newest first |
| SocketEvents.GetNotifications | backend/api/sockets/events.py:117-162 | an unknown session gives "Unauthenticated user"; a session user id that does not convert fails; an unknown user gets an empty page with count 0; otherwise the page is the `[offset:offset+limit]` slice of the user's notifications newest first, with their total count; a page never exceeds the limit |
| SocketEvents.FindOwn | backend/api/sockets/events.py:192-195 | a notification is found iff one has that id and belongs to that user, and it is that one |
| SocketEvents.NotificationStore.constructor | backend/api/models/notification.py:5-30 | the store holds the given notifications |
| SocketEvents.NotificationStore.Send | backend/api/sockets/events.py:41-100 | the reply and the emitted event equal SocketEvents.SendNotification, and the table gains exactly the created row |
| SocketEvents.NotificationStore.MarkNotificationRead | backend/api/sockets/events.py:178-212 | an unknown session gives "Unauthenticated user" and a missing id "Missing notification_id"; nothing changes except on success, which marks the user's own notification read and nothing else; otherwise "Notification not found" |
| SocketEvents.MarkTouchesOnlyOwn | backend/api/sockets/events.py:192-202 | marking changes only the is_read flag of the user's own notification |
| Smtp.Saved | backend/api/models/integrations/smtp.py:25-31 | the row is written under its key; saving an active row deactivates every other row; saving an inactive one leaves the others |
| Smtp.SaveActiveIsOnlyActive | backend/api/models/integrations/smtp.py:25-31 | after saving an active configuration it is the only active one |
| Smtp.SaveInactiveKeepsRule | backend/api/models/integrations/smtp.py:25-31 | saving an inactive configuration keeps every other row and keeps at most one active |
| Smtp.Validate | backend/api/serializers/integrations/smtp.py:21-35 | a truthy is_active is refused with "Only one SMTP configuration can be active at a time." exactly when another configuration is active; otherwise the data is returned unchanged |
| Smtp.ValidateExcludesInstance | backend/api/serializers/integrations/smtp.py:28-31 | re-saving the active configuration passes; activating a new one while another is active fails |
| Smtp.SmtpStore.constructor | backend/api/models/integrations/smtp.py:8-23 | the table starts empty |
| Smtp.SmtpStore.Save | backend/api/models/integrations/smtp.py:25-31 | the configurations become Smtp.Saved under the given key, or under a newly allocated one |

## Left out

- The network probes of `network_scanner.py` are oracle inputs: `_get_default_gateway`, `_arp_scan`, `_ping_sweep`, `_get_hostname`, `_measure_latency` and the `nmap.PortScanner` calls run subprocesses and foreign libraries. `os` is never imported there, so ping and latency always give None in practice; the model leaves both as unconstrained inputs, which includes that case.
- `_get_local_subnets`: the interface and address lists come from the operating system; only its filtering (skip `lo`, `127.`, `169.`) and network arithmetic are modelled.
- asyncio concurrency (`create_task`, `wait_for`, the no-op `progress_updater`, a `task.cancel()` racing the task) is not modelled; one sequential run is modelled, and its ending (returned, timeout, task cancelled, exception) is an input.
- ScannerRegistry.NetworkScanner.FinishRun: an interrupted run (timeout, task cancel, exception) does not run the scan phases, so the partial devices such a run leaves behind are not modelled.
- ScanTypes.BatchProgress: progress is the floor of the exact fraction; float rounding is not modelled.
- Floats: scan time, latency and packet loss are integers, and memory usage and the metrics clock are reals; float-to-text formatting (`:.2f`, ISO timestamps) is replaced by integer text.
- Text: `\w` is taken as ASCII letters, digits and `_`; Python whitespace as ASCII whitespace; Unicode case mapping is not modelled; latin-1 decoding of header bytes is the identity.
- SocketAuth.QueryPairs: `parse_qs` percent-decoding and `+` handling are not modelled.
- Token decoding (`jwt.decode`, `AccessToken`) is a function parameter from token to user id; signature, expiry and claim checks live in it.
- Password hashing is abstract: `set_password` stores the raw value, `check_password` compares with it, and `check_password_hash`, which the user model does not define, is a parameter only of the corrected PasswordHistory.IsPasswordUsed.
- Socket.IO `emit`, `sync_to_async`, `close_old_connections` and logging are not modelled; the events a handler emits are returned as values.
- Metrics: the Notification rows created with an alert or a recovery are not stored; the model returns the alert and recovery effects. psutil sampling is an input, and the `connect` handler that sends the first sample is not modelled.
- `sockets/server.py` is not part of this model beyond its three registries; its `connect` handler is not modelled, although it is registered after the one in `sockets/auth.py` and so replaces it in the assembled app (SocketAuth.SessionRegistry.Connect models the `auth.py` handler as written), and `connected_clients` is kept as a set of session ids.
- SocketAuth.SessionRegistry.RegisterUser: the user id is taken as text; a non-text `user_id` is not modelled.
- SocketEvents.SendNotification, SocketEvents.GetNotifications and SocketEvents.NotificationStore.MarkNotificationRead: an exception reply carries `str(e)`; the model answers `Failed` without that text.
- SocketEvents: the notification dictionary's other fields (millisecond timestamp, read flag rename) are not modelled; notifications are kept in insertion order, standing in for timestamp order, so rows created within the same timestamp are not reordered as the database might; the database's length limits on `title` and `source` are not modelled.
- NetworkTools.TargetToolReply: a truthy target that is not text makes `sanitize_input` raise; the model answers `ServerError`, whatever Django makes of it.
- UserSerializer: Django REST framework's own field checks (max length, email format, required fields, the blank check and the UniqueValidator generated for the unique username column of backend/api/models/user.py:37) are not modelled; on create those run before `validate_username`, so a taken username is answered by the UniqueValidator's message rather than "This username is already in use." (the status and the absence of a new row are the same); the model has `validate_username`, the rendered fields and `create`.
- UserViews: `me`, `profile_image`, `check_users_exist`, `first_run_check` and the `perform_*` logging hooks are not modelled; they render, store files or log.
- UserViews.CreateAction: only the permission check, the single-owner guard and the username check are modelled before the user is created; the other serializer checks are not.
- Smtp: `created_at`, `updated_at` and `last_tested` are not modelled, and the column defaults (port 587, TLS on, active) are stated only as a constant.
- AuthSecurity: the lockout settings are the parameters `maxAttempts` and `duration`, with the defaults 5 and 15 as constants; Django settings are not read.
- ActivityMiddleware.Activity: its own contract states only that nothing is logged unless the log condition holds; what a recorded entry holds is in ActivityMiddleware.RecordsOnlySecurityEndpoints and ActivityLog.LogActivity.
- NetworkSockets.Db: its `scanMetadata` map stands for a `metadata` JSON field that `NetworkScan` (backend/api/models/network.py:117-131) does not declare. Only the corrected halves (StartNetworkScan, RecordProgress, MonitorFrom, ResolvedJob) read or write it; the handlers as written raise where they touch it.
- `get_network_scan_results` (backend/api/sockets/network.py:608-743) is not part of this model; its scan-id fallback at network.py:647 reads the same missing `metadata` field.
- NetworkSockets.ParseScanOptions: a true `ip_range` that is not text (a non-zero number, a non-empty list or object) is refused. The source hands it on to the scanner, whose target handling for non-text ranges is not modelled.
- ScanEngine.PerformNetworkScan and ScanProps.ScanOutcome: no probe raises. In the source, `_get_hostname` catches only `herror` and `gaierror` (network_scanner.py:819) and `_get_default_gateway` only `KeyError` and `IndexError` (:699). Any other exception, such as a resolver timeout or an `OSError`, reaches the catch-all at network_scanner.py:634-637. That path returns the result with `error` set to the exception's text; the devices found so far are not copied into it (they are assigned only at :623), and the job still completes. The scan outcome proved here excludes that path.
- JsonValues.Json: JSON numbers are integers. A float in a request or socket payload is not modelled; Python's `int(3.7)` would give 3, and a float's truthiness is its being non-zero.
- Text.ParseInt: Python's `int()` on text also accepts `_` between digits and non-ASCII decimal digits; only optional whitespace, an optional sign and ASCII digits are parsed, so such text reads as not a number.
- ScanProps.PortScanKeeps, ScanProps.EnrichStage and ScanProps.ScanEnrichesDevices: the per-device merge is stated for an nmap that reports only addresses of the batch it scanned (ScansOnlyTargets). A report about an address outside its batch, which nmap does not give, is covered only by the weaker "keys, order and numbers are kept" half.
- Crypto helpers (`utils/security.py`), SMTP sending, psutil collection and the thin CRUD views are not part of this model.

## Findings

| source | as written | input that shows it | evidently intended | confidence | as-written member | corrected member |
|---|---|---|---|---|---|---|
| backend/api/sockets/network.py:303-316 | `update_scan_with_job_id` writes `scan.metadata`, but `NetworkScan` has no `metadata` field, so the handler raises `AttributeError` after starting the job | any authenticated request to start a scan while none is active | the job id is stored with the scan record and the client gets the job id | not executed | NetworkSockets.StartAsWritten / NetworkSockets.StartAsWrittenNeverAccepts | NetworkSockets.StartNetworkScan |
| backend/api/middlewares/activity_middleware.py:126 | `from api.models.activity import UserActivity` names a model that does not exist (the model is `ApplicationLog`); the `ImportError` is caught, so nothing is ever recorded | a failed login (status 401) to `/api/auth/login/` by an authenticated user | the activity is recorded through `ApplicationLog.log_activity` | not executed | ActivityMiddleware.ActivityAsWritten / ActivityMiddleware.ActivityAsWrittenLosesLogins | ActivityMiddleware.Activity |
| backend/api/serializers/user.py:44-45 | the uniqueness query does not exclude the user being updated | updating a user while resubmitting its own unchanged username | on update, only other users' usernames count | not executed | UserSerializer.ValidateUsernameAsWritten / UserSerializer.UnchangedUsernameRefused | UserSerializer.ValidateUsername |
| backend/api/sockets/auth.py:122-123,173-174 | binding a session to a user does not remove the entry of the user that session belonged to before | session "s" bound to user "1", then re-authenticated as user "2": `user_sessions["1"]` still names "s" | a user entry always points at a session that is theirs | not executed | SocketAuth.BindAsWritten / SocketAuth.ReauthenticationLeaksSession | SocketAuth.Bind |
| backend/api/middlewares/auth_middleware.py:83 | `dict(param.split('=') ...)` raises `ValueError` when a parameter holds a second '=' | the query string `next=a=b` with no authorization header | a parameter is split at its first '=' and the request goes on | not executed | AuthMiddleware.TokenFromScopeAsWritten / AuthMiddleware.SecondEqualsRaises | AuthMiddleware.TokenFromScope |
| backend/api/sockets/network.py:367-376 | `update_scan_progress` reads `scan.metadata`, which `NetworkScan` lacks, so a stored record makes it raise `AttributeError`; the `except` at :397 ends the monitor | a scan whose job is still RUNNING at the monitor's first poll | the progress is stored with the record, broadcast, and polling continues until the job finishes and its results are saved | not executed | NetworkSockets.MonitorAsWritten / NetworkSockets.MonitorAsWrittenStops | NetworkSockets.MonitorFrom |
| backend/api/sockets/network.py:778-789 | the scan-id fallback reads `scan.metadata`, which `NetworkScan` lacks, so it raises `AttributeError` rather than `DoesNotExist` and the reply is that error | a cancel request holding only the `scan_id` of a stored record | the job id stored with the record is found and that job cancelled | not executed | NetworkSockets.ResolvedJobAsWritten / NetworkSockets.ScanIdCancelRaises | NetworkSockets.ResolvedJob |
| backend/api/models/password_history.py:43 | `user.check_password_hash` names a method the user model does not define, so `is_password_used` raises `AttributeError` at the first recent entry | any user with a stored history entry, checked with a count of at least 1 | the password is compared with each recent hash and the answer is whether one matches | not executed | PasswordHistory.IsPasswordUsedAsWritten / PasswordHistory.StoredEntryRaises | PasswordHistory.IsPasswordUsed |
