# CEEMS accounting, modelled and proved in Dafny

CEEMS attributes energy, GPU and counter usage to batch jobs, pods and virtual machines. This project models the parts
of it that have to stay exact over whole runs, and a few algorithms with a simple specification, and proves what they
guarantee. `dafny verify dfyconfig.toml` checks everything.

Code that changes things step by step is modelled as methods and classes whose contracts tie the result, or the state
afterwards, to a specification function; lemmas about that function state what the code is for. Where a method and its
specification share a function, its meaning is stated on its inputs and outputs as well.

| Files | What they model |
| --- | --- |
| `Devices`, `GresAllocation`, `GresAttachment`, `GresGuarantees`, `SharedIndices`, `SlurmAttachments`, `SlurmCollector` | GPU shares handed out to SLURM jobs on each scrape: conservation, maximality, priority, which jobs sit where, and what happens when devices share an index |
| `GpuIndices`, `OrderMaps` | device indices from discovery and from an operator's order map, which the share distribution relies on |
| `PodDevices`, `DeviceFlags`, `Helpers` | pods attached to devices, the share fractions that are exported, comparison of lists as multisets |
| `PerfCounters`, `PerfConservation`, `PerfInputs`, `PerfCollector` | hardware counters of processes accumulated per cgroup, and what they are in terms of what was read |
| `EbpfCaches`, `EbpfAggregation` | inode and path caches, and the sums of kernel events per cgroup |
| `Chunks`, `Batches`, `BatchNumbers` | the greedy chunker and the batches of queries built on it |
| `Counters`, `Nodelists`, `NodelistHosts`, `NodelistExpansion`, `NodelistRoundTrip`, `NodelistProducts`, `NodelistNames` | expansion of SLURM node lists, with the 64-bit counter of its loop, hosts with several bracket groups, and the spelling of names |
| `Octets`, `TwosComplement`, `IpmiStrings`, `FullSensorRecords` | decoding of IPMI sensor records (sections 43.1 and 43.15 of IPMI v2.0) |
| `MetricMaps`, `MetricRecords`, `MetricMeans`, `MetricAggregates`, `AggregateMeans` | usage columns kept in the database: sum, weighted mean, minimum, maximum, and the aggregates over rows |
| `RedfishRouting` | the table of redfish targets that concurrent requests read and extend |
| `CpuStats` | CPU counters that must not run backwards |
| `Options`, `Powers`, `Seqs`, `Sums`, `Texts`, `Words` | small vocabulary shared by the others |

## Where the code does less than one would expect

Each of these is a theorem below, with the exact condition under which the code does what it should and an input on
which it does not.

- Share fractions on a SLURM device add up to one exactly when every attached unit got a share, or one unit is alone
  there without shares (`DeviceFlags.ChargedOnce`); a unit that got none is still charged the whole device. After every
  scrape that attaches more units to a slot than it has shares they add up to two at least
  (`DeviceFlags.ScrapeOvercharges`), as for two jobs on a device with one share (`DeviceFlags.StarvedJobCharged`).
- A scrape that lists the jobs of the last one attaches nothing anew. A slot has the units it should have afterwards
  exactly when its index is asked for by the same jobs as before (`SlurmAttachments.StillReflectsExactly`); a job that
  asks for another device while the jobs stay the same is still on the first one
  (`SlurmAttachments.ChangedRequestMissed`).
- Every child path with an inode is cached, active and owned by its cgroup after a scan exactly when no inode is that of
  paths of two cgroups and no entry that is kept names another cgroup (`EbpfCaches.FoundExactly`); a cached path that
  passes to another cgroup is still known to be the first one's (`EbpfCaches.MovedPathMissed`).
- An order map keeps indices distinct exactly when it gives no slot an index that another slot gets or keeps
  (`GpuIndices.ReindexDistinct`); `0:1` on two GPUs does (`GpuIndices.PartialMapClashes`).
- Devices that share an index are never overbooked exactly when, for every index, the first slot that carries it has at
  least the shares of the last one (`SharedIndices.OverbooksExactly`). Otherwise a single job on that index is given
  the shares of the last slot on the first one (`SharedIndices.SharedIndexOverbooks`).
- The average column at a name is the weighted mean of the rows that have it exactly when, at every such row, either
  all earlier rows have the name or none has (`MetricMeans.MeanExactlyWhenGapFree`): the existing weight counts rows
  without the name too. `MetricMeans.GapMissesMean` gives values for every other pattern.
- The aggregate over rows carries the last value of a name into later rows that lack it. It is the weighted mean of the
  rows with the name, for all values and all positive weights, exactly when at most one counted row has the name or no
  counted row after the first one that has it lacks it (`AggregateMeans.DoneExactlyInPattern`); for fixed weights, when
  the rows that each row is carried into weigh the same multiple of it (`AggregateMeans.MeanExactlyInRatio`). With the
  values 4 and 0 and then a row without the name it is 4/3 instead of 2 (`AggregateMeans.StaleRowChangesMean`).
- `NodelistParser` panics exactly when some part between commas opens a bracket that no later part closes
  (`NodelistRoundTrip.ParsePanicsExactly`), as in `a[1,2` (`NodelistRoundTrip.CutOffPanics`). The counter of its loop
  wraps around, so the loop is left exactly when it is empty or ends below the largest integer
  (`Counters.LeavesExactly`); a printed list comes back exactly when none of its ranges that is reached goes up to that
  integer (`NodelistRoundTrip.ParsePrinted`), which `a[0-9223372036854775807]` does (`NodelistRoundTrip.EndlessList`).
  The comment on `replaceNodelistDelimiter` promises neither.
- A printed host with any number of bracket groups stays in one piece exactly when every group is a single range, or
  the first and the last group both have several (`NodelistRoundTrip.StaysExactly`): `a[0,1]b[2]` panics
  (`NodelistProducts.FirstSeveralPanics`), and `a[0]b[1,2]` is cut in two (`NodelistProducts.LastSeveralCut`).
- A host stands for all combinations of the numbers of its groups exactly when some group has no number, or every group
  that occurs again has a single one (`NodelistProducts.ProductExactly`): equal groups are replaced together, so
  `a[0-1]b[0-1]` gives two names instead of four (`NodelistProducts.TwinsInStep`).
- The comment on `ChunkByMaxSum` says that no chunk exceeds the maximum. That holds exactly when no number does
  (`Chunks.WithinMaximum`); the number 9 under a maximum of 5 is a chunk of its own (`Chunks.LargeNumberAlone`).
- Among units that have started, a unit's start and end lie in the time that its batch asks about exactly when the unit
  has ended (`Batches.WindowExactlyEnded`), so all do exactly when none still runs (`Batches.AllInWindowExactly`). A
  unit that still runs and is alone in its batch makes a window of negative length (`Batches.RunningUnitOutside`).
- The accuracy of a sensor record is read with a sign, so a record comes back as it was exactly when its accuracy is
  below 512 (`FullSensorRecords.AccuracyKept`); 600 comes back as -424 (`FullSensorRecords.LargeAccuracyNegative`). A
  record with an 8-bit name comes back exactly when two bytes or more follow the fields, even if the name is shorter
  (`FullSensorRecords.EightBitRecordRead`).
- An entry of the redfish table keeps its target for good exactly when every waiting request with its address has that
  target (`RedfishRouting.SettledExactly`); two requests that both miss before either writes can replace each other's
  (`RedfishRouting.RaceReplaces`).
- The comment in the redfish proxy says that the header is always looked at first; the code looks in the table first. A
  request is sent where its header says exactly when no address of it is known or the first known one has that target
  (`RedfishRouting.HeaderFollowed`); after one request from an address, every later one with another header is sent to
  the first target (`RedfishRouting.LaterHeaderIgnored`).

## Model

| member | source | states |
|---|---|---|
| SlurmCollectors.SlurmCollector.JobDevices | pkg/collector/slurm.go:426-503 | one scrape: nothing changes without devices or when jobs with the same UUIDs come again, each as often, and all their requests were known; otherwise the slots are the attached slots after serving the jobs. After every scrape each unit on a device or instance has the UUID of a job of that scrape, and every job has a unit wherever its index is listed, as long as requests are what they were when they were attached. Well-indexed devices with settled books stay so |
| SlurmCollectors.SlurmCollector.constructor | pkg/collector/slurm.go:255-275 | a collector starts without jobs, in the state that every scrape keeps |
| SlurmAttachments.StillListed | pkg/collector/slurm.go:433-448 | devices on which some jobs are attached hold only units of the jobs of a later scrape if that has the same UUIDs, and all of them if their requests stayed the same |
| SlurmAttachments.StillReflectsExactly | pkg/collector/slurm.go:438-448 | when the same jobs are listed again, with whatever requests, a slot that is not attached anew has units of exactly the jobs that ask for it if and only if the same jobs ask for it as before |
| SlurmAttachments.ChangedRequestMissed | pkg/collector/slurm.go:438-448 | a job whose request moves to another device while the jobs stay the same is still on the first one |
| SlurmAttachments.UuidsCounted | pkg/collector/slurm.go:433-436 | the IDs that are compared are the UUIDs of the listed jobs, each as often as it is listed |
| SlurmAttachments.AttachedReflects | pkg/collector/slurm.go:465-490 | an attached slot has units of exactly the listed jobs that ask for its index |
| SlurmAttachments.ServedCount | pkg/collector/slurm.go:426-503 | after a scrape a job has as many units on a slot as it lists the index of the slot |
| SlurmAttachments.JobsAre | pkg/collector/slurm.go:459-478 | the jobs that are served are those that ask for devices, each with its devices and shares |
| SlurmAttachments.NoGresExactly | pkg/collector/slurm.go:462-476 | none is reported as without GRES if and only if every listed job asks for devices |
| SlurmAttachments.SlotOwner | pkg/collector/slurm.go:480-490 | every slot is that of a device or of an instance |
| SlurmAttachments.DevicePlace | pkg/collector/slurm.go:480-490 | a device and its instances are neighbours in the row of all slots, the device first |
| SlurmCollectors.SlurmCollector.UpdateGRESShares | pkg/collector/slurm.go:366-423 | the nested loops over jobs, devices, instances and units leave on the slots, and in every job's remaining demand, what serving the sorted jobs one by one gives |
| SlurmCollectors.SlurmCollector.AvailableShares | pkg/collector/slurm.go:367-382 | the availability map skips devices without an index and never skips instances |
| SlurmCollectors.SortByDevices | pkg/collector/slurm.go:384-390 | a permutation ordered by number of devices; ties are left open |
| SlurmCollectors.SlurmCollector.ServeInOrder | pkg/collector/slurm.go:392-422 | each resource in turn; earlier leftovers are not touched by later jobs |
| SlurmCollectors.SlurmCollector.ServeDevices | pkg/collector/slurm.go:395-421 | one job over all devices in order; identities of devices and instances are unchanged |
| SlurmCollectors.SlurmCollector.ServeComputeUnits | pkg/collector/slurm.go:396-406 | one job on the units of one slot: units, CurrentShares, availability and the job's remainder change together |
| SlurmCollectors.SlurmCollector.AttachJobs | pkg/collector/slurm.go:450-490 | after the reset every slot has one empty unit per listing of its index, in job order; jobs without GRES devices are reported |
| SlurmCollectors.SlurmCollector.ResetDevices | pkg/collector/gpu.go:479-534 | every slot loses its units and shares, nothing else changes |
| GresAllocation.JobConserved | pkg/collector/slurm.go:394-422 | on any slots, whatever their indices, what a job holds over all slots plus what it was left with is what it asked for |
| GresAllocation.SlotConserved | pkg/collector/slurm.go:394-422 | CurrentShares of every slot is the sum of its units' shares and at most AvailableShares; only shares of served jobs changed |
| GresAllocation.Maximal | pkg/collector/slurm.go:394-422 | a job that was left with something sits only on slots with nothing left |
| GresAllocation.Priority | pkg/collector/slurm.go:384-422 | if the single-device jobs on a slot together fit, each gets all it asked for, whatever the other jobs want |
| GresAllocation.LaterJobsDoNotMatter | pkg/collector/slurm.go:394-422 | what a job is left with is settled when it is served |
| GresAllocation.UnitsHold | pkg/collector/slurm.go:397-405 | on one slot only the job's first unit receives shares, and they are counted once |
| GresAttachment.EntryIsCapacity | pkg/collector/slurm.go:368-382 | with distinct indices every entry of the availability map is the slot's own capacity |
| GresAttachment.AvailableSame | pkg/collector/slurm.go:368-382 | the map depends on indices and capacities only, not on what is attached |
| GresGuarantees.ScrapeConserves | pkg/collector/slurm.go:426-503 | both conservation laws and maximality for every scrape, on well-indexed devices with distinct job UUIDs and whatever order the sort gives to ties |
| GresGuarantees.ScrapePriority | pkg/collector/slurm.go:426-503 | the priority law for every scrape |
| GresGuarantees.ScrapeJobConserved | pkg/collector/slurm.go:426-503 | conservation per job after every scrape, whatever the indices of the devices |
| GresGuarantees.WithoutSharing | pkg/collector/slurm.go:450-498 | without sharding and MPS no slot carries shares |
| SharedIndices.OverbooksExactly | pkg/collector/slurm.go:366-423 | no slot ends above its shares, for any jobs and any order of ties, if and only if for every index the first slot that carries it has at least the shares of the last one |
| SharedIndices.SharedIndexOverbooks | pkg/collector/slurm.go:366-423 | one job that asks for the shares of the last slot with an index is given them all on the first slot with it |
| SharedIndices.JobsHold | pkg/collector/slurm.go:392-422 | after any jobs, the first slot with an index holds what the entry of the index has lost, and no later slot holds anything |
| GresGuarantees.WellIndexedKept | pkg/collector/slurm.go:450-498 | scrapes keep devices well indexed |
| GpuIndices.ParseNvidiaSmiOutput | pkg/collector/gpu.go:1156-1249 | the non-empty indices in traversal order are 0, 1, 2, ...; every other field comes from its entry |
| GpuIndices.NumberedDistinct | pkg/collector/gpu.go:1156-1249 | such indices are pairwise distinct |
| GpuIndices.DiscoveredWellIndexed | pkg/collector/gpu.go:1156-1249 | discovery delivers what the share distribution requires |
| GpuIndices.GPUSMI.ReindexGPUs | pkg/collector/gpu.go:814-850 | every device, and the first of the instances with an ID, gets the index of the last entry that names it, and nothing else changes |
| GpuIndices.ReindexDistinct | pkg/collector/gpu.go:814-850 | for any devices with distinct indices and any order map: indices stay distinct if and only if no slot is given a non-empty index that another slot is given or keeps |
| GpuIndices.ProperClash | pkg/collector/gpu.go:814-850 | with distinct minors and distinct new indices, that happens if and only if a slot left alone keeps an index that is given to another |
| GpuIndices.CoveringMapWellIndexed | pkg/collector/gpu.go:814-850 | an order map that covers every indexed slot keeps devices well indexed |
| GpuIndices.PartialMapClashes | pkg/collector/gpu.go:814-850 | after the map 0:1 on two GPUs with the indices 0 and 1 both have the index 0 |
| OrderMaps.OrderMapRead | pkg/collector/gpu.go:822-829 | every entry of a written order map is read, in order, whatever spaces are around its parts |
| OrderMaps.EntryRead | pkg/collector/gpu.go:823-841 | index:minor and index:minor.instance are read as they are meant |
| OrderMaps.SkippedExactly | pkg/collector/gpu.go:823-826 | an entry is skipped if and only if it has no colon |
| OrderMaps.TrimPadded | pkg/collector/gpu.go:831-841 | trimming takes the spaces around a text away and nothing else |
| OrderMaps.TwoEntriesRead | pkg/collector/gpu.go:822-829 | 7:1.3, 0:2 gives index 7 to instance 3 of device 1 and index 0 to device 2 |
| OrderMaps.LastEntryCounts | pkg/collector/gpu.go:830-845 | a slot gets the index of the last entry that names it |
| OrderMaps.NoEntryCounts | pkg/collector/gpu.go:830-845 | and none if and only if no entry names it |
| Helpers.AreEqual | pkg/collector/helper.go:296-326 | true if and only if the two lists are equal as multisets |
| Helpers.ElementCounts | pkg/collector/helper.go:329-340 | each value with the number of times it occurs |
| PodDevices.PodDeviceMapper | pkg/collector/k8s.go:370-386 | under each device key, in order, the pods that hold it, once per device ID held |
| PodDevices.FillSlot | pkg/collector/k8s.go:391-399 | in whatever order the counts are walked, the units are the distinct pods with their counts, and CurrentShares is their sum |
| PodDevices.KeyIs | pkg/collector/k8s.go:376-391 | the key of an ID is that of a device if and only if its part before the first :: is the UUID of the device, letter case aside |
| PodDevices.UidsCounted | pkg/collector/k8s.go:370-386 | a pod is listed under a device once for every ID of the device that its containers hold |
| PodDevices.K8sCollector.PodDevices | pkg/collector/k8s.go:330-418 | after a refresh every device and instance has one unit for each pod that holds IDs of it, with as many shares as IDs, where an ID is for the device whose UUID it starts with up to the first ::, letter case aside; a failed discovery or listing and an unexpired mapping leave the state as stated; if every unit on every slot held shares that add up to CurrentShares, that is so afterwards |
| PodDevices.K8sCollector.constructor | pkg/collector/k8s.go:157-181 | a collector starts with the discovered devices, on which no pod holds anything |
| DeviceFlags.UpdateDeviceMappers | pkg/collector/cgroup.go:1150-1236 | one sample for every unit of every slot, slot after slot: it has the UUID of the unit, the index of the slot, and a value that times CurrentShares is the shares of the unit, or one if either has none |
| DeviceFlags.ChargedInTotal | pkg/collector/cgroup.go:1153-1172 | the fractions of a slot add up to one, plus one for every unit without shares |
| DeviceFlags.ChargedOnce | pkg/collector/cgroup.go:1153-1172 | they add up to exactly one if and only if every unit holds shares, or one unit is alone without any |
| DeviceFlags.PodsChargedOnce | pkg/collector/cgroup.go:1153-1172 | on Kubernetes nodes they add up to exactly one on every slot that some pod holds, between any refreshes |
| DeviceFlags.CrowdedChargedTwice | pkg/collector/cgroup.go:1153-1172 | on a slot with more units than shares they add up to at least two and at most the number of units, and as many units are starved as shares are missing |
| DeviceFlags.ScrapeOvercharges | pkg/collector/slurm.go:366-503 | so it is after every scrape that attaches more units to a slot than it has shares |
| DeviceFlags.StarvedJobCharged | pkg/collector/slurm.go:366-503 | two jobs on a device with one share: the fractions add up to two, whichever is served first |
| PerfCounters.ScalingExtrapolates | pkg/collector/perf.go:1308-1329 | the scaled delta is never less than the raw one when enabled time grows at least as fast as running time, and equal when both grow alike |
| PerfCounters.ScalingNonNegative | pkg/collector/perf.go:1308-1329 | the scaled delta is never negative, wrap-around included |
| PerfCounters.ScaledIs | pkg/collector/perf.go:1308-1329 | for all reads, wrap-around included, the scaled delta is the whole number nearest to what was counted times enabled over running time, or what was counted if the counter did not run |
| PerfCounters.AddProfileAt | pkg/collector/perf.go:683-722 | each counter of a profile is added once to its own total |
| PerfCollectors.PerfCollector.Update | pkg/collector/perf.go:537-597 | one scrape is open, close, evict and read. From what the kernel answered in all scrapes so far: a process has a profiler exactly if one was granted and it has been listed since; its last value is that of its last successful read; the counter of a cgroup is the sum of what the reads of its processes added. Of one scrape: a listed process has a profiler if it had one or is granted one, and a read that succeeds is remembered. Without cgroups nothing changes |
| PerfCollectors.PerfCollector.OpenProfilers | pkg/collector/perf.go:1069-1130 | a profiler for every listed process that has none and is granted one; all listed PIDs are returned |
| PerfCollectors.PerfCollector.CloseProfilers | pkg/collector/perf.go:1191-1243 | only profilers of listed PIDs remain |
| PerfCollectors.PerfCollector.UpdateStateMaps | pkg/collector/perf.go:613-673 | entries of inactive PIDs and cgroups go, active ones without an entry get an empty one |
| PerfCollectors.PerfCollector.UpdateHwCounter | pkg/collector/perf.go:675-680 | returns the scaled delta against the remembered value and remembers the new one |
| PerfCollectors.PerfCollector.UpdateHardwareCounters | pkg/collector/perf.go:725-771 | failed reads and processes without a profiler are skipped, every other profile is added to the totals of the cgroup |
| PerfCollectors.PerfCollector.AggHardwareCounters | pkg/collector/perf.go:683-722 | the profiles are added in some order that visits each once, without touching an absent inner map |
| PerfConservation.ScrapeKeeps | pkg/collector/perf.go:537-597 | one clean scrape keeps the conservation invariant |
| PerfConservation.RunConserves | pkg/collector/perf.go:537-722 | after any clean run a counter of a cgroup is the sum, over all profilers it has had since it became active, of the last raw value aggregated; PerfInputs.ChargeIsLastReads states it on what was read |
| PerfInputs.ScrapeHolds | pkg/collector/perf.go:537-722 | after any scrapes, profilers, remembered values and totals are those that the answers of the kernel in these scrapes give, if no scrape lists a process twice |
| PerfInputs.OneScrape | pkg/collector/perf.go:737-758 | after one scrape, whatever came before, a listed process has a profiler if it had one or is granted one, and its read is remembered if it succeeds |
| PerfInputs.ChargeIsLastReads | pkg/collector/perf.go:537-722 | without wrap-around, multiplexing and moves between cgroups, the counter of a cgroup is the sum of the values last read from its processes, those that are gone included |
| PerfConservation.MapsCoupled | pkg/collector/perf.go:554-673 | after every scrape with cgroups: profiler PIDs are remembered PIDs, these are the listed ones, totals are kept for the listed cgroups |
| PerfConservation.TotalsGrow | pkg/collector/perf.go:675-722 | totals of a listed cgroup never decrease, whatever is read |
| EbpfCaches.EbpfCollector.DiscoverCgroups | pkg/collector/ebpf.go:881-928 | on any cgroups and caches: the path cache holds the child paths that are cached or can be read, with that inode; active are the inodes of all child paths; the ID cache names listed cgroups, and changes only at inodes that are read anew, gone or had no entry. Every child path with an inode is cached, active and owned by its cgroup if and only if no inode is that of paths of two cgroups and no entry that is kept names another cgroup |
| EbpfCaches.ListedIs | pkg/collector/ebpf.go:890-894 | the pairs that are visited are exactly the child paths of the cgroups with the UUIDs of their cgroups |
| EbpfCaches.ScanIs | pkg/collector/ebpf.go:881-928 | what a scan leaves in the caches, on the cgroups and the caches before it |
| EbpfCaches.FoundExactly | pkg/collector/ebpf.go:881-928 | the exact condition under which every child path with an inode is cached, active and owned by its cgroup |
| EbpfCaches.MovedPathMissed | pkg/collector/ebpf.go:897-907 | a cached path that passes to another cgroup: its inode is active and still known to be the first one's, as long as that is listed |
| EbpfCaches.ScanAgrees | pkg/collector/ebpf.go:881-928 | one scan keeps the caches in agreement with the file tree, inode numbers reused included |
| EbpfCaches.RunAgrees | pkg/collector/ebpf.go:881-928 | so does any run of scans |
| EbpfCaches.StartAgrees | pkg/collector/ebpf.go:881-928 | the empty caches agree with the empty tree |
| EbpfCaches.ActiveInodeOwned | pkg/collector/ebpf.go:881-928 | a non-zero active inode belongs to a listed path, and the ID cache names that path's owner |
| EbpfAggregation.ContainsMount | pkg/collector/ebpf.go:961-975 | true if and only if no mounts are configured or one of them occurs in the mount at some position |
| EbpfAggregation.AggReadWrite | pkg/collector/ebpf.go:999-1025 | at each UUID and mount the wrapped sums of bytes, calls and errors over exactly the entries of active inodes that the ID cache gives to the UUID, whose name up to the first NUL is the mount, if the mount is allowed; no key without such an entry |
| EbpfAggregation.AggInode | pkg/collector/ebpf.go:1026-1043 | at each UUID the wrapped sums over exactly the entries of active inodes that the ID cache gives to it; no key without such an entry |
| EbpfAggregation.AggNet | pkg/collector/ebpf.go:1049-1085 | at each UUID, protocol and family name the wrapped sums over exactly the entries of active inodes that the ID cache gives to the UUID, with numbers of these names: 6 is tcp, 17 udp, 2 ipv4, 10 ipv6, and any other has the empty name; no key without such an entry |
| EbpfAggregation.TrafficByNumber | pkg/collector/ebpf.go:36-47 | for each of TCP and UDP over IPv4 and IPv6: what is under its names is the sum over exactly the entries with its numbers |
| EbpfAggregation.NameIs | pkg/collector/ebpf.go:1007-1007 | the mount is the name field up to its first NUL |
| EbpfAggregation.GroupStep | pkg/collector/ebpf.go:1004-1024 | adding one entry keeps every sum right |
| EbpfAggregation.ChargedIsAccepted | pkg/collector/ebpf.go:978-1085 | the totals of all keys together are the total of the accepted entries |
| EbpfAggregation.GroupedConserves | pkg/collector/ebpf.go:978-1085 | the totals of a result add up to the total of the accepted entries, modulo 2^64 |
| EbpfAggregation.ConservedExactly | pkg/collector/ebpf.go:978-1085 | they add up to it exactly if and only if no single key was charged 2^64 or more; so they do when the accepted total is below that |
| EbpfAggregation.OrderFree | pkg/collector/ebpf.go:978-1085 | the order in which the kernel map is walked does not matter |
| EbpfAggregation.ChargedToOwner | pkg/collector/ebpf.go:881-1024 | with caches as a scan leaves them no read or write event is charged to anyone but the owner of its inode |
| EbpfAggregation.InodeChargedToOwner | pkg/collector/ebpf.go:881-1043 | the same for events keyed by inode |
| EbpfAggregation.NetChargedToOwner | pkg/collector/ebpf.go:881-1085 | the same for network events |
| Chunks.ChunkByMaxSum | internal/common/helpers.go:521-551 | the chunks cut the input into single numbers and groups within the maximum, and no chunk had room for the next number; nothing for a maximum of zero or less |
| Chunks.Optimal | internal/common/helpers.go:521-551 | no other such cut has fewer chunks |
| Chunks.NeighboursOverflow | internal/common/helpers.go:521-551 | neighbouring chunks never fit together |
| Chunks.CountBound | internal/common/helpers.go:521-551 | hence the total bounds the number of chunks |
| Chunks.WithinMaximum | internal/common/helpers.go:521-551 | for non-negative numbers, no chunk is over the maximum if and only if no number is |
| Chunks.LargeNumberAlone | internal/common/helpers.go:521-551 | the number 9 under a maximum of 5 is a chunk that sums to 9 |
| Batches.ChunkByDuration | cmd/cacct/tsdb.go:445-509 | the batches are made from groups that cut the units, ordered by walltime, as the chunker does; none without available samples |
| Batches.FindLatestEnd | cmd/cacct/tsdb.go:449-454 | the latest end, or zero |
| Batches.SortByWalltime | cmd/cacct/tsdb.go:459-465 | a permutation ordered by walltime; ties are left open |
| Batches.FillBatch | cmd/cacct/tsdb.go:486-505 | UUIDs, window and interval of one batch are those of the next units at the cursor |
| Batches.CutStep | cmd/cacct/tsdb.go:483-502 | the cursor never runs past the units |
| Batches.AllUnitsBatched | cmd/cacct/tsdb.go:483-509 | the UUIDs of all batches are a permutation of those of the units |
| Batches.WithinBudget | cmd/cacct/tsdb.go:467-505 | a batch of several units keeps to the sample budget and to the configured interval |
| Batches.FewestBatches | cmd/cacct/tsdb.go:467-481 | no other cut of that sequence keeps to the budget with fewer batches |
| Batches.WindowExactly | cmd/cacct/tsdb.go:486-504 | for any units, a unit's start and end lie in its batch's window if and only if it starts by the last end and ends after the first start in its batch |
| Batches.WindowExactlyEnded | cmd/cacct/tsdb.go:486-504 | among units that have started and that either still run or have ended no earlier, they do if and only if the unit has ended, whatever the others do |
| Batches.AllInWindowExactly | cmd/cacct/tsdb.go:445-509 | so all units lie in their windows if and only if none still runs |
| Batches.WindowCovers | cmd/cacct/tsdb.go:486-504 | they do for all units when every unit ended after it started |
| Batches.RunningUnitOutside | cmd/cacct/tsdb.go:449-504 | a single unit that still runs falls outside, and its window has negative length |
| Batches.WindowsGoBack | cmd/cacct/tsdb.go:459-504 | windows of successive batches start earlier and earlier |
| BatchNumbers.BatchIs | cmd/cacct/tsdb.go:486-504 | a batch names the units of its group in order, ends at their last end and begins at their first start, both attained |
| BatchNumbers.UnitSamplesAre | cmd/cacct/tsdb.go:470-476 | a unit needs as many samples of each series as scrapes fit between its start and the latest end, one at least |
| BatchNumbers.AvailableAre | cmd/cacct/tsdb.go:467-468 | the available samples are the given part of the limit, without the fraction, and there are some if and only if the part is one or more |
| BatchNumbers.IntervalIs | cmd/cacct/tsdb.go:505-505 | within the budget the evaluation interval is the configured one, over it it grows in proportion to the samples, in whole seconds |
| BatchNumbers.TruncateIs | cmd/cacct/tsdb.go:468-505 | conversion to an integer gives the next whole number on the side of zero |
| BatchNumbers.QuotientIs | cmd/cacct/tsdb.go:474-474 | what division leaves is smaller than the divisor and has the sign of the dividend |
| Counters.LeavesExactly | internal/common/helpers.go:130-134 | a loop over a 64-bit counter that wraps around is left after some number of rounds if and only if it is empty or ends below the largest integer |
| Counters.RoundsAre | internal/common/helpers.go:130-134 | then it is left for the first time after one round for each number from start to end |
| Nodelists.ExpandNodelist | internal/common/helpers.go:96-143 | the recursive expansion computes the specified names and ends on every input on which every loop over a range is left |
| Nodelists.BracketsFall | internal/common/helpers.go:129-133 | every recursive call has strictly fewer opening brackets |
| Nodelists.ReplaceNodelistDelimiter | internal/common/helpers.go:57-93 | the loop with its swept-in parts computes the specified nodes |
| Nodelists.NodelistParser | internal/common/helpers.go:50-52 | the outcome of any text is that of delimiting and expanding it |
| NodelistExpansion.SubstIs | internal/common/helpers.go:130-134 | replacing the text of a bracket group in a printed host is putting the number into the host, wherever the same group occurs and nowhere else |
| NodelistExpansion.HostIs | internal/common/helpers.go:96-143 | a printed host with any number of groups expands to its names, the numbers of the first group in order and for each the names of what is left, or never returns if a range that is reached is endless |
| NodelistRoundTrip.PartsShaped | internal/common/helpers.go:57-93 | which of the parts of a printed host between commas open and close a group, from its groups |
| NodelistRoundTrip.DelimitHosts | internal/common/helpers.go:57-93 | for hosts whose groups are single ranges, or whose first and last group have several: commas between hosts become delimiters, commas inside brackets stay |
| NodelistRoundTrip.ParsePrinted | internal/common/helpers.go:50-143 | for lists of such hosts with numbers of any size: parsing returns if and only if no range that is reached goes from some number up to the largest integer, and then gives, in order, every name of every host, padded with zeros to the width of its range's first number |
| NodelistNames.RangeNamed | internal/common/helpers.go:106-134 | a name and a range of numbers stand for one name for each number from first to last, in order, that spells the number in decimal digits, padded with zeros to the length of the first one; all have this length if the last number has no more digits |
| NodelistNames.PadIs | internal/common/helpers.go:131-131 | a padded number is as long as the width, or its digits if they are more, and still spells the number |
| NodelistNames.NoZeroInFront | internal/common/helpers.go:131-131 | without padding a number is written without a zero in front |
| NodelistNames.AtoiIs | internal/common/helpers.go:118-128 | a bound is read if and only if it is digits, with or without a plus sign, of a number up to the largest integer |
| NodelistNames.ZerosKept | internal/common/helpers.go:50-143 | a[00-01] is a00 and a01 |
| NodelistNames.PlainParsed | internal/common/helpers.go:95-143 | a name without brackets stands for itself, quoted |
| NodelistNames.QuoteRoundTrip | internal/common/helpers.go:137-139 | a quoted name stands for the name and for nothing else |
| NodelistNames.DotQuoted | internal/common/helpers.go:137-139 | the dot in a.b is quoted with a backslash |
| NodelistNames.GroupIs | internal/common/helpers.go:101-108 | the group that is expanded is the first bracket that opens and is closed on the same line, up to the first one that closes |
| NodelistNames.NoGroupSkipped | internal/common/helpers.go:101-104 | text with brackets that are no group stands for no names |
| NodelistNames.NoNumberSkipped | internal/common/helpers.go:118-128 | so does a group that is not a number |
| NodelistRoundTrip.StaysExactly | internal/common/helpers.go:57-93 | a printed host stays in one piece if and only if all its groups are single ranges or the first and the last have several |
| NodelistRoundTrip.HostPanicsExactly | internal/common/helpers.go:50-93 | parsing it panics if and only if its first group has several ranges and its last has one |
| NodelistProducts.CutAtCommas | internal/common/helpers.go:57-93 | if the first group is one range and a later one several, every comma cuts it |
| NodelistProducts.FirstSeveralPanics | internal/common/helpers.go:50-93 | the text a[0,1]b[2] panics |
| NodelistProducts.LastSeveralCut | internal/common/helpers.go:57-93 | the text a[0]b[1,2] is cut in two |
| NodelistProducts.ProductExactly | internal/common/helpers.go:96-143 | the names of a host are all combinations of the numbers of its groups, in order, if and only if some group has no number or every repeated group has one |
| NodelistProducts.ParsedProduct | internal/common/helpers.go:50-143 | so parsing a printed host that stays in one piece and returns gives all combinations if and only if that holds |
| NodelistProducts.TwinsInStep | internal/common/helpers.go:130-134 | the text a[0-1]b[0-1] gives a0b0 and a1b1 only |
| NodelistRoundTrip.ParseEmpty | internal/common/helpers.go:50-143 | the empty text is one host with an empty name |
| NodelistRoundTrip.DelimitFailsExactly | internal/common/helpers.go:71-82 | the slice is overrun if and only if a group is opened and never closed |
| NodelistRoundTrip.ParsePanicsExactly | internal/common/helpers.go:50-93 | for every text, parsing panics if and only if a group is opened and never closed |
| NodelistRoundTrip.CutOffPanics | internal/common/helpers.go:50-93 | the text a[1,2 panics |
| NodelistRoundTrip.EndlessList | internal/common/helpers.go:50-143 | the text a[0-9223372036854775807] never returns |
| NodelistRoundTrip.LargestNumberStuck | internal/common/helpers.go:130-134 | up to the largest integer the guard holds after every number of rounds, through the wrap to the smallest integer |
| IpmiStrings.CodeIs | pkg/ipmi/types.go:324-351 | the bits of character i lie at the offset the formula gives and in the byte after it, within the bytes required |
| IpmiStrings.SixBitsIs | pkg/ipmi/types.go:329-348 | picking six bits after the other is division by a power of 64 and a remainder |
| IpmiStrings.DecodePacked6BitAscii | pkg/ipmi/types.go:312-356 | character i is the space's code plus bits 6i to 6i+5 of the number that the bytes spell; too few bytes are an error |
| IpmiStrings.PackedRoundTrip | pkg/ipmi/types.go:312-356 | unpacking packed text gives it back, whatever follows |
| IpmiStrings.PackedExample | pkg/ipmi/types.go:312-356 | the bytes 29h, DCh, A6h are the text IPMI |
| IpmiStrings.DecodeBCDPlus | pkg/ipmi/types.go:288-310 | character i is the BCD plus character of half byte i; too few bytes are an error |
| IpmiStrings.BcdRoundTrip | pkg/ipmi/types.go:205-310 | text written in BCD plus is read back, whatever follows |
| IpmiStrings.BcdCharacters | pkg/ipmi/types.go:202-208 | the sixteen characters: the digits, space, dash, period, colon, comma and underscore |
| IpmiStrings.BcdExample | pkg/ipmi/types.go:288-310 | the bytes 01h, 23h to EFh are these characters in order |
| IpmiStrings.EightBitRoundTrip | pkg/ipmi/types.go:358-373 | 8-bit text is read back if and only if there are at least two bytes of data |
| IpmiStrings.EightBitIs | pkg/ipmi/types.go:358-373 | text if and only if there are two bytes and as many as characters, each byte the code of a character; the errors otherwise |
| TwosComplement.TwosIs | pkg/ipmi/types.go:783-797 | twos is sign extension at every width from zero to sixteen bits, of any value that fits |
| FullSensorRecords.FullSensorRecord.DecodeFromBytes | pkg/ipmi/types.go:152-200 | a short record changes nothing; otherwise all fields are those of the layout, and the identity changes only if it decodes |
| FullSensorRecords.FullSensorRecord.DecodeIdentity | pkg/ipmi/types.go:181-194 | each of the four encodings has its decoder |
| FullSensorRecords.FieldsRead | pkg/ipmi/types.go:158-179 | the split fields of an encoded record are read back |
| FullSensorRecords.PackedRecordRead | pkg/ipmi/types.go:152-200 | a record with a name in packed 6-bit ASCII of any length up to 31 is read back |
| FullSensorRecords.BcdRecordRead | pkg/ipmi/types.go:152-200 | a record with a name in BCD plus of any length up to 31 is read back |
| FullSensorRecords.EightBitRecordRead | pkg/ipmi/types.go:152-200 | a record with an 8-bit name is read back if and only if two bytes follow the fields |
| FullSensorRecords.AccuracyKept | pkg/ipmi/types.go:152-200 | an encoded record with a packed name decodes to itself if and only if its accuracy is below 512 |
| FullSensorRecords.BcdAccuracyKept | pkg/ipmi/types.go:152-200 | the same for a record with a name in BCD plus |
| FullSensorRecords.LargeAccuracyNegative | pkg/ipmi/types.go:172-174 | an accuracy of 600 is read as -424 |
| FullSensorRecords.ReadPackedRecord | pkg/ipmi/types.go:152-200 | the decoder object, run on the bytes of an encoded record, holds that record afterwards, whatever it held before |
| FullSensorRecords.ReadBcdRecord | pkg/ipmi/types.go:152-200 | the same for a name in BCD plus |
| MetricMaps.AddMetricMap | pkg/sqlite3/sqlite3.go:184-218 | sums on common names, the one value elsewhere |
| MetricMaps.AvgMetricMap | pkg/sqlite3/sqlite3.go:222-270 | weighted means on common names, the one value elsewhere |
| MetricMaps.MinMetricMap | pkg/sqlite3/sqlite3.go:274-308 | minima on common names, the one value elsewhere |
| MetricMaps.MaxMetricMap | pkg/sqlite3/sqlite3.go:312-346 | maxima on common names, the one value elsewhere |
| MetricMaps.Commutative | pkg/sqlite3/sqlite3.go:184-346 | addition, minimum and maximum do not depend on the order of the two maps |
| MetricMaps.AddAssociative | pkg/sqlite3/sqlite3.go:184-218 | nor does addition on the grouping of three |
| MetricMaps.MinAssociative | pkg/sqlite3/sqlite3.go:274-308 | nor does the minimum |
| MetricMaps.MaxAssociative | pkg/sqlite3/sqlite3.go:312-346 | nor does the maximum |
| MetricMaps.RecordBounded | pkg/sqlite3/sqlite3.go:184-346 | after any rows with positive weights all columns have the same names, and minimum, average and maximum stay in order |
| MetricRecords.RecordIs | pkg/sqlite3/sqlite3.go:184-346 | after any rows, at every name that some row has, the total is the sum, the minimum the smallest and the maximum the largest of the values of the rows that have it |
| MetricRecords.RecordNames | pkg/sqlite3/sqlite3.go:184-346 | the names in every column are those of the rows, and the weight is that of all rows |
| MetricMaps.AvgCellIs | pkg/sqlite3/sqlite3.go:222-270 | the average of two maps at a name is their weighted mean, or the one value there is |
| MetricMaps.UndividedIs | pkg/sqlite3/sqlite3.go:254-261 | without a positive weight the weighted sum is not divided |
| MetricMeans.RecordFolds | pkg/sqlite3/sqlite3.go:222-270 | the average column at a name is the fold of its cells |
| MetricMeans.MeanExactlyWhenGapFree | pkg/sqlite3/sqlite3.go:222-270 | that fold is the weighted mean of the rows with the name, for all values, if and only if at every such row all earlier rows have the name or none has |
| MetricMeans.GapMissesMean | pkg/sqlite3/sqlite3.go:222-270 | for all other patterns of rows and all weights there are values on which it is not |
| MetricAggregates.AvgMetricMapAgg.Step | pkg/sqlite3/sqlite3.go:469-485 | a row that is empty or has no weight changes nothing; any other adds, at every name decoded so far, value times weight and weight, old names with their last value |
| MetricAggregates.AvgMetricMapAgg.Done | pkg/sqlite3/sqlite3.go:488-505 | every name gets its sum divided by its weight, or its sum without a positive weight |
| MetricAggregates.CarriedAsIs | pkg/sqlite3/sqlite3.go:469-485 | a name that every counted row has is added up as it is |
| MetricAggregates.AggregateAgrees | pkg/sqlite3/sqlite3.go:222-505 | for such a name the aggregate equals the incremental column |
| AggregateMeans.CarriedIsCarry | pkg/sqlite3/sqlite3.go:469-485 | what the aggregator adds up at a name is every counted row with the last value seen there |
| AggregateMeans.MeanExactlyInRatio | pkg/sqlite3/sqlite3.go:469-505 | for fixed positive weights the aggregate is the weighted mean of the rows with the name, for all values, if and only if the rows each of them is carried into weigh the same multiple of it |
| AggregateMeans.MeanExactlyInPattern | pkg/sqlite3/sqlite3.go:469-505 | for all positive weights too, if and only if at most one row has the name or no row after the first one that has it lacks it |
| AggregateMeans.DoneExactlyInPattern | pkg/sqlite3/sqlite3.go:469-505 | the same for rows of metrics, skipped rows included |
| AggregateMeans.StaleRowChangesMean | pkg/sqlite3/sqlite3.go:469-505 | 4, then 0, then a row without the name: the aggregate is 4/3, the mean 2 |
| RedfishRouting.ReverseProxy.constructor | cmd/redfish_proxy/reverseproxy.go:37-43 | the configured targets, the later one where an address repeats |
| RedfishRouting.ReverseProxy.Lookup | cmd/redfish_proxy/reverseproxy.go:93-105 | the target of the first address that is in the table |
| RedfishRouting.ReverseProxy.Store | cmd/redfish_proxy/reverseproxy.go:118-125 | all addresses of the request get the target, no other entry changes |
| RedfishRouting.ReverseProxy.RewriteRequestURL | cmd/redfish_proxy/reverseproxy.go:75-133 | the first known address decides; else a valid header, which is learned for all addresses; else the request is refused; in no other case does the table change, and no other entry ever does |
| RedfishRouting.ConfiguredIs | cmd/redfish_proxy/reverseproxy.go:37-43 | an address is in the table at first if and only if it is configured, with the target of its last mention |
| RedfishRouting.LearnSets | cmd/redfish_proxy/reverseproxy.go:118-125 | learning a target sets it for all addresses of the request and leaves every other entry |
| RedfishRouting.ConfiguredKept | cmd/redfish_proxy/reverseproxy.go:93-125 | in every interleaving a configured address keeps its target |
| RedfishRouting.NeverShrinks | cmd/redfish_proxy/reverseproxy.go:93-125 | the table never loses an address |
| RedfishRouting.EntriesLearned | cmd/redfish_proxy/reverseproxy.go:93-125 | every other entry is the header URL of a request that carried the address and missed |
| RedfishRouting.SettledExactly | cmd/redfish_proxy/reverseproxy.go:93-125 | an entry keeps its target in every continuation of a run if and only if every waiting request with its address has that target |
| RedfishRouting.SerialServes | cmd/redfish_proxy/reverseproxy.go:75-133 | requests served one after the other do what their two steps do |
| RedfishRouting.SerialKeeps | cmd/redfish_proxy/reverseproxy.go:75-133 | then no entry ever changes |
| RedfishRouting.RaceReplaces | cmd/redfish_proxy/reverseproxy.go:93-125 | an interleaving of two requests in which an entry changes |
| RedfishRouting.HeaderFollowed | cmd/redfish_proxy/reverseproxy.go:75-133 | a request is sent where its header says if and only if none of its addresses is known or the first known one has that target |
| RedfishRouting.LaterHeaderIgnored | cmd/redfish_proxy/reverseproxy.go:75-133 | after one request from an address, and any served in between, a request from there with another header is sent to the first target |
| CpuStats.CpuCollector.UpdateCPUStats | pkg/collector/cpu.go:157-231 | every field becomes the larger of the cached value and the reading, from zero after a jump back of idle time |
| CpuStats.CachedIsMaximum | pkg/collector/cpu.go:157-231 | after any run each cached field is the largest reading since the last jump back |
| CpuStats.CountsFromSome | pkg/collector/cpu.go:164-168 | every run has such a last jump, or counts from its first reading |
| CpuStats.IdleWithinJump | pkg/collector/cpu.go:164-174 | cached idle time is at least the latest reading and less than three seconds ahead of it |
| CpuStats.FallsOnlyAtJump | pkg/collector/cpu.go:157-231 | idle time falls if and only if it jumped back, and no field falls at any other reading |

## Left out

- Input and output: files, processes, sockets, the kernel, the GPU libraries and the metric channel are parameters or returned sequences.
- JSON, XML and YAML decoding, regular expressions other than the one for bracket groups, command line flags and log messages.
- Floating point: reals stand for floats, and shares are natural numbers; the source sends them through a float, which is exact below 2^53.
- 64-bit overflow of sums of samples, times and shares; unsigned wrap-around is modelled where the source meets it, in perf scaling and in the eBPF sums.
- The available shares of devices are an input; the source reads them from the SLURM configuration of the node.
- SlurmCollectors.SlurmCollector.JobDevices: how a job's GRES is read from the environment of its processes is an input.
- GpuIndices.ParseNvidiaSmiOutput: bus IDs, product names, numbers and fractions of SMs, the vGPU flag and errors of the fields that do not decide indices.
- PodDevices.K8sCollector.PodDevices: whether the cached mapping has expired is an input; the source never refreshes its time stamp, and devices that are empty once stay empty because nothing is discovered again.
- PodDevices.PodDeviceMapper: lower-casing covers ASCII letters only.
- PodDevices.FillSlot: the device key is one text; for AMD devices the source uses the PCI path instead of the UUID.
- DeviceFlags.UpdateDeviceMappers: labels other than unit and index, and the metric for the number of SMs.
- PerfCollectors.PerfCollector.Update: software and cache counters, which have the same shape; failures of the security contexts; filtering of processes by environment variables.
- PerfCollectors.PerfCollector.OpenProfilers: hardware profilers only, for the same reason.
- PerfCollectors.PerfCollector.CloseProfilers: hardware profilers only; an error on closing is logged and ignored in the source.
- PerfCollectors.PerfCollector.UpdateStateMaps: the hardware maps only; the source does the same to the other two kinds.
- PerfCollectors.PerfCollector.UpdateHardwareCounters: the samples sent for positive totals, and the errors returned.
- PerfInputs.ScrapeHolds: assumes that no scrape lists a process in two places.
- PerfInputs.ChargeIsLastReads: the assumptions of PerfConservation.RunConserves.
- PerfConservation.RunConserves: assumes no wrap-around, no multiplexing and one cgroup for each PID while its profiler lives; a cgroup that is missing from a non-empty scrape starts again at zero.
- EbpfCaches.ScanAgrees: assumes that a listed path keeps its inode and owner while it stays and that inodes of listed paths differ.
- Batches.SortByWalltime: the body is an insertion sort; the source's library sort promises no more than the contract.
- BatchNumbers.UnitSamplesAre: scrape intervals that are not positive.
- BatchNumbers.IntervalIs: a negative interval or number of samples.
- Batches.FillBatch: durations are in milliseconds and intervals in whole seconds.
- NodelistRoundTrip.ParsePrinted: lists in which some host does not stay in one piece; expansion and delimiter replacement themselves are modelled for all texts. Names with the characters `,`, `[`, `]` or `|` are no printed names.
- Nodelists.ExpandNodelist: memory is unbounded; a loop that is never left collects names until the process runs out of it.
- FullSensorRecords.FullSensorRecord.DecodeFromBytes: 8-bit text is one character per byte; the source makes a string of the bytes. Conversion of readings to floats is left out.
- FullSensorRecords.FullSensorRecord.DecodeIdentity: the same for 8-bit names.
- FullSensorRecords.EightBitRecordRead: the same for 8-bit names.
- IpmiStrings.EightBitRoundTrip: one character per byte, where the source makes a string of the bytes.
- MetricAggregates.AvgMetricMapAgg.Step: the sum aggregate, which decodes its rows in the same way.
- RedfishRouting.ReverseProxy.RewriteRequestURL: joining of paths and queries once the target is known.
- CpuStats.CpuCollector.UpdateCPUStats: the lock, and the number of CPUs per core.
