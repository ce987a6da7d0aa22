/** SLURM devices, scrape by scrape (pkg/collector/slurm.go). */
module SlurmCollectors {
  import opened Devices
  import opened GresAllocation
  import opened GresAttachment
  import opened GresGuarantees
  import opened Helpers
  import opened Seqs
  import opened SlurmAttachments

  class Gres {
    const deviceIDs: seq<string>
    var numShares: nat

    constructor (deviceIDs: seq<string>, numShares: nat)
      ensures this.deviceIDs == deviceIDs && this.numShares == numShares
    {
      this.deviceIDs := deviceIDs;
      this.numShares := numShares;
    }
  }

  /** The jobs behind the GRES resources, with what they still ask for. */
  ghost function JobsFor(xs: seq<Gres>, jobGRESMap: map<Gres, string>): (r: seq<Job>)
    requires forall g :: g in xs ==> g in jobGRESMap
    reads xs
    ensures |r| == |xs|
  {
    seq(|xs|, i requires 0 <= i < |xs| reads xs => Job(jobGRESMap[xs[i]], xs[i].deviceIDs, xs[i].numShares))
  }

  ghost predicate SortedByLength(xs: seq<Gres>)
  {
    forall i, j :: 0 <= i < j < |xs| ==> |xs[i].deviceIDs| <= |xs[j].deviceIDs|
  }

  ghost predicate DistinctRefs(xs: seq<Gres>)
  {
    forall i, j :: 0 <= i < j < |xs| ==> xs[i] != xs[j]
  }

  lemma {:induction false} InsertJob(ys: seq<Gres>, p: nat, g: Gres, jobGRESMap: map<Gres, string>)
    requires p <= |ys| && g in jobGRESMap && forall h :: h in ys ==> h in jobGRESMap
    ensures multiset(JobsFor(ys[..p] + [g] + ys[p..], jobGRESMap))
      == multiset(JobsFor(ys, jobGRESMap)) + multiset{Job(jobGRESMap[g], g.deviceIDs, g.numShares)}
  {
    var a, b := JobsFor(ys[..p], jobGRESMap), JobsFor(ys[p..], jobGRESMap);
    assert JobsFor(ys, jobGRESMap) == a + b;
    assert JobsFor(ys[..p] + [g] + ys[p..], jobGRESMap) == a + [Job(jobGRESMap[g], g.deviceIDs, g.numShares)] + b;
  }

  lemma {:induction false} InsertSorted(ys: seq<Gres>, p: nat, g: Gres)
    requires p <= |ys| && SortedByLength(ys)
    requires p > 0 ==> |ys[p-1].deviceIDs| <= |g.deviceIDs|
    requires forall k :: p <= k < |ys| ==> |ys[k].deviceIDs| > |g.deviceIDs|
    ensures SortedByLength(ys[..p] + [g] + ys[p..])
  {
    var zs := ys[..p] + [g] + ys[p..];
    forall i, j | 0 <= i < j < |zs|
      ensures |zs[i].deviceIDs| <= |zs[j].deviceIDs|
    {
      assert i < p ==> zs[i] == ys[i] && |ys[i].deviceIDs| <= |ys[p-1].deviceIDs|;
      assert i > p ==> zs[i] == ys[i-1];
      assert j < p ==> zs[j] == ys[j];
      assert j > p ==> zs[j] == ys[j-1];
    }
  }

  lemma {:induction false} InsertDistinct(ys: seq<Gres>, p: nat, g: Gres)
    requires p <= |ys| && g !in ys && DistinctRefs(ys)
    ensures DistinctRefs(ys[..p] + [g] + ys[p..])
    ensures forall h :: h in ys[..p] + [g] + ys[p..] <==> h in ys || h == g
  {
    assert ys == ys[..p] + ys[p..];
  }

  lemma {:induction false} JobsNext(xs: seq<Gres>, jobGRESMap: map<Gres, string>, g: Gres, uuid: string)
    requires g !in xs && DistinctRefs(xs) && forall h :: h in xs ==> h in jobGRESMap
    ensures DistinctRefs(xs + [g]) && (forall h :: h in xs + [g] ==> h in jobGRESMap[g := uuid])
    ensures JobsFor(xs + [g], jobGRESMap[g := uuid]) == JobsFor(xs, jobGRESMap) + [Job(uuid, g.deviceIDs, g.numShares)]
  {
  }

  ghost predicate SameJobs(ys: seq<Gres>, xs: seq<Gres>, jobGRESMap: map<Gres, string>)
    requires forall g :: g in xs + ys ==> g in jobGRESMap
    reads xs, ys
  {
    multiset(JobsFor(ys, jobGRESMap)) == multiset(JobsFor(xs, jobGRESMap))
  }

  /** One more resource is in the sorted ones. */
  lemma {:induction false} InsertStep(ys: seq<Gres>, p: nat, xs: seq<Gres>, i: nat, jobGRESMap: map<Gres, string>)
    requires i < |xs| && DistinctRefs(xs) && (forall g :: g in xs ==> g in jobGRESMap) && p <= |ys|
    requires DistinctRefs(ys) && (forall g :: g in ys <==> g in xs[..i]) && SameJobs(ys, xs[..i], jobGRESMap)
    ensures var zs := ys[..p] + [xs[i]] + ys[p..];
      DistinctRefs(zs) && (forall g :: g in zs <==> g in xs[..i+1]) && SameJobs(zs, xs[..i+1], jobGRESMap)
  {
    PrefixStep(xs, i);
    InsertDistinct(ys, p, xs[i]);
    InsertJob(ys, p, xs[i], jobGRESMap);
    InsertJob(xs[..i], i, xs[i], jobGRESMap);
    InsertLast(xs, i);
  }

  /** The inner loop: where a resource goes. */
  method Position(ys: seq<Gres>, gres: Gres) returns (p: nat)
    ensures p <= |ys| && (p > 0 ==> |ys[p-1].deviceIDs| <= |gres.deviceIDs|)
    ensures forall k :: p <= k < |ys| ==> |ys[k].deviceIDs| > |gres.deviceIDs|
  {
    p := |ys|;
    while p > 0 && |ys[p-1].deviceIDs| > |gres.deviceIDs|
      invariant 0 <= p <= |ys|
      invariant forall k :: p <= k < |ys| ==> |ys[k].deviceIDs| > |gres.deviceIDs|
    {
      p := p - 1;
    }
  }

  /** The body of the outer loop. */
  method InsertGres(ys: seq<Gres>, xs: seq<Gres>, i: nat, ghost jobGRESMap: map<Gres, string>) returns (zs: seq<Gres>)
    requires i < |xs| && DistinctRefs(xs) && (forall g :: g in xs ==> g in jobGRESMap)
    requires DistinctRefs(ys) && (forall g :: g in ys <==> g in xs[..i]) && SameJobs(ys, xs[..i], jobGRESMap)
    requires SortedByLength(ys)
    ensures DistinctRefs(zs) && (forall g :: g in zs <==> g in xs[..i+1]) && SameJobs(zs, xs[..i+1], jobGRESMap)
    ensures SortedByLength(zs) && |zs| == |ys| + 1
  {
    var p := Position(ys, xs[i]);
    InsertStep(ys, p, xs, i, jobGRESMap);
    InsertSorted(ys, p, xs[i]);
    zs := ys[..p] + [xs[i]] + ys[p..];
  }

  /** A sort by number of devices; its contract leaves the order of equals open, as the source's sort does. */
  method SortByDevices(xs: seq<Gres>, ghost jobGRESMap: map<Gres, string>) returns (ys: seq<Gres>)
    requires DistinctRefs(xs) && forall g :: g in xs ==> g in jobGRESMap
    ensures forall g :: g in ys <==> g in xs
    ensures |ys| == |xs| && DistinctRefs(ys) && SortedByLength(ys)
    ensures multiset(JobsFor(ys, jobGRESMap)) == multiset(JobsFor(xs, jobGRESMap))
  {
    ys := [];
    for i := 0 to |xs|
      invariant |ys| == i && DistinctRefs(ys) && SortedByLength(ys)
      invariant forall g :: g in ys <==> g in xs[..i]
      invariant SameJobs(ys, xs[..i], jobGRESMap)
    {
      ys := InsertGres(ys, xs, i, jobGRESMap);
    }
    PrefixAll(xs);
  }

  /** One more instance of a device is done. */
  lemma {:induction false} InstanceDone(instances: seq<GPUInstance>, i: nat, done: seq<GPUInstance>, inst: GPUInstance)
    requires i < |instances| && |done| == i && InstanceShapes(done) == InstanceShapes(instances[..i])
    requires inst.uuid == instances[i].uuid && inst.gpuInstID == instances[i].gpuInstID
    ensures (done + instances[i..])[i := inst] == done + [inst] + instances[i+1..]
    ensures InstanceShapes(done + [inst]) == InstanceShapes(instances[..i+1])
    ensures InstanceSlots(done + [inst]) == InstanceSlots(done) + [inst.slot]
  {
    UpdateFirst(done, instances, i, inst);
    InstancesSnoc(done, inst);
    SameInstancesSnoc(instances, i, done, inst);
  }

  /** A slot of which only the units done so far are kept. */
  ghost function Partly(slot: Slot, done: seq<ComputeUnit>, currentShares: nat, left: nat,
      available: Available): Serving
  {
    Serving(slot.(units := done, currentShares := currentShares), left, available)
  }

  lemma {:induction false} UnitsNext(slot: Slot, i: nat, uuid: string, left: nat, avail: Available, before: Serving,
      after: Serving)
    requires i < |slot.units| && ServeUnits(slot, i, uuid, left, avail) == before
      && ServeUnit(before, uuid, slot.units[i]) == after
    ensures ServeUnits(slot, i + 1, uuid, left, avail) == after
  {
  }

  /** What a scrape with sharing leaves. */
  lemma {:induction false} ServedSettled(before: seq<Device>, after: seq<Device>, cgroups: seq<Cgroup>,
      served: seq<Job>)
    requires WellIndexed(before) && DistinctUuids(cgroups) && ServingOrder(served, cgroups)
    requires Shape(after) == Shape(before) && AllSlots(after) == AfterScrape(before, cgroups, served)
    ensures WellIndexed(after) && Settled(AllSlots(after))
  {
    ScrapeConserves(before, cgroups, served);
    assert SlotKeys(AllSlots(after)) == SlotKeys(AllSlots(before));
    WellIndexedKept(before, after);
  }

  /** What a scrape without sharing leaves. */
  lemma {:induction false} AttachedSettled(before: seq<Device>, after: seq<Device>, cgroups: seq<Cgroup>)
    requires WellIndexed(before)
    requires Shape(after) == Shape(before) && AllSlots(after) == AttachedSlots(AllSlots(before), cgroups)
    ensures WellIndexed(after) && Settled(AllSlots(after))
  {
    WithoutSharing(AllSlots(before), cgroups);
    AttachedKeys(AllSlots(before), cgroups);
    WellIndexedKept(before, after);
  }

  lemma {:induction false} ServedDevices(before: seq<Device>, after: seq<Device>, cgroups: seq<Cgroup>,
      served: seq<Job>)
    requires Shape(after) == Shape(before) && AllSlots(after) == AfterScrape(before, cgroups, served)
    ensures Reflects(after, cgroups)
    ensures SameDevices(before, after)
  {
    var attached := AttachedSlots(AllSlots(before), cgroups);
    JobsFramed(attached, AvailableOf(before), served);
    assert SlotKeys(AllSlots(after)) == SlotKeys(attached) by {
      assert forall k :: 0 <= k < |attached| ==> SameFrame(attached[k], AllSlots(after)[k], served);
    }
    AttachedKeys(AllSlots(before), cgroups);
    SameShapes(before, after);
    AllServed(before, cgroups, served);
    ReflectsFromSlots(after, cgroups);
  }

  lemma {:induction false} AttachedDevices(before: seq<Device>, after: seq<Device>, cgroups: seq<Cgroup>)
    requires Shape(after) == Shape(before) && AllSlots(after) == AttachedSlots(AllSlots(before), cgroups)
    ensures Reflects(after, cgroups)
    ensures SameDevices(before, after)
  {
    AttachedKeys(AllSlots(before), cgroups);
    SameShapes(before, after);
    AllAttached(AllSlots(before), cgroups);
    ReflectsFromSlots(after, cgroups);
  }

  class SlurmCollector {
    var devices: seq<Device>
    var previousJobIDs: seq<string>
    var jobIDsWithNoGRES: seq<string>
    const shardEnabled: bool
    const mpsEnabled: bool
    ghost var seen: seq<Cgroup>
    ghost var attached: seq<Cgroup>

    /**
     * The devices hold the jobs of the scrape that attached them last; since then the same jobs were seen, and their
     * requests were known.
     */
    ghost predicate Mapped()
      reads this
    {
      devices != [] ==>
        && Reflects(devices, attached)
        && multiset(previousJobIDs) == UuidCounts(attached)
        && (jobIDsWithNoGRES == [] <==> AllKnown(attached))
        && SameUuids(attached, seen) && (attached != seen ==> AllKnown(attached))
    }

    /** A collector starts with discovered devices on which nothing runs. */
    constructor (found: seq<Device>, shard: bool, mps: bool)
      requires forall d :: 0 <= d < |found| ==>
        found[d].slot.units == [] && forall i :: 0 <= i < |found[d].instances| ==>
            found[d].instances[i].slot.units == []
      ensures Mapped() && devices == found && seen == attached == [] && shardEnabled == shard && mpsEnabled == mps
    {
      devices, previousJobIDs, jobIDsWithNoGRES, seen, attached := found, [], [], [], [];
      shardEnabled, mpsEnabled := shard, mps;
    }

    /** One job offered shares on one unit of a slot. */
    static method ServeComputeUnit(unit: ComputeUnit, index: string, gres: Gres, uuid: string,
        availableShares: Available, ghost slot: Slot)
      returns (served: ComputeUnit, shares: nat, available: Available)
      requires slot.index == index
      modifies gres`numShares
      ensures ServeUnit(Serving(slot, old(gres.numShares), availableShares), uuid, unit)
        == Serving(slot.(units := slot.units + [served], currentShares := slot.currentShares + shares), gres.numShares,
            available)
    {
      served, shares, available := unit, 0, availableShares;
      if unit.uuid == uuid {
        shares := Min(gres.numShares, Get(available, index));
        served := unit.(numShares := shares);
        available := available[index := Get(available, index) - shares];
        gres.numShares := gres.numShares - shares;
      }
    }

    /** One job offered shares on the units of one slot. */
    static method ServeComputeUnits(slot: Slot, gres: Gres, uuid: string, availableShares: Available)
      returns (served: Slot, available: Available)
      modifies gres`numShares
      ensures ServeSlot(slot, uuid, old(gres.numShares), availableShares) == Serving(served, gres.numShares, available)
    {
      var units, currentShares := slot.units, slot.currentShares;
      available := availableShares;
      ghost var done: seq<ComputeUnit>, left := [], gres.numShares;
      for iunit := 0 to |slot.units|
        invariant |done| == iunit && units == done + slot.units[iunit..]
        invariant ServeUnits(slot, iunit, uuid, left, availableShares)
          == Partly(slot, done, currentShares, gres.numShares, available)
      {
        ghost var before := Partly(slot, done, currentShares, gres.numShares, available);
        var unit, shares;
        unit, shares, available := ServeComputeUnit(units[iunit], slot.index, gres, uuid, available, before.slot);
        UpdateFirst(done, slot.units, iunit, unit);
        units := units[iunit := unit];
        currentShares := currentShares + shares;
        done := done + [unit];
        UnitsNext(slot, iunit, uuid, left, availableShares, before,
            Partly(slot, done, currentShares, gres.numShares, available));
      }
      AllDone(slot.units, done);
      served := slot.(units := units, currentShares := currentShares);
    }

    static method ServeInstance(inst: GPUInstance, gres: Gres, uuid: string, availableShares: Available)
      returns (served: GPUInstance, available: Available)
      modifies gres`numShares
      ensures served.uuid == inst.uuid && served.gpuInstID == inst.gpuInstID
      ensures ServeSlot(inst.slot, uuid, old(gres.numShares), availableShares)
        == Serving(served.slot, gres.numShares, available)
    {
      var s;
      s, available := ServeComputeUnits(inst.slot, gres, uuid, availableShares);
      served := inst.(slot := s);
    }

    /** The instances of a device, after the device itself. */
    static method ServeInstances(gpu: Device, gres: Gres, uuid: string, availableShares: Available, ghost slot: Slot,
        ghost start: Serving)
      returns (instances: seq<GPUInstance>, available: Available)
      requires ServeSlots([gpu.slot], uuid, start.left, start.avail) == Pass([slot], gres.numShares, availableShares)
      modifies gres`numShares
      ensures ServeSlots(DeviceSlots(gpu), uuid, start.left, start.avail)
        == Pass([slot] + InstanceSlots(instances), gres.numShares, available)
      ensures InstanceShapes(instances) == InstanceShapes(gpu.instances)
    {
      available := availableShares;
      instances := gpu.instances;
      ghost var done: seq<GPUInstance> := [];
      for iinst := 0 to |gpu.instances|
        invariant instances == done + gpu.instances[iinst..]
        invariant InstanceShapes(done) == InstanceShapes(gpu.instances[..iinst])
        invariant ServeSlots([gpu.slot] + InstanceSlots(gpu.instances[..iinst]), uuid, start.left, start.avail)
          == Pass([slot] + InstanceSlots(done), gres.numShares, available)
      {
        var inst := instances[iinst];
        ServeInstanceStep(gpu, iinst, slot, done, uuid, start.left, start.avail, gres.numShares, available);
        inst, available := ServeInstance(inst, gres, uuid, available);
        InstanceDone(gpu.instances, iinst, done, inst);
        instances := instances[iinst := inst];
        done := done + [inst];
      }
      AllDone(gpu.instances, done);
    }

    static method ServeDevice(gpu: Device, gres: Gres, uuid: string, availableShares: Available)
      returns (served: Device, available: Available)
      modifies gres`numShares
      ensures ServeSlots(DeviceSlots(gpu), uuid, old(gres.numShares), availableShares)
        == Pass(DeviceSlots(served), gres.numShares, available)
      ensures DeviceShape(served) == DeviceShape(gpu)
    {
      var slot, instances;
      ghost var start := Serving(gpu.slot, gres.numShares, availableShares);
      ServeSnoc([], gpu.slot, uuid, gres.numShares, availableShares);
      slot, available := ServeComputeUnits(gpu.slot, gres, uuid, availableShares);
      instances, available := ServeInstances(gpu, gres, uuid, available, slot, start);
      served := gpu.(slot := slot, instances := instances);
    }

    /** One job offered shares on one device of the collector. */
    method ServeDeviceAt(igpu: nat, gres: Gres, uuid: string, availableShares: Available) returns (available: Available)
      requires igpu < |devices|
      modifies this`devices, gres`numShares
      ensures |devices| == |old(devices)| && devices == old(devices)[igpu := devices[igpu]]
      ensures ServeSlots(DeviceSlots(old(devices)[igpu]), uuid, old(gres.numShares), availableShares)
        == Pass(DeviceSlots(devices[igpu]), gres.numShares, available)
      ensures DeviceShape(devices[igpu]) == DeviceShape(old(devices)[igpu])
    {
      var d;
      d, available := ServeDevice(devices[igpu], gres, uuid, availableShares);
      devices := devices[igpu := d];
    }

    /** One job offered shares on every device and instance, in order. */
    method ServeDevices(gres: Gres, uuid: string, availableShares: Available) returns (available: Available)
      modifies this`devices, gres`numShares
      ensures ServeSlots(AllSlots(old(devices)), uuid, old(gres.numShares), availableShares)
        == Pass(AllSlots(devices), gres.numShares, available)
      ensures Shape(devices) == Shape(old(devices))
    {
      available := availableShares;
      ghost var done: seq<Device> := [];
      for igpu := 0 to |devices|
        invariant devices == done + old(devices)[igpu..]
        invariant Shape(done) == Shape(old(devices)[..igpu])
        invariant ServeSlots(AllSlots(old(devices)[..igpu]), uuid, old(gres.numShares), availableShares)
          == Pass(AllSlots(done), gres.numShares, available)
      {
        ServeDeviceStep(old(devices), igpu, uuid, old(gres.numShares), availableShares);
        available := ServeDeviceAt(igpu, gres, uuid, available);
        ghost var d := devices[igpu];
        UpdateFirst(done, old(devices), igpu, d);
        SlotsSnoc(done, d);
        SameShapeSnoc(old(devices), igpu, done, d);
        done := done + [d];
      }
      AllDone(old(devices), done);
    }

    /** The global map of available shares. */
    method AvailableShares() returns (availableShares: Available)
      ensures availableShares == AvailableOf(devices)
    {
      availableShares := map[];
      for igpu := 0 to |devices|
        invariant availableShares == AvailableOf(devices[..igpu])
      {
        var gpu := devices[igpu];
        assert devices[..igpu+1][..igpu] == devices[..igpu];
        if gpu.slot.index != "" {
          availableShares := Enter(availableShares, gpu.slot);
        }
        ghost var start := availableShares;
        for iinst := 0 to |gpu.instances|
          invariant availableShares == EnterInstances(start, gpu.instances[..iinst])
        {
          assert gpu.instances[..iinst+1][..iinst] == gpu.instances[..iinst];
          availableShares := Enter(availableShares, gpu.instances[iinst].slot);
        }
        PrefixAll(gpu.instances);
      }
      PrefixAll(devices);
    }

    /**
     * updateGRESShares: serve the jobs by number of devices. Each gres keeps what could not be given.
     * The jobs in the order served, and the gres of each, are returned for the specification only.
     */
    method UpdateGRESShares(gresResources: seq<Gres>, jobGRESMap: map<Gres, string>)
      returns (ghost served: seq<Job>, ghost order: seq<Gres>)
      requires DistinctRefs(gresResources) && forall g :: g in gresResources ==> g in jobGRESMap
      modifies this`devices, (set g | g in gresResources)`numShares
      ensures Shape(devices) == Shape(old(devices))
      ensures multiset(served) == multiset(old(JobsFor(gresResources, jobGRESMap))) && SortedByDevices(served)
      ensures |order| == |served| && forall g :: g in order <==> g in gresResources
      ensures forall i :: 0 <= i < |order| ==> served[i].uuid == jobGRESMap[order[i]]
      ensures var o := ServeJobs(AllSlots(old(devices)), AvailableOf(old(devices)), served);
        AllSlots(devices) == o.slots && forall i :: 0 <= i < |order| ==> order[i].numShares == o.lefts[i]
    {
      var availableShares := AvailableShares();
      var sorted := SortByDevices(gresResources, jobGRESMap);
      served, order := JobsFor(sorted, jobGRESMap), sorted;
      assert forall g: Gres {:trigger g in sorted} :: g in sorted ==> g in gresResources;
      ServeInOrder(sorted, jobGRESMap, availableShares);
    }

    /** The loop over the sorted GRES resources. */
    method ServeInOrder(sorted: seq<Gres>, jobGRESMap: map<Gres, string>, available: Available)
      requires DistinctRefs(sorted) && forall g :: g in sorted ==> g in jobGRESMap
      modifies this`devices, (set g | g in sorted)`numShares
      ensures Shape(devices) == Shape(old(devices))
      ensures var o := ServeJobs(AllSlots(old(devices)), available, old(JobsFor(sorted, jobGRESMap)));
        AllSlots(devices) == o.slots && forall i :: 0 <= i < |sorted| ==> sorted[i].numShares == o.lefts[i]
    {
      ghost var jobs, lefts: seq<nat> := JobsFor(sorted, jobGRESMap), [];
      ghost var asks := seq(|jobs|, k requires 0 <= k < |jobs| => jobs[k].numShares);
      var availableShares := available;
      for i := 0 to |sorted|
        invariant Shape(devices) == Shape(old(devices))
        invariant ServeJobs(AllSlots(old(devices)), available, jobs[..i])
          == Outcome(AllSlots(devices), lefts, availableShares)
        invariant |asks| == |sorted| && asks[..i] == lefts
        invariant forall k :: 0 <= k < |sorted| ==> sorted[k].numShares == asks[k]
        invariant forall k :: i <= k < |sorted| ==> asks[k] == jobs[k].numShares
      {
        var gres := sorted[i];
        availableShares := ServeOne(gres, jobGRESMap[gres], availableShares, AllSlots(old(devices)), available, jobs, i,
                                    lefts);
        UpdateNext(asks, i, gres.numShares);
        lefts := lefts + [gres.numShares];
        asks := asks[i := gres.numShares];
      }
      PrefixAll(jobs);
    }

    /** One round of the loop. */
    method ServeOne(gres: Gres, uuid: string, availableShares: Available,
        ghost slots: seq<Slot>, ghost start: Available, ghost jobs: seq<Job>, ghost i: nat, ghost lefts: seq<nat>)
        returns (available: Available)
      requires i < |jobs| && jobs[i].uuid == uuid && jobs[i].numShares == gres.numShares
      requires ServeJobs(slots, start, jobs[..i]) == Outcome(AllSlots(devices), lefts, availableShares)
      modifies this`devices, gres`numShares
      ensures Shape(devices) == Shape(old(devices))
      ensures ServeJobs(slots, start, jobs[..i+1]) == Outcome(AllSlots(devices), lefts + [gres.numShares], available)
    {
      ServeNext(slots, start, jobs, i);
      available := ServeDevices(gres, uuid, availableShares);
    }

    /** Attach one unit to every device and instance with this index. */
    method AttachUnit(index: string, unit: ComputeUnit)
      modifies this`devices
      ensures Shape(devices) == Shape(old(devices))
      ensures AllSlots(devices) == AttachOne(AllSlots(old(devices)), index, unit)
    {
      ghost var done: seq<Device> := [];
      for igpu := 0 to |devices|
        invariant devices == done + old(devices)[igpu..]
        invariant Shape(done) == Shape(old(devices)[..igpu])
        invariant AllSlots(done) == AttachOne(AllSlots(old(devices)[..igpu]), index, unit)
      {
        var gpu := devices[igpu];
        var d := AttachToDevice(gpu, index, unit);
        UpdateFirst(done, old(devices), igpu, d);
        SlotsSnoc(done, d);
        DevicesStep(old(devices), igpu);
        AttachOneAppend(AllSlots(old(devices)[..igpu]), DeviceSlots(gpu), index, unit);
        SameShapeSnoc(old(devices), igpu, done, d);
        devices := devices[igpu := d];
        done := done + [d];
      }
      AllDone(old(devices), done);
    }

    static method AttachToDevice(gpu: Device, index: string, unit: ComputeUnit) returns (d: Device)
      ensures DeviceShape(d) == DeviceShape(gpu)
      ensures DeviceSlots(d) == AttachOne(DeviceSlots(gpu), index, unit)
    {
      d := gpu;
      if gpu.slot.index == index {
        d := d.(slot := d.slot.(units := d.slot.units + [unit]));
      }
      ghost var slot := d.slot;
      for iinst := 0 to |gpu.instances|
        invariant d == gpu.(slot := slot, instances := d.instances)
        invariant InstanceShapes(d.instances) == InstanceShapes(gpu.instances)
        invariant forall i :: 0 <= i < |gpu.instances| ==>
          d.instances[i].slot == if i < iinst then AttachSlot(gpu.instances[i].slot, index, unit)
              else gpu.instances[i].slot
      {
        var inst := d.instances[iinst];
        if inst.slot.index == index {
          d := d.(instances := d.instances[iinst := inst.(slot := inst.slot.(units := inst.slot.units + [unit]))]);
        }
      }
    }

    /** Attach a job to the slots it lists, one unit per listed index. */
    method AttachJob(uuid: string, hostname: string, ids: seq<string>)
      modifies this`devices
      ensures Shape(devices) == Shape(old(devices))
      ensures AllSlots(devices) == AttachIds(AllSlots(old(devices)), uuid, hostname, ids)
    {
      AttachNone(AllSlots(devices), uuid, hostname);
      for i := 0 to |ids|
        invariant Shape(devices) == Shape(old(devices))
        invariant AllSlots(devices) == AttachIds(AllSlots(old(devices)), uuid, hostname, ids[..i])
      {
        AttachUnit(ids[i], ComputeUnit(uuid, hostname, 0));
        AttachIdsStep(AllSlots(old(devices)), uuid, hostname, ids, i);
      }
      PrefixAll(ids);
    }

    /** ResetUnits on every device. */
    method ResetDevices()
      modifies this`devices
      ensures Shape(devices) == Shape(old(devices))
      ensures AllSlots(devices) == AttachedSlots(AllSlots(old(devices)), [])
    {
      ghost var done: seq<Device> := [];
      for igpu := 0 to |devices|
        invariant devices == done + old(devices)[igpu..]
        invariant Shape(done) == Shape(old(devices)[..igpu])
        invariant AllSlots(done) == AttachedSlots(AllSlots(old(devices)[..igpu]), [])
      {
        var gpu := devices[igpu];
        var d := ResetUnits(gpu);
        UpdateFirst(done, old(devices), igpu, d);
        SlotsSnoc(done, d);
        DevicesStep(old(devices), igpu);
        SameShapeSnoc(old(devices), igpu, done, d);
        AttachedAppend(AllSlots(old(devices)[..igpu]), DeviceSlots(gpu));
        devices := devices[igpu := d];
        done := done + [d];
      }
      AllDone(old(devices), done);
    }

    static method ResetUnits(gpu: Device) returns (d: Device)
      ensures DeviceShape(d) == DeviceShape(gpu)
      ensures DeviceSlots(d) == AttachedSlots(DeviceSlots(gpu), [])
    {
      var slot := gpu.slot.(units := [], currentShares := 0);
      var instances := gpu.instances;
      for iinst := 0 to |gpu.instances|
        invariant InstanceShapes(instances) == InstanceShapes(gpu.instances)
        invariant forall i :: 0 <= i < |gpu.instances| ==>
          instances[i].slot == if i < iinst then ResetSlot(gpu.instances[i].slot) else gpu.instances[i].slot
      {
        var inst := instances[iinst];
        instances := instances[iinst := inst.(slot := inst.slot.(units := [], currentShares := 0))];
      }
      d := gpu.(slot := slot, instances := instances);
    }

    /** The same jobs as in the last scrape, and all their requests were known. */
    ghost predicate NothingNew(cgroups: seq<Cgroup>)
      reads this
    {
      SameUuids(seen, cgroups) && AllKnown(attached)
    }

    /** One scrape: unless nothing changed, reset the devices, attach the jobs and distribute shares. */
    method JobDevices(cgroups: seq<Cgroup>) returns (ghost served: seq<Job>)
      modifies this
      ensures old(UpToDate(cgroups)) ==>
        devices == old(devices) && previousJobIDs == old(previousJobIDs) && jobIDsWithNoGRES == old(jobIDsWithNoGRES)
      ensures !old(UpToDate(cgroups)) ==> previousJobIDs == Uuids(cgroups) && jobIDsWithNoGRES == NoGres(cgroups)
      ensures !old(UpToDate(cgroups)) ==>
        Distributed(old(devices), devices, cgroups, served, shardEnabled || mpsEnabled)
      ensures SameDevices(old(devices), devices)
      ensures WellIndexed(old(devices)) && DistinctUuids(cgroups) ==>
        WellIndexed(devices) && (old(Settled(AllSlots(devices))) ==> Settled(AllSlots(devices)))
      ensures seen == cgroups && attached == if old(UpToDate(cgroups)) then old(attached) else cgroups
      ensures old(Mapped()) ==> (old(UpToDate(cgroups)) <==> devices == [] || old(NothingNew(cgroups)))
      ensures old(Mapped()) ==> Mapped()
      ensures old(Mapped()) && devices != [] ==> Holds(devices, attached, cgroups)
    {
      served := [];
      seen := cgroups;
      SameAsItself(devices);
      if |devices| == 0 {
        return;
      }
      var currentJobIDs := Uuids(cgroups);
      var same := AreEqual(currentJobIDs, previousJobIDs);
      UuidsCounted(cgroups);
      if same && |jobIDsWithNoGRES| == 0 {
        if old(Mapped()) {
          StillListed(devices, attached, cgroups);
        }
        return;
      }
      served := Remap(cgroups, currentJobIDs);
    }

    /** The rest of a scrape that has something new. */
    method Remap(cgroups: seq<Cgroup>, currentJobIDs: seq<string>) returns (ghost served: seq<Job>)
      requires currentJobIDs == Uuids(cgroups) && seen == cgroups
      modifies this`devices, this`previousJobIDs, this`jobIDsWithNoGRES, this`attached
      ensures previousJobIDs == Uuids(cgroups) && jobIDsWithNoGRES == NoGres(cgroups) && attached == cgroups
      ensures Distributed(old(devices), devices, cgroups, served, shardEnabled || mpsEnabled)
      ensures SameDevices(old(devices), devices)
      ensures WellIndexed(old(devices)) && DistinctUuids(cgroups) ==> WellIndexed(devices) && Settled(AllSlots(devices))
      ensures Mapped() && Holds(devices, attached, cgroups)
    {
      attached := cgroups;
      jobIDsWithNoGRES, served := AttachAndServe(cgroups);
      previousJobIDs := currentJobIDs;
      UuidsCounted(cgroups);
      NoGresExactly(cgroups);
      StillListed(devices, cgroups, cgroups);
    }

    /** Attach the jobs to fresh devices and, with sharding or MPS, distribute the shares. */
    method AttachAndServe(cgroups: seq<Cgroup>) returns (noGres: seq<string>, ghost served: seq<Job>)
      modifies this`devices
      ensures SameDevices(old(devices), devices)
      ensures Reflects(devices, cgroups)
      ensures noGres == NoGres(cgroups)
      ensures Distributed(old(devices), devices, cgroups, served, shardEnabled || mpsEnabled)
      ensures WellIndexed(old(devices)) && DistinctUuids(cgroups) ==> WellIndexed(devices) && Settled(AllSlots(devices))
    {
      served := [];
      var gresResources, jobGRESMap;
      gresResources, jobGRESMap, noGres := AttachJobs(cgroups);
      if shardEnabled || mpsEnabled {
        AttachedKeys(AllSlots(old(devices)), cgroups);
        AvailableSame(old(devices), devices);
        ghost var order;
        served, order := UpdateGRESShares(gresResources, jobGRESMap);
        ServedDevices(old(devices), devices, cgroups, served);
        if WellIndexed(old(devices)) && DistinctUuids(cgroups) {
          ServedSettled(old(devices), devices, cgroups, served);
        }
      } else {
        AttachedDevices(old(devices), devices, cgroups);
        if WellIndexed(old(devices)) {
          AttachedSettled(old(devices), devices, cgroups);
        }
      }
    }

    /** Nothing to do: no devices, or the same jobs as last time and none of them without GRES. */
    ghost predicate UpToDate(cgroups: seq<Cgroup>)
      reads this
    {
      devices == [] || (multiset(Uuids(cgroups)) == multiset(previousJobIDs) && jobIDsWithNoGRES == [])
    }

    /** Reset the devices and attach every job that has GRES devices. */
    method AttachJobs(cgroups: seq<Cgroup>)
      returns (gresResources: seq<Gres>, jobGRESMap: map<Gres, string>, noGres: seq<string>)
      modifies this`devices
      ensures Shape(devices) == Shape(old(devices))
      ensures AllSlots(devices) == AttachedSlots(AllSlots(old(devices)), cgroups)
      ensures fresh(set g | g in gresResources)
      ensures DistinctRefs(gresResources) && forall g :: g in gresResources ==> g in jobGRESMap
      ensures JobsFor(gresResources, jobGRESMap) == JobsOf(cgroups)
      ensures noGres == NoGres(cgroups)
    {
      ResetDevices();
      gresResources, jobGRESMap, noGres := [], map[], [];
      for i := 0 to |cgroups|
        invariant Shape(devices) == Shape(old(devices))
        invariant AllSlots(devices) == AttachedSlots(AllSlots(old(devices)), cgroups[..i])
        invariant fresh(set g | g in gresResources)
        invariant DistinctRefs(gresResources) && forall g :: g in gresResources ==> g in jobGRESMap
        invariant JobsFor(gresResources, jobGRESMap) == JobsOf(cgroups[..i])
        invariant noGres == NoGres(cgroups[..i])
      {
        var cgrp := cgroups[i];
        JobsStep(cgroups, i);
        AttachedStep(AllSlots(old(devices)), cgroups, i);
        if cgrp.gres.None? || |cgrp.gres.value.deviceIDs| == 0 {
          noGres := noGres + [cgrp.uuid];
          continue;
        }
        gresResources, jobGRESMap := AttachCgroup(cgrp, gresResources, jobGRESMap);
      }
      PrefixAll(cgroups);
    }

    /** A job that has GRES devices: keep its request and attach it. */
    method AttachCgroup(cgrp: Cgroup, resources: seq<Gres>, jobMap: map<Gres, string>)
      returns (gresResources: seq<Gres>, jobGRESMap: map<Gres, string>)
      requires HasGres(cgrp) && DistinctRefs(resources) && forall g :: g in resources ==> g in jobMap
      modifies this`devices
      ensures Shape(devices) == Shape(old(devices))
      ensures AllSlots(devices)
        == AttachIds(AllSlots(old(devices)), cgrp.uuid, cgrp.hostname, cgrp.gres.value.deviceIDs)
      ensures exists gres :: fresh(gres) && gresResources == resources + [gres]
      ensures DistinctRefs(gresResources) && forall g :: g in gresResources ==> g in jobGRESMap
      ensures JobsFor(gresResources, jobGRESMap)
        == old(JobsFor(resources, jobMap)) + [Job(cgrp.uuid, cgrp.gres.value.deviceIDs, cgrp.gres.value.numShares)]
    {
      var gres := new Gres(cgrp.gres.value.deviceIDs, cgrp.gres.value.numShares);
      JobsNext(resources, jobMap, gres, cgrp.uuid);
      gresResources := resources + [gres];
      jobGRESMap := jobMap[gres := cgrp.uuid];
      AttachJob(cgrp.uuid, cgrp.hostname, gres.deviceIDs);
    }
  }
}
