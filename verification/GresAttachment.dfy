/**
 * What the share distribution starts from, as functions: the slots of one scrape with their jobs attached, and the map
 * of available shares (pkg/collector/slurm.go).
 */
module GresAttachment {
  import opened Devices
  import opened GresAllocation
  import opened Options
  import opened Seqs

  /** What the environment of a job's processes says about its GRES resources. */
  datatype GresRequest = GresRequest(deviceIDs: seq<string>, numShares: nat)

  datatype Cgroup = Cgroup(uuid: string, hostname: string, gres: Option<GresRequest>)

  /** What a device is, apart from what its slots hold. */
  function InstanceShapes(instances: seq<GPUInstance>): seq<(string, nat)>
  {
    seq(|instances|, i requires 0 <= i < |instances| => (instances[i].uuid, instances[i].gpuInstID))
  }

  function DeviceShape(d: Device): (string, string, seq<(string, nat)>)
  {
    (d.uuid, d.minor, InstanceShapes(d.instances))
  }

  function Shape(ds: seq<Device>): (r: seq<(string, string, seq<(string, nat)>)>)
    ensures |r| == |ds|
  {
    seq(|ds|, i requires 0 <= i < |ds| => DeviceShape(ds[i]))
  }

  /* ---- The availability map ---- */

  function Enter(m: Available, s: Slot): Available
  {
    m[s.index := s.availableShares]
  }

  function EnterInstances(m: Available, instances: seq<GPUInstance>): Available
  {
    if instances == [] then m
    else Enter(EnterInstances(m, instances[..|instances|-1]), instances[|instances|-1].slot)
  }

  function EnterDevice(m: Available, d: Device): Available
  {
    EnterInstances(if d.slot.index != "" then Enter(m, d.slot) else m, d.instances)
  }

  /** The map the source builds: devices without an index are skipped, instances never are. */
  function AvailableOf(devices: seq<Device>): Available
  {
    if devices == [] then map[] else EnterDevice(AvailableOf(devices[..|devices|-1]), devices[|devices|-1])
  }

  /** The same map over a row of slots. */
  function EnterIndexed(m: Available, slots: seq<Slot>): Available
  {
    if slots == [] then m
    else
      var p, s := EnterIndexed(m, slots[..|slots|-1]), slots[|slots|-1];
      if s.index != "" then Enter(p, s) else p
  }

  lemma {:induction false} EnterIndexedAppend(m: Available, a: seq<Slot>, b: seq<Slot>)
    ensures EnterIndexed(m, a + b) == EnterIndexed(EnterIndexed(m, a), b)
  {
    if b == [] {
      assert a + b == a;
    } else {
      assert (a + b)[..|a+b|-1] == a + b[..|b|-1];
      EnterIndexedAppend(m, a, b[..|b|-1]);
    }
  }

  lemma {:induction false} EnterInstancesIndexed(m: Available, instances: seq<GPUInstance>)
    requires forall i :: 0 <= i < |instances| ==> instances[i].slot.index != ""
    ensures EnterInstances(m, instances) == EnterIndexed(m, InstanceSlots(instances))
  {
    if instances != [] {
      var n := |instances| - 1;
      EnterInstancesIndexed(m, instances[..n]);
      assert InstanceSlots(instances)[..n] == InstanceSlots(instances[..n]);
    }
  }

  lemma {:induction false} AvailableIndexed(devices: seq<Device>)
    requires InstancesIndexed(devices)
    ensures AvailableOf(devices) == EnterIndexed(map[], AllSlots(devices))
  {
    if devices != [] {
      var n := |devices| - 1;
      var d, front := devices[n], AllSlots(devices[..n]);
      AvailableIndexed(devices[..n]);
      EnterIndexedAppend(map[], front, DeviceSlots(d));
      EnterIndexedAppend(EnterIndexed(map[], front), [d.slot], InstanceSlots(d.instances));
      assert [d.slot][..0] == [];
      EnterInstancesIndexed(if d.slot.index != "" then Enter(AvailableOf(devices[..n]), d.slot)
          else AvailableOf(devices[..n]), d.instances);
    }
  }

  /** With distinct indices every slot's entry is its own capacity. */
  lemma {:induction false} EntryIsCapacity(slots: seq<Slot>, k: nat)
    requires DistinctIndices(slots) && k < |slots|
    ensures Get(EnterIndexed(map[], slots), slots[k].index) == Capacity(slots[k])
  {
    NoEmptyEntry(slots);
    var n := |slots| - 1;
    if k < n {
      EntryIsCapacity(slots[..n], k);
    }
  }

  lemma {:induction false} NoEmptyEntry(slots: seq<Slot>)
    ensures Get(EnterIndexed(map[], slots), "") == 0
  {
    if slots != [] {
      NoEmptyEntry(slots[..|slots|-1]);
    }
  }

  /* ---- Attaching jobs to slots ---- */

  /** The units the slot with this index gets from one job: one per occurrence of the index in its list. */
  function UnitsFrom(index: string, uuid: string, hostname: string, ids: seq<string>): seq<ComputeUnit>
  {
    if ids == [] then []
    else UnitsFrom(index, uuid, hostname, ids[..|ids|-1])
           + if ids[|ids|-1] == index then [ComputeUnit(uuid, hostname, 0)] else []
  }

  predicate HasGres(c: Cgroup)
  {
    c.gres.Some? && c.gres.value.deviceIDs != []
  }

  function AttachedUnits(index: string, cgroups: seq<Cgroup>): seq<ComputeUnit>
  {
    if cgroups == [] then []
    else
      var c := cgroups[|cgroups|-1];
      AttachedUnits(index, cgroups[..|cgroups|-1])
        + if HasGres(c) then UnitsFrom(index, c.uuid, c.hostname, c.gres.value.deviceIDs) else []
  }

  /** A slot after the reset and after all jobs have been attached. */
  function Attached(s: Slot, cgroups: seq<Cgroup>): Slot
  {
    ResetSlot(s).(units := AttachedUnits(s.index, cgroups))
  }

  function AttachedSlots(slots: seq<Slot>, cgroups: seq<Cgroup>): (r: seq<Slot>)
    ensures |r| == |slots|
  {
    seq(|slots|, k requires 0 <= k < |slots| => Attached(slots[k], cgroups))
  }

  function JobsOf(cgroups: seq<Cgroup>): seq<Job>
  {
    if cgroups == [] then []
    else
      var c := cgroups[|cgroups|-1];
      JobsOf(cgroups[..|cgroups|-1])
        + if HasGres(c) then [Job(c.uuid, c.gres.value.deviceIDs, c.gres.value.numShares)] else []
  }

  function NoGres(cgroups: seq<Cgroup>): seq<string>
  {
    if cgroups == [] then []
    else
      var c := cgroups[|cgroups|-1];
      NoGres(cgroups[..|cgroups|-1]) + if HasGres(c) then [] else [c.uuid]
  }

  function Uuids(cgroups: seq<Cgroup>): seq<string>
  {
    seq(|cgroups|, i requires 0 <= i < |cgroups| => cgroups[i].uuid)
  }

  /** What one scrape leaves on the slots, given the order in which the jobs were served. */
  function AfterScrape(devices: seq<Device>, cgroups: seq<Cgroup>, served: seq<Job>): seq<Slot>
  {
    ServeJobs(AttachedSlots(AllSlots(devices), cgroups), AvailableOf(devices), served).slots
  }

  /** The order the sort may produce: any permutation by number of devices. */
  ghost predicate ServingOrder(served: seq<Job>, cgroups: seq<Cgroup>)
  {
    multiset(served) == multiset(JobsOf(cgroups)) && SortedByDevices(served)
  }

  /** Serving a row of slots and then another is serving both. */
  lemma {:induction false} ServeAppend(a: seq<Slot>, b: seq<Slot>, uuid: string, left: nat, avail: Available)
    ensures var p := ServeSlots(a, uuid, left, avail);
      var q := ServeSlots(b, uuid, p.left, p.avail);
      ServeSlots(a + b, uuid, left, avail) == Pass(p.slots + q.slots, q.left, q.avail)
  {
    if b == [] {
      assert a + b == a;
    } else {
      var n := |b| - 1;
      var p := ServeSlots(a, uuid, left, avail);
      var q := ServeSlots(b[..n], uuid, p.left, p.avail);
      ServeAppend(a, b[..n], uuid, left, avail);
      ServeSnoc(a + b[..n], b[n], uuid, left, avail);
      ServeSnoc(b[..n], b[n], uuid, p.left, p.avail);
      assert b == b[..n] + [b[n]];
      AppendAssoc(a, b[..n], [b[n]]);
      AppendAssoc(p.slots, q.slots, [ServeSlot(b[n], uuid, q.left, q.avail).slot]);
    }
  }

  lemma {:induction false} ServeSnoc(a: seq<Slot>, s: Slot, uuid: string, left: nat, avail: Available)
    ensures var p := ServeSlots(a, uuid, left, avail);
      var q := ServeSlot(s, uuid, p.left, p.avail);
      ServeSlots(a + [s], uuid, left, avail) == Pass(p.slots + [q.slot], q.left, q.avail)
  {
    assert (a + [s])[..|a|] == a;
  }

  lemma {:induction false} SlotsSnoc(devices: seq<Device>, d: Device)
    ensures AllSlots(devices + [d]) == AllSlots(devices) + DeviceSlots(d)
  {
    assert (devices + [d])[..|devices|] == devices;
  }

  lemma {:induction false} InstancesSnoc(instances: seq<GPUInstance>, i: GPUInstance)
    ensures InstanceSlots(instances + [i]) == InstanceSlots(instances) + [i.slot]
  {
  }

  lemma {:induction false} JobsStep(cgroups: seq<Cgroup>, i: nat)
    requires i < |cgroups|
    ensures var c := cgroups[i];
      && JobsOf(cgroups[..i+1]) == JobsOf(cgroups[..i])
           + (if HasGres(c) then [Job(c.uuid, c.gres.value.deviceIDs, c.gres.value.numShares)] else [])
      && NoGres(cgroups[..i+1]) == NoGres(cgroups[..i]) + (if HasGres(c) then [] else [c.uuid])
  {
    assert cgroups[..i+1][..i] == cgroups[..i];
  }

  lemma {:induction false} AttachedStep(slots: seq<Slot>, cgroups: seq<Cgroup>, i: nat)
    requires i < |cgroups|
    ensures var a, b, c := AttachedSlots(slots, cgroups[..i]), AttachedSlots(slots, cgroups[..i+1]), cgroups[i];
      b == if HasGres(c) then AttachIds(a, c.uuid, c.hostname, c.gres.value.deviceIDs) else a
  {
    assert cgroups[..i+1][..i] == cgroups[..i];
    var a, b, c := AttachedSlots(slots, cgroups[..i]), AttachedSlots(slots, cgroups[..i+1]), cgroups[i];
    forall k | 0 <= k < |slots|
      ensures !HasGres(c) ==> b[k] == a[k]
    {
      assert AttachedUnits(slots[k].index, cgroups[..i]) + [] == AttachedUnits(slots[k].index, cgroups[..i]);
    }
  }

  /** What the availability map depends on. */
  function SlotKeys(slots: seq<Slot>): (r: seq<(string, nat)>)
    ensures |r| == |slots|
  {
    seq(|slots|, k requires 0 <= k < |slots| => (slots[k].index, slots[k].availableShares))
  }

  lemma {:induction false} AttachedKeys(slots: seq<Slot>, cgroups: seq<Cgroup>)
    ensures SlotKeys(AttachedSlots(slots, cgroups)) == SlotKeys(slots)
  {
  }

  lemma {:induction false} SlotKeysAppend(a: seq<Slot>, b: seq<Slot>)
    ensures SlotKeys(a + b) == SlotKeys(a) + SlotKeys(b)
  {
  }

  lemma {:induction false} SplitEqual<T>(a: seq<T>, b: seq<T>, c: seq<T>, d: seq<T>)
    requires a + b == c + d && |b| == |d|
    ensures a == c && b == d
  {
    assert |a| == |c|;
    assert a == (a + b)[..|a|] && c == (c + d)[..|c|];
    assert b == (a + b)[|a|..] && d == (c + d)[|c|..];
  }

  lemma {:induction false} FrontShapes(ds: seq<Device>, es: seq<Device>)
    requires ds != [] && Shape(ds) == Shape(es)
    ensures |es| == |ds|
    ensures Shape(ds[..|ds|-1]) == Shape(es[..|ds|-1])
    ensures |ds[|ds|-1].instances| == |es[|ds|-1].instances|
  {
    var n := |ds| - 1;
    assert |Shape(es)| == |es|;
    assert DeviceShape(ds[n]) == Shape(ds)[n] && DeviceShape(es[n]) == Shape(es)[n];
    assert |InstanceShapes(ds[n].instances)| == |ds[n].instances|
      && |InstanceShapes(es[n].instances)| == |es[n].instances|;
    assert Shape(ds[..n]) == Shape(ds)[..n] && Shape(es[..n]) == Shape(es)[..n];
  }

  /** Equal shapes and keys are equal device by device. */
  lemma {:induction false} FrontKeys(ds: seq<Device>, es: seq<Device>)
    requires ds != [] && Shape(ds) == Shape(es) && SlotKeys(AllSlots(ds)) == SlotKeys(AllSlots(es))
    ensures |es| == |ds|
    ensures var n := |ds| - 1;
      && Shape(ds[..n]) == Shape(es[..n])
      && SlotKeys(AllSlots(ds[..n])) == SlotKeys(AllSlots(es[..n]))
      && |ds[n].instances| == |es[n].instances|
      && SlotKeys(DeviceSlots(ds[n])) == SlotKeys(DeviceSlots(es[n]))
  {
    FrontShapes(ds, es);
    var n := |ds| - 1;
    var p, q, r, s := AllSlots(ds[..n]), DeviceSlots(ds[n]), AllSlots(es[..n]), DeviceSlots(es[n]);
    SlotKeysAppend(p, q);
    SlotKeysAppend(r, s);
    SplitEqual(SlotKeys(p), SlotKeys(q), SlotKeys(r), SlotKeys(s));
  }

  lemma {:induction false} AvailableSame(ds: seq<Device>, es: seq<Device>)
    requires Shape(ds) == Shape(es) && SlotKeys(AllSlots(ds)) == SlotKeys(AllSlots(es))
    ensures AvailableOf(ds) == AvailableOf(es)
  {
    if |ds| == 0 {
      assert |Shape(es)| == 0;
    } else {
      var n := |ds| - 1;
      FrontKeys(ds, es);
      AvailableSame(ds[..n], es[..n]);
      EnterDeviceSame(AvailableOf(ds[..n]), ds[n], es[n]);
    }
  }

  lemma {:induction false} EnterDeviceSame(m: Available, d: Device, e: Device)
    requires |d.instances| == |e.instances| && SlotKeys(DeviceSlots(d)) == SlotKeys(DeviceSlots(e))
    ensures EnterDevice(m, d) == EnterDevice(m, e)
  {
    var p, q := SlotKeys(DeviceSlots(d)), SlotKeys(DeviceSlots(e));
    assert p[0] == (d.slot.index, d.slot.availableShares) && q[0] == (e.slot.index, e.slot.availableShares);
    forall i | 0 <= i < |d.instances|
      ensures e.instances[i].slot.index == d.instances[i].slot.index
      ensures e.instances[i].slot.availableShares == d.instances[i].slot.availableShares
    {
      assert p[i+1] == (d.instances[i].slot.index, d.instances[i].slot.availableShares);
      assert q[i+1] == (e.instances[i].slot.index, e.instances[i].slot.availableShares);
    }
    EnterSame(if d.slot.index != "" then Enter(m, d.slot) else m, d.instances, e.instances);
  }

  lemma {:induction false} EnterSame(m: Available, a: seq<GPUInstance>, b: seq<GPUInstance>)
    requires |a| == |b|
    requires forall i :: 0 <= i < |a| ==>
      b[i].slot.index == a[i].slot.index && b[i].slot.availableShares == a[i].slot.availableShares
    ensures EnterInstances(m, a) == EnterInstances(m, b)
  {
    if a != [] {
      EnterSame(m, a[..|a|-1], b[..|a|-1]);
    }
  }

  function AttachSlot(s: Slot, index: string, unit: ComputeUnit): Slot
  {
    if s.index == index then s.(units := s.units + [unit]) else s
  }

  function AttachOne(slots: seq<Slot>, index: string, unit: ComputeUnit): seq<Slot>
  {
    seq(|slots|, k requires 0 <= k < |slots| => AttachSlot(slots[k], index, unit))
  }

  lemma {:induction false} AttachOneAppend(a: seq<Slot>, b: seq<Slot>, index: string, unit: ComputeUnit)
    ensures AttachOne(a + b, index, unit) == AttachOne(a, index, unit) + AttachOne(b, index, unit)
  {
  }

  function AttachIds(slots: seq<Slot>, uuid: string, hostname: string, ids: seq<string>): (r: seq<Slot>)
    ensures |r| == |slots|
  {
    seq(|slots|, k requires 0 <= k < |slots| =>
      slots[k].(units := slots[k].units + UnitsFrom(slots[k].index, uuid, hostname, ids)))
  }

  lemma {:induction false} AttachNone(slots: seq<Slot>, uuid: string, hostname: string)
    ensures AttachIds(slots, uuid, hostname, []) == slots
  {
    var a := AttachIds(slots, uuid, hostname, []);
    assert forall k :: 0 <= k < |slots| ==> slots[k].units + [] == slots[k].units;
    assert forall k :: 0 <= k < |slots| ==> a[k] == slots[k];
  }

  lemma {:induction false} AttachedAppend(a: seq<Slot>, b: seq<Slot>)
    ensures AttachedSlots(a + b, []) == AttachedSlots(a, []) + AttachedSlots(b, [])
  {
  }

  lemma {:induction false} AttachIdsStep(slots: seq<Slot>, uuid: string, hostname: string, ids: seq<string>, i: nat)
    requires i < |ids|
    ensures AttachIds(slots, uuid, hostname, ids[..i+1])
      == AttachOne(AttachIds(slots, uuid, hostname, ids[..i]), ids[i], ComputeUnit(uuid, hostname, 0))
  {
    assert ids[..i+1][..i] == ids[..i];
    var a := AttachIds(slots, uuid, hostname, ids[..i+1]);
    var b := AttachOne(AttachIds(slots, uuid, hostname, ids[..i]), ids[i], ComputeUnit(uuid, hostname, 0));
    forall k | 0 <= k < |slots|
      ensures a[k] == b[k]
    {
      var u := UnitsFrom(slots[k].index, uuid, hostname, ids[..i]);
      assert slots[k].units + (u + [ComputeUnit(uuid, hostname, 0)])
        == slots[k].units + u + [ComputeUnit(uuid, hostname, 0)];
      assert slots[k].units + (u + []) == slots[k].units + u;
    }
  }

  lemma {:induction false} ServeNext(slots: seq<Slot>, avail: Available, jobs: seq<Job>, i: nat)
    requires i < |jobs|
    ensures var o := ServeJobs(slots, avail, jobs[..i]);
      var p := ServeSlots(o.slots, jobs[i].uuid, jobs[i].numShares, o.avail);
      ServeJobs(slots, avail, jobs[..i+1]) == Outcome(p.slots, o.lefts + [p.left], p.avail)
  {
    assert jobs[..i+1][..i] == jobs[..i];
  }

  lemma {:induction false} SameInstancesSnoc(a: seq<GPUInstance>, i: nat, b: seq<GPUInstance>, e: GPUInstance)
    requires i < |a| && InstanceShapes(b) == InstanceShapes(a[..i]) && e.uuid == a[i].uuid
      && e.gpuInstID == a[i].gpuInstID
    ensures InstanceShapes(b + [e]) == InstanceShapes(a[..i+1])
  {
    assert InstanceShapes(b + [e]) == InstanceShapes(b) + [(e.uuid, e.gpuInstID)];
    assert InstanceShapes(a[..i+1]) == InstanceShapes(a[..i]) + [(e.uuid, e.gpuInstID)];
  }

  lemma {:induction false} SameShapeSnoc(a: seq<Device>, i: nat, b: seq<Device>, e: Device)
    requires i < |a| && Shape(b) == Shape(a[..i]) && DeviceShape(e) == DeviceShape(a[i])
    ensures Shape(b + [e]) == Shape(a[..i+1])
  {
    assert Shape(b + [e]) == Shape(b) + [DeviceShape(e)];
    assert Shape(a[..i+1]) == Shape(a[..i]) + [DeviceShape(e)];
  }

  lemma {:induction false} ServeInstanceStep(gpu: Device, i: nat, slot: Slot, done: seq<GPUInstance>, uuid: string,
      left: nat, avail: Available, left': nat, avail': Available)
    requires i < |gpu.instances|
    requires ServeSlots([gpu.slot] + InstanceSlots(gpu.instances[..i]), uuid, left, avail)
      == Pass([slot] + InstanceSlots(done), left', avail')
    ensures var r := ServeSlot(gpu.instances[i].slot, uuid, left', avail');
      ServeSlots([gpu.slot] + InstanceSlots(gpu.instances[..i+1]), uuid, left, avail)
        == Pass([slot] + (InstanceSlots(done) + [r.slot]), r.left, r.avail)
  {
    var row, r := [gpu.slot] + InstanceSlots(gpu.instances[..i]), ServeSlot(gpu.instances[i].slot, uuid, left', avail');
    ServeSnoc(row, gpu.instances[i].slot, uuid, left, avail);
    InstancesStep(gpu.instances, i);
    assert [gpu.slot] + InstanceSlots(gpu.instances[..i+1]) == row + [gpu.instances[i].slot];
    assert [slot] + (InstanceSlots(done) + [r.slot]) == [slot] + InstanceSlots(done) + [r.slot];
  }

  lemma {:induction false} ServeDeviceStep(devices: seq<Device>, i: nat, uuid: string, left: nat, avail: Available)
    requires i < |devices|
    ensures var p := ServeSlots(AllSlots(devices[..i]), uuid, left, avail);
      var q := ServeSlots(DeviceSlots(devices[i]), uuid, p.left, p.avail);
      ServeSlots(AllSlots(devices[..i+1]), uuid, left, avail) == Pass(p.slots + q.slots, q.left, q.avail)
  {
    ServeAppend(AllSlots(devices[..i]), DeviceSlots(devices[i]), uuid, left, avail);
    DevicesStep(devices, i);
  }

  lemma {:induction false} InstancesStep(instances: seq<GPUInstance>, i: nat)
    requires i < |instances|
    ensures InstanceSlots(instances[..i+1]) == InstanceSlots(instances[..i]) + [instances[i].slot]
  {
  }

  lemma {:induction false} DevicesStep(devices: seq<Device>, i: nat)
    requires i < |devices|
    ensures AllSlots(devices[..i+1]) == AllSlots(devices[..i]) + DeviceSlots(devices[i])
  {
    assert devices[..i+1][..i] == devices[..i];
  }
}
