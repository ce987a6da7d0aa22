/** Device indices and order maps (pkg/collector/gpu.go). */
module GpuIndices {
  import opened Devices
  import opened Options
  import opened Seqs
  import opened Texts

  /** The part of a GPU's nvidia-smi entry that decides indices: MIG mode and the GPU instance IDs. */
  datatype NvidiaGPU = NvidiaGPU(uuid: string, migEnabled: bool, migDevices: seq<nat>)

  /** The non-empty indices of a row of slots, in order. */
  function IndicesOf(slots: seq<Slot>): seq<string>
  {
    if slots == [] then []
    else IndicesOf(slots[..|slots|-1]) + if slots[|slots|-1].index == "" then [] else [slots[|slots|-1].index]
  }

  function Numbered(n: nat): seq<string>
  {
    seq(n, i requires 0 <= i < n => Decimal(i))
  }

  lemma {:induction false} IndicesSnoc(a: seq<Slot>, s: Slot)
    ensures IndicesOf(a + [s]) == IndicesOf(a) + if s.index == "" then [] else [s.index]
  {
    assert (a + [s])[..|a|] == a;
  }

  lemma {:induction false} NumberedSnoc(n: nat)
    ensures Numbered(n + 1) == Numbered(n) + [Decimal(n)]
  {
  }

  predicate EmptySlot(s: Slot)
  {
    s.units == [] && s.currentShares == 0 && s.availableShares == 0
  }

  /** The device built for one entry of the SMI output, apart from its indices. */
  predicate BuiltFrom(d: Device, igpu: nat, gpu: NvidiaGPU)
  {
    && d.uuid == gpu.uuid && d.minor == Decimal(igpu)
    && (d.slot.index == "" <==> gpu.migEnabled) && EmptySlot(d.slot)
    && |d.instances| == |gpu.migDevices|
    && forall i :: 0 <= i < |d.instances| ==> InstanceFrom(d.instances[i], gpu.migDevices[i])
  }

  predicate InstanceFrom(inst: GPUInstance, gpuInstID: nat)
  {
    inst.gpuInstID == gpuInstID && inst.slot.index != "" && EmptySlot(inst.slot)
  }

  /** parseNvidiaSmiOutput: one running index for GPUs without MIG and for MIG instances. */
  method ParseNvidiaSmiOutput(gpus: seq<NvidiaGPU>) returns (gpuDevices: seq<Device>, ghost count: nat)
    ensures IndicesOf(AllSlots(gpuDevices)) == Numbered(count)
    ensures |gpuDevices| == |gpus| && forall i :: 0 <= i < |gpus| ==> BuiltFrom(gpuDevices[i], i, gpus[i])
  {
    gpuDevices := [];
    var globalIndex := 0;
    for igpu := 0 to |gpus|
      invariant IndicesOf(AllSlots(gpuDevices)) == Numbered(globalIndex)
      invariant |gpuDevices| == igpu && forall i :: 0 <= i < igpu ==> BuiltFrom(gpuDevices[i], i, gpus[i])
    {
      var dev;
      dev, globalIndex := BuildDevice(AllSlots(gpuDevices), igpu, gpus[igpu], globalIndex);
      assert (gpuDevices + [dev])[..igpu] == gpuDevices;
      gpuDevices := gpuDevices + [dev];
    }
    count := globalIndex;
  }

  /** The body of the loop over GPUs; row is what was built before and serves the specification only. */
  method BuildDevice(ghost row: seq<Slot>, igpu: nat, gpu: NvidiaGPU, start: nat)
      returns (dev: Device, globalIndex: nat)
    requires IndicesOf(row) == Numbered(start)
    ensures IndicesOf(row + DeviceSlots(dev)) == Numbered(globalIndex)
    ensures BuiltFrom(dev, igpu, gpu)
  {
    globalIndex := start;
    var slot := Slot("", [], 0, 0);
    if !gpu.migEnabled {
      slot := slot.(index := Decimal(globalIndex));
      NumberedSnoc(globalIndex);
      globalIndex := globalIndex + 1;
    }
    IndicesSnoc(row, slot);
    var migDevs;
    migDevs, globalIndex := BuildInstances(row, slot, gpu.migDevices, globalIndex);
    dev := Device(gpu.uuid, Decimal(igpu), slot, migDevs);
  }

  /** The loop over the MIG devices of one GPU. */
  method BuildInstances(ghost row: seq<Slot>, ghost slot: Slot, migDevices: seq<nat>, start: nat)
    returns (migDevs: seq<GPUInstance>, globalIndex: nat)
    requires IndicesOf(row + [slot]) == Numbered(start)
    ensures IndicesOf(row + ([slot] + InstanceSlots(migDevs))) == Numbered(globalIndex)
    ensures |migDevs| == |migDevices|
    ensures forall i :: 0 <= i < |migDevs| ==> InstanceFrom(migDevs[i], migDevices[i])
  {
    globalIndex := start;
    migDevs := [];
    assert [slot] + InstanceSlots([]) == [slot];
    for i := 0 to |migDevices|
      invariant IndicesOf(row + ([slot] + InstanceSlots(migDevs))) == Numbered(globalIndex)
      invariant |migDevs| == i
      invariant forall k :: 0 <= k < i ==> InstanceFrom(migDevs[k], migDevices[k])
    {
      var migDev := GPUInstance("", migDevices[i], Slot(Decimal(globalIndex), [], 0, 0));
      RowSnoc(row, slot, migDevs, migDev);
      NumberedSnoc(globalIndex);
      migDevs := migDevs + [migDev];
      globalIndex := globalIndex + 1;
    }
  }

  lemma {:induction false} RowSnoc(row: seq<Slot>, slot: Slot, migDevs: seq<GPUInstance>, m: GPUInstance)
    requires m.slot.index != ""
    ensures IndicesOf(row + ([slot] + InstanceSlots(migDevs + [m])))
      == IndicesOf(row + ([slot] + InstanceSlots(migDevs))) + [m.slot.index]
  {
    var built := row + ([slot] + InstanceSlots(migDevs));
    assert row + ([slot] + InstanceSlots(migDevs + [m])) == built + [m.slot];
    IndicesSnoc(built, m.slot);
  }

  lemma {:induction false} IndexRank(slots: seq<Slot>, i: nat)
    requires i < |slots| && slots[i].index != ""
    ensures var r := |IndicesOf(slots[..i])|; r < |IndicesOf(slots)| && IndicesOf(slots)[r] == slots[i].index
    ensures forall j :: i < j <= |slots| ==> |IndicesOf(slots[..i])| < |IndicesOf(slots[..j])|
  {
    var n := |slots| - 1;
    assert slots[..|slots|] == slots;
    if i < n {
      IndexRank(slots[..n], i);
      assert slots[..n][..i] == slots[..i];
      assert forall j :: i < j <= n ==> slots[..n][..j] == slots[..j];
    }
  }

  /** Numbering in traversal order makes indices distinct. */
  lemma {:induction false} NumberedDistinct(slots: seq<Slot>, n: nat)
    requires IndicesOf(slots) == Numbered(n)
    ensures DistinctIndices(slots)
  {
    forall i, j | 0 <= i < j < |slots| && slots[i].index != ""
      ensures slots[i].index != slots[j].index
    {
      if slots[j].index != "" {
        IndexRank(slots, i);
        IndexRank(slots, j);
        DecimalInjective(|IndicesOf(slots[..i])|, |IndicesOf(slots[..j])|);
      }
    }
  }

  /** Discovery delivers what the share distribution needs. */
  lemma {:induction false} DiscoveredWellIndexed(gpuDevices: seq<Device>, gpus: seq<NvidiaGPU>, count: nat)
    requires IndicesOf(AllSlots(gpuDevices)) == Numbered(count)
    requires |gpuDevices| == |gpus| && forall i :: 0 <= i < |gpus| ==> BuiltFrom(gpuDevices[i], i, gpus[i])
    ensures WellIndexed(gpuDevices) && DistinctMinors(gpuDevices)
  {
    NumberedDistinct(AllSlots(gpuDevices), count);
    forall d, i | 0 <= d < |gpuDevices| && 0 <= i < |gpuDevices[d].instances|
      ensures gpuDevices[d].instances[i].slot.index != ""
    {
      assert BuiltFrom(gpuDevices[d], d, gpus[d]);
    }
    forall i, j | 0 <= i < j < |gpuDevices|
      ensures gpuDevices[i].minor != gpuDevices[j].minor
    {
      assert BuiltFrom(gpuDevices[i], i, gpus[i]) && BuiltFrom(gpuDevices[j], j, gpus[j]);
      DecimalInjective(i, j);
    }
  }

  ghost predicate DistinctMinors(devices: seq<Device>)
  {
    forall i, j :: 0 <= i < j < |devices| ==> devices[i].minor != devices[j].minor
  }

  /* ---- Order maps ---- */

  /** One entry `index:minor` or `index:minor.instance` of an order map. */
  datatype Entry = Entry(newIndex: string, minor: string, inst: Option<string>)

  function ParseEntry(token: string): Option<Entry>
  {
    var parts := Split(token, ':');
    if |parts| < 2 then None
    else
      var dev := Split(parts[1], '.');
      Some(Entry(TrimSpace(parts[0]), TrimSpace(dev[0]), if |dev| == 2 then Some(TrimSpace(dev[1])) else None))
  }

  function ParseEntries(tokens: seq<string>): seq<Entry>
  {
    if tokens == [] then []
    else
      var e := ParseEntry(tokens[|tokens|-1]);
      ParseEntries(tokens[..|tokens|-1]) + if e.Some? then [e.value] else []
  }

  lemma {:induction false} ParseStep(tokens: seq<string>, i: nat)
    requires i < |tokens|
    ensures var e := ParseEntry(tokens[i]);
      ParseEntries(tokens[..i+1]) == if e.Some? then ParseEntries(tokens[..i]) + [e.value]
          else ParseEntries(tokens[..i])
  {
    assert tokens[..i+1][..i] == tokens[..i];
  }

  function OrderEntries(orderMap: string): seq<Entry>
  {
    if orderMap == "" then [] else ParseEntries(Split(orderMap, ','))
  }

  /**
   * What an entry names a slot by: the minor of its device, and the instance ID if it is an instance. Of several
   * instances with one ID only the first has a name.
   */
  datatype Name = Name(minor: string, inst: Option<string>) | NoName

  predicate Names(e: Entry, n: Name)
  {
    n == Name(e.minor, e.inst)
  }

  /** The index given by the last entry for this name. */
  function NewIndex(n: Name, entries: seq<Entry>): Option<string>
  {
    if entries == [] then None
    else if Names(entries[|entries|-1], n) then Some(entries[|entries|-1].newIndex)
    else NewIndex(n, entries[..|entries|-1])
  }

  function IndexAfter(n: Name, index: string, entries: seq<Entry>): string
  {
    var i := NewIndex(n, entries);
    if i.Some? then i.value else index
  }

  predicate FirstWithID(instances: seq<GPUInstance>, i: nat)
    requires i < |instances|
  {
    forall k :: 0 <= k < i ==> instances[k].gpuInstID != instances[i].gpuInstID
  }

  function InstanceName(d: Device, i: nat): Name
    requires i < |d.instances|
  {
    if FirstWithID(d.instances, i) then Name(d.minor, Some(Decimal(d.instances[i].gpuInstID))) else NoName
  }

  /** The device after the entries: only indices change, each to what the last entry for it says. */
  ghost predicate Reindexed(d: Device, e: Device, entries: seq<Entry>)
  {
    && e == d.(slot := d.slot.(index := IndexAfter(Name(d.minor, None), d.slot.index, entries)),
      instances := e.instances)
    && |e.instances| == |d.instances|
    && forall i :: 0 <= i < |d.instances| ==>
         e.instances[i] == d.instances[i].(slot := d.instances[i].slot.(
           index := IndexAfter(InstanceName(d, i), d.instances[i].slot.index, entries)))
  }

  class GPUSMI {
    var devices: seq<Device>

    /** ReindexGPUs: every entry of the order map sets the index of the device or instance it names. */
    method ReindexGPUs(orderMap: string)
      modifies this
      ensures |devices| == |old(devices)|
      ensures forall d :: 0 <= d < |devices| ==> Reindexed(old(devices)[d], devices[d], OrderEntries(orderMap))
    {
      if orderMap == "" {
        return;
      }
      var tokens := Split(orderMap, ',');
      for i := 0 to |tokens|
        invariant |devices| == |old(devices)|
        invariant forall d :: 0 <= d < |devices| ==> Reindexed(old(devices)[d], devices[d], ParseEntries(tokens[..i]))
      {
        ParseStep(tokens, i);
        ghost var entries := ParseEntries(tokens[..i]);
        var entry := ParseEntry(tokens[i]);
        if entry.None? {
          continue;
        }
        ReindexEntry(entry.value, old(devices), entries);
      }
      PrefixAll(tokens);
    }

    /** The loop over the devices for one entry. */
    method ReindexEntry(entry: Entry, ghost start: seq<Device>, ghost entries: seq<Entry>)
      requires |devices| == |start|
      requires forall d :: 0 <= d < |start| ==> Reindexed(start[d], devices[d], entries)
      modifies this
      ensures |devices| == |start|
      ensures forall d :: 0 <= d < |start| ==> Reindexed(start[d], devices[d], entries + [entry])
    {
      for idev := 0 to |devices|
        invariant |devices| == |start|
        invariant forall d :: idev <= d < |start| ==> Reindexed(start[d], devices[d], entries)
        invariant forall d :: 0 <= d < idev ==> Reindexed(start[d], devices[d], entries + [entry])
      {
        var dev := ReindexDevice(devices[idev], entry, start[idev], entries);
        devices := devices[idev := dev];
      }
    }

    /** One entry on one device. */
    static method ReindexDevice(dev: Device, e: Entry, ghost start: Device, ghost entries: seq<Entry>)
        returns (r: Device)
      requires Reindexed(start, dev, entries)
      ensures Reindexed(start, r, entries + [e])
    {
      r := dev;
      assert (entries + [e])[..|entries|] == entries;
      if dev.minor == e.minor {
        if e.inst.Some? {
          r := ReindexInstance(dev, e, start, entries);
        } else {
          r := dev.(slot := dev.slot.(index := e.newIndex));
        }
      }
    }

    /** The loop over the instances: the first one with the ID gets the index. */
    static method ReindexInstance(dev: Device, e: Entry, ghost start: Device, ghost entries: seq<Entry>)
        returns (r: Device)
      requires Reindexed(start, dev, entries) && dev.minor == e.minor && e.inst.Some?
      ensures Reindexed(start, r, entries + [e])
    {
      for imig := 0 to |dev.instances|
        invariant forall i :: 0 <= i < imig ==> Decimal(dev.instances[i].gpuInstID) != e.inst.value
      {
        var inst := dev.instances[imig];
        if Decimal(inst.gpuInstID) == e.inst.value {
          OnlyNamed(start, e, imig);
          NextEntry(start, entries, e);
          return dev.(instances := dev.instances[imig := inst.(slot := inst.slot.(index := e.newIndex))]);
        }
      }
      NextEntry(start, entries, e);
      r := dev;
    }
  }

  /** What one more entry does to the index of each instance. */
  lemma {:induction false} NextEntry(d: Device, entries: seq<Entry>, e: Entry)
    ensures forall i :: 0 <= i < |d.instances| ==>
      IndexAfter(InstanceName(d, i), d.instances[i].slot.index, entries + [e])
        == if Names(e, InstanceName(d, i)) then e.newIndex
            else IndexAfter(InstanceName(d, i), d.instances[i].slot.index, entries)
    ensures IndexAfter(Name(d.minor, None), d.slot.index, entries + [e])
      == if Names(e, Name(d.minor, None)) then e.newIndex else IndexAfter(Name(d.minor, None), d.slot.index, entries)
  {
    assert (entries + [e])[..|entries|] == entries;
  }

  /** The first instance with the ID in the entry is named, and no other one. */
  lemma {:induction false} OnlyNamed(d: Device, e: Entry, imig: nat)
    requires imig < |d.instances| && e.minor == d.minor && e.inst == Some(Decimal(d.instances[imig].gpuInstID))
    requires forall i :: 0 <= i < imig ==> Decimal(d.instances[i].gpuInstID) != e.inst.value
    ensures forall i :: 0 <= i < |d.instances| ==> (Names(e, InstanceName(d, i)) <==> i == imig)
  {
    forall i | 0 <= i < |d.instances|
      ensures Names(e, InstanceName(d, i)) <==> i == imig
    {
      DecimalInjective(d.instances[i].gpuInstID, d.instances[imig].gpuInstID);
    }
  }

  /* ---- What an order map does to the indices of all slots ---- */

  function DeviceNames(d: Device): seq<Name>
  {
    [Name(d.minor, None)] + seq(|d.instances|, i requires 0 <= i < |d.instances| => InstanceName(d, i))
  }

  /** The names of the slots, in the order of AllSlots. */
  function SlotNames(devices: seq<Device>): seq<Name>
  {
    if devices == [] then [] else SlotNames(devices[..|devices|-1]) + DeviceNames(devices[|devices|-1])
  }

  lemma {:induction false} ReindexedSlots(ds: seq<Device>, es: seq<Device>, entries: seq<Entry>)
    requires |ds| == |es| && forall d :: 0 <= d < |ds| ==> Reindexed(ds[d], es[d], entries)
    ensures |SlotNames(ds)| == |AllSlots(ds)| == |AllSlots(es)|
    ensures forall k :: 0 <= k < |AllSlots(ds)| ==>
      AllSlots(es)[k].index == IndexAfter(SlotNames(ds)[k], AllSlots(ds)[k].index, entries)
  {
    if ds != [] {
      var n := |ds| - 1;
      ReindexedSlots(ds[..n], es[..n], entries);
      assert Reindexed(ds[n], es[n], entries);
      ReindexedDevice(ds[n], es[n], entries);
    }
  }

  lemma {:induction false} DeviceSlotAt(d: Device, k: nat)
    requires k < |DeviceSlots(d)|
    ensures DeviceSlots(d)[k] == if k == 0 then d.slot else d.instances[k-1].slot
  {
  }

  lemma {:induction false} DeviceNameAt(d: Device, k: nat)
    requires k < |DeviceNames(d)|
    ensures DeviceNames(d)[k] == if k == 0 then Name(d.minor, None) else InstanceName(d, k - 1)
  {
  }

  lemma {:induction false} ReindexedAt(d: Device, e: Device, entries: seq<Entry>, k: nat)
    requires Reindexed(d, e, entries) && k < |DeviceSlots(d)|
    ensures |DeviceNames(d)| == |DeviceSlots(d)| == |DeviceSlots(e)|
    ensures DeviceSlots(e)[k].index == IndexAfter(DeviceNames(d)[k], DeviceSlots(d)[k].index, entries)
  {
    DeviceSlotAt(d, k);
    DeviceSlotAt(e, k);
    DeviceNameAt(d, k);
    if k > 0 {
      assert e.instances[k-1].slot.index == IndexAfter(InstanceName(d, k - 1), d.instances[k-1].slot.index, entries);
    }
  }

  lemma {:induction false} ReindexedDevice(d: Device, e: Device, entries: seq<Entry>)
    requires Reindexed(d, e, entries)
    ensures |DeviceNames(d)| == |DeviceSlots(d)| == |DeviceSlots(e)|
    ensures forall k :: 0 <= k < |DeviceSlots(d)| ==>
      DeviceSlots(e)[k].index == IndexAfter(DeviceNames(d)[k], DeviceSlots(d)[k].index, entries)
  {
    forall k | 0 <= k < |DeviceSlots(d)|
      ensures DeviceSlots(e)[k].index == IndexAfter(DeviceNames(d)[k], DeviceSlots(d)[k].index, entries)
    {
      ReindexedAt(d, e, entries, k);
    }
  }

  lemma {:induction false} MinorOfName(devices: seq<Device>, k: nat)
    requires k < |SlotNames(devices)| && SlotNames(devices)[k].Name?
    ensures exists d :: 0 <= d < |devices| && SlotNames(devices)[k].minor == devices[d].minor
  {
    var n := |devices| - 1;
    var front := SlotNames(devices[..n]);
    if k < |front| {
      assert SlotNames(devices)[k] == front[k];
      MinorOfName(devices[..n], k);
      var d :| 0 <= d < n && front[k].minor == devices[..n][d].minor;
      assert devices[d].minor == front[k].minor;
    } else {
      assert SlotNames(devices)[k] == DeviceNames(devices[n])[k - |front|];
      DeviceNameMinor(devices[n], k - |front|);
    }
  }

  lemma {:induction false} NamesDistinct(devices: seq<Device>)
    requires DistinctMinors(devices)
    ensures forall i, j :: 0 <= i < j < |SlotNames(devices)| && SlotNames(devices)[i].Name? ==>
      SlotNames(devices)[i] != SlotNames(devices)[j]
  {
    if devices != [] {
      var n := |devices| - 1;
      var front, last, all := SlotNames(devices[..n]), DeviceNames(devices[n]), SlotNames(devices);
      NamesDistinct(devices[..n]);
      forall i, j | 0 <= i < j < |all| && all[i].Name?
        ensures all[i] != all[j]
      {
        if i >= |front| {
          assert all[i] == last[i - |front|] && all[j] == last[j - |front|];
          DeviceNamesDistinct(devices[n], i - |front|, j - |front|);
        } else if j >= |front| && all[j].Name? {
          assert all[i] == front[i] && all[j] == last[j - |front|];
          MinorsApart(devices, i, j - |front|);
        }
      }
    }
  }

  lemma {:induction false} MinorsApart(devices: seq<Device>, i: nat, j: nat)
    requires devices != [] && DistinctMinors(devices)
    requires i < |SlotNames(devices[..|devices|-1])| && SlotNames(devices[..|devices|-1])[i].Name?
    requires j < |DeviceNames(devices[|devices|-1])| && DeviceNames(devices[|devices|-1])[j].Name?
    ensures SlotNames(devices[..|devices|-1])[i] != DeviceNames(devices[|devices|-1])[j]
  {
    var n := |devices| - 1;
    MinorOfName(devices[..n], i);
    var d :| 0 <= d < n && SlotNames(devices[..n])[i].minor == devices[..n][d].minor;
    assert devices[d].minor != devices[n].minor;
    DeviceNameMinor(devices[n], j);
  }

  lemma {:induction false} DeviceNameMinor(d: Device, i: nat)
    requires i < |DeviceNames(d)| && DeviceNames(d)[i].Name?
    ensures DeviceNames(d)[i].minor == d.minor
  {
    if i > 0 {
      assert DeviceNames(d)[i] == InstanceName(d, i - 1);
    }
  }

  lemma {:induction false} DeviceNamesDistinct(d: Device, i: nat, j: nat)
    requires i < j < |DeviceNames(d)| && DeviceNames(d)[i].Name?
    ensures DeviceNames(d)[i] != DeviceNames(d)[j]
  {
    assert DeviceNames(d)[j] == InstanceName(d, j - 1);
    if i > 0 {
      assert DeviceNames(d)[i] == InstanceName(d, i - 1);
      DecimalInjective(d.instances[i-1].gpuInstID, d.instances[j-1].gpuInstID);
    }
  }

  /** New indices an operator would hand out: no blanks, no repeats. */
  predicate ProperEntries(entries: seq<Entry>)
  {
    (forall i :: 0 <= i < |entries| ==> entries[i].newIndex != "") &&
    (forall i, j :: 0 <= i < j < |entries| ==> entries[i].newIndex != entries[j].newIndex)
  }

  lemma {:induction false} NewIndexFrom(n: Name, entries: seq<Entry>) returns (i: nat)
    requires NewIndex(n, entries).Some?
    ensures i < |entries| && Names(entries[i], n) && entries[i].newIndex == NewIndex(n, entries).value
  {
    if Names(entries[|entries|-1], n) {
      i := |entries| - 1;
    } else {
      i := NewIndexFrom(n, entries[..|entries|-1]);
    }
  }

  /** The map gives slot i an index that slot j gets as well, or keeps. */
  predicate Collide(devices: seq<Device>, entries: seq<Entry>, i: int, j: int)
    requires |SlotNames(devices)| == |AllSlots(devices)|
  {
    && 0 <= i < |AllSlots(devices)| && 0 <= j < |AllSlots(devices)| && i != j
    && var x := NewIndex(SlotNames(devices)[i], entries);
      x.Some? && x.value != "" && x.value == IndexAfter(SlotNames(devices)[j], AllSlots(devices)[j].index, entries)
  }

  ghost predicate Clash(devices: seq<Device>, entries: seq<Entry>)
    requires |SlotNames(devices)| == |AllSlots(devices)|
  {
    exists i, j :: Collide(devices, entries, i, j)
  }

  /** Indices stay distinct exactly when the map gives no slot an index that another one gets or keeps. */
  lemma {:induction false} ReindexDistinct(ds: seq<Device>, es: seq<Device>, entries: seq<Entry>)
    requires DistinctIndices(AllSlots(ds))
    requires |ds| == |es| && forall d :: 0 <= d < |ds| ==> Reindexed(ds[d], es[d], entries)
    ensures |SlotNames(ds)| == |AllSlots(ds)|
    ensures DistinctIndices(AllSlots(es)) <==> !Clash(ds, entries)
  {
    var s, t := AllSlots(ds), AllSlots(es);
    ReindexedSlots(ds, es, entries);
    if Clash(ds, entries) {
      var i, j :| Collide(ds, entries, i, j);
      assert t[i].index == t[j].index != "";
    } else {
      forall i, j | 0 <= i < j < |t| && t[i].index != ""
        ensures t[i].index != t[j].index
      {
        assert !Collide(ds, entries, i, j) && !Collide(ds, entries, j, i);
      }
    }
  }

  /** A slot the order map leaves alone keeps an index that the map gives to another slot. */
  ghost predicate ClashLeftAlone(devices: seq<Device>, entries: seq<Entry>)
    requires |SlotNames(devices)| == |AllSlots(devices)|
  {
    exists i, j {:trigger SlotNames(devices)[i], SlotNames(devices)[j]} ::
      && 0 <= i < |SlotNames(devices)| && 0 <= j < |SlotNames(devices)|
      && NewIndex(SlotNames(devices)[i], entries) == Some(AllSlots(devices)[j].index)
      && NewIndex(SlotNames(devices)[j], entries).None?
  }

  /** With distinct minors and proper entries, that is the only way to clash. */
  lemma {:induction false} ProperClash(devices: seq<Device>, entries: seq<Entry>)
    requires DistinctMinors(devices) && ProperEntries(entries) && |SlotNames(devices)| == |AllSlots(devices)|
    ensures Clash(devices, entries) <==> ClashLeftAlone(devices, entries)
  {
    var names := SlotNames(devices);
    NamesDistinct(devices);
    if Clash(devices, entries) {
      var i, j :| Collide(devices, entries, i, j);
      ProperCollision(names[i], names[j], entries);
    }
    if ClashLeftAlone(devices, entries) {
      var i, j :| 0 <= i < |names| && 0 <= j < |names|
        && NewIndex(names[i], entries) == Some(AllSlots(devices)[j].index)
        && NewIndex(names[j], entries).None?;
      var e := NewIndexFrom(names[i], entries);
      assert Collide(devices, entries, i, j);
    }
  }

  lemma {:induction false} ProperCollision(m: Name, n: Name, entries: seq<Entry>)
    requires (m.Name? ==> m != n) && ProperEntries(entries) && NewIndex(m, entries).Some?
    ensures NewIndex(n, entries) != NewIndex(m, entries)
  {
    var i := NewIndexFrom(m, entries);
    if NewIndex(n, entries).Some? {
      var j := NewIndexFrom(n, entries);
      assert i != j;
    }
  }

  /** An order map that covers every indexed slot keeps the devices well indexed. */
  lemma {:induction false} CoveringMapWellIndexed(ds: seq<Device>, es: seq<Device>, entries: seq<Entry>)
    requires DistinctMinors(ds) && WellIndexed(ds) && ProperEntries(entries)
    requires |ds| == |es| && forall d :: 0 <= d < |ds| ==> Reindexed(ds[d], es[d], entries)
    requires |SlotNames(ds)| == |AllSlots(ds)|
    requires forall k :: 0 <= k < |AllSlots(ds)| && AllSlots(ds)[k].index != "" ==>
      NewIndex(SlotNames(ds)[k], entries).Some?
    ensures WellIndexed(es)
  {
    ReindexDistinct(ds, es, entries);
    ProperClash(ds, entries);
    if ClashLeftAlone(ds, entries) {
      var i, j :| 0 <= i < |SlotNames(ds)| && 0 <= j < |SlotNames(ds)|
        && NewIndex(SlotNames(ds)[i], entries) == Some(AllSlots(ds)[j].index)
        && NewIndex(SlotNames(ds)[j], entries).None?;
      var e := NewIndexFrom(SlotNames(ds)[i], entries);
      assert false;
    }
    forall d, i | 0 <= d < |es| && 0 <= i < |es[d].instances|
      ensures es[d].instances[i].slot.index != ""
    {
      assert Reindexed(ds[d], es[d], entries);
      assert ds[d].instances[i].slot.index != "";
      var n := InstanceName(ds[d], i);
      if NewIndex(n, entries).Some? {
        var k := NewIndexFrom(n, entries);
      }
    }
  }

  lemma {:induction false} PartialMapParses()
    ensures OrderEntries("0:1") == [Entry("0", "1", None)]
  {
    SplitPlain("0:1", ',');
    SplitCons("0", "1", ':');
    SplitPlain("1", ':');
    SplitPlain("1", '.');
    assert "0" + [':'] + "1" == "0:1";
    assert ParseEntry("0:1") == Some(Entry("0", "1", None));
    assert ["0:1"][..0] == [];
  }

  const TWO_GPUS: seq<Device> := [Device("a", "0", Slot("0", [], 0, 0), []), Device("b", "1", Slot("1", [], 0, 0), [])]

  lemma {:induction false} TwoGpuSlots()
    ensures AllSlots(TWO_GPUS) == [Slot("0", [], 0, 0), Slot("1", [], 0, 0)]
    ensures SlotNames(TWO_GPUS) == [Name("0", None), Name("1", None)]
  {
    var a, b := TWO_GPUS[0], TWO_GPUS[1];
    assert TWO_GPUS[..1] == [a] && [a][..0] == [];
    assert DeviceSlots(a) == [a.slot] && DeviceSlots(b) == [b.slot];
    assert AllSlots([a]) == [a.slot];
    assert DeviceNames(a) == [Name("0", None)] && DeviceNames(b) == [Name("1", None)];
    assert SlotNames([a]) == [Name("0", None)];
  }

  lemma {:induction false} NewIndexOne(n: Name, e: Entry)
    ensures NewIndex(n, [e]) == if Names(e, n) then Some(e.newIndex) else None
  {
    assert [e][..0] == [];
  }

  lemma {:induction false} PartialMapNames()
    ensures |SlotNames(TWO_GPUS)| == 2 && |AllSlots(TWO_GPUS)| == 2
    ensures NewIndex(SlotNames(TWO_GPUS)[0], OrderEntries("0:1")).None? && AllSlots(TWO_GPUS)[0].index == "0"
    ensures NewIndex(SlotNames(TWO_GPUS)[1], OrderEntries("0:1")) == Some("0")
  {
    TwoGpuSlots();
    PartialMapParses();
    NewIndexOne(Name("0", None), Entry("0", "1", None));
    NewIndexOne(Name("1", None), Entry("0", "1", None));
  }

  lemma {:induction false} TwoGpusDistinct()
    ensures DistinctIndices(AllSlots(TWO_GPUS))
  {
    TwoGpuSlots();
  }

  /** A partial map can break it: giving GPU 1 the index 0 while GPU 0 keeps it. */
  lemma {:induction false} PartialMapClashes(es: seq<Device>)
    requires |es| == 2 && forall d :: 0 <= d < 2 ==> Reindexed(TWO_GPUS[d], es[d], OrderEntries("0:1"))
    ensures DistinctIndices(AllSlots(TWO_GPUS)) && !DistinctIndices(AllSlots(es))
    ensures es[0].slot.index == "0" && es[1].slot.index == "0"
  {
    TwoGpusDistinct();
    PartialMapNames();
    var entries := OrderEntries("0:1");
    assert |SlotNames(TWO_GPUS)| == |AllSlots(TWO_GPUS)|;
    TwoGpuSlots();
    assert Collide(TWO_GPUS, entries, 1, 0);
    ReindexDistinct(TWO_GPUS, es, entries);
    assert Reindexed(TWO_GPUS[0], es[0], entries) && Reindexed(TWO_GPUS[1], es[1], entries);
  }
}
