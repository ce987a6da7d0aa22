/** GPU devices, their instances and the compute units attached to them (pkg/collector/gpu.go). */
module Devices {

  /** A job, pod or VM attached to a device, with the shares it holds there. */
  datatype ComputeUnit = ComputeUnit(uuid: string, hostname: string, numShares: nat)

  /** The fields that the source's Device and GPUInstance both have. */
  datatype Slot = Slot(index: string, units: seq<ComputeUnit>, currentShares: nat, availableShares: nat)

  datatype GPUInstance = GPUInstance(uuid: string, gpuInstID: nat, slot: Slot)

  datatype Device = Device(uuid: string, minor: string, slot: Slot, instances: seq<GPUInstance>)

  function InstanceSlots(instances: seq<GPUInstance>): seq<Slot>
  {
    seq(|instances|, i requires 0 <= i < |instances| => instances[i].slot)
  }

  function DeviceSlots(d: Device): seq<Slot>
  {
    [d.slot] + InstanceSlots(d.instances)
  }

  /** Every place a unit can be attached to, in the order in which the source walks them. */
  function AllSlots(devices: seq<Device>): seq<Slot>
  {
    if devices == [] then [] else AllSlots(devices[..|devices|-1]) + DeviceSlots(devices[|devices|-1])
  }

  function ResetSlot(s: Slot): Slot
  {
    s.(units := [], currentShares := 0)
  }

  function TotalShares(units: seq<ComputeUnit>): nat
  {
    if units == [] then 0 else TotalShares(units[..|units|-1]) + units[|units|-1].numShares
  }

  /** Shares held by one uuid among the units of one slot. */
  function SharesOf(units: seq<ComputeUnit>, uuid: string): nat
  {
    if units == [] then 0
    else SharesOf(units[..|units|-1], uuid) + if units[|units|-1].uuid == uuid then units[|units|-1].numShares else 0
  }

  ghost predicate Hosts(s: Slot, uuid: string)
  {
    exists i :: 0 <= i < |s.units| && s.units[i].uuid == uuid
  }

  /** Shares held by one uuid over all slots. */
  function HeldBy(slots: seq<Slot>, uuid: string): nat
  {
    if slots == [] then 0 else HeldBy(slots[..|slots|-1], uuid) + SharesOf(slots[|slots|-1].units, uuid)
  }

  /** Slots are told apart by their indices; only a device whose instances carry the indices has none. */
  ghost predicate WellIndexed(devices: seq<Device>)
  {
    DistinctIndices(AllSlots(devices)) && InstancesIndexed(devices)
  }

  ghost predicate InstancesIndexed(devices: seq<Device>)
  {
    forall d, i :: 0 <= d < |devices| && 0 <= i < |devices[d].instances| ==> devices[d].instances[i].slot.index != ""
  }

  ghost predicate DistinctIndices(slots: seq<Slot>)
  {
    forall i, j :: 0 <= i < j < |slots| && slots[i].index != "" ==> slots[i].index != slots[j].index
  }
}
