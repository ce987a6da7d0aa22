/** Exported share fractions (pkg/collector/cgroup.go). */
module DeviceFlags {
  import opened Devices
  import opened GresAllocation
  import opened GresAttachment
  import opened GresGuarantees
  import opened Options
  import opened PodDevices
  import opened Seqs

  /** One exported sample: the unit, the device or instance index, and the fraction of it the unit is charged. */
  datatype Flag = Flag(uuid: string, index: string, value: real)

  function FlagValue(s: Slot, u: ComputeUnit): real
  {
    if s.currentShares > 0 && u.numShares > 0 then u.numShares as real / s.currentShares as real else 1.0
  }

  function SlotFlags(s: Slot, n: nat): seq<Flag>
    requires n <= |s.units|
  {
    if n == 0 then [] else SlotFlags(s, n - 1) + [Flag(s.units[n-1].uuid, s.index, FlagValue(s, s.units[n-1]))]
  }

  function AllFlags(slots: seq<Slot>): seq<Flag>
  {
    if slots == [] then [] else AllFlags(slots[..|slots|-1]) + SlotFlags(slots[|slots|-1], |slots[|slots|-1].units|)
  }

  /* ---- What each sample says ---- */

  /** The unit's part of the slot: its shares over all that are held there, or the whole slot without them. */
  ghost predicate Fraction(value: real, s: Slot, u: ComputeUnit)
  {
    if u.numShares > 0 && s.currentShares > 0 then value * s.currentShares as real == u.numShares as real
    else value == 1.0
  }

  ghost predicate FlagOf(f: Flag, s: Slot, i: int)
  {
    0 <= i < |s.units| && f.uuid == s.units[i].uuid && f.index == s.index && Fraction(f.value, s, s.units[i])
  }

  function UnitCount(slots: seq<Slot>): nat
  {
    if slots == [] then 0 else UnitCount(slots[..|slots|-1]) + |slots[|slots|-1].units|
  }

  /** One sample for every unit of every slot, slot after slot. */
  ghost predicate Placed(flags: seq<Flag>, slots: seq<Slot>)
  {
    && |flags| == UnitCount(slots)
    && forall k, i :: 0 <= k < |slots| && 0 <= i < |slots[k].units| ==> PlacedAt(flags, slots, k, i)
  }

  ghost predicate PlacedAt(flags: seq<Flag>, slots: seq<Slot>, k: int, i: int)
    requires 0 <= k < |slots| && 0 <= i
  {
    UnitCount(slots[..k]) + i < |flags| && FlagOf(flags[UnitCount(slots[..k]) + i], slots[k], i)
  }

  lemma {:induction false} FlagsOfSlot(s: Slot, n: nat)
    requires n <= |s.units|
    ensures |SlotFlags(s, n)| == n
    ensures forall i :: 0 <= i < n ==> FlagOf(SlotFlags(s, n)[i], s, i)
  {
    if n > 0 {
      FlagsOfSlot(s, n - 1);
    }
  }

  lemma {:induction false} FlagsPlaced(slots: seq<Slot>)
    ensures Placed(AllFlags(slots), slots)
  {
    if slots != [] {
      var n := |slots| - 1;
      var before, own := AllFlags(slots[..n]), SlotFlags(slots[n], |slots[n].units|);
      FlagsPlaced(slots[..n]);
      FlagsOfSlot(slots[n], |slots[n].units|);
      forall k, i | 0 <= k < |slots| && 0 <= i < |slots[k].units|
        ensures PlacedAt(before + own, slots, k, i)
      {
        if k < n {
          assert slots[..n][..k] == slots[..k];
          assert PlacedAt(before, slots[..n], k, i);
        } else {
          assert (before + own)[|before| + i] == own[i];
        }
      }
    }
  }

  /** updateDeviceMappers: the samples sent, in order. */
  method UpdateDeviceMappers(devices: seq<Device>) returns (flags: seq<Flag>)
    ensures Placed(flags, AllSlots(devices))
    ensures flags == AllFlags(AllSlots(devices))
  {
    flags := [];
    for igpu := 0 to |devices|
      invariant flags == AllFlags(AllSlots(devices[..igpu]))
    {
      assert devices[..igpu+1][..igpu] == devices[..igpu];
      flags := SendDevice(flags, devices[igpu], AllSlots(devices[..igpu]));
    }
    PrefixAll(devices);
    FlagsPlaced(AllSlots(devices));
  }

  lemma {:induction false} NextInstance(row: seq<Slot>, slot: Slot, instances: seq<GPUInstance>, i: nat)
    requires i < |instances|
    ensures row + ([slot] + InstanceSlots(instances[..i])) + [instances[i].slot]
      == row + ([slot] + InstanceSlots(instances[..i+1]))
  {
    var a, b := InstanceSlots(instances[..i]), InstanceSlots(instances[..i+1]);
    assert b == a + [instances[i].slot];
    AppendAssoc([slot], a, [instances[i].slot]);
    AppendAssoc(row, [slot] + a, [instances[i].slot]);
  }

  /** The samples of one device and its instances. */
  method SendDevice(sent: seq<Flag>, gpu: Device, ghost row: seq<Slot>) returns (flags: seq<Flag>)
    requires sent == AllFlags(row)
    ensures flags == AllFlags(row + DeviceSlots(gpu))
  {
    flags := SendSlot(sent, gpu.slot, row);
    assert DeviceSlots(gpu.(instances := [])) == [gpu.slot];
    for iinst := 0 to |gpu.instances|
      invariant flags == AllFlags(row + ([gpu.slot] + InstanceSlots(gpu.instances[..iinst])))
    {
      ghost var before := row + ([gpu.slot] + InstanceSlots(gpu.instances[..iinst]));
      var inst := gpu.instances[iinst];
      flags := SendSlot(flags, inst.slot, before);
      NextInstance(row, gpu.slot, gpu.instances, iinst);
    }
    PrefixAll(gpu.instances);
  }

  /** The samples of one slot. */
  method SendSlot(sent: seq<Flag>, s: Slot, ghost row: seq<Slot>) returns (flags: seq<Flag>)
    requires sent == AllFlags(row)
    ensures flags == AllFlags(row + [s])
  {
    flags := sent;
    for iunit := 0 to |s.units|
      invariant flags == sent + SlotFlags(s, iunit)
    {
      var value := 1.0;
      if s.currentShares > 0 && s.units[iunit].numShares > 0 {
        value := s.units[iunit].numShares as real / s.currentShares as real;
      }
      flags := flags + [Flag(s.units[iunit].uuid, s.index, value)];
    }
    assert (row + [s])[..|row|] == row;
  }

  function ValueSum(flags: seq<Flag>): real
  {
    if flags == [] then 0.0 else ValueSum(flags[..|flags|-1]) + flags[|flags|-1].value
  }

  /** Units that are attached but hold no share. */
  function Starved(units: seq<ComputeUnit>): nat
  {
    if units == [] then 0 else Starved(units[..|units|-1]) + if units[|units|-1].numShares == 0 then 1 else 0
  }

  lemma {:induction false} FlagsStep(s: Slot, n: nat)
    requires n < |s.units|
    ensures ValueSum(SlotFlags(s, n + 1)) == ValueSum(SlotFlags(s, n)) + FlagValue(s, s.units[n])
  {
    FlagCount(s, n);
    assert SlotFlags(s, n + 1)[..n] == SlotFlags(s, n);
  }

  lemma {:induction false} UnitsStep(units: seq<ComputeUnit>, n: nat)
    requires n < |units|
    ensures TotalShares(units[..n+1]) == TotalShares(units[..n]) + units[n].numShares
    ensures Starved(units[..n+1]) == Starved(units[..n]) + if units[n].numShares == 0 then 1 else 0
  {
    PrefixStep(units, n);
    assert units[..n+1][..n] == units[..n];
  }

  lemma {:induction false} QuotientStep(t: real, u: real, c: real)
    requires c != 0.0
    ensures (t + u) / c == t / c + u / c
  {
  }

  lemma {:induction false} PartialSum(s: Slot, n: nat)
    requires n <= |s.units| && s.currentShares > 0
    ensures ValueSum(SlotFlags(s, n)) == TotalShares(s.units[..n]) as real / s.currentShares as real
      + Starved(s.units[..n]) as real
  {
    if n > 0 {
      PartialSum(s, n - 1);
      FlagsStep(s, n - 1);
      UnitsStep(s.units, n - 1);
      QuotientStep(TotalShares(s.units[..n-1]) as real, s.units[n-1].numShares as real, s.currentShares as real);
    }
  }

  lemma {:induction false} FlagCount(s: Slot, n: nat)
    requires n <= |s.units|
    ensures |SlotFlags(s, n)| == n
  {
    if n > 0 {
      FlagCount(s, n - 1);
    }
  }

  lemma {:induction false} UnsharedSum(s: Slot, n: nat)
    requires n <= |s.units| && s.currentShares == 0
    ensures ValueSum(SlotFlags(s, n)) == n as real
  {
    if n > 0 {
      UnsharedSum(s, n - 1);
      FlagCount(s, n - 1);
      assert SlotFlags(s, n)[..n-1] == SlotFlags(s, n - 1);
    }
  }

  /**
   * What is charged for a slot in total: the whole slot once if shares are held there, and once more for every
   * unit that holds none.
   */
  lemma {:induction false} ChargedInTotal(s: Slot)
    requires s.currentShares == TotalShares(s.units)
    ensures s.currentShares > 0 ==> ValueSum(SlotFlags(s, |s.units|)) == 1.0 + Starved(s.units) as real
    ensures s.currentShares == 0 ==> ValueSum(SlotFlags(s, |s.units|)) == |s.units| as real
  {
    PrefixAll(s.units);
    if s.currentShares > 0 {
      PartialSum(s, |s.units|);
      RatioOne(s.currentShares);
    } else {
      UnsharedSum(s, |s.units|);
    }
  }

  lemma {:induction false} RatioOne(n: nat)
    requires n > 0
    ensures n as real / n as real == 1.0
  {
  }

  lemma {:induction false} StarvedCount(units: seq<ComputeUnit>)
    ensures Starved(units) == 0 <==> forall i :: 0 <= i < |units| ==> units[i].numShares > 0
    ensures TotalShares(units) == 0 ==> Starved(units) == |units|
  {
    if units != [] {
      StarvedCount(units[..|units|-1]);
    }
  }

  /** A slot is charged exactly once when every unit on it holds a share, or a single one is there without shares. */
  lemma {:induction false} ChargedOnce(s: Slot)
    requires s.currentShares == TotalShares(s.units)
    ensures ValueSum(SlotFlags(s, |s.units|)) == 1.0 <==>
      (s.units != [] && forall i :: 0 <= i < |s.units| ==> s.units[i].numShares > 0)
          || (|s.units| == 1 && s.currentShares == 0)
  {
    ChargedInTotal(s);
    StarvedCount(s.units);
    if s.units != [] && s.currentShares == 0 {
      NoSharesHeld(s.units, 0);
    }
  }

  lemma {:induction false} NoSharesHeld(units: seq<ComputeUnit>, i: nat)
    requires TotalShares(units) == 0 && i < |units|
    ensures units[i].numShares == 0
  {
    if i < |units| - 1 {
      NoSharesHeld(units[..|units|-1], i);
    }
  }

  lemma {:induction false} HeldSlots(devices: seq<Device>, k: nat)
    requires AllHeld(devices) && k < |AllSlots(devices)|
    ensures Held(AllSlots(devices)[k])
  {
    var n := |devices| - 1;
    var front := AllSlots(devices[..n]);
    if k < |front| {
      HeldSlots(devices[..n], k);
      assert AllSlots(devices)[k] == front[k];
    } else {
      assert DeviceHeld(devices[n]);
      assert AllSlots(devices)[k] == DeviceSlots(devices[n])[k-|front|];
    }
  }

  /** On Kubernetes nodes every device or instance that some pod holds is charged exactly once, after every refresh. */
  lemma {:induction false} PodsChargedOnce(devices: seq<Device>, k: nat)
    requires AllHeld(devices) && k < |AllSlots(devices)| && AllSlots(devices)[k].units != []
    ensures var s := AllSlots(devices)[k]; ValueSum(SlotFlags(s, |s.units|)) == 1.0
  {
    HeldSlots(devices, k);
    ChargedOnce(AllSlots(devices)[k]);
  }

  /* ---- More jobs than shares ---- */

  lemma {:induction false} StarvedAtLeast(units: seq<ComputeUnit>)
    ensures Starved(units) + TotalShares(units) >= |units|
    ensures Starved(units) <= |units| && (TotalShares(units) > 0 ==> Starved(units) < |units|)
  {
    if units != [] {
      StarvedAtLeast(units[..|units|-1]);
    }
  }

  /** With more units than shares a slot is charged twice at least, and never more often than it has units. */
  lemma {:induction false} CrowdedChargedTwice(s: Slot)
    requires s.currentShares == TotalShares(s.units) <= s.availableShares && 1 <= s.availableShares < |s.units|
    ensures 2.0 <= ValueSum(SlotFlags(s, |s.units|)) <= |s.units| as real
    ensures Starved(s.units) >= |s.units| - s.availableShares
  {
    ChargedInTotal(s);
    StarvedAtLeast(s.units);
  }

  /** So it is after a scrape that attached more units to a slot than it has shares. */
  lemma {:induction false} ScrapeOvercharges(devices: seq<Device>, cgroups: seq<Cgroup>, served: seq<Job>, k: nat)
    requires WellIndexed(devices) && DistinctUuids(cgroups) && ServingOrder(served, cgroups) && k < |AllSlots(devices)|
    requires var s := AllSlots(devices)[k]; 1 <= s.availableShares < |AttachedUnits(s.index, cgroups)|
    ensures k < |AfterScrape(devices, cgroups, served)|
    ensures var t := AfterScrape(devices, cgroups, served)[k];
      && t.index == AllSlots(devices)[k].index && |t.units| == |AttachedUnits(t.index, cgroups)|
      && Starved(t.units) >= |t.units| - t.availableShares
      && 2.0 <= ValueSum(SlotFlags(t, |t.units|)) <= |t.units| as real
  {
    var slots := AllSlots(devices);
    var attached := AttachedSlots(slots, cgroups);
    ScrapeConserves(devices, cgroups, served);
    JobsFramed(attached, AvailableOf(devices), served);
    var t := Shares(devices, cgroups, served).slots[k];
    assert SameFrame(attached[k], t, served) && attached[k] == Attached(slots[k], cgroups);
    CrowdedChargedTwice(t);
  }

  /* ---- Two jobs on a device with one share ---- */

  const LONE := Slot("0", [], 0, 1)
  const LONE_DEVICE := Device("gpu", "0", LONE, [])
  const FIRST_JOB := Cgroup("1", "", Some(GresRequest(["0"], 1)))
  const SECOND_JOB := Cgroup("2", "", Some(GresRequest(["0"], 1)))

  lemma {:induction false} LoneSlots()
    ensures AllSlots([LONE_DEVICE]) == [LONE] && WellIndexed([LONE_DEVICE])
  {
    assert [LONE_DEVICE][..0] == [];
    assert DeviceSlots(LONE_DEVICE) == [LONE];
  }

  lemma {:induction false} TwoJobs()
    ensures |AttachedUnits("0", [FIRST_JOB, SECOND_JOB])| == 2 && DistinctUuids([FIRST_JOB, SECOND_JOB])
  {
    var one, two := [FIRST_JOB], [FIRST_JOB, SECOND_JOB];
    assert one[..0] == [] && two[..1] == one && ["0"][..0] == [];
    assert |UnitsFrom("0", "1", "", ["0"])| == 1 && |UnitsFrom("0", "2", "", ["0"])| == 1;
    assert |AttachedUnits("0", one)| == 1;
  }

  /** Whichever of the two jobs is served first, the other one is charged the whole device as well. */
  lemma {:induction false} StarvedJobCharged(served: seq<Job>)
    requires ServingOrder(served, [FIRST_JOB, SECOND_JOB])
    ensures var o := AfterScrape([LONE_DEVICE], [FIRST_JOB, SECOND_JOB], served);
      && |o| == 1 && |o[0].units| == 2 && Starved(o[0].units) >= 1
      && ValueSum(SlotFlags(o[0], 2)) == 2.0
  {
    LoneSlots();
    TwoJobs();
    ScrapeOvercharges([LONE_DEVICE], [FIRST_JOB, SECOND_JOB], served, 0);
    ScrapeConserves([LONE_DEVICE], [FIRST_JOB, SECOND_JOB], served);
  }
}
