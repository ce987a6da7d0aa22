/** Which jobs sit on which devices after a scrape (pkg/collector/slurm.go). */
module SlurmAttachments {
  import opened Devices
  import opened GresAllocation
  import opened GresAttachment
  import opened GresGuarantees

  /* ---- Where the slots of devices are ---- */

  lemma {:induction false} OwnSlots(d: Device)
    ensures |DeviceSlots(d)| == 1 + |d.instances| && DeviceSlots(d)[0] == d.slot
    ensures forall i :: 0 <= i < |d.instances| ==> DeviceSlots(d)[1 + i] == d.instances[i].slot
  {
  }

  lemma {:induction false} LastSlots(devices: seq<Device>)
    requires devices != []
    ensures AllSlots(devices) == AllSlots(devices[..|devices|-1]) + DeviceSlots(devices[|devices|-1])
  {
  }

  lemma {:induction false} DevicePlace(devices: seq<Device>, d: nat) returns (k: nat)
    requires d < |devices|
    ensures k + |devices[d].instances| < |AllSlots(devices)|
    ensures AllSlots(devices)[k..k + 1 + |devices[d].instances|] == DeviceSlots(devices[d])
  {
    var n := |devices| - 1;
    var front := AllSlots(devices[..n]);
    LastSlots(devices);
    OwnSlots(devices[d]);
    if d == n {
      k := |front|;
    } else {
      k := DevicePlace(devices[..n], d);
      assert AllSlots(devices)[..|front|] == front;
      assert AllSlots(devices)[..|front|][k..k + 1 + |devices[d].instances|]
        == AllSlots(devices)[k..k + 1 + |devices[d].instances|];
    }
  }

  /** Every slot is that of a device or of an instance. */
  lemma {:induction false} SlotOwner(devices: seq<Device>, k: nat) returns (d: nat, i: int)
    requires k < |AllSlots(devices)|
    ensures d < |devices| && -1 <= i < |devices[d].instances|
    ensures AllSlots(devices)[k] == if i < 0 then devices[d].slot else devices[d].instances[i].slot
  {
    var n := |devices| - 1;
    var front, last := AllSlots(devices[..n]), DeviceSlots(devices[n]);
    if k < |front| {
      d, i := SlotOwner(devices[..n], k);
      assert AllSlots(devices)[k] == front[k];
    } else {
      d, i := n, k - |front| - 1;
      assert AllSlots(devices)[k] == last[k - |front|];
    }
  }

  /* ---- Units and jobs ---- */

  /** The job asks for this index. */
  predicate AsksFor(c: Cgroup, index: string)
  {
    c.gres.Some? && index in c.gres.value.deviceIDs
  }

  /** The unit is one of a listed job that asks for the index. */
  ghost predicate UnitOfJob(u: ComputeUnit, index: string, cgroups: seq<Cgroup>)
  {
    exists c :: c in cgroups && c.uuid == u.uuid && c.hostname == u.hostname && AsksFor(c, index)
  }

  ghost predicate UnitsOfJobs(s: Slot, cgroups: seq<Cgroup>)
  {
    forall i :: 0 <= i < |s.units| ==> UnitOfJob(s.units[i], s.index, cgroups)
  }

  ghost predicate JobsOnSlot(s: Slot, cgroups: seq<Cgroup>)
  {
    forall c :: c in cgroups && AsksFor(c, s.index) ==> Hosts(s, c.uuid)
  }

  ghost predicate SlotReflects(s: Slot, cgroups: seq<Cgroup>)
  {
    UnitsOfJobs(s, cgroups) && JobsOnSlot(s, cgroups)
  }

  /** Every device and instance holds units of exactly the listed jobs that ask for it. */
  ghost predicate Reflects(devices: seq<Device>, cgroups: seq<Cgroup>)
  {
    forall d :: 0 <= d < |devices| ==>
      && SlotReflects(devices[d].slot, cgroups)
      && forall i :: 0 <= i < |devices[d].instances| ==> SlotReflects(devices[d].instances[i].slot, cgroups)
  }

  ghost predicate SlotsReflect(slots: seq<Slot>, cgroups: seq<Cgroup>)
  {
    forall k :: 0 <= k < |slots| ==> SlotReflects(slots[k], cgroups)
  }

  lemma {:induction false} ReflectsFromSlots(devices: seq<Device>, cgroups: seq<Cgroup>)
    requires SlotsReflect(AllSlots(devices), cgroups)
    ensures Reflects(devices, cgroups)
  {
    forall d | 0 <= d < |devices|
      ensures SlotReflects(devices[d].slot, cgroups)
      ensures forall i :: 0 <= i < |devices[d].instances| ==> SlotReflects(devices[d].instances[i].slot, cgroups)
    {
      DeviceReflects(devices, cgroups, d);
    }
  }

  lemma {:induction false} DeviceReflects(devices: seq<Device>, cgroups: seq<Cgroup>, d: nat)
    requires SlotsReflect(AllSlots(devices), cgroups) && d < |devices|
    ensures SlotReflects(devices[d].slot, cgroups)
    ensures forall i :: 0 <= i < |devices[d].instances| ==> SlotReflects(devices[d].instances[i].slot, cgroups)
  {
    var k := DevicePlace(devices, d);
    var own := DeviceSlots(devices[d]);
    OwnSlots(devices[d]);
    forall j | 0 <= j < |own| ensures SlotReflects(own[j], cgroups) {
      assert own[j] == AllSlots(devices)[k..k + |own|][j] == AllSlots(devices)[k + j];
    }
    assert SlotReflects(own[0], cgroups);
    forall i | 0 <= i < |devices[d].instances| ensures SlotReflects(devices[d].instances[i].slot, cgroups) {
      assert SlotReflects(own[1 + i], cgroups);
    }
  }

  lemma {:induction false} UnitsFromOwn(index: string, uuid: string, hostname: string, ids: seq<string>, u: ComputeUnit)
    requires u in UnitsFrom(index, uuid, hostname, ids)
    ensures u == ComputeUnit(uuid, hostname, 0) && index in ids
  {
    UnitsFromFacts(index, uuid, hostname, ids);
  }

  lemma {:induction false} AttachedOwn(index: string, cgroups: seq<Cgroup>, u: ComputeUnit)
    requires u in AttachedUnits(index, cgroups)
    ensures UnitOfJob(u, index, cgroups)
  {
    var n := |cgroups| - 1;
    var c, front := cgroups[n], AttachedUnits(index, cgroups[..n]);
    if u in front {
      AttachedOwn(index, cgroups[..n], u);
      var e :| e in cgroups[..n] && e.uuid == u.uuid && e.hostname == u.hostname && AsksFor(e, index);
      assert e in cgroups;
    } else {
      UnitsFromOwn(index, c.uuid, c.hostname, c.gres.value.deviceIDs, u);
      assert c in cgroups;
    }
  }

  lemma {:induction false} AttachedReflects(s: Slot, cgroups: seq<Cgroup>)
    ensures SlotReflects(Attached(s, cgroups), cgroups)
  {
    var t := Attached(s, cgroups);
    forall i | 0 <= i < |t.units| ensures UnitOfJob(t.units[i], t.index, cgroups) {
      AttachedOwn(s.index, cgroups, t.units[i]);
    }
    forall c | c in cgroups && AsksFor(c, t.index) ensures Hosts(t, c.uuid) {
      AttachedUnitsFacts(s.index, cgroups, c.uuid);
    }
  }

  lemma {:induction false} ServedUnits(s: Slot, t: Slot, jobs: seq<Job>, cgroups: seq<Cgroup>)
    requires SameFrame(s, t, jobs) && UnitsOfJobs(s, cgroups)
    ensures UnitsOfJobs(t, cgroups)
  {
    forall i | 0 <= i < |t.units| ensures UnitOfJob(t.units[i], t.index, cgroups) {
      assert UnitOfJob(s.units[i], s.index, cgroups);
    }
  }

  lemma {:induction false} ServedJobs(s: Slot, t: Slot, jobs: seq<Job>, cgroups: seq<Cgroup>)
    requires SameFrame(s, t, jobs) && JobsOnSlot(s, cgroups)
    ensures JobsOnSlot(t, cgroups)
  {
    forall c | c in cgroups && AsksFor(c, t.index) ensures Hosts(t, c.uuid) {
      assert Hosts(s, c.uuid);
      var i :| 0 <= i < |s.units| && s.units[i].uuid == c.uuid;
      assert t.units[i].uuid == c.uuid;
    }
  }

  /** Handing out shares moves no job. */
  lemma {:induction false} ServedReflects(s: Slot, t: Slot, jobs: seq<Job>, cgroups: seq<Cgroup>)
    requires SameFrame(s, t, jobs) && SlotReflects(s, cgroups)
    ensures SlotReflects(t, cgroups)
  {
    ServedUnits(s, t, jobs, cgroups);
    ServedJobs(s, t, jobs, cgroups);
  }

  lemma {:induction false} AllAttached(slots: seq<Slot>, cgroups: seq<Cgroup>)
    ensures SlotsReflect(AttachedSlots(slots, cgroups), cgroups)
  {
    forall k | 0 <= k < |slots|
      ensures SlotReflects(AttachedSlots(slots, cgroups)[k], cgroups)
    {
      AttachedReflects(slots[k], cgroups);
    }
  }

  lemma {:induction false} AllServed(devices: seq<Device>, cgroups: seq<Cgroup>, served: seq<Job>)
    ensures SlotsReflect(AfterScrape(devices, cgroups, served), cgroups)
  {
    var attached := AttachedSlots(AllSlots(devices), cgroups);
    AllAttached(AllSlots(devices), cgroups);
    JobsFramed(attached, AvailableOf(devices), served);
    forall k | 0 <= k < |attached|
      ensures SlotReflects(AfterScrape(devices, cgroups, served)[k], cgroups)
    {
      ServedReflects(attached[k], AfterScrape(devices, cgroups, served)[k], served, cgroups);
    }
  }

  /* ---- How many units a job has ---- */

  lemma {:induction false} UnitsFromCount(index: string, uuid: string, hostname: string, ids: seq<string>)
    ensures |UnitsFrom(index, uuid, hostname, ids)| == multiset(ids)[index]
  {
    if ids != [] {
      UnitsFromCount(index, uuid, hostname, ids[..|ids|-1]);
      assert ids == ids[..|ids|-1] + [ids[|ids|-1]];
    }
  }

  /** The units of one job. */
  function UnitsWith(units: seq<ComputeUnit>, uuid: string): nat
  {
    if units == [] then 0 else UnitsWith(units[..|units|-1], uuid) + if units[|units|-1].uuid == uuid then 1 else 0
  }

  lemma {:induction false} UnitsWithAppend(a: seq<ComputeUnit>, b: seq<ComputeUnit>, uuid: string)
    ensures UnitsWith(a + b, uuid) == UnitsWith(a, uuid) + UnitsWith(b, uuid)
  {
    if b == [] {
      assert a + b == a;
    } else {
      UnitsWithAppend(a, b[..|b|-1], uuid);
      assert (a + b)[..|a+b|-1] == a + b[..|b|-1];
    }
  }

  lemma {:induction false} UnitsWithAll(units: seq<ComputeUnit>, uuid: string, same: bool)
    requires forall i :: 0 <= i < |units| ==> (units[i].uuid == uuid <==> same)
    ensures UnitsWith(units, uuid) == if same then |units| else 0
  {
    if units != [] {
      UnitsWithAll(units[..|units|-1], uuid, same);
    }
  }

  /** What one more job adds to the units of one uuid. */
  lemma {:induction false} AttachedCountNext(index: string, cgroups: seq<Cgroup>, uuid: string)
    requires cgroups != []
    ensures var n := |cgroups| - 1;
      UnitsWith(AttachedUnits(index, cgroups), uuid) == UnitsWith(AttachedUnits(index, cgroups[..n]), uuid)
        + if cgroups[n].uuid == uuid then Listings(cgroups[n], index) else 0
  {
    var n := |cgroups| - 1;
    var c, front := cgroups[n], AttachedUnits(index, cgroups[..n]);
    var more := if HasGres(c) then UnitsFrom(index, c.uuid, c.hostname, c.gres.value.deviceIDs) else [];
    UnitsWithAppend(front, more, uuid);
    if HasGres(c) {
      UnitsFromFacts(index, c.uuid, c.hostname, c.gres.value.deviceIDs);
      UnitsFromCount(index, c.uuid, c.hostname, c.gres.value.deviceIDs);
    }
    UnitsWithAll(more, uuid, c.uuid == uuid);
  }

  /** How often a job lists an index. */
  function Listings(c: Cgroup, index: string): nat
  {
    if c.gres.Some? then multiset(c.gres.value.deviceIDs)[index] else 0
  }

  lemma {:induction false} AttachedNone(index: string, cgroups: seq<Cgroup>, uuid: string)
    requires forall k :: 0 <= k < |cgroups| ==> cgroups[k].uuid != uuid
    ensures UnitsWith(AttachedUnits(index, cgroups), uuid) == 0
  {
    if cgroups != [] {
      AttachedNone(index, cgroups[..|cgroups|-1], uuid);
      AttachedCountNext(index, cgroups, uuid);
    }
  }

  ghost predicate OnlyAt(cgroups: seq<Cgroup>, k: nat, uuid: string)
  {
    k < |cgroups| && forall j :: 0 <= j < |cgroups| ==> (cgroups[j].uuid == uuid <==> j == k)
  }

  lemma {:induction false} AttachedCountOf(index: string, cgroups: seq<Cgroup>, k: nat, uuid: string)
    requires OnlyAt(cgroups, k, uuid)
    ensures UnitsWith(AttachedUnits(index, cgroups), uuid) == Listings(cgroups[k], index)
  {
    AttachedCountNext(index, cgroups, uuid);
    if k < |cgroups| - 1 {
      AttachedCountOf(index, cgroups[..|cgroups|-1], k, uuid);
    } else {
      AttachedNone(index, cgroups[..k], uuid);
    }
  }

  /** A job has as many units on a slot as it lists the slot's index. */
  lemma {:induction false} AttachedCount(index: string, cgroups: seq<Cgroup>, k: nat)
    requires DistinctUuids(cgroups) && k < |cgroups|
    ensures UnitsWith(AttachedUnits(index, cgroups), cgroups[k].uuid) == Listings(cgroups[k], index)
  {
    assert OnlyAt(cgroups, k, cgroups[k].uuid);
    AttachedCountOf(index, cgroups, k, cgroups[k].uuid);
  }

  lemma {:induction false} UnitsWithSame(a: seq<ComputeUnit>, b: seq<ComputeUnit>, uuid: string)
    requires |a| == |b| && forall i :: 0 <= i < |a| ==> a[i].uuid == b[i].uuid
    ensures UnitsWith(a, uuid) == UnitsWith(b, uuid)
  {
    if a != [] {
      UnitsWithSame(a[..|a|-1], b[..|b|-1], uuid);
    }
  }

  /** The same after the shares have been handed out. */
  lemma {:induction false} ServedCount(devices: seq<Device>, cgroups: seq<Cgroup>, served: seq<Job>, j: nat, k: nat)
    requires DistinctUuids(cgroups) && j < |AllSlots(devices)| && k < |cgroups|
    ensures var t := AfterScrape(devices, cgroups, served)[j];
      t.index == AllSlots(devices)[j].index && UnitsWith(t.units, cgroups[k].uuid) == Listings(cgroups[k], t.index)
  {
    var attached := AttachedSlots(AllSlots(devices), cgroups);
    JobsFramed(attached, AvailableOf(devices), served);
    assert SameFrame(attached[j], AfterScrape(devices, cgroups, served)[j], served);
    AttachedCount(AllSlots(devices)[j].index, cgroups, k);
    UnitsWithSame(attached[j].units, AfterScrape(devices, cgroups, served)[j].units, cgroups[k].uuid);
  }

  /** The jobs that are served: those that ask for devices, each with its request. */
  lemma {:induction false} JobsAre(cgroups: seq<Cgroup>, job: Job)
    ensures job in JobsOf(cgroups) <==> exists c :: c in cgroups && Requests(c, job)
  {
    if cgroups != [] {
      var n := |cgroups| - 1;
      JobsAre(cgroups[..n], job);
      assert cgroups == cgroups[..n] + [cgroups[n]];
      assert Requests(cgroups[n], job) ==> cgroups[n] in cgroups;
    }
  }

  predicate Requests(c: Cgroup, job: Job)
  {
    && c.gres.Some? && c.gres.value.deviceIDs != [] && job.uuid == c.uuid
    && job.deviceIDs == c.gres.value.deviceIDs && job.numShares == c.gres.value.numShares
  }

  /* ---- The same jobs again ---- */

  /** Jobs whose GRES is known keep their request from one scrape to the next. */
  ghost predicate KeepRequests(before: seq<Cgroup>, now: seq<Cgroup>)
  {
    forall c, e :: c in before && e in now && c.uuid == e.uuid && c.gres.Some? && c.gres.value.deviceIDs != [] ==>
      c == e
  }

  ghost predicate AllKnown(cgroups: seq<Cgroup>)
  {
    forall c :: c in cgroups ==> c.gres.Some? && c.gres.value.deviceIDs != []
  }

  /** The uuids of the jobs, each as often as it is listed. */
  function UuidCounts(cgroups: seq<Cgroup>): multiset<string>
  {
    if cgroups == [] then multiset{} else UuidCounts(cgroups[..|cgroups|-1]) + multiset{cgroups[|cgroups|-1].uuid}
  }

  predicate SameUuids(a: seq<Cgroup>, b: seq<Cgroup>)
  {
    UuidCounts(a) == UuidCounts(b)
  }

  ghost predicate JobListed(uuid: string, cgroups: seq<Cgroup>)
  {
    exists c :: c in cgroups && c.uuid == uuid
  }

  lemma {:induction false} UuidCounted(cgroups: seq<Cgroup>, uuid: string)
    ensures uuid in UuidCounts(cgroups) <==> JobListed(uuid, cgroups)
  {
    if cgroups != [] {
      UuidCounted(cgroups[..|cgroups|-1], uuid);
      ListedNext(cgroups, uuid);
    }
  }

  lemma {:induction false} ListedNext(cgroups: seq<Cgroup>, uuid: string)
    requires cgroups != []
    ensures JobListed(uuid, cgroups)
      <==> JobListed(uuid, cgroups[..|cgroups|-1]) || cgroups[|cgroups|-1].uuid == uuid
  {
    var n := |cgroups| - 1;
    if cgroups[n].uuid == uuid {
      assert cgroups[n] in cgroups;
    }
    if JobListed(uuid, cgroups[..n]) {
      var c :| c in cgroups[..n] && c.uuid == uuid;
      assert c in cgroups;
    }
    if JobListed(uuid, cgroups) {
      var c :| c in cgroups && c.uuid == uuid;
      assert c in cgroups[..n] || c == cgroups[n];
    }
  }

  /** The IDs that the collector compares. */
  lemma {:induction false} UuidsCounted(cgroups: seq<Cgroup>)
    ensures multiset(Uuids(cgroups)) == UuidCounts(cgroups)
  {
    if cgroups != [] {
      var n := |cgroups| - 1;
      UuidsCounted(cgroups[..n]);
      assert Uuids(cgroups) == Uuids(cgroups[..n]) + [cgroups[n].uuid];
    }
  }

  lemma {:induction false} UuidListed(a: seq<Cgroup>, b: seq<Cgroup>, c: Cgroup)
    requires SameUuids(a, b) && c in a
    ensures JobListed(c.uuid, b)
  {
    UuidCounted(a, c.uuid);
    UuidCounted(b, c.uuid);
  }

  lemma {:induction false} SubsetUnits(s: Slot, before: seq<Cgroup>, now: seq<Cgroup>)
    requires UnitsOfJobs(s, before) && forall c :: c in before ==> c in now
    ensures UnitsOfJobs(s, now)
  {
    forall i | 0 <= i < |s.units| ensures UnitOfJob(s.units[i], s.index, now) {
      assert UnitOfJob(s.units[i], s.index, before);
    }
  }

  /** Jobs with the same uuids and requests are the same jobs. */
  lemma {:induction false} SameJobsReflected(devices: seq<Device>, before: seq<Cgroup>, now: seq<Cgroup>)
    requires Reflects(devices, before) && SameUuids(before, now) && AllKnown(before) && KeepRequests(before, now)
    ensures Reflects(devices, now) && AllKnown(now)
  {
    forall c | c in before ensures c in now {
      UuidListed(before, now, c);
    }
    forall c | c in now ensures c in before {
      UuidListed(now, before, c);
    }
    forall s: Slot | SlotReflects(s, before) ensures SlotReflects(s, now) {
      SubsetUnits(s, before, now);
    }
  }

  /** Every unit on a device or instance is one of a listed job. */
  ghost predicate UnitsListed(devices: seq<Device>, cgroups: seq<Cgroup>)
  {
    forall d :: 0 <= d < |devices| ==>
      && SlotListed(devices[d].slot, cgroups)
      && forall i :: 0 <= i < |devices[d].instances| ==> SlotListed(devices[d].instances[i].slot, cgroups)
  }

  ghost predicate SlotListed(s: Slot, cgroups: seq<Cgroup>)
  {
    forall i :: 0 <= i < |s.units| ==> JobListed(s.units[i].uuid, cgroups)
  }

  lemma {:induction false} SlotStillListed(s: Slot, before: seq<Cgroup>, now: seq<Cgroup>)
    requires UnitsOfJobs(s, before) && SameUuids(before, now)
    ensures SlotListed(s, now)
  {
    forall i | 0 <= i < |s.units| ensures JobListed(s.units[i].uuid, now) {
      assert UnitOfJob(s.units[i], s.index, before);
      var c :| c in before && c.uuid == s.units[i].uuid;
      UuidListed(before, now, c);
    }
  }

  /** All units are those of listed jobs, and all jobs have their units if requests are as they were. */
  ghost predicate Holds(devices: seq<Device>, before: seq<Cgroup>, now: seq<Cgroup>)
  {
    UnitsListed(devices, now) && (KeepRequests(before, now) ==> Reflects(devices, now))
  }

  /** As long as the jobs stay the same their units are theirs, and they are all there if requests stay as well. */
  lemma {:induction false} StillListed(devices: seq<Device>, before: seq<Cgroup>, now: seq<Cgroup>)
    requires Reflects(devices, before) && SameUuids(before, now) && (before != now ==> AllKnown(before))
    ensures Holds(devices, before, now)
  {
    forall d | 0 <= d < |devices|
      ensures SlotListed(devices[d].slot, now)
      ensures forall i :: 0 <= i < |devices[d].instances| ==> SlotListed(devices[d].instances[i].slot, now)
    {
      SlotStillListed(devices[d].slot, before, now);
      forall i | 0 <= i < |devices[d].instances| ensures SlotListed(devices[d].instances[i].slot, now) {
        SlotStillListed(devices[d].instances[i].slot, before, now);
      }
    }
    if before != now && KeepRequests(before, now) {
      SameJobsReflected(devices, before, now);
    }
  }

  /** The same jobs, from the same hosts, ask for the index. */
  ghost predicate SameAsking(index: string, before: seq<Cgroup>, now: seq<Cgroup>)
  {
    forall c, e :: c in before && e in now && c.uuid == e.uuid ==> SameAsk(index, c, e)
  }

  predicate SameAsk(index: string, c: Cgroup, e: Cgroup)
  {
    (AsksFor(c, index) <==> AsksFor(e, index)) && (AsksFor(c, index) ==> c.hostname == e.hostname)
  }

  lemma {:induction false} OneOfUuid(cgroups: seq<Cgroup>, c: Cgroup, e: Cgroup)
    requires DistinctUuids(cgroups) && c in cgroups && e in cgroups && c.uuid == e.uuid
    ensures c == e
  {
    var i :| 0 <= i < |cgroups| && cgroups[i] == c;
    var j :| 0 <= j < |cgroups| && cgroups[j] == e;
    assert i == j;
  }

  /** The job of a unit, which is the only one with its uuid. */
  lemma {:induction false} UnitAsks(s: Slot, cgroups: seq<Cgroup>, c: Cgroup, i: nat)
    requires DistinctUuids(cgroups) && UnitsOfJobs(s, cgroups) && c in cgroups
    requires i < |s.units| && s.units[i].uuid == c.uuid
    ensures AsksFor(c, s.index) && c.hostname == s.units[i].hostname
  {
    assert UnitOfJob(s.units[i], s.index, cgroups);
    var e :| e in cgroups && e.uuid == s.units[i].uuid && e.hostname == s.units[i].hostname && AsksFor(e, s.index);
    OneOfUuid(cgroups, c, e);
  }

  lemma {:induction false} AskedBoth(s: Slot, before: seq<Cgroup>, now: seq<Cgroup>, c: Cgroup, e: Cgroup)
    requires SlotReflects(s, before) && SlotReflects(s, now) && DistinctUuids(before) && DistinctUuids(now)
    requires c in before && e in now && c.uuid == e.uuid
    ensures SameAsk(s.index, c, e)
  {
    if AsksFor(c, s.index) || AsksFor(e, s.index) {
      assert Hosts(s, c.uuid);
      var i :| 0 <= i < |s.units| && s.units[i].uuid == c.uuid;
      UnitAsks(s, before, c, i);
      UnitAsks(s, now, e, i);
    }
  }

  lemma {:induction false} StillUnits(s: Slot, before: seq<Cgroup>, now: seq<Cgroup>)
    requires UnitsOfJobs(s, before) && SameUuids(before, now) && SameAsking(s.index, before, now)
    ensures UnitsOfJobs(s, now)
  {
    forall i | 0 <= i < |s.units| ensures UnitOfJob(s.units[i], s.index, now) {
      assert UnitOfJob(s.units[i], s.index, before);
      var c :| c in before && c.uuid == s.units[i].uuid && c.hostname == s.units[i].hostname && AsksFor(c, s.index);
      UuidListed(before, now, c);
      var e :| e in now && e.uuid == c.uuid;
      assert SameAsk(s.index, c, e);
    }
  }

  lemma {:induction false} StillOnSlot(s: Slot, before: seq<Cgroup>, now: seq<Cgroup>)
    requires JobsOnSlot(s, before) && SameUuids(before, now) && SameAsking(s.index, before, now)
    ensures JobsOnSlot(s, now)
  {
    forall e | e in now && AsksFor(e, s.index) ensures Hosts(s, e.uuid) {
      UuidListed(now, before, e);
      var c :| c in before && c.uuid == e.uuid;
      assert SameAsk(s.index, c, e);
    }
  }

  /**
   * When the same jobs are listed again, with whatever requests, a slot that is not attached anew has the units it
   * should have if and only if its index is asked for by the same jobs.
   */
  lemma {:induction false} StillReflectsExactly(s: Slot, before: seq<Cgroup>, now: seq<Cgroup>)
    requires SlotReflects(s, before) && SameUuids(before, now) && DistinctUuids(before) && DistinctUuids(now)
    ensures SlotReflects(s, now) <==> SameAsking(s.index, before, now)
  {
    if SlotReflects(s, now) {
      forall c, e | c in before && e in now && c.uuid == e.uuid ensures SameAsk(s.index, c, e) {
        AskedBoth(s, before, now, c, e);
      }
    }
    if SameAsking(s.index, before, now) {
      StillUnits(s, before, now);
      StillOnSlot(s, before, now);
    }
  }

  /** A job that asks for another device while the jobs stay the same is still on the first one. */
  lemma {:induction false} ChangedRequestMissed(s: Slot, c: Cgroup, e: Cgroup)
    requires SlotReflects(s, [c]) && c.uuid == e.uuid && AsksFor(c, s.index) && !AsksFor(e, s.index)
    ensures SameUuids([c], [e]) && !SlotReflects(s, [e])
  {
    assert [c][..0] == [] && [e][..0] == [];
    assert c in [c] && e in [e];
    if SlotReflects(s, [e]) {
      StillReflectsExactly(s, [c], [e]);
    }
  }

  lemma {:induction false} NoGresExactly(cgroups: seq<Cgroup>)
    ensures NoGres(cgroups) == [] <==> AllKnown(cgroups)
  {
    if cgroups != [] {
      NoGresExactly(cgroups[..|cgroups|-1]);
      assert cgroups == cgroups[..|cgroups|-1] + [cgroups[|cgroups|-1]];
    }
  }

  /* ---- What a scrape leaves alone ---- */

  predicate SameKeys(s: Slot, t: Slot)
  {
    t.index == s.index && t.availableShares == s.availableShares
  }

  predicate SameInstance(i: GPUInstance, j: GPUInstance)
  {
    j.uuid == i.uuid && j.gpuInstID == i.gpuInstID && SameKeys(i.slot, j.slot)
  }

  /** Only units and current shares may differ. */
  ghost predicate SameDevice(d: Device, e: Device)
  {
    && e.uuid == d.uuid && e.minor == d.minor && SameKeys(d.slot, e.slot) && |e.instances| == |d.instances|
    && forall i :: 0 <= i < |d.instances| ==> SameInstance(d.instances[i], e.instances[i])
  }

  lemma {:induction false} SameSlots(d: Device, e: Device)
    requires DeviceShape(d) == DeviceShape(e) && SlotKeys(DeviceSlots(d)) == SlotKeys(DeviceSlots(e))
    ensures SameDevice(d, e)
  {
    var p, q := SlotKeys(DeviceSlots(d)), SlotKeys(DeviceSlots(e));
    assert |InstanceShapes(d.instances)| == |d.instances| && |InstanceShapes(e.instances)| == |e.instances|;
    assert p[0] == (d.slot.index, d.slot.availableShares) && q[0] == (e.slot.index, e.slot.availableShares);
    forall i | 0 <= i < |d.instances|
      ensures SameInstance(d.instances[i], e.instances[i])
    {
      assert InstanceShapes(d.instances)[i] == InstanceShapes(e.instances)[i];
      assert p[i+1] == (d.instances[i].slot.index, d.instances[i].slot.availableShares);
      assert q[i+1] == (e.instances[i].slot.index, e.instances[i].slot.availableShares);
    }
  }

  ghost predicate SameDevices(ds: seq<Device>, es: seq<Device>)
  {
    |es| == |ds| && forall d :: 0 <= d < |ds| ==> SameDevice(ds[d], es[d])
  }

  lemma {:induction false} SameAsItself(ds: seq<Device>)
    ensures SameDevices(ds, ds)
  {
  }

  lemma {:induction false} SameShapes(ds: seq<Device>, es: seq<Device>)
    requires Shape(ds) == Shape(es) && SlotKeys(AllSlots(ds)) == SlotKeys(AllSlots(es))
    ensures SameDevices(ds, es)
  {
    assert |Shape(ds)| == |ds| && |Shape(es)| == |es|;
    if ds != [] {
      var n := |ds| - 1;
      FrontKeys(ds, es);
      SameShapes(ds[..n], es[..n]);
      assert Shape(ds)[n] == Shape(es)[n];
      SameSlots(ds[n], es[n]);
      forall d | 0 <= d < |ds| ensures SameDevice(ds[d], es[d]) {
        assert d < n ==> SameDevice(ds[..n][d], es[..n][d]);
      }
    }
  }

  /** The slots are those with the jobs attached, served in some order of the sort where GPUs are shared. */
  ghost predicate Distributed(before: seq<Device>, after: seq<Device>, cgroups: seq<Cgroup>, served: seq<Job>,
      shared: bool)
  {
    if shared then ServingOrder(served, cgroups) && AllSlots(after) == AfterScrape(before, cgroups, served)
    else AllSlots(after) == AttachedSlots(AllSlots(before), cgroups)
  }
}
