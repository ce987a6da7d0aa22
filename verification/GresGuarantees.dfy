/** What a scrape guarantees (pkg/collector/slurm.go). */
module GresGuarantees {
  import opened Devices
  import opened GresAllocation
  import opened GresAttachment

  ghost predicate DistinctUuids(cgroups: seq<Cgroup>)
  {
    forall i, j :: 0 <= i < j < |cgroups| ==> cgroups[i].uuid != cgroups[j].uuid
  }

  lemma {:induction false} UnitsFromFacts(index: string, uuid: string, hostname: string, ids: seq<string>)
    ensures var u := UnitsFrom(index, uuid, hostname, ids);
      && (u != [] <==> index in ids)
      && forall i :: 0 <= i < |u| ==> u[i] == ComputeUnit(uuid, hostname, 0)
  {
    if ids != [] {
      UnitsFromFacts(index, uuid, hostname, ids[..|ids|-1]);
      assert ids == ids[..|ids|-1] + [ids[|ids|-1]];
    }
  }

  /** Attached units hold nothing yet, and a job has one exactly where it lists the index. */
  lemma {:induction false} AttachedUnitsFacts(index: string, cgroups: seq<Cgroup>, uuid: string)
    ensures var u := AttachedUnits(index, cgroups);
      && (forall i :: 0 <= i < |u| ==> u[i].numShares == 0)
      && ((exists i :: 0 <= i < |u| && u[i].uuid == uuid) <==>
          exists c :: c in cgroups && HasGres(c) && c.uuid == uuid && index in c.gres.value.deviceIDs)
  {
    if cgroups != [] {
      var n := |cgroups| - 1;
      var c, p, u := cgroups[n], AttachedUnits(index, cgroups[..n]), AttachedUnits(index, cgroups);
      AttachedUnitsFacts(index, cgroups[..n], uuid);
      assert cgroups == cgroups[..n] + [c];
      var more := if HasGres(c) then UnitsFrom(index, c.uuid, c.hostname, c.gres.value.deviceIDs) else [];
      if HasGres(c) {
        UnitsFromFacts(index, c.uuid, c.hostname, c.gres.value.deviceIDs);
      }
      assert u == p + more;
      assert forall i :: 0 <= i < |p| ==> u[i] == p[i];
      assert more != [] ==> u[|p|] == more[0];
    }
  }

  lemma {:induction false} JobsFacts(cgroups: seq<Cgroup>, job: Job)
    ensures job in JobsOf(cgroups) <==>
      exists c :: c in cgroups && HasGres(c) && job == Job(c.uuid, c.gres.value.deviceIDs, c.gres.value.numShares)
  {
    if cgroups != [] {
      var n := |cgroups| - 1;
      JobsFacts(cgroups[..n], job);
      assert cgroups == cgroups[..n] + [cgroups[n]];
    }
  }

  lemma {:induction false} JobsDistinct(cgroups: seq<Cgroup>)
    requires DistinctUuids(cgroups)
    ensures DistinctJobs(JobsOf(cgroups))
  {
    if cgroups != [] {
      var n := |cgroups| - 1;
      JobsDistinct(cgroups[..n]);
      var js := JobsOf(cgroups[..n]);
      forall i | 0 <= i < |js|
        ensures js[i].uuid != cgroups[n].uuid
      {
        JobsFacts(cgroups[..n], js[i]);
      }
    }
  }

  lemma {:induction false} TwiceInMultiset<T>(s: seq<T>, i: nat, j: nat)
    requires i < j < |s| && s[i] == s[j]
    ensures multiset(s)[s[i]] >= 2
  {
    var a, b := s[..j], s[j..];
    assert s == a + b && a[i] == s[i] && b[0] == s[i];
    assert multiset(s) == multiset(a) + multiset(b);
    assert s[i] in multiset(a) && s[i] in multiset(b);
  }

  lemma {:induction false} OnceInMultiset<T>(s: seq<T>, x: T)
    requires forall i, j :: 0 <= i < j < |s| ==> s[i] != s[j]
    ensures multiset(s)[x] <= 1
    decreases |s|
  {
    if s != [] {
      assert s == [s[0]] + s[1..];
      OnceInMultiset(s[1..], x);
      if x == s[0] {
        assert x !in s[1..];
        assert multiset(s[1..])[x] == 0;
      }
    }
  }

  /** Whatever order the sort produces, the jobs served are the jobs of the scrape, each once. */
  lemma {:induction false} ServedFacts(cgroups: seq<Cgroup>, served: seq<Job>)
    requires DistinctUuids(cgroups) && ServingOrder(served, cgroups)
    ensures DistinctJobs(served)
    ensures forall j :: j in served <==> j in JobsOf(cgroups)
  {
    var js := JobsOf(cgroups);
    assert forall j :: j in served <==> j in multiset(served);
    assert forall j :: j in js <==> j in multiset(js);
    JobsDistinct(cgroups);
    forall i, j | 0 <= i < j < |served|
      ensures served[i].uuid != served[j].uuid
    {
      if served[i].uuid == served[j].uuid {
        var a, b := served[i], served[j];
        assert a in js && b in js;
        var k, l :| 0 <= k < |js| && 0 <= l < |js| && js[k] == a && js[l] == b;
        assert k == l;
        TwiceInMultiset(served, i, j);
        OnceInMultiset(js, a);
        assert false;
      }
    }
  }

  lemma {:induction false} SlotsAttached(slots: seq<Slot>, cgroups: seq<Cgroup>, served: seq<Job>)
    requires DistinctUuids(cgroups) && ServingOrder(served, cgroups)
    ensures AttachedByIndex(AttachedSlots(slots, cgroups), served)
  {
    var attached := AttachedSlots(slots, cgroups);
    ServedFacts(cgroups, served);
    forall k, j | 0 <= k < |slots| && 0 <= j < |served|
      ensures Hosts(attached[k], served[j].uuid) <==> attached[k].index in served[j].deviceIDs
    {
      AttachedUnitsFacts(slots[k].index, cgroups, served[j].uuid);
      JobsFacts(cgroups, served[j]);
      var c :| c in cgroups && HasGres(c) && served[j] == Job(c.uuid, c.gres.value.deviceIDs, c.gres.value.numShares);
      assert forall d :: d in cgroups && d.uuid == c.uuid ==> d == c;
    }
  }

  lemma {:induction false} AttachedDistinct(slots: seq<Slot>, cgroups: seq<Cgroup>)
    requires DistinctIndices(slots)
    ensures DistinctIndices(AttachedSlots(slots, cgroups))
  {
    assert forall k :: 0 <= k < |slots| ==> AttachedSlots(slots, cgroups)[k].index == slots[k].index;
  }

  lemma {:induction false} SlotsReady(devices: seq<Device>, cgroups: seq<Cgroup>)
    requires WellIndexed(devices)
    ensures Ready(AttachedSlots(AllSlots(devices), cgroups), AvailableOf(devices))
  {
    var slots := AllSlots(devices);
    AvailableIndexed(devices);
    NoEmptyEntry(slots);
    AttachedUnserved(slots, cgroups);
    AttachedDistinct(slots, cgroups);
    forall k | 0 <= k < |slots|
      ensures Get(AvailableOf(devices), slots[k].index) == Capacity(slots[k])
    {
      EntryIsCapacity(slots, k);
    }
  }

  /** The outcome of the share distribution of one scrape. */
  function Shares(devices: seq<Device>, cgroups: seq<Cgroup>, served: seq<Job>): Outcome
  {
    ServeJobs(AttachedSlots(AllSlots(devices), cgroups), AvailableOf(devices), served)
  }

  lemma {:induction false} AttachedUnserved(slots: seq<Slot>, cgroups: seq<Cgroup>)
    ensures forall k :: 0 <= k < |slots| ==> Unserved(AttachedSlots(slots, cgroups)[k])
  {
    forall k | 0 <= k < |slots|
      ensures Unserved(AttachedSlots(slots, cgroups)[k])
    {
      AttachedUnitsFacts(slots[k].index, cgroups, "");
    }
  }

  /** Conservation for every job after any scrape, whatever the indices. */
  lemma {:induction false} ScrapeJobConserved(devices: seq<Device>, cgroups: seq<Cgroup>, served: seq<Job>, j: nat)
    requires DistinctUuids(cgroups) && ServingOrder(served, cgroups) && j < |served|
    ensures var o := Shares(devices, cgroups, served);
      HeldBy(o.slots, served[j].uuid) + o.lefts[j] == served[j].numShares
  {
    AttachedUnserved(AllSlots(devices), cgroups);
    ServedFacts(cgroups, served);
    JobConserved(AttachedSlots(AllSlots(devices), cgroups), AvailableOf(devices), served, j);
  }

  /** Conservation on every slot and for every job, and maximality, after any scrape. */
  lemma {:induction false} ScrapeConserves(devices: seq<Device>, cgroups: seq<Cgroup>, served: seq<Job>)
    requires WellIndexed(devices) && DistinctUuids(cgroups) && ServingOrder(served, cgroups)
    ensures var o := Shares(devices, cgroups, served);
      var slots := AllSlots(devices);
      && |o.slots| == |slots|
      && (forall k :: 0 <= k < |slots| ==>
           && o.slots[k].index == slots[k].index
           && o.slots[k].currentShares == TotalShares(o.slots[k].units) <= o.slots[k].availableShares
           && o.slots[k].availableShares == slots[k].availableShares)
      && (forall j :: 0 <= j < |served| ==> HeldBy(o.slots, served[j].uuid) + o.lefts[j] == served[j].numShares)
      && (forall j, k ::
           0 <= j < |served| && 0 <= k < |slots| && slots[k].index in served[j].deviceIDs && o.lefts[j] > 0 ==>
           o.slots[k].currentShares == Capacity(slots[k]))
  {
    var slots := AllSlots(devices);
    var attached := AttachedSlots(slots, cgroups);
    var o := Shares(devices, cgroups, served);
    SlotsReady(devices, cgroups);
    SlotsAttached(slots, cgroups, served);
    ServedFacts(cgroups, served);
    forall k | 0 <= k < |slots|
      ensures o.slots[k].index == slots[k].index
      ensures o.slots[k].currentShares == TotalShares(o.slots[k].units) <= o.slots[k].availableShares
      ensures o.slots[k].availableShares == slots[k].availableShares
    {
      SlotConserved(attached, AvailableOf(devices), served, k);
      assert attached[k] == Attached(slots[k], cgroups);
    }
    forall j | 0 <= j < |served|
      ensures HeldBy(o.slots, served[j].uuid) + o.lefts[j] == served[j].numShares
    {
      ScrapeJobConserved(devices, cgroups, served, j);
    }
    forall j, k | 0 <= j < |served| && 0 <= k < |slots| && slots[k].index in served[j].deviceIDs && o.lefts[j] > 0
      ensures o.slots[k].currentShares == Capacity(slots[k])
    {
      assert attached[k].index == slots[k].index;
      Maximal(attached, AvailableOf(devices), served, j, k);
    }
  }

  /** Jobs on a single device come first: if they fit there together, each gets everything it asked for. */
  lemma {:induction false} ScrapePriority(devices: seq<Device>, cgroups: seq<Cgroup>, served: seq<Job>, j: nat, k: nat)
    requires WellIndexed(devices) && DistinctUuids(cgroups) && ServingOrder(served, cgroups)
    requires j < |served| && k < |AllSlots(devices)|
    requires served[j].deviceIDs == [AllSlots(devices)[k].index]
    requires SingleDemand(AllSlots(devices)[k].index, served) <= Capacity(AllSlots(devices)[k])
    ensures HeldBy(Shares(devices, cgroups, served).slots, served[j].uuid) == served[j].numShares
  {
    var slots := AllSlots(devices);
    var attached := AttachedSlots(slots, cgroups);
    SlotsReady(devices, cgroups);
    SlotsAttached(slots, cgroups, served);
    ServedFacts(cgroups, served);
    forall i | 0 <= i < |served|
      ensures served[i].deviceIDs != []
    {
      JobsFacts(cgroups, served[i]);
    }
    assert attached[k] == Attached(slots[k], cgroups);
    Priority(attached, AvailableOf(devices), served, j, k);
  }

  /** What holds on the slots between scrapes. */
  ghost predicate Settled(slots: seq<Slot>)
  {
    forall k :: 0 <= k < |slots| ==> slots[k].currentShares == TotalShares(slots[k].units) <= slots[k].availableShares
  }

  lemma {:induction false} WithoutSharing(slots: seq<Slot>, cgroups: seq<Cgroup>)
    ensures Settled(AttachedSlots(slots, cgroups))
  {
    var attached := AttachedSlots(slots, cgroups);
    forall k | 0 <= k < |slots|
      ensures attached[k].currentShares == TotalShares(attached[k].units) <= attached[k].availableShares
    {
      AttachedUnitsFacts(slots[k].index, cgroups, "");
      NoSharesNoTotal(attached[k].units);
    }
  }

  /** Devices stay well indexed as long as indices and shape stay. */
  lemma {:induction false} WellIndexedKept(ds: seq<Device>, es: seq<Device>)
    requires Shape(ds) == Shape(es) && SlotKeys(AllSlots(ds)) == SlotKeys(AllSlots(es)) && WellIndexed(ds)
    ensures WellIndexed(es)
  {
    InstancesIndexedKept(ds, es);
    var s, t := AllSlots(ds), AllSlots(es);
    assert |SlotKeys(s)| == |s| && |SlotKeys(t)| == |t|;
    forall i, j | 0 <= i < j < |t| && t[i].index != ""
      ensures t[i].index != t[j].index
    {
      assert SlotKeys(s)[i] == SlotKeys(t)[i] && SlotKeys(s)[j] == SlotKeys(t)[j];
      assert s[i].index == t[i].index && s[j].index == t[j].index;
    }
  }

  lemma {:induction false} InstancesIndexedKept(ds: seq<Device>, es: seq<Device>)
    requires Shape(ds) == Shape(es) && SlotKeys(AllSlots(ds)) == SlotKeys(AllSlots(es))
    requires InstancesIndexed(ds)
    ensures InstancesIndexed(es)
  {
    assert |Shape(ds)| == |ds| && |Shape(es)| == |es|;
    if |ds| != 0 {
      var n := |ds| - 1;
      var d, e := ds[n], es[n];
      FrontKeys(ds, es);
      InstancesIndexedKept(ds[..n], es[..n]);
      forall i | 0 <= i < |e.instances|
        ensures e.instances[i].slot.index != ""
      {
        assert SlotKeys(DeviceSlots(d))[i+1] == SlotKeys(DeviceSlots(e))[i+1];
        assert d.instances[i].slot.index != "";
      }
    }
  }
}
