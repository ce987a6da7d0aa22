/** Pods attached to devices with their share counts (pkg/collector/k8s.go). */
module PodDevices {
  import opened Devices
  import opened Helpers
  import opened Options
  import opened Seqs
  import opened Texts

  /** A pod and the device IDs its containers hold, in the order the pod resource API lists them. */
  datatype Pod = Pod(uid: string, ids: seq<string>)

  /** What rediscovery found; failed if some vendor could not be queried. */
  datatype Discovery = Discovery(devices: seq<Device>, failed: bool)

  function Lower(c: char): char
  {
    if 'A' <= c <= 'Z' then (c as int + 32) as char else c
  }

  function ToLower(s: string): string
  {
    seq(|s|, i requires 0 <= i < |s| => Lower(s[i]))
  }

  /** The part of a device ID before the first "::", which precedes the replica number of a time-sliced GPU. */
  function BeforeColons(id: string): string
  {
    if id == "" || (|id| >= 2 && id[0] == ':' && id[1] == ':') then "" else [id[0]] + BeforeColons(id[1..])
  }

  function DeviceKey(id: string): string
  {
    ToLower(BeforeColons(id))
  }

  function UidsFrom(key: string, uid: string, ids: seq<string>): seq<string>
  {
    if ids == [] then []
    else UidsFrom(key, uid, ids[..|ids|-1]) + if DeviceKey(ids[|ids|-1]) == key then [uid] else []
  }

  /** The pods that hold the device with this key, one entry per device ID held. */
  function UidsFor(key: string, pods: seq<Pod>): seq<string>
  {
    if pods == [] then []
    else UidsFor(key, pods[..|pods|-1]) + UidsFrom(key, pods[|pods|-1].uid, pods[|pods|-1].ids)
  }

  function Entry(m: map<string, seq<string>>, key: string): seq<string>
  {
    if key in m then m[key] else []
  }

  /** The units are the distinct uids, each with as many shares as it occurs. */
  ghost predicate CountedUnits(units: seq<ComputeUnit>, uids: seq<string>)
  {
    && (forall i, j :: 0 <= i < j < |units| ==> units[i].uuid != units[j].uuid)
    && (forall i :: 0 <= i < |units| ==> 0 < units[i].numShares == multiset(uids)[units[i].uuid])
    && (forall x :: x in multiset(uids) ==> exists i :: 0 <= i < |units| && units[i].uuid == x)
    && TotalShares(units) == |uids|
  }

  /** What podDevices makes of a newly discovered slot. */
  ghost predicate Filled(s: Slot, t: Slot, uids: seq<string>)
  {
    && t == s.(units := t.units, currentShares := |uids|)
    && CountedUnits(t.units, uids)
  }

  ghost predicate FilledDevice(d: Device, e: Device, pods: seq<Pod>)
  {
    && e == d.(slot := e.slot, instances := e.instances) && |e.instances| == |d.instances|
    && Filled(d.slot, e.slot, UidsFor(ToLower(d.uuid), pods))
    && forall i :: 0 <= i < |d.instances| ==> FilledInstance(d.instances[i], e.instances[i], pods)
  }

  ghost predicate FilledInstance(d: GPUInstance, e: GPUInstance, pods: seq<Pod>)
  {
    e == d.(slot := e.slot) && Filled(d.slot, e.slot, UidsFor(ToLower(d.uuid), pods))
  }

  predicate NewSlot(s: Slot)
  {
    s.units == [] && s.currentShares == 0
  }

  ghost predicate NewDevice(d: Device)
  {
    NewSlot(d.slot) && forall i :: 0 <= i < |d.instances| ==> NewSlot(d.instances[i].slot)
  }

  /** The map from device key to the uids of the pods that hold it. */
  method PodDeviceMapper(pods: seq<Pod>) returns (mapper: map<string, seq<string>>)
    ensures forall key :: Entry(mapper, key) == UidsFor(key, pods)
  {
    mapper := map[];
    for p := 0 to |pods|
      invariant forall key :: Entry(mapper, key) == UidsFor(key, pods[..p])
    {
      var pod := pods[p];
      assert pods[..p+1][..p] == pods[..p];
      for i := 0 to |pod.ids|
        invariant Mapped(mapper, pods[..p], pod.uid, pod.ids[..i])
      {
        var id := DeviceKey(pod.ids[i]);
        MapStep(mapper, pods[..p], pod.uid, pod.ids, i);
        mapper := mapper[id := Entry(mapper, id) + [pod.uid]];
      }
      PrefixAll(pod.ids);
    }
    PrefixAll(pods);
  }

  /** The mapper after all of these pods and the first device IDs of the next one. */
  ghost predicate Mapped(mapper: map<string, seq<string>>, pods: seq<Pod>, uid: string, ids: seq<string>)
  {
    forall key :: Entry(mapper, key) == UidsFor(key, pods) + UidsFrom(key, uid, ids)
  }

  lemma {:induction false} MapStep(mapper: map<string, seq<string>>, pods: seq<Pod>, uid: string, ids: seq<string>,
      i: nat)
    requires i < |ids| && Mapped(mapper, pods, uid, ids[..i])
    ensures var id := DeviceKey(ids[i]);
      Mapped(mapper[id := Entry(mapper, id) + [uid]], pods, uid, ids[..i+1])
  {
    assert ids[..i+1][..i] == ids[..i];
    var id := DeviceKey(ids[i]);
    forall key
      ensures Entry(mapper[id := Entry(mapper, id) + [uid]], key) == UidsFor(key, pods) + UidsFrom(key, uid, ids[..i+1])
    {
      var a, b := UidsFor(key, pods), UidsFrom(key, uid, ids[..i]);
      assert Entry(mapper, key) == a + b;
      assert a + b + [uid] == a + (b + [uid]);
      assert b + [] == b;
    }
  }

  lemma {:induction false} TotalOne(units: seq<ComputeUnit>, u: ComputeUnit)
    ensures TotalShares(units + [u]) == TotalShares(units) + u.numShares
  {
    assert (units + [u])[..|units|] == units;
  }

  /** Units built so far, and what the counts of the uids not yet visited add up to. */
  ghost predicate Building(units: seq<ComputeUnit>, todo: set<string>, uids: seq<string>, rest: multiset<string>)
  {
    && (forall x {:trigger rest[x]} :: rest[x] == if x in todo then multiset(uids)[x] else 0)
    && |rest| + TotalShares(units) == |uids|
    && (forall i, j :: 0 <= i < j < |units| ==> units[i].uuid != units[j].uuid)
    && (forall i :: 0 <= i < |units| ==>
      units[i].uuid !in todo && 0 < units[i].numShares == multiset(uids)[units[i].uuid])
    && (forall x :: x in multiset(uids) && x !in todo ==> exists i :: 0 <= i < |units| && units[i].uuid == x)
  }

  lemma {:induction false} BuildStep(units: seq<ComputeUnit>, todo: set<string>, uids: seq<string>,
      rest: multiset<string>, x: string)
    requires Building(units, todo, uids, rest) && x in todo && multiset(uids)[x] > 0
    ensures Building(units + [ComputeUnit(x, "", multiset(uids)[x])], todo - {x}, uids, rest[x := 0])
  {
    var u := ComputeUnit(x, "", multiset(uids)[x]);
    TotalOne(units, u);
    assert rest[x] == u.numShares;
    forall y | y in multiset(uids) && y !in todo - {x}
      ensures exists i :: 0 <= i < |units + [u]| && (units + [u])[i].uuid == y
    {
      if y == x {
        assert (units + [u])[|units|].uuid == x;
      } else {
        var i :| 0 <= i < |units| && units[i].uuid == y;
        assert (units + [u])[i].uuid == y;
      }
    }
  }

  /** The pods of one slot become its units, in whatever order the count map is walked. */
  method FillSlot(slot: Slot, uids: seq<string>) returns (filled: Slot)
    requires NewSlot(slot)
    ensures Filled(slot, filled, uids)
  {
    var counts := ElementCounts(uids);
    var units: seq<ComputeUnit>, todo := slot.units, counts.Keys;
    ghost var rest := multiset(uids);
    assert |multiset(uids)| == |uids|;
    assert Building(units, todo, uids, rest) by {
      assert forall x :: x in todo <==> multiset(uids)[x] > 0;
    }
    while todo != {}
      invariant todo <= counts.Keys
      invariant Building(units, todo, uids, rest)
      decreases todo
    {
      var handle :| handle in todo;
      BuildStep(units, todo, uids, rest, handle);
      units := units + [ComputeUnit(handle, "", counts[handle])];
      rest := rest[handle := 0];
      todo := todo - {handle};
    }
    assert rest == multiset{};
    filled := slot.(units := units, currentShares := slot.currentShares + |uids|);
  }

  /** Every unit holds a share, and the shares are added up. */
  predicate Held(s: Slot)
  {
    s.currentShares == TotalShares(s.units) && forall i :: 0 <= i < |s.units| ==> s.units[i].numShares > 0
  }

  ghost predicate DeviceHeld(d: Device)
  {
    Held(d.slot) && forall i :: 0 <= i < |d.instances| ==> Held(d.instances[i].slot)
  }

  ghost predicate AllHeld(devices: seq<Device>)
  {
    forall d :: 0 <= d < |devices| ==> DeviceHeld(devices[d])
  }

  lemma {:induction false} FilledHeld(d: Device, e: Device, pods: seq<Pod>)
    requires FilledDevice(d, e, pods)
    ensures DeviceHeld(e) && DeviceHoldsPods(e, pods)
  {
    FilledHolds(d.slot, e.slot, d.uuid, pods);
    forall i | 0 <= i < |e.instances|
      ensures Held(e.instances[i].slot) && HoldsPods(e.instances[i].slot, e.instances[i].uuid, pods)
    {
      assert FilledInstance(d.instances[i], e.instances[i], pods);
      FilledHolds(d.instances[i].slot, e.instances[i].slot, d.instances[i].uuid, pods);
    }
  }

  /* ---- The shares of a pod, from the device IDs it holds ---- */

  predicate SameLetter(a: char, b: char)
  {
    || a == b
    || ('A' <= a <= 'Z' && b as int == a as int + 32)
    || ('A' <= b <= 'Z' && a as int == b as int + 32)
  }

  /** The same ASCII text but for upper and lower case. */
  predicate SameText(s: string, t: string)
  {
    |s| == |t| && forall i :: 0 <= i < |s| ==> SameLetter(s[i], t[i])
  }

  /** The part of an ID before the first "::", or all of it. */
  ghost predicate FirstPart(id: string, part: string)
  {
    && part <= id && (part == id || OccursAt("::", id, |part|))
    && forall i :: 0 <= i < |part| ==> !OccursAt("::", id, i)
  }

  lemma {:induction false} FirstPartIs(id: string, part: string)
    ensures FirstPart(id, part) <==> part == BeforeColons(id)
  {
    if id == "" {
    } else if |id| >= 2 && id[0] == ':' && id[1] == ':' {
      assert id[0..2] == "::";
      assert OccursAt("::", id, 0);
    } else {
      NoColons(id);
      if part != "" && part[0] == id[0] {
        FirstPartIs(id[1..], part[1..]);
        FirstPartNext(id, part);
      } else if part == "" {
        assert !FirstPart(id, part);
      }
    }
  }

  lemma {:induction false} NoColons(id: string)
    requires !(|id| >= 2 && id[0] == ':' && id[1] == ':')
    ensures !OccursAt("::", id, 0)
  {
  }

  lemma {:induction false} ColonsNext(id: string, i: nat)
    requires id != ""
    ensures OccursAt("::", id, i + 1) <==> OccursAt("::", id[1..], i)
  {
    if i + 3 <= |id| {
      assert id[i+1..i+3] == id[1..][i..i+2];
    }
  }

  lemma {:induction false} FirstPartNext(id: string, part: string)
    requires id != "" && part != "" && part[0] == id[0] && !OccursAt("::", id, 0)
    ensures FirstPart(id, part) <==> FirstPart(id[1..], part[1..])
  {
    var d, p := id[1..], part[1..];
    assert part == [id[0]] + p && id == [id[0]] + d;
    assert part <= id <==> p <= d;
    ColonsNext(id, |p|);
    forall i | 0 <= i < |p| ensures OccursAt("::", id, i + 1) <==> OccursAt("::", d, i) {
      ColonsNext(id, i);
    }
    if FirstPart(d, p) {
      forall i | 0 <= i < |part| ensures !OccursAt("::", id, i) {
        if i > 0 {
          assert !OccursAt("::", d, i - 1);
        }
      }
    }
    if FirstPart(id, part) {
      forall i | 0 <= i < |p| ensures !OccursAt("::", d, i) {
        assert !OccursAt("::", id, i + 1);
      }
    }
  }

  /** An ID is for the device whose UUID it starts with, whatever the case of letters. */
  ghost predicate IsFor(id: string, device: string)
  {
    exists part :: FirstPart(id, part) && SameText(part, device)
  }

  lemma {:induction false} LowerSame(a: char, b: char)
    ensures Lower(a) == Lower(b) <==> SameLetter(a, b)
  {
  }

  lemma {:induction false} SameTextIs(s: string, t: string)
    ensures ToLower(s) == ToLower(t) <==> SameText(s, t)
  {
    forall a, b ensures Lower(a) == Lower(b) <==> SameLetter(a, b) {
      LowerSame(a, b);
    }
    if ToLower(s) == ToLower(t) {
      forall i | 0 <= i < |s| ensures SameLetter(s[i], t[i]) {
        assert ToLower(s)[i] == ToLower(t)[i];
      }
    }
  }

  lemma {:induction false} KeyIs(id: string, device: string)
    ensures DeviceKey(id) == ToLower(device) <==> IsFor(id, device)
  {
    FirstPartIs(id, BeforeColons(id));
    SameTextIs(BeforeColons(id), device);
    if IsFor(id, device) {
      var part :| FirstPart(id, part) && SameText(part, device);
      FirstPartIs(id, part);
    }
  }

  /** The device IDs of this device that pods with this UID hold, as positions of a pod and of an ID. */
  ghost function Holdings(pods: seq<Pod>, uid: string, device: string): set<(int, int)>
  {
    set p, i | 0 <= p < |pods| && pods[p].uid == uid && 0 <= i < |pods[p].ids| && IsFor(pods[p].ids[i], device)
      :: (p, i)
  }

  ghost function HoldingsOf(ids: seq<string>, p: int, device: string): set<(int, int)>
  {
    set i | 0 <= i < |ids| && IsFor(ids[i], device) :: (p, i)
  }

  lemma {:induction false} OfNext(ids: seq<string>, p: int, device: string)
    requires ids != []
    ensures var before := HoldingsOf(ids[..|ids|-1], p, device);
      && (p, |ids| - 1) !in before
      && HoldingsOf(ids, p, device) == before + if IsFor(ids[|ids|-1], device) then {(p, |ids| - 1)} else {}
  {
    var n := |ids| - 1;
    var before, all := HoldingsOf(ids[..n], p, device), HoldingsOf(ids, p, device);
    forall x ensures x in all <==> x in before || (x == (p, n) && IsFor(ids[n], device)) {
      if x in before {
        assert ids[..n][x.1] == ids[x.1];
      }
      if x in all && x.1 < n {
        assert ids[..n][x.1] == ids[x.1];
      }
    }
  }

  lemma {:induction false} OnlyUid(key: string, uid: string, ids: seq<string>, other: string)
    requires other != uid
    ensures other !in UidsFrom(key, uid, ids)
  {
    if ids != [] {
      OnlyUid(key, uid, ids[..|ids|-1], other);
    }
  }

  lemma {:induction false} OfCounted(ids: seq<string>, p: int, device: string, uid: string)
    ensures multiset(UidsFrom(ToLower(device), uid, ids))[uid] == |HoldingsOf(ids, p, device)|
  {
    if ids == [] {
      assert HoldingsOf(ids, p, device) == {};
    } else {
      var n := |ids| - 1;
      OfCounted(ids[..n], p, device, uid);
      KeyIs(ids[n], device);
      OfNext(ids, p, device);
    }
  }

  lemma {:induction false} HoldingsNext(pods: seq<Pod>, uid: string, device: string)
    requires pods != []
    ensures var n := |pods| - 1;
      |Holdings(pods, uid, device)|
        == |Holdings(pods[..n], uid, device)| + if pods[n].uid == uid then |HoldingsOf(pods[n].ids, n, device)| else 0
  {
    var n := |pods| - 1;
    var before, own := Holdings(pods[..n], uid, device), HoldingsOf(pods[n].ids, n, device);
    assert before !! own;
    if pods[n].uid == uid {
      assert Holdings(pods, uid, device) == before + own;
    } else {
      assert Holdings(pods, uid, device) == before;
    }
  }

  /** Each pod occurs once for every device ID of the device that it holds. */
  lemma {:induction false} UidsCounted(pods: seq<Pod>, uid: string, device: string)
    ensures multiset(UidsFor(ToLower(device), pods))[uid] == |Holdings(pods, uid, device)|
  {
    if pods != [] {
      var n := |pods| - 1;
      UidsCounted(pods[..n], uid, device);
      HoldingsNext(pods, uid, device);
      OfCounted(pods[n].ids, n, device, pods[n].uid);
      if uid != pods[n].uid {
        OnlyUid(ToLower(device), pods[n].uid, pods[n].ids, uid);
      }
    }
  }

  /** The units of a slot are the pods that hold IDs of the device, each with as many shares as IDs. */
  ghost predicate HoldsPods(s: Slot, device: string, pods: seq<Pod>)
  {
    && (forall i :: 0 <= i < |s.units| ==> 0 < s.units[i].numShares == |Holdings(pods, s.units[i].uuid, device)|)
    && (forall i, j :: 0 <= i < j < |s.units| ==> s.units[i].uuid != s.units[j].uuid)
    && (forall uid :: |Holdings(pods, uid, device)| > 0 ==> exists i :: 0 <= i < |s.units| && s.units[i].uuid == uid)
  }

  lemma {:induction false} FilledHolds(s: Slot, t: Slot, device: string, pods: seq<Pod>)
    requires Filled(s, t, UidsFor(ToLower(device), pods))
    ensures HoldsPods(t, device, pods)
  {
    var uids := UidsFor(ToLower(device), pods);
    forall uid ensures multiset(uids)[uid] == |Holdings(pods, uid, device)| {
      UidsCounted(pods, uid, device);
    }
  }

  /** The same for every device and instance. */
  ghost predicate AllHoldPods(devices: seq<Device>, pods: seq<Pod>)
  {
    forall d :: 0 <= d < |devices| ==> DeviceHoldsPods(devices[d], pods)
  }

  ghost predicate DeviceHoldsPods(d: Device, pods: seq<Pod>)
  {
    && HoldsPods(d.slot, d.uuid, pods)
    && forall i :: 0 <= i < |d.instances| ==> HoldsPods(d.instances[i].slot, d.instances[i].uuid, pods)
  }

  class K8sCollector {
    var devices: seq<Device>
    var previousPodUIDs: seq<string>

    /** A collector starts with the devices that discovery found. */
    constructor (found: seq<Device>)
      requires forall d :: 0 <= d < |found| ==> NewDevice(found[d])
      ensures devices == found && previousPodUIDs == [] && AllHeld(devices)
    {
      devices, previousPodUIDs := found, [];
    }

    /**
     * podDevices: after each refresh every device and instance holds exactly the pods that hold it.
     * Whether the cached mapping has expired, what rediscovery finds and what the API answers are inputs.
     */
    method PodDevices(podUIDs: seq<string>, expired: bool, found: Discovery, listed: Option<seq<Pod>>)
      requires forall d :: 0 <= d < |found.devices| ==> NewDevice(found.devices[d])
      modifies this
      ensures old(Current(podUIDs, expired)) ==> devices == old(devices) && previousPodUIDs == old(previousPodUIDs)
      ensures !old(Current(podUIDs, expired)) && (found.failed || listed.None?) ==>
        devices == found.devices && previousPodUIDs == old(previousPodUIDs)
      ensures !old(Current(podUIDs, expired)) && !found.failed && listed.Some? ==>
        && previousPodUIDs == podUIDs && |devices| == |found.devices|
        && forall d :: 0 <= d < |devices| ==> FilledDevice(found.devices[d], devices[d], listed.value)
      ensures !old(Current(podUIDs, expired)) && !found.failed && listed.Some? ==> AllHoldPods(devices, listed.value)
      ensures old(AllHeld(devices)) ==> AllHeld(devices)
    {
      if |devices| == 0 {
        return;
      }
      var same := AreEqual(podUIDs, previousPodUIDs);
      if same && !expired {
        return;
      }
      devices := found.devices;
      if found.failed || listed.None? {
        return;
      }
      var mapper := PodDeviceMapper(listed.value);
      for igpu := 0 to |devices|
        invariant |devices| == |found.devices|
        invariant forall d :: igpu <= d < |devices| ==> devices[d] == found.devices[d]
        invariant forall d :: 0 <= d < igpu ==> FilledDevice(found.devices[d], devices[d], listed.value)
        invariant previousPodUIDs == old(previousPodUIDs)
      {
        var gpu := FillDevice(devices[igpu], mapper, listed.value);
        devices := devices[igpu := gpu];
      }
      forall d | 0 <= d < |devices|
        ensures DeviceHeld(devices[d]) && DeviceHoldsPods(devices[d], listed.value)
      {
        FilledHeld(found.devices[d], devices[d], listed.value);
      }
      previousPodUIDs := podUIDs;
    }

    /** The mapping is kept: no devices at all, or the same pods and a mapping that has not expired. */
    ghost predicate Current(podUIDs: seq<string>, expired: bool)
      reads this
    {
      devices == [] || (multiset(podUIDs) == multiset(previousPodUIDs) && !expired)
    }

    static method FillDevice(gpu: Device, mapper: map<string, seq<string>>, ghost pods: seq<Pod>) returns (d: Device)
      requires NewDevice(gpu) && forall key :: Entry(mapper, key) == UidsFor(key, pods)
      ensures FilledDevice(gpu, d, pods)
    {
      var slot := FillSlot(gpu.slot, Entry(mapper, ToLower(gpu.uuid)));
      var instances := gpu.instances;
      for iinst := 0 to |gpu.instances|
        invariant |instances| == |gpu.instances|
        invariant forall i :: iinst <= i < |instances| ==> instances[i] == gpu.instances[i]
        invariant forall i :: 0 <= i < iinst ==> FilledInstance(gpu.instances[i], instances[i], pods)
      {
        var inst := instances[iinst];
        var s := FillSlot(inst.slot, Entry(mapper, ToLower(inst.uuid)));
        instances := instances[iinst := inst.(slot := s)];
      }
      d := gpu.(slot := slot, instances := instances);
    }
  }
}
