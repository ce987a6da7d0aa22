/** Handing out GRES shares (pkg/collector/slurm.go). */
module GresAllocation {
  import opened Devices
  import opened Seqs

  type Available = map<string, nat>

  /** A Go map lookup: a missing key reads as zero. */
  function Get(m: Available, k: string): nat
  {
    if k in m then m[k] else 0
  }

  function Min(a: nat, b: nat): nat
  {
    if a < b then a else b
  }

  /** A job's GRES resource as the allocator sees it. */
  datatype Job = Job(uuid: string, deviceIDs: seq<string>, numShares: nat)

  /** State while one job is served on one slot. */
  datatype Serving = Serving(slot: Slot, left: nat, avail: Available)

  function ServeUnit(s: Serving, uuid: string, u: ComputeUnit): Serving
  {
    if u.uuid != uuid then s.(slot := s.slot.(units := s.slot.units + [u]))
    else
      var shares := Min(s.left, Get(s.avail, s.slot.index));
      Serving(
        s.slot.(units := s.slot.units + [u.(numShares := shares)], currentShares := s.slot.currentShares + shares),
        s.left - shares,
        s.avail[s.slot.index := Get(s.avail, s.slot.index) - shares])
  }

  /** The first n units of the slot after the job uuid, still asking for left, has been offered shares there. */
  function ServeUnits(slot: Slot, n: nat, uuid: string, left: nat, avail: Available): (r: Serving)
    requires n <= |slot.units|
    ensures r.slot.index == slot.index
  {
    if n == 0 then Serving(slot.(units := []), left, avail)
    else ServeUnit(ServeUnits(slot, n - 1, uuid, left, avail), uuid, slot.units[n-1])
  }

  function ServeSlot(slot: Slot, uuid: string, left: nat, avail: Available): Serving
  {
    ServeUnits(slot, |slot.units|, uuid, left, avail)
  }

  /** State while one job is served on a row of slots. */
  datatype Pass = Pass(slots: seq<Slot>, left: nat, avail: Available)

  function ServeSlots(slots: seq<Slot>, uuid: string, left: nat, avail: Available): (r: Pass)
    ensures |r.slots| == |slots|
  {
    if slots == [] then Pass([], left, avail)
    else
      var p := ServeSlots(slots[..|slots|-1], uuid, left, avail);
      var s := ServeSlot(slots[|slots|-1], uuid, p.left, p.avail);
      Pass(p.slots + [s.slot], s.left, s.avail)
  }

  /** The whole distribution: slots and leftovers after the jobs have been served in order. */
  datatype Outcome = Outcome(slots: seq<Slot>, lefts: seq<nat>, avail: Available)

  function ServeJobs(slots: seq<Slot>, avail: Available, jobs: seq<Job>): (r: Outcome)
    ensures |r.slots| == |slots| && |r.lefts| == |jobs|
  {
    if jobs == [] then Outcome(slots, [], avail)
    else
      var o := ServeJobs(slots, avail, jobs[..|jobs|-1]);
      var j := jobs[|jobs|-1];
      var p := ServeSlots(o.slots, j.uuid, j.numShares, o.avail);
      Outcome(p.slots, o.lefts + [p.left], p.avail)
  }

  /* ---- One job on one slot ---- */

  /** No unit of this job holds shares yet: the allocator overwrites NumShares but adds to CurrentShares. */
  predicate Fresh(s: Slot, uuid: string)
  {
    forall i :: 0 <= i < |s.units| && s.units[i].uuid == uuid ==> s.units[i].numShares == 0
  }

  /** The two slots differ at most in the shares of the units of one job. */
  predicate OnlyServed(s: Slot, t: Slot, uuid: string)
  {
    && t.index == s.index && t.availableShares == s.availableShares && |t.units| == |s.units|
    && forall i :: 0 <= i < |s.units| ==>
         && t.units[i].uuid == s.units[i].uuid
         && t.units[i].hostname == s.units[i].hostname
         && (s.units[i].uuid != uuid ==> t.units[i] == s.units[i])
  }

  predicate HostsBefore(s: Slot, n: nat, uuid: string)
    requires n <= |s.units|
  {
    n > 0 && (s.units[n-1].uuid == uuid || HostsBefore(s, n - 1, uuid))
  }

  /** What a job receives on a slot: all it still wants, or all there is; nothing where it is not attached. */
  function Given(s: Slot, n: nat, uuid: string, left: nat, avail: Available): nat
    requires n <= |s.units|
  {
    if HostsBefore(s, n, uuid) then Min(left, Get(avail, s.index)) else 0
  }

  lemma {:induction false} UnitsBalance(s: Slot, n: nat, uuid: string, left: nat, avail: Available)
    requires n <= |s.units|
    ensures var r, given := ServeUnits(s, n, uuid, left, avail), Given(s, n, uuid, left, avail);
      && r.slot.currentShares == s.currentShares + given
      && r.left == left - given
      && Get(r.avail, s.index) == Get(avail, s.index) - given
      && forall k :: k != s.index ==> Get(r.avail, k) == Get(avail, k)
  {
    if n > 0 {
      UnitsBalance(s, n - 1, uuid, left, avail);
    }
  }

  lemma {:induction false} UnitsOnlyServed(s: Slot, n: nat, uuid: string, left: nat, avail: Available)
    requires n <= |s.units|
    ensures OnlyServed(s.(units := s.units[..n]), ServeUnits(s, n, uuid, left, avail).slot, uuid)
  {
    if n > 0 {
      UnitsOnlyServed(s, n - 1, uuid, left, avail);
    }
  }

  /** Shares handed out are shares held, by the job and in total. */
  lemma {:induction false} UnitsHold(s: Slot, n: nat, uuid: string, left: nat, avail: Available)
    requires n <= |s.units| && Fresh(s, uuid)
    ensures var r, given := ServeUnits(s, n, uuid, left, avail), Given(s, n, uuid, left, avail);
      && TotalShares(r.slot.units) == TotalShares(s.units[..n]) + given
      && SharesOf(r.slot.units, uuid) == given
  {
    if n > 0 {
      UnitsHold(s, n - 1, uuid, left, avail);
      var v := UnitHolds(s, n, uuid, left, avail);
      var p, u := ServeUnits(s, n - 1, uuid, left, avail), s.units[n-1];
      PrefixStep(s.units, n - 1);
      TotalSnoc(p.slot.units, v);
      TotalSnoc(s.units[..n-1], u);
      SharesSnoc(p.slot.units, v, uuid);
    }
  }

  /** One more unit: only the job's first unit on the slot is given anything. */
  lemma {:induction false} UnitHolds(s: Slot, n: nat, uuid: string, left: nat, avail: Available)
      returns (v: ComputeUnit)
    requires 0 < n <= |s.units| && Fresh(s, uuid)
    ensures ServeUnits(s, n, uuid, left, avail).slot.units == ServeUnits(s, n - 1, uuid, left, avail).slot.units + [v]
    ensures v.uuid == s.units[n-1].uuid
    ensures v.uuid == uuid ==> s.units[n-1].numShares == 0
    ensures v.uuid != uuid ==> v == s.units[n-1]
    ensures Given(s, n, uuid, left, avail) == Given(s, n - 1, uuid, left, avail)
      + if v.uuid == uuid then v.numShares else 0
  {
    UnitsBalance(s, n - 1, uuid, left, avail);
    var p, u := ServeUnits(s, n - 1, uuid, left, avail), s.units[n-1];
    v := if u.uuid == uuid then u.(numShares := Min(p.left, Get(p.avail, s.index))) else u;
  }

  lemma {:induction false} TotalSnoc(units: seq<ComputeUnit>, u: ComputeUnit)
    ensures TotalShares(units + [u]) == TotalShares(units) + u.numShares
  {
    assert (units + [u])[..|units|] == units;
  }

  lemma {:induction false} SharesSnoc(units: seq<ComputeUnit>, u: ComputeUnit, uuid: string)
    ensures SharesOf(units + [u], uuid) == SharesOf(units, uuid) + if u.uuid == uuid then u.numShares else 0
  {
    assert (units + [u])[..|units|] == units;
  }

  /* ---- One job on all slots ---- */

  /** One slot before and after a job was served: units, counters and the availability map agree on the amount. */
  ghost predicate SlotServed(s: Slot, t: Slot, uuid: string, before: Available, after: Available)
  {
    && OnlyServed(s, t, uuid)
    && t.currentShares >= s.currentShares
    && TotalShares(t.units) - TotalShares(s.units) == t.currentShares - s.currentShares
    && SharesOf(t.units, uuid) == t.currentShares - s.currentShares
    && Get(after, s.index) == Get(before, s.index) - (t.currentShares - s.currentShares)
  }

  ghost predicate AllFresh(slots: seq<Slot>, uuid: string)
  {
    forall k :: 0 <= k < |slots| ==> Fresh(slots[k], uuid)
  }

  lemma {:induction false} SlotIsServed(s: Slot, uuid: string, left: nat, avail: Available)
    requires Fresh(s, uuid)
    ensures var r := ServeSlot(s, uuid, left, avail);
      && SlotServed(s, r.slot, uuid, avail, r.avail)
      && SharesOf(r.slot.units, uuid) + r.left == left
      && (forall k :: k != s.index ==> Get(r.avail, k) == Get(avail, k))
      && (HostsBefore(s, |s.units|, uuid) ==> r.left == 0 || Get(r.avail, s.index) == 0)
      && (Get(avail, s.index) == 0 ==> r.slot.currentShares == s.currentShares && r.left == left)
      && (left <= Get(avail, s.index) && HostsBefore(s, |s.units|, uuid) ==> r.left == 0)
  {
    var n := |s.units|;
    UnitsBalance(s, n, uuid, left, avail);
    UnitsOnlyServed(s, n, uuid, left, avail);
    UnitsHold(s, n, uuid, left, avail);
    PrefixAll(s.units);
  }

  /** Availability of indices that no slot of the row carries stays as it was. */
  lemma {:induction false} SlotsUntouched(slots: seq<Slot>, uuid: string, left: nat, avail: Available, key: string)
    requires forall k :: 0 <= k < |slots| && slots[k].index == key ==> Get(avail, key) == 0
    ensures Get(ServeSlots(slots, uuid, left, avail).avail, key) == Get(avail, key)
  {
    if slots != [] {
      var n := |slots| - 1;
      SlotsUntouched(slots[..n], uuid, left, avail, key);
      var p := ServeSlots(slots[..n], uuid, left, avail);
      UnitsBalance(slots[n], |slots[n].units|, uuid, p.left, p.avail);
    }
  }

  /** Serving the last slot does not touch what the earlier ones have left. */
  lemma {:induction false} LastSlotOnly(slots: seq<Slot>, uuid: string, left: nat, avail: Available, k: nat)
    requires DistinctIndices(slots) && k + 1 < |slots| && Get(avail, "") == 0
    ensures var n := |slots| - 1;
      Get(ServeSlots(slots, uuid, left, avail).avail, slots[k].index)
        == Get(ServeSlots(slots[..n], uuid, left, avail).avail, slots[k].index)
  {
    var n := |slots| - 1;
    var p := ServeSlots(slots[..n], uuid, left, avail);
    assert slots[k].index != "" ==> slots[k].index != slots[n].index;
    SlotsUntouched(slots[..n], uuid, left, avail, "");
    UnitsBalance(slots[n], |slots[n].units|, uuid, p.left, p.avail);
  }

  /** A slot, the job's leftover and the availability map after the job was served there. */
  ghost predicate ServedWell(s: Slot, t: Slot, uuid: string, before: Available, after: Available, left: nat)
  {
    && SlotServed(s, t, uuid, before, after)
    && (HostsBefore(s, |s.units|, uuid) ==> left == 0 || Get(after, s.index) == 0)
  }

  lemma {:induction false} LastServedWell(slots: seq<Slot>, uuid: string, left: nat, avail: Available)
    requires DistinctIndices(slots) && AllFresh(slots, uuid) && Get(avail, "") == 0 && slots != []
    ensures var n, r := |slots| - 1, ServeSlots(slots, uuid, left, avail);
      ServedWell(slots[n], r.slots[n], uuid, avail, r.avail, r.left)
  {
    var n := |slots| - 1;
    var p := ServeSlots(slots[..n], uuid, left, avail);
    SlotsUntouched(slots[..n], uuid, left, avail, slots[n].index);
    SlotIsServed(slots[n], uuid, p.left, p.avail);
  }

  lemma {:induction false} SlotsServed(slots: seq<Slot>, uuid: string, left: nat, avail: Available, k: nat)
    requires DistinctIndices(slots) && AllFresh(slots, uuid) && Get(avail, "") == 0
    requires k < |slots|
    ensures var r := ServeSlots(slots, uuid, left, avail);
      ServedWell(slots[k], r.slots[k], uuid, avail, r.avail, r.left)
  {
    var n := |slots| - 1;
    if k == n {
      LastServedWell(slots, uuid, left, avail);
    } else {
      var p, r := ServeSlots(slots[..n], uuid, left, avail), ServeSlots(slots, uuid, left, avail);
      SlotsServed(slots[..n], uuid, left, avail, k);
      LastSlotOnly(slots, uuid, left, avail, k);
      LastLeft(slots, uuid, left, avail);
      assert r.slots[k] == p.slots[k];
    }
  }

  lemma {:induction false} LastLeft(slots: seq<Slot>, uuid: string, left: nat, avail: Available)
    requires slots != []
    ensures ServeSlots(slots, uuid, left, avail).left <= ServeSlots(slots[..|slots|-1], uuid, left, avail).left
  {
    var n := |slots| - 1;
    var p := ServeSlots(slots[..n], uuid, left, avail);
    UnitsBalance(slots[n], |slots[n].units|, uuid, p.left, p.avail);
  }

  lemma {:induction false} SlotsSpend(slots: seq<Slot>, uuid: string, left: nat, avail: Available)
    requires AllFresh(slots, uuid)
    ensures var r := ServeSlots(slots, uuid, left, avail);
      HeldBy(r.slots, uuid) + r.left == left
  {
    if slots != [] {
      var n := |slots| - 1;
      SlotsSpend(slots[..n], uuid, left, avail);
      var p := ServeSlots(slots[..n], uuid, left, avail);
      SlotIsServed(slots[n], uuid, p.left, p.avail);
      assert ServeSlots(slots, uuid, left, avail).slots[..n] == p.slots;
    }
  }

  /** Enough availability on one of its slots satisfies the job. */
  lemma {:induction false} SlotsSatisfy(slots: seq<Slot>, uuid: string, left: nat, avail: Available, k: nat)
    requires k < |slots| && DistinctIndices(slots)
    requires HostsBefore(slots[k], |slots[k].units|, uuid)
    requires left <= Get(avail, slots[k].index) && (slots[k].index == "" ==> Get(avail, "") == 0)
    ensures ServeSlots(slots, uuid, left, avail).left == 0
  {
    var n := |slots| - 1;
    var p := ServeSlots(slots[..n], uuid, left, avail);
    UnitsBalance(slots[n], |slots[n].units|, uuid, p.left, p.avail);
    if k == n {
      SlotsUntouched(slots[..n], uuid, left, avail, slots[n].index);
      SlotsLeft(slots[..n], uuid, left, avail);
    } else {
      SlotsSatisfy(slots[..n], uuid, left, avail, k);
    }
  }

  lemma {:induction false} SlotsLeft(slots: seq<Slot>, uuid: string, left: nat, avail: Available)
    ensures ServeSlots(slots, uuid, left, avail).left <= left
  {
    if slots != [] {
      SlotsLeft(slots[..|slots|-1], uuid, left, avail);
      LastLeft(slots, uuid, left, avail);
    }
  }

  /* ---- All jobs ---- */

  /** What the availability map holds for a slot: a device without an index is never entered. */
  function Capacity(s: Slot): nat
  {
    if s.index == "" then 0 else s.availableShares
  }

  ghost predicate Unserved(s: Slot)
  {
    s.currentShares == 0 && forall i :: 0 <= i < |s.units| ==> s.units[i].numShares == 0
  }

  /** The state in which the distribution starts. */
  ghost predicate Ready(slots: seq<Slot>, avail: Available)
  {
    && DistinctIndices(slots)
    && Get(avail, "") == 0
    && forall k :: 0 <= k < |slots| ==> Unserved(slots[k]) && Get(avail, slots[k].index) == Capacity(slots[k])
  }

  ghost predicate DistinctJobs(jobs: seq<Job>)
  {
    forall i, j :: 0 <= i < j < |jobs| ==> jobs[i].uuid != jobs[j].uuid
  }

  /** Same slot, same units; only units of the listed jobs may hold shares. */
  ghost predicate SameFrame(s: Slot, t: Slot, jobs: seq<Job>)
  {
    && t.index == s.index && t.availableShares == s.availableShares && |t.units| == |s.units|
    && forall i :: 0 <= i < |s.units| ==>
         && t.units[i].uuid == s.units[i].uuid
         && t.units[i].hostname == s.units[i].hostname
         && ((forall j :: 0 <= j < |jobs| ==> jobs[j].uuid != s.units[i].uuid) ==> t.units[i] == s.units[i])
  }

  /** The books of one slot: shares held add up to CurrentShares, and with what is left to the capacity. */
  ghost predicate Balanced(s: Slot, avail: Available)
  {
    && TotalShares(s.units) == s.currentShares
    && s.currentShares + Get(avail, s.index) == Capacity(s)
  }

  lemma {:induction false} NoSharesNoTotal(units: seq<ComputeUnit>)
    requires forall i :: 0 <= i < |units| ==> units[i].numShares == 0
    ensures TotalShares(units) == 0
  {
    if units != [] {
      NoSharesNoTotal(units[..|units|-1]);
    }
  }

  lemma {:induction false} SharesSame(u: seq<ComputeUnit>, v: seq<ComputeUnit>, uuid: string)
    requires |u| == |v|
    requires forall i :: 0 <= i < |u| ==> u[i].uuid == v[i].uuid && (u[i].uuid == uuid ==> u[i] == v[i])
    ensures SharesOf(u, uuid) == SharesOf(v, uuid)
  {
    if u != [] {
      SharesSame(u[..|u|-1], v[..|v|-1], uuid);
    }
  }

  lemma {:induction false} HeldSame(s: seq<Slot>, t: seq<Slot>, uuid: string)
    requires |s| == |t|
    requires forall k :: 0 <= k < |s| ==> SharesOf(s[k].units, uuid) == SharesOf(t[k].units, uuid)
    ensures HeldBy(s, uuid) == HeldBy(t, uuid)
  {
    if s != [] {
      HeldSame(s[..|s|-1], t[..|t|-1], uuid);
    }
  }

  lemma {:induction false} HostsPreserved(s: Slot, t: Slot, n: nat, uuid: string)
    requires n <= |s.units| == |t.units|
    requires forall i :: 0 <= i < n ==> t.units[i].uuid == s.units[i].uuid
    ensures HostsBefore(t, n, uuid) == HostsBefore(s, n, uuid)
    ensures HostsBefore(s, n, uuid) <==> exists i :: 0 <= i < n && s.units[i].uuid == uuid
  {
    if n > 0 {
      HostsPreserved(s, t, n - 1, uuid);
    }
  }

  /** The slots are as before but for the shares of the jobs served. */
  ghost predicate Framed(slots: seq<Slot>, o: Outcome, jobs: seq<Job>)
  {
    |o.slots| == |slots| && forall k :: 0 <= k < |slots| ==> SameFrame(slots[k], o.slots[k], jobs)
  }

  /** Besides, every slot's books are right. */
  ghost predicate Booked(slots: seq<Slot>, o: Outcome, jobs: seq<Job>)
  {
    && Framed(slots, o, jobs)
    && DistinctIndices(o.slots)
    && Get(o.avail, "") == 0
    && forall k :: 0 <= k < |slots| ==> Balanced(o.slots[k], o.avail)
  }

  lemma {:induction false} FrameStep(s: Slot, t: Slot, r: Slot, jobs: seq<Job>)
    requires jobs != [] && SameFrame(s, t, jobs[..|jobs|-1]) && OnlyServed(t, r, jobs[|jobs|-1].uuid)
    ensures SameFrame(s, r, jobs)
  {
    forall i | 0 <= i < |s.units| && forall j :: 0 <= j < |jobs| ==> jobs[j].uuid != s.units[i].uuid
      ensures r.units[i] == s.units[i]
    {
      assert jobs[|jobs|-1].uuid != s.units[i].uuid;
      assert forall j :: 0 <= j < |jobs| - 1 ==> jobs[..|jobs|-1][j] == jobs[j];
    }
  }

  lemma {:induction false} RowOnlyServed(slots: seq<Slot>, uuid: string, left: nat, avail: Available, k: nat)
    requires k < |slots|
    ensures OnlyServed(slots[k], ServeSlots(slots, uuid, left, avail).slots[k], uuid)
  {
    var n := |slots| - 1;
    if k == n {
      var p := ServeSlots(slots[..n], uuid, left, avail);
      UnitsOnlyServed(slots[n], |slots[n].units|, uuid, p.left, p.avail);
      PrefixAll(slots[n].units);
    } else {
      RowOnlyServed(slots[..n], uuid, left, avail, k);
    }
  }

  lemma {:induction false} JobsFramed(slots: seq<Slot>, avail: Available, jobs: seq<Job>)
    ensures Framed(slots, ServeJobs(slots, avail, jobs), jobs)
  {
    if jobs != [] {
      var n := |jobs| - 1;
      var o, r := ServeJobs(slots, avail, jobs[..n]), ServeJobs(slots, avail, jobs);
      JobsFramed(slots, avail, jobs[..n]);
      forall k | 0 <= k < |slots|
        ensures SameFrame(slots[k], r.slots[k], jobs)
      {
        RowOnlyServed(o.slots, jobs[n].uuid, jobs[n].numShares, o.avail, k);
        FrameStep(slots[k], o.slots[k], r.slots[k], jobs);
      }
    }
  }

  lemma {:induction false} NextJobFresh(slots: seq<Slot>, o: Outcome, jobs: seq<Job>)
    requires jobs != [] && DistinctJobs(jobs)
    requires forall k :: 0 <= k < |slots| ==> Unserved(slots[k])
    requires Framed(slots, o, jobs[..|jobs|-1])
    ensures AllFresh(o.slots, jobs[|jobs|-1].uuid)
  {
    var n := |jobs| - 1;
    forall k | 0 <= k < |slots|
      ensures Fresh(o.slots[k], jobs[n].uuid)
    {
      assert SameFrame(slots[k], o.slots[k], jobs[..n]);
      assert forall j :: 0 <= j < n ==> jobs[..n][j].uuid != jobs[n].uuid;
    }
  }

  lemma {:induction false} SlotBookedStep(s: Slot, t: Slot, jobs: seq<Job>, k: nat, slots: seq<Slot>, avail: Available)
    requires jobs != [] && k < |slots| && t == slots[k]
    requires SameFrame(s, t, jobs[..|jobs|-1]) && Balanced(t, avail)
    requires DistinctIndices(slots) && AllFresh(slots, jobs[|jobs|-1].uuid) && Get(avail, "") == 0
    ensures var j := jobs[|jobs|-1];
      var r := ServeSlots(slots, j.uuid, j.numShares, avail);
      SameFrame(s, r.slots[k], jobs) && Balanced(r.slots[k], r.avail)
  {
    var j := jobs[|jobs|-1];
    SlotsServed(slots, j.uuid, j.numShares, avail, k);
    FrameStep(s, t, ServeSlots(slots, j.uuid, j.numShares, avail).slots[k], jobs);
  }

  lemma {:induction false} JobBookedStep(slots: seq<Slot>, o: Outcome, jobs: seq<Job>)
    requires jobs != [] && DistinctJobs(jobs)
    requires forall k :: 0 <= k < |slots| ==> Unserved(slots[k])
    requires Booked(slots, o, jobs[..|jobs|-1])
    ensures var j := jobs[|jobs|-1];
      var p := ServeSlots(o.slots, j.uuid, j.numShares, o.avail);
      Booked(slots, Outcome(p.slots, o.lefts + [p.left], p.avail), jobs)
  {
    var j := jobs[|jobs|-1];
    NextJobFresh(slots, o, jobs);
    var p := ServeSlots(o.slots, j.uuid, j.numShares, o.avail);
    SlotsUntouched(o.slots, j.uuid, j.numShares, o.avail, "");
    forall k | 0 <= k < |slots|
      ensures SameFrame(slots[k], p.slots[k], jobs) && Balanced(p.slots[k], p.avail)
        && p.slots[k].index == o.slots[k].index
    {
      SlotBookedStep(slots[k], o.slots[k], jobs, k, o.slots, o.avail);
    }
    assert DistinctIndices(p.slots);
  }

  lemma {:induction false} JobsBooked(slots: seq<Slot>, avail: Available, jobs: seq<Job>)
    requires Ready(slots, avail) && DistinctJobs(jobs)
    ensures Booked(slots, ServeJobs(slots, avail, jobs), jobs)
  {
    if jobs == [] {
      forall k | 0 <= k < |slots|
        ensures SameFrame(slots[k], slots[k], jobs) && Balanced(slots[k], avail)
      {
        NoSharesNoTotal(slots[k].units);
      }
    } else {
      JobsBooked(slots, avail, jobs[..|jobs|-1]);
      JobBookedStep(slots, ServeJobs(slots, avail, jobs[..|jobs|-1]), jobs);
    }
  }

  /* ---- The guarantees ---- */

  lemma {:induction false} LeftsNext(slots: seq<Slot>, avail: Available, jobs: seq<Job>)
    requires jobs != []
    ensures ServeJobs(slots, avail, jobs).lefts[..|jobs|-1] == ServeJobs(slots, avail, jobs[..|jobs|-1]).lefts
  {
  }

  lemma {:induction false} LeftsPrefix(slots: seq<Slot>, avail: Available, jobs: seq<Job>, n: nat)
    requires n <= |jobs|
    ensures ServeJobs(slots, avail, jobs).lefts[..n] == ServeJobs(slots, avail, jobs[..n]).lefts
  {
    var lefts, m := ServeJobs(slots, avail, jobs).lefts, |jobs| - 1;
    if n == |jobs| {
      PrefixAll(jobs);
      PrefixAll(lefts);
    } else {
      LeftsNext(slots, avail, jobs);
      LeftsPrefix(slots, avail, jobs[..m], n);
      assert jobs[..m][..n] == jobs[..n] && lefts[..m][..n] == lefts[..n];
    }
  }

  /** What a job was left with is settled when it is served: later jobs do not matter. */
  lemma {:induction false} LaterJobsDoNotMatter(slots: seq<Slot>, avail: Available, jobs: seq<Job>, n: nat, j: nat)
    requires j < n <= |jobs|
    ensures ServeJobs(slots, avail, jobs).lefts[j] == ServeJobs(slots, avail, jobs[..n]).lefts[j]
  {
    LeftsPrefix(slots, avail, jobs, n);
    assert ServeJobs(slots, avail, jobs).lefts[..n][j] == ServeJobs(slots, avail, jobs).lefts[j];
  }

  /** Serving a job leaves what other jobs hold. */
  lemma {:induction false} OthersHeld(slots: seq<Slot>, uuid: string, left: nat, avail: Available, other: string)
    requires other != uuid
    ensures HeldBy(ServeSlots(slots, uuid, left, avail).slots, other) == HeldBy(slots, other)
  {
    var r := ServeSlots(slots, uuid, left, avail);
    forall k | 0 <= k < |slots|
      ensures SharesOf(slots[k].units, other) == SharesOf(r.slots[k].units, other)
    {
      RowOnlyServed(slots, uuid, left, avail, k);
      SharesSame(slots[k].units, r.slots[k].units, other);
    }
    HeldSame(slots, r.slots, other);
  }

  /**
   * Conservation per job, whatever the indices: what it holds over all slots and what it was left with is what it asked
   * for.
   */
  lemma {:induction false} JobConserved(slots: seq<Slot>, avail: Available, jobs: seq<Job>, j: nat)
    requires (forall k :: 0 <= k < |slots| ==> Unserved(slots[k])) && DistinctJobs(jobs) && j < |jobs|
    ensures var o := ServeJobs(slots, avail, jobs);
      HeldBy(o.slots, jobs[j].uuid) + o.lefts[j] == jobs[j].numShares
  {
    var n := |jobs| - 1;
    var p := ServeJobs(slots, avail, jobs[..n]);
    if j == n {
      JobsFramed(slots, avail, jobs[..n]);
      NextJobFresh(slots, p, jobs);
      SlotsSpend(p.slots, jobs[n].uuid, jobs[n].numShares, p.avail);
    } else {
      JobConserved(slots, avail, jobs[..n], j);
      OthersHeld(p.slots, jobs[n].uuid, jobs[n].numShares, p.avail, jobs[j].uuid);
      LaterJobsDoNotMatter(slots, avail, jobs, n, j);
    }
  }

  /** Conservation per slot: CurrentShares is the sum of what its units hold and never exceeds AvailableShares. */
  lemma {:induction false} SlotConserved(slots: seq<Slot>, avail: Available, jobs: seq<Job>, k: nat)
    requires Ready(slots, avail) && DistinctJobs(jobs) && k < |slots|
    ensures var t := ServeJobs(slots, avail, jobs).slots[k];
      && t.currentShares == TotalShares(t.units) <= t.availableShares == slots[k].availableShares
      && SameFrame(slots[k], t, jobs)
  {
    JobsBooked(slots, avail, jobs);
    var o := ServeJobs(slots, avail, jobs);
    assert SameFrame(slots[k], o.slots[k], jobs) && Balanced(o.slots[k], o.avail);
  }

  /** Serving the last job, on one slot. */
  lemma {:induction false} LastServed(slots: seq<Slot>, avail: Available, jobs: seq<Job>, k: nat)
    requires Ready(slots, avail) && DistinctJobs(jobs) && jobs != [] && k < |slots|
    ensures var n := |jobs| - 1;
      var o, p := ServeJobs(slots, avail, jobs), ServeJobs(slots, avail, jobs[..n]);
      && Get(o.avail, slots[k].index) <= Get(p.avail, slots[k].index)
      && (Hosts(slots[k], jobs[n].uuid) ==> o.lefts[n] == 0 || Get(o.avail, slots[k].index) == 0)
  {
    var n := |jobs| - 1;
    var p := ServeJobs(slots, avail, jobs[..n]);
    JobsBooked(slots, avail, jobs[..n]);
    NextJobFresh(slots, p, jobs);
    assert SameFrame(slots[k], p.slots[k], jobs[..n]);
    SlotsServed(p.slots, jobs[n].uuid, jobs[n].numShares, p.avail, k);
    HostsPreserved(slots[k], p.slots[k], |slots[k].units|, jobs[n].uuid);
    HostsPreserved(p.slots[k], p.slots[k], |slots[k].units|, jobs[n].uuid);
  }

  lemma {:induction false} Exhausted(slots: seq<Slot>, avail: Available, jobs: seq<Job>, j: nat, k: nat)
    requires Ready(slots, avail) && DistinctJobs(jobs) && j < |jobs| && k < |slots|
    requires Hosts(slots[k], jobs[j].uuid)
    ensures var o := ServeJobs(slots, avail, jobs);
      o.lefts[j] > 0 ==> Get(o.avail, slots[k].index) == 0
  {
    var n := |jobs| - 1;
    LastServed(slots, avail, jobs, k);
    if j < n {
      Exhausted(slots, avail, jobs[..n], j, k);
      LaterJobsDoNotMatter(slots, avail, jobs, n, j);
    }
  }

  /** Maximality: a job that was left with something sits only on slots that have nothing left. */
  lemma {:induction false} Maximal(slots: seq<Slot>, avail: Available, jobs: seq<Job>, j: nat, k: nat)
    requires Ready(slots, avail) && DistinctJobs(jobs) && j < |jobs| && k < |slots|
    requires Hosts(slots[k], jobs[j].uuid)
    ensures var o := ServeJobs(slots, avail, jobs);
      o.lefts[j] > 0 ==> o.slots[k].currentShares == Capacity(slots[k]) && Get(o.avail, slots[k].index) == 0
  {
    var o := ServeJobs(slots, avail, jobs);
    JobsBooked(slots, avail, jobs);
    assert SameFrame(slots[k], o.slots[k], jobs) && Balanced(o.slots[k], o.avail);
    Exhausted(slots, avail, jobs, j, k);
  }

  /* ---- Priority of jobs on a single device ---- */

  /** A job is attached exactly to the slots whose index it lists. */
  ghost predicate AttachedByIndex(slots: seq<Slot>, jobs: seq<Job>)
  {
    forall k, j :: 0 <= k < |slots| && 0 <= j < |jobs| ==>
      (Hosts(slots[k], jobs[j].uuid) <==> slots[k].index in jobs[j].deviceIDs)
  }

  ghost predicate SortedByDevices(jobs: seq<Job>)
  {
    forall i, j :: 0 <= i < j < |jobs| ==> |jobs[i].deviceIDs| <= |jobs[j].deviceIDs|
  }

  /** What the jobs that list just this index ask for together. */
  function SingleDemand(index: string, jobs: seq<Job>): nat
  {
    if jobs == [] then 0
    else SingleDemand(index, jobs[..|jobs|-1])
           + if jobs[|jobs|-1].deviceIDs == [index] then jobs[|jobs|-1].numShares else 0
  }

  lemma {:induction false} DemandGrows(index: string, jobs: seq<Job>, n: nat)
    requires n <= |jobs|
    ensures SingleDemand(index, jobs[..n]) <= SingleDemand(index, jobs)
  {
    if n == |jobs| {
      PrefixAll(jobs);
    } else {
      DemandGrows(index, jobs[..|jobs|-1], n);
      assert jobs[..|jobs|-1][..n] == jobs[..n];
    }
  }

  /** While only single-device jobs have been served, a slot has given no more than they asked of it. */
  lemma {:induction false} SinglesUse(slots: seq<Slot>, avail: Available, jobs: seq<Job>, k: nat)
    requires Ready(slots, avail) && DistinctJobs(jobs) && k < |slots|
    requires AttachedByIndex(slots, jobs)
    requires forall j :: 0 <= j < |jobs| ==> |jobs[j].deviceIDs| == 1
    ensures ServeJobs(slots, avail, jobs).slots[k].currentShares <= SingleDemand(slots[k].index, jobs)
  {
    if jobs == [] {
    } else {
      var n := |jobs| - 1;
      assert AttachedByIndex(slots, jobs[..n]);
      SinglesUse(slots, avail, jobs[..n], k);
      SingleUse(slots, avail, jobs, k);
    }
  }

  lemma {:induction false} SingleUse(slots: seq<Slot>, avail: Available, jobs: seq<Job>, k: nat)
    requires Ready(slots, avail) && DistinctJobs(jobs) && k < |slots|
    requires jobs != [] && AttachedByIndex(slots, jobs) && |jobs[|jobs|-1].deviceIDs| == 1
    ensures var n := |jobs| - 1;
      ServeJobs(slots, avail, jobs).slots[k].currentShares
        <= ServeJobs(slots, avail, jobs[..n]).slots[k].currentShares
           + if jobs[n].deviceIDs == [slots[k].index] then jobs[n].numShares else 0
  {
    var n := |jobs| - 1;
    var j := jobs[n];
    var p := ServeJobs(slots, avail, jobs[..n]);
    JobsBooked(slots, avail, jobs[..n]);
    NextJobFresh(slots, p, jobs);
    assert SameFrame(slots[k], p.slots[k], jobs[..n]);
    SlotsServed(p.slots, j.uuid, j.numShares, p.avail, k);
    SlotsSpend(p.slots, j.uuid, j.numShares, p.avail);
    var r := ServeSlots(p.slots, j.uuid, j.numShares, p.avail);
    HeldAtLeast(r.slots, j.uuid, k);
    if j.deviceIDs != [slots[k].index] {
      assert slots[k].index !in j.deviceIDs by {
        assert j.deviceIDs == [j.deviceIDs[0]];
      }
      assert !Hosts(slots[k], j.uuid);
      NotHosted(r.slots[k].units, j.uuid);
    }
  }

  lemma {:induction false} HeldAtLeast(slots: seq<Slot>, uuid: string, k: nat)
    requires k < |slots|
    ensures SharesOf(slots[k].units, uuid) <= HeldBy(slots, uuid)
  {
    if k < |slots| - 1 {
      HeldAtLeast(slots[..|slots|-1], uuid, k);
    }
  }

  lemma {:induction false} NotHosted(units: seq<ComputeUnit>, uuid: string)
    requires forall i :: 0 <= i < |units| ==> units[i].uuid != uuid
    ensures SharesOf(units, uuid) == 0
  {
    if units != [] {
      NotHosted(units[..|units|-1], uuid);
    }
  }

  /** Among single-device jobs, the last one is satisfied if they all fit. */
  lemma {:induction false} LastSingle(slots: seq<Slot>, avail: Available, jobs: seq<Job>, k: nat)
    requires Ready(slots, avail) && DistinctJobs(jobs) && jobs != [] && k < |slots| && AttachedByIndex(slots, jobs)
    requires forall i :: 0 <= i < |jobs| ==> |jobs[i].deviceIDs| == 1
    requires jobs[|jobs|-1].deviceIDs == [slots[k].index] && SingleDemand(slots[k].index, jobs) <= Capacity(slots[k])
    ensures ServeJobs(slots, avail, jobs).lefts[|jobs|-1] == 0
  {
    var n := |jobs| - 1;
    var p, b := ServeJobs(slots, avail, jobs[..n]), jobs[n];
    assert AttachedByIndex(slots, jobs[..n]);
    SinglesUse(slots, avail, jobs[..n], k);
    JobsBooked(slots, avail, jobs[..n]);
    assert SameFrame(slots[k], p.slots[k], jobs[..n]) && Balanced(p.slots[k], p.avail);
    HostsPreserved(slots[k], p.slots[k], |slots[k].units|, b.uuid);
    SlotsSatisfy(p.slots, b.uuid, b.numShares, p.avail, k);
  }

  /**
   * Priority: if the single-device jobs on a slot together ask for no more than its capacity, each of them
   * gets all it asked for, whatever the jobs on several devices ask for.
   */
  lemma {:induction false} Priority(slots: seq<Slot>, avail: Available, jobs: seq<Job>, j: nat, k: nat)
    requires Ready(slots, avail) && DistinctJobs(jobs) && j < |jobs| && k < |slots|
    requires AttachedByIndex(slots, jobs) && SortedByDevices(jobs)
    requires forall i :: 0 <= i < |jobs| ==> jobs[i].deviceIDs != []
    requires jobs[j].deviceIDs == [slots[k].index]
    requires SingleDemand(slots[k].index, jobs) <= Capacity(slots[k])
    ensures ServeJobs(slots, avail, jobs).lefts[j] == 0
    ensures HeldBy(ServeJobs(slots, avail, jobs).slots, jobs[j].uuid) == jobs[j].numShares
  {
    var upto := jobs[..j+1];
    forall i | 0 <= i <= j
      ensures |upto[i].deviceIDs| == 1
    {
      assert |jobs[i].deviceIDs| <= |jobs[j].deviceIDs|;
    }
    assert AttachedByIndex(slots, upto);
    DemandGrows(slots[k].index, jobs, j + 1);
    LastSingle(slots, avail, upto, k);
    LaterJobsDoNotMatter(slots, avail, jobs, j + 1, j);
    JobConserved(slots, avail, jobs, j);
  }
}
