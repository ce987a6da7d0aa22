/** Devices that share an index (pkg/collector/slurm.go). */
module SharedIndices {
  import opened Devices
  import opened GresAllocation
  import opened GresAttachment
  import opened GresGuarantees
  import opened Options

  /* ---- One job on slots that may share indices ---- */

  /** No earlier slot carries the index of slot k. */
  ghost predicate First(slots: seq<Slot>, k: nat)
    requires k < |slots|
  {
    forall i :: 0 <= i < k ==> slots[i].index != slots[k].index
  }

  ghost predicate Last(slots: seq<Slot>, k: nat)
    requires k < |slots|
  {
    forall i :: k < i < |slots| ==> slots[i].index != slots[k].index
  }

  /** The first and the last slot that carry some index. */
  ghost predicate FirstAndLast(slots: seq<Slot>, i: nat, j: nat)
    requires i < |slots| && j < |slots|
  {
    slots[i].index == slots[j].index != "" && First(slots, i) && Last(slots, j)
  }

  predicate Hosting(s: Slot, uuid: string)
  {
    HostsBefore(s, |s.units|, uuid)
  }

  /** Whether a slot hosts the job depends on its index alone. */
  ghost predicate HostingByIndex(slots: seq<Slot>, uuid: string)
  {
    forall i, j :: 0 <= i < |slots| && 0 <= j < |slots| && slots[i].index == slots[j].index ==>
      (Hosting(slots[i], uuid) <==> Hosting(slots[j], uuid))
  }

  /** The first slot with an index is given what its entry loses; no other slot is given anything. */
  ghost predicate FirstTakes(slots: seq<Slot>, k: nat, t: Slot, before: Available, after: Available)
    requires k < |slots|
  {
    if First(slots, k) then t.currentShares + Get(after, t.index) == slots[k].currentShares + Get(before, t.index)
    else t.currentShares == slots[k].currentShares
  }

  ghost predicate Passed(slots: seq<Slot>, r: Pass, uuid: string, before: Available)
    requires |r.slots| == |slots|
  {
    && (forall k :: 0 <= k < |slots| ==>
      r.slots[k].index == slots[k].index && FirstTakes(slots, k, r.slots[k], before, r.avail))
    && Spent(slots, r, uuid)
  }

  /** Where the job sits there is nothing left, unless it wants no more. */
  ghost predicate Spent(slots: seq<Slot>, r: Pass, uuid: string)
  {
    forall k :: 0 <= k < |slots| && Hosting(slots[k], uuid) ==> r.left == 0 || Get(r.avail, slots[k].index) == 0
  }

  /** What the last slot of a row is given. */
  ghost predicate LastGiven(slots: seq<Slot>, p: Pass, r: Pass, uuid: string, given: nat)
    requires slots != [] && |p.slots| == |slots| - 1
  {
    var n := |slots| - 1;
    var x := slots[n].index;
    && given == (if Hosting(slots[n], uuid) then Min(p.left, Get(p.avail, x)) else 0)
    && |r.slots| == |slots| && r.slots[..n] == p.slots
    && r.slots[n].index == x && r.slots[n].currentShares == slots[n].currentShares + given
    && r.left == p.left - given && Get(r.avail, x) == Get(p.avail, x) - given
    && forall k :: k != x ==> Get(r.avail, k) == Get(p.avail, k)
  }

  lemma {:induction false} LastIsGiven(slots: seq<Slot>, uuid: string, left: nat, avail: Available) returns (given: nat)
    requires slots != []
    ensures LastGiven(slots, ServeSlots(slots[..|slots|-1], uuid, left, avail), ServeSlots(slots, uuid, left, avail),
      uuid, given)
  {
    var n := |slots| - 1;
    var p := ServeSlots(slots[..n], uuid, left, avail);
    given := Given(slots[n], |slots[n].units|, uuid, p.left, p.avail);
    UnitsBalance(slots[n], |slots[n].units|, uuid, p.left, p.avail);
  }

  /** A later slot with the same index finds nothing to take. */
  lemma {:induction false} NothingLater(slots: seq<Slot>, p: Pass, r: Pass, uuid: string, before: Available, given: nat)
    requires slots != [] && |p.slots| == |slots| - 1 && LastGiven(slots, p, r, uuid, given)
    requires HostingByIndex(slots, uuid) && Passed(slots[..|slots|-1], p, uuid, before)
    ensures !First(slots, |slots| - 1) ==> given == 0
  {
    var n := |slots| - 1;
    if !First(slots, n) {
      var i :| 0 <= i < n && slots[i].index == slots[n].index;
      assert slots[..n][i] == slots[i];
    }
  }

  lemma {:induction false} TakesStep(slots: seq<Slot>, p: Pass, r: Pass, uuid: string, before: Available, given: nat,
      k: nat)
    requires slots != [] && |p.slots| == |slots| - 1 && LastGiven(slots, p, r, uuid, given)
    requires k < |slots| - 1 && p.slots[k].index == slots[k].index
    requires FirstTakes(slots[..|slots|-1], k, p.slots[k], before, p.avail)
    requires !First(slots, |slots| - 1) ==> given == 0
    ensures r.slots[k] == p.slots[k] && FirstTakes(slots, k, r.slots[k], before, r.avail)
  {
    var n := |slots| - 1;
    assert r.slots[..n][k] == r.slots[k];
    assert slots[..n][k] == slots[k];
    assert First(slots[..n], k) <==> First(slots, k);
  }

  lemma {:induction false} PassedStep(slots: seq<Slot>, p: Pass, r: Pass, uuid: string, before: Available, given: nat)
    requires slots != [] && |p.slots| == |slots| - 1 && LastGiven(slots, p, r, uuid, given)
    requires HostingByIndex(slots, uuid) && Passed(slots[..|slots|-1], p, uuid, before)
    requires First(slots, |slots| - 1) ==> Get(p.avail, slots[|slots|-1].index) == Get(before, slots[|slots|-1].index)
    ensures Passed(slots, r, uuid, before)
  {
    var n := |slots| - 1;
    NothingLater(slots, p, r, uuid, before, given);
    forall k | 0 <= k < |slots|
      ensures r.slots[k].index == slots[k].index && FirstTakes(slots, k, r.slots[k], before, r.avail)
    {
      if k < n {
        TakesStep(slots, p, r, uuid, before, given, k);
      }
    }
    LeftStep(slots, p, r, uuid, given);
  }

  lemma {:induction false} LeftStep(slots: seq<Slot>, p: Pass, r: Pass, uuid: string, given: nat)
    requires slots != [] && |p.slots| == |slots| - 1 && LastGiven(slots, p, r, uuid, given)
    requires Spent(slots[..|slots|-1], p, uuid)
    ensures Spent(slots, r, uuid)
  {
    var n := |slots| - 1;
    forall k | 0 <= k < |slots| && Hosting(slots[k], uuid)
      ensures r.left == 0 || Get(r.avail, slots[k].index) == 0
    {
      if k < n {
        assert slots[..n][k] == slots[k];
      }
    }
  }

  lemma {:induction false} UncarriedKept(slots: seq<Slot>, uuid: string, left: nat, avail: Available, x: string)
    requires forall k :: 0 <= k < |slots| ==> slots[k].index != x
    ensures Get(ServeSlots(slots, uuid, left, avail).avail, x) == Get(avail, x)
  {
    if slots != [] {
      UncarriedKept(slots[..|slots|-1], uuid, left, avail, x);
      var given := LastIsGiven(slots, uuid, left, avail);
    }
  }

  lemma {:induction false} RowPassed(slots: seq<Slot>, uuid: string, left: nat, avail: Available)
    requires HostingByIndex(slots, uuid)
    ensures Passed(slots, ServeSlots(slots, uuid, left, avail), uuid, avail)
  {
    if slots != [] {
      var n := |slots| - 1;
      RowPassed(slots[..n], uuid, left, avail);
      if First(slots, n) {
        UncarriedKept(slots[..n], uuid, left, avail, slots[n].index);
      }
      var given := LastIsGiven(slots, uuid, left, avail);
      PassedStep(slots, ServeSlots(slots[..n], uuid, left, avail), ServeSlots(slots, uuid, left, avail), uuid, avail,
          given);
    }
  }

  /** A job that lists one index takes from its entry what it is given. */
  lemma {:induction false} OneIndexSpends(slots: seq<Slot>, uuid: string, left: nat, avail: Available, x: string)
    requires forall k :: 0 <= k < |slots| && Hosting(slots[k], uuid) ==> slots[k].index == x
    ensures var r := ServeSlots(slots, uuid, left, avail);
      left - r.left == Get(avail, x) - Get(r.avail, x)
  {
    if slots != [] {
      var n := |slots| - 1;
      assert forall k :: 0 <= k < n ==> slots[..n][k] == slots[k];
      OneIndexSpends(slots[..n], uuid, left, avail, x);
      var given := LastIsGiven(slots, uuid, left, avail);
    }
  }

  /* ---- All jobs ---- */

  ghost predicate AllHostingByIndex(slots: seq<Slot>)
  {
    forall uuid :: HostingByIndex(slots, uuid)
  }

  /** First slots hold what their entries lost; the others hold nothing. */
  ghost predicate FirstsHold(slots: seq<Slot>, o: Outcome, avail: Available)
    requires |o.slots| == |slots|
  {
    forall k :: 0 <= k < |slots| ==>
      && o.slots[k].index == slots[k].index
      && if First(slots, k) then o.slots[k].currentShares + Get(o.avail, slots[k].index) == Get(avail, slots[k].index)
         else o.slots[k].currentShares == 0
  }

  lemma {:induction false} HostingKept(slots: seq<Slot>, t: seq<Slot>, jobs: seq<Job>, o: Outcome)
    requires AllHostingByIndex(slots) && Framed(slots, o, jobs) && t == o.slots
    ensures AllHostingByIndex(t)
  {
    forall uuid ensures HostingByIndex(t, uuid) {
      assert HostingByIndex(slots, uuid);
      forall k | 0 <= k < |slots|
        ensures t[k].index == slots[k].index && (Hosting(t[k], uuid) <==> Hosting(slots[k], uuid))
      {
        assert SameFrame(slots[k], o.slots[k], jobs);
        HostsPreserved(slots[k], t[k], |slots[k].units|, uuid);
      }
    }
  }

  lemma {:induction false} HoldStep(slots: seq<Slot>, o: Outcome, r: Pass, next: Outcome, avail: Available,
      uuid: string)
    requires |o.slots| == |r.slots| == |slots| && FirstsHold(slots, o, avail) && Passed(o.slots, r, uuid, o.avail)
    requires next.slots == r.slots && next.avail == r.avail
    ensures FirstsHold(slots, next, avail)
  {
    forall k | 0 <= k < |slots|
      ensures next.slots[k].index == slots[k].index
      ensures if First(slots, k)
        then next.slots[k].currentShares + Get(next.avail, slots[k].index) == Get(avail, slots[k].index)
        else next.slots[k].currentShares == 0
    {
      assert FirstTakes(o.slots, k, r.slots[k], o.avail, r.avail);
      assert First(o.slots, k) <==> First(slots, k);
    }
  }

  lemma {:induction false} JobsHold(slots: seq<Slot>, avail: Available, jobs: seq<Job>)
    requires AllHostingByIndex(slots) && forall k :: 0 <= k < |slots| ==> slots[k].currentShares == 0
    ensures FirstsHold(slots, ServeJobs(slots, avail, jobs), avail)
  {
    if jobs != [] {
      var n := |jobs| - 1;
      var o := ServeJobs(slots, avail, jobs[..n]);
      JobsHold(slots, avail, jobs[..n]);
      JobsFramed(slots, avail, jobs[..n]);
      HostingKept(slots, o.slots, jobs[..n], o);
      assert HostingByIndex(o.slots, jobs[n].uuid);
      RowPassed(o.slots, jobs[n].uuid, jobs[n].numShares, o.avail);
      HoldStep(slots, o, ServeSlots(o.slots, jobs[n].uuid, jobs[n].numShares, o.avail), ServeJobs(slots, avail, jobs),
          avail, jobs[n].uuid);
    }
  }

  /* ---- Scrapes ---- */

  lemma {:induction false} AttachedHosting(slots: seq<Slot>, cgroups: seq<Cgroup>)
    ensures AllHostingByIndex(AttachedSlots(slots, cgroups))
  {
    var t := AttachedSlots(slots, cgroups);
    forall uuid ensures HostingByIndex(t, uuid) {
      forall i, j | 0 <= i < |t| && 0 <= j < |t| && t[i].index == t[j].index
        ensures Hosting(t[i], uuid) <==> Hosting(t[j], uuid)
      {
        assert t[i].units == t[j].units;
        HostsPreserved(t[i], t[j], |t[i].units|, uuid);
      }
    }
  }

  /** The map keeps what the last slot with an index has. */
  lemma {:induction false} LastEntry(slots: seq<Slot>, k: nat)
    requires k < |slots| && Last(slots, k) && slots[k].index != ""
    ensures Get(EnterIndexed(map[], slots), slots[k].index) == slots[k].availableShares
  {
    var n := |slots| - 1;
    if k < n {
      assert slots[n].index != slots[k].index;
      LastEntry(slots[..n], k);
    }
  }

  lemma {:induction false} FindLast(slots: seq<Slot>, x: string, k: nat) returns (j: nat)
    requires k < |slots| && slots[k].index == x
    ensures j < |slots| && slots[j].index == x && Last(slots, j)
    decreases |slots| - k
  {
    if Last(slots, k) {
      j := k;
    } else {
      var i :| k < i < |slots| && slots[i].index == x;
      j := FindLast(slots, x, i);
    }
  }

  /** No slot ends above its shares, whatever jobs there are and in whatever order the sort puts them. */
  ghost predicate NeverOverbooked(devices: seq<Device>)
  {
    forall cgroups, served :: ServingOrder(served, cgroups) ==>
      Within(Shares(devices, cgroups, served), AllSlots(devices))
  }

  ghost predicate Within(o: Outcome, slots: seq<Slot>)
  {
    |o.slots| == |slots| && forall k :: 0 <= k < |slots| ==> o.slots[k].currentShares <= slots[k].availableShares
  }

  /** For every index, the first slot that carries it has the shares of the last one. */
  ghost predicate FirstCoversLast(slots: seq<Slot>)
  {
    forall i, j ::
      0 <= i < |slots| && 0 <= j < |slots| && FirstAndLast(slots, i, j) ==>
      slots[i].availableShares >= slots[j].availableShares
  }

  lemma {:induction false} ScrapeHolds(devices: seq<Device>, cgroups: seq<Cgroup>, served: seq<Job>)
    requires InstancesIndexed(devices)
    ensures var slots := AllSlots(devices);
      FirstsHold(slots, Shares(devices, cgroups, served), EnterIndexed(map[], slots))
  {
    var slots := AllSlots(devices);
    var attached := AttachedSlots(slots, cgroups);
    var o := Shares(devices, cgroups, served);
    AvailableIndexed(devices);
    AttachedHosting(slots, cgroups);
    JobsHold(attached, AvailableOf(devices), served);
    assert forall k :: 0 <= k < |slots| ==> attached[k].index == slots[k].index && attached[k].currentShares == 0;
    forall k | 0 <= k < |slots|
      ensures First(attached, k) <==> First(slots, k)
    {
    }
  }

  lemma {:induction false} CoveredWithin(devices: seq<Device>, cgroups: seq<Cgroup>, served: seq<Job>)
    requires InstancesIndexed(devices) && FirstCoversLast(AllSlots(devices))
    ensures Within(Shares(devices, cgroups, served), AllSlots(devices))
  {
    var slots, o := AllSlots(devices), Shares(devices, cgroups, served);
    ScrapeHolds(devices, cgroups, served);
    NoEmptyEntry(slots);
    forall k | 0 <= k < |slots|
      ensures o.slots[k].currentShares <= slots[k].availableShares
    {
      if First(slots, k) && slots[k].index != "" {
        var j := FindLast(slots, slots[k].index, k);
        LastEntry(slots, j);
        assert FirstAndLast(slots, k, j);
      }
    }
  }

  /** One job that lists the index and asks for the shares of the last slot that carries it. */
  function Claimant(s: Slot): Cgroup
  {
    Cgroup("job", "", Some(GresRequest([s.index], s.availableShares)))
  }

  function Claim(s: Slot): Job
  {
    Job("job", [s.index], s.availableShares)
  }

  lemma {:induction false} ClaimServed(s: Slot)
    ensures ServingOrder([Claim(s)], [Claimant(s)])
  {
    assert [Claimant(s)][..0] == [];
    assert JobsOf([Claimant(s)]) == [Claim(s)];
  }

  lemma {:induction false} ClaimHosted(slots: seq<Slot>, s: Slot, k: nat)
    requires k < |slots|
    ensures Hosting(AttachedSlots(slots, [Claimant(s)])[k], "job") <==> slots[k].index == s.index
  {
    var t := AttachedSlots(slots, [Claimant(s)])[k];
    assert [Claimant(s)][..0] == [] && [s.index][..0] == [];
    UnitsFromFacts(slots[k].index, "job", "", [s.index]);
    AttachedUnitsFacts(slots[k].index, [Claimant(s)], "job");
    HostsPreserved(t, t, |t.units|, "job");
    assert Claimant(s) in [Claimant(s)];
  }

  lemma {:induction false} ClaimTaken(devices: seq<Device>, s: Slot, i: nat)
    requires InstancesIndexed(devices) && i < |AllSlots(devices)| && First(AllSlots(devices), i)
    requires AllSlots(devices)[i].index == s.index && Get(AvailableOf(devices), s.index) == s.availableShares
    ensures var o := Shares(devices, [Claimant(s)], [Claim(s)]);
      i < |o.slots| && o.slots[i].currentShares == s.availableShares
  {
    var slots := AllSlots(devices);
    var attached, avail := AttachedSlots(slots, [Claimant(s)]), AvailableOf(devices);
    forall k | 0 <= k < |slots|
      ensures Hosting(attached[k], "job") <==> attached[k].index == s.index
    {
      ClaimHosted(slots, s, k);
    }
    assert HostingByIndex(attached, "job");
    RowPassed(attached, "job", s.availableShares, avail);
    OneIndexSpends(attached, "job", s.availableShares, avail, s.index);
    var r := ServeSlots(attached, "job", s.availableShares, avail);
    assert FirstTakes(attached, i, r.slots[i], avail, r.avail);
    assert First(attached, i);
    assert [Claim(s)][..0] == [];
    assert ServeJobs(attached, avail, []) == Outcome(attached, [], avail);
    assert Shares(devices, [Claimant(s)], [Claim(s)]).slots == r.slots;
  }

  /** The first slot with an index gets all the shares of the last one, more than it has itself. */
  lemma {:induction false} SharedIndexOverbooks(devices: seq<Device>, i: nat, j: nat)
    requires InstancesIndexed(devices) && i < |AllSlots(devices)| && j < |AllSlots(devices)|
    requires FirstAndLast(AllSlots(devices), i, j)
    ensures var s := AllSlots(devices)[j];
      && ServingOrder([Claim(s)], [Claimant(s)])
      && i < |Shares(devices, [Claimant(s)], [Claim(s)]).slots|
      && Shares(devices, [Claimant(s)], [Claim(s)]).slots[i].currentShares == s.availableShares
  {
    AvailableIndexed(devices);
    LastEntry(AllSlots(devices), j);
    ClaimServed(AllSlots(devices)[j]);
    ClaimTaken(devices, AllSlots(devices)[j], i);
  }

  /**
   * Devices are never overbooked, by any jobs in any order, exactly when for every index the first slot that carries it
   * has at least the shares of the last one.
   */
  lemma {:induction false} OverbooksExactly(devices: seq<Device>)
    requires InstancesIndexed(devices)
    ensures NeverOverbooked(devices) <==> FirstCoversLast(AllSlots(devices))
  {
    var slots := AllSlots(devices);
    if FirstCoversLast(slots) {
      forall cgroups, served | ServingOrder(served, cgroups)
        ensures Within(Shares(devices, cgroups, served), slots)
      {
        CoveredWithin(devices, cgroups, served);
      }
    } else {
      var i, j :| 0 <= i < |slots| && 0 <= j < |slots| && FirstAndLast(slots, i, j)
        && slots[i].availableShares < slots[j].availableShares;
      SharedIndexOverbooks(devices, i, j);
      assert !Within(Shares(devices, [Claimant(slots[j])], [Claim(slots[j])]), slots);
    }
  }
}
